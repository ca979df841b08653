/** Sorting a list of numbers, as the callers of Python's sorted() rely on it. */
module Ordering {

  ghost predicate Ascending(s: seq<int>) {
    forall i, j :: 0 <= i < j < |s| ==> s[i] <= s[j]
  }

  ghost predicate Increasing(s: seq<int>) {
    forall i, j :: 0 <= i < j < |s| ==> s[i] < s[j]
  }

  ghost predicate Distinct(s: seq<int>) {
    forall i, j :: 0 <= i < j < |s| ==> s[i] != s[j]
  }

  function Insert(x: int, s: seq<int>): seq<int> {
    if s == [] || x <= s[0] then [x] + s else [s[0]] + Insert(x, s[1..])
  }

  function Sort(s: seq<int>): seq<int> {
    if s == [] then [] else Insert(s[0], Sort(s[1..]))
  }

  lemma {:induction false} InsertKeeps(x: int, s: seq<int>)
    requires Ascending(s)
    ensures Ascending(Insert(x, s)) && |Insert(x, s)| == |s| + 1
    ensures forall y :: y in Insert(x, s) <==> y == x || y in s
    ensures Distinct(s) && x !in s ==> Distinct(Insert(x, s))
  {
    if s == [] || x <= s[0] {
    } else {
      InsertKeeps(x, s[1..]);
      InsertBehind(x, s, Insert(x, s[1..]));
    }
  }

  lemma InsertBehind(x: int, s: seq<int>, rest: seq<int>)
    requires s != [] && Ascending(s) && s[0] < x && Ascending(rest) && |rest| == |s|
    requires forall y :: y in rest <==> y == x || y in s[1..]
    requires Distinct(s[1..]) && x !in s[1..] ==> Distinct(rest)
    ensures Ascending([s[0]] + rest)
    ensures forall y :: y in [s[0]] + rest <==> y == x || y in s
    ensures Distinct(s) && x !in s ==> Distinct([s[0]] + rest)
  {
    forall j | 0 <= j < |rest|
      ensures s[0] <= rest[j] && (Distinct(s) ==> s[0] != rest[j])
    {
      assert rest[j] in rest;
    }
  }

  lemma HeadAndRest(s: seq<int>)
    requires s != []
    ensures forall y :: y in s <==> y == s[0] || y in s[1..]
    ensures Distinct(s) ==> Distinct(s[1..]) && s[0] !in s[1..]
  {
    assert s == [s[0]] + s[1..];
  }

  /** Sorting keeps the elements, in ascending order; distinct elements stay distinct. */
  lemma {:induction false} SortAscends(s: seq<int>)
    ensures Ascending(Sort(s)) && |Sort(s)| == |s|
    ensures forall y :: y in Sort(s) <==> y in s
    ensures Distinct(s) ==> Distinct(Sort(s))
  {
    if s != [] {
      SortAscends(s[1..]);
      InsertKeeps(s[0], Sort(s[1..]));
      HeadAndRest(s);
    }
  }

  /** Sorting keeps the elements, and distinct elements come out strictly increasing. */
  lemma SortKeeps(s: seq<int>)
    ensures Ascending(Sort(s)) && |Sort(s)| == |s|
    ensures forall y :: y in Sort(s) <==> y in s
    ensures Distinct(s) ==> Increasing(Sort(s))
  {
    SortAscends(s);
  }
}
