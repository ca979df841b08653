/** Searching text for markers, and the partial markers at its end. */
module Text {
  import opened Wrappers

  predicate OccursAt(text: string, i: nat, marker: string) {
    i + |marker| <= |text| && text[i..i + |marker|] == marker
  }

  predicate StartsWith(text: string, marker: string) {
    OccursAt(text, 0, marker)
  }

  /** Some non-empty marker occurs at `i`. */
  predicate MarkerAt(text: string, markers: seq<string>, i: nat) {
    exists k :: 0 <= k < |markers| && markers[k] != "" && OccursAt(text, i, markers[k])
  }

  /** The first place, from `i` on, where some non-empty marker occurs. */
  function FirstMarker(text: string, markers: seq<string>, i: nat): (r: Option<nat>)
    ensures r.Some? ==> i <= r.value < |text|
    decreases |text| - i
  {
    if i >= |text| then None
    else if MarkerAt(text, markers, i) then Some(i)
    else FirstMarker(text, markers, i + 1)
  }

  /** `r` is the first place, from `i` on, where some non-empty marker occurs. */
  ghost predicate IsFirst(text: string, markers: seq<string>, i: nat, r: Option<nat>) {
    && (r.None? ==> forall j: nat :: i <= j ==> !MarkerAt(text, markers, j))
    && (r.Some? ==> i <= r.value < |text| && MarkerAt(text, markers, r.value))
    && (r.Some? ==> forall j: nat :: i <= j < r.value ==> !MarkerAt(text, markers, j))
  }

  lemma {:induction false} FirstMarkerIsFirst(text: string, markers: seq<string>, i: nat)
    ensures IsFirst(text, markers, i, FirstMarker(text, markers, i))
    decreases |text| - i
  {
    if i < |text| && !MarkerAt(text, markers, i) {
      FirstMarkerIsFirst(text, markers, i + 1);
    }
  }

  lemma FirstIsUnique(text: string, markers: seq<string>, i: nat, r: Option<nat>)
    requires IsFirst(text, markers, i, r)
    ensures r == FirstMarker(text, markers, i)
  {
    FirstMarkerIsFirst(text, markers, i);
  }

  /** Python's `text.find(marker)`, searching from `i`. */
  function Find(text: string, marker: string, i: nat): (r: Option<nat>)
    ensures r.None? ==> forall j :: i <= j ==> !OccursAt(text, j, marker)
    ensures r.Some? ==> i <= r.value && OccursAt(text, r.value, marker)
    ensures r.Some? ==> forall j :: i <= j < r.value ==> !OccursAt(text, j, marker)
    decreases |text| - i
  {
    if OccursAt(text, i, marker) then Some(i)
    else if i >= |text| then None
    else Find(text, marker, i + 1)
  }

  /** The first place over one more marker. */
  lemma AddMarker(text: string, markers: seq<string>, m: string, first: Option<nat>, found: Option<nat>)
    requires IsFirst(text, markers, 0, first)
    requires found == if m == "" then None else Find(text, m, 0)
    ensures IsFirst(text, markers + [m], 0,
                    if found.Some? && (first.None? || found.value < first.value) then found else first)
  {
    var more := markers + [m];
    forall j: nat ensures MarkerAt(text, more, j) <==> MarkerAt(text, markers, j) || (m != "" && OccursAt(text, j, m)) {
      assert forall k :: 0 <= k < |markers| ==> more[k] == markers[k];
      assert more[|markers|] == m;
    }
  }

  // ---------------------------------------------------------------- partial markers

  /** The last `n` characters of `text` are a proper prefix of some marker. */
  predicate EndsInPartial(text: string, markers: seq<string>, n: nat) {
    n <= |text| && exists k :: 0 <= k < |markers| && n < |markers[k]| && text[|text| - n..] == markers[k][..n]
  }

  function LongestPartial(text: string, markers: seq<string>, n: nat): (r: nat)
    requires n <= |text|
    ensures r <= n && (r > 0 ==> EndsInPartial(text, markers, r))
    ensures forall k :: r < k <= n ==> !EndsInPartial(text, markers, k)
  {
    if n == 0 || EndsInPartial(text, markers, n) then n else LongestPartial(text, markers, n - 1)
  }

  /** How much of the end of `text` to hold back: its longest suffix that is a proper prefix of a marker. */
  function Held(text: string, markers: seq<string>): (r: nat)
    ensures r <= |text| && (r > 0 ==> EndsInPartial(text, markers, r))
    ensures forall k :: r < k <= |text| ==> !EndsInPartial(text, markers, k)
  {
    LongestPartial(text, markers, |text|)
  }

  /** Whatever bounds the held suffix from both sides is its length. */
  lemma HeldIs(text: string, markers: seq<string>, n: nat)
    requires n <= |text| && (n > 0 ==> EndsInPartial(text, markers, n))
    requires forall k :: n < k <= |text| ==> !EndsInPartial(text, markers, k)
    ensures n == Held(text, markers)
  {
  }

  /** A marker may still complete at `i`: what follows `i` is a proper prefix of it. */
  predicate Pending(text: string, markers: seq<string>, i: nat) {
    i <= |text| && EndsInPartial(text, markers, |text| - i)
  }

  /** Marker `b` occurs inside `a`, after its start and ending before its end. */
  predicate InsideAt(a: string, b: string, o: nat) {
    0 < o && b != "" && o + |b| < |a| && OccursAt(a, o, b)
  }

  // ---------------------------------------------------------------- growing text

  lemma SliceOfSlice(text: string, i: nat, n: nat, p: nat, k: nat)
    requires i + n <= |text| && p + k <= n
    ensures text[i..i + n][p..p + k] == text[i + p..i + p + k]
  {
    var s := text[i..i + n];
    var a, b := s[p..p + k], text[i + p..i + p + k];
    forall x | 0 <= x < k ensures a[x] == b[x] {
      assert s[p + x] == text[i + (p + x)];
    }
  }

  lemma OccursInPrefix(text: string, more: string, i: nat, marker: string)
    ensures OccursAt(text, i, marker) ==> OccursAt(text + more, i, marker)
    ensures OccursAt(text + more, i, marker) && i + |marker| <= |text| ==> OccursAt(text, i, marker)
  {
    if i + |marker| <= |text| {
      assert (text + more)[i..i + |marker|] == text[i..i + |marker|];
    }
  }

  lemma OccursInSuffix(before: string, text: string, i: nat, marker: string)
    ensures OccursAt(before + text, |before| + i, marker) <==> OccursAt(text, i, marker)
  {
    if i + |marker| <= |text| {
      assert (before + text)[|before| + i..|before| + i + |marker|] == text[i..i + |marker|];
    }
  }

  /** A marker that occurs only once the text has grown was pending before. */
  lemma CompletedWasPending(text: string, more: string, markers: seq<string>, i: nat)
    requires i <= |text| && MarkerAt(text + more, markers, i) && !MarkerAt(text, markers, i)
    ensures Pending(text, markers, i)
  {
    var k :| 0 <= k < |markers| && markers[k] != "" && OccursAt(text + more, i, markers[k]);
    var m := markers[k];
    OccursInPrefix(text, more, i, m);
    assert text[i..] == (text + more)[i..i + |m|][..|text| - i];
  }

  /** What is pending after the text has grown was pending before. */
  lemma PendingWasPending(text: string, more: string, markers: seq<string>, i: nat)
    requires i <= |text| && Pending(text + more, markers, i)
    ensures Pending(text, markers, i)
  {
    var all := text + more;
    var k :| 0 <= k < |markers| && |all| - i < |markers[k]| && all[i..] == markers[k][..|all| - i];
    assert text[i..] == all[i..][..|text| - i] == markers[k][..|text| - i];
  }

  /** Pending places in the tail of a text are those of the tail. */
  lemma PendingInTail(before: string, tail: string, markers: seq<string>, i: nat)
    requires i <= |tail|
    ensures Pending(before + tail, markers, |before| + i) <==> Pending(tail, markers, i)
  {
    assert (before + tail)[|before| + i..] == tail[i..];
  }

  lemma MarkerInTail(before: string, tail: string, markers: seq<string>, i: nat)
    ensures MarkerAt(before + tail, markers, |before| + i) <==> MarkerAt(tail, markers, i)
  {
    forall k | 0 <= k < |markers|
      ensures OccursAt(before + tail, |before| + i, markers[k]) <==> OccursAt(tail, i, markers[k])
    {
      OccursInSuffix(before, tail, i, markers[k]);
    }
  }

  lemma {:induction false} FirstMarkerInTail(before: string, tail: string, markers: seq<string>, i: nat)
    ensures var r := FirstMarker(tail, markers, i);
            FirstMarker(before + tail, markers, |before| + i) == if r.Some? then Some(|before| + r.value) else None
    decreases |tail| - i
  {
    MarkerInTail(before, tail, markers, i);
    if i < |tail| && !MarkerAt(tail, markers, i) {
      FirstMarkerInTail(before, tail, markers, i + 1);
    }
  }

  lemma {:induction false} FirstMarkerFrom(text: string, markers: seq<string>, i: nat, n: nat)
    requires i <= n <= |text| && forall k: nat | i <= k < n :: !MarkerAt(text, markers, k)
    ensures FirstMarker(text, markers, i) == FirstMarker(text, markers, n)
    decreases n - i
  {
    if i < n {
      FirstMarkerFrom(text, markers, i + 1, n);
    }
  }

  // ---------------------------------------------------------------- white space

  /** Python's `isspace()` for one character. */
  predicate IsSpace(c: char) {
    || '\t' <= c <= '\r' || '\U{1C}' <= c <= ' ' || c == '\U{85}' || c == '\U{A0}' || c == '\U{1680}'
    || '\U{2000}' <= c <= '\U{200A}' || c == '\U{2028}' || c == '\U{2029}' || c == '\U{202F}' || c == '\U{205F}'
    || c == '\U{3000}'
  }

  /** Every white space character there is. */
  const WHITE_SPACE := "\t\n\U{0B}\U{0C}\r\U{1C}\U{1D}\U{1E}\U{1F} \U{85}\U{A0}\U{1680}" +
    "\U{2000}\U{2001}\U{2002}\U{2003}\U{2004}\U{2005}\U{2006}\U{2007}\U{2008}\U{2009}\U{200A}" +
    "\U{2028}\U{2029}\U{202F}\U{205F}\U{3000}"

  lemma WhiteSpaceIs(c: char)
    ensures IsSpace(c) <==> c in WHITE_SPACE
  {
  }

  /** Python's `lstrip()`. */
  function LStrip(text: string): (r: string)
    ensures r == "" || !IsSpace(r[0])
    ensures |r| <= |text|
  {
    if text != "" && IsSpace(text[0]) then LStrip(text[1..]) else text
  }

  /** What goes is white space at the start, and nothing else. */
  lemma {:induction false} LStripIs(text: string)
    ensures var n := |text| - |LStrip(text)|;
            LStrip(text) == text[n..] && forall i :: 0 <= i < n ==> IsSpace(text[i])
  {
    if text != "" && IsSpace(text[0]) {
      LStripIs(text[1..]);
      assert forall i :: 1 <= i < |text| ==> text[i] == text[1..][i - 1];
    }
  }

  lemma {:induction false} LStripAppend(text: string, more: string)
    ensures LStrip(text) != "" ==> LStrip(text + more) == LStrip(text) + more
    ensures LStrip(text) == "" ==> LStrip(text + more) == LStrip(more)
  {
    if text == "" {
      assert text + more == more;
    } else {
      assert (text + more)[1..] == text[1..] + more;
      LStripAppend(text[1..], more);
    }
  }

  lemma LStripKeeps(text: string)
    ensures LStrip(text) == text <==> text == "" || !IsSpace(text[0])
  {
    if text != "" && IsSpace(text[0]) {
      assert |LStrip(text)| <= |text[1..]| < |text|;
    }
  }

  /** Python's `rstrip()`. */
  function RStrip(text: string): (r: string)
    ensures |r| <= |text| && r == text[..|r|]
    ensures forall i :: |r| <= i < |text| ==> IsSpace(text[i])
    ensures r == "" || !IsSpace(r[|r| - 1])
  {
    if text != "" && IsSpace(text[|text| - 1]) then RStrip(text[..|text| - 1]) else text
  }

  /** Python's `strip()`. */
  function Strip(text: string): string {
    RStrip(LStrip(text))
  }

  lemma RStripKeeps(text: string)
    ensures RStrip(text) == text <==> text == "" || !IsSpace(text[|text| - 1])
    ensures text != "" && !IsSpace(text[0]) ==> RStrip(text) != "" && RStrip(text)[0] == text[0]
  {
  }

  /** Nothing is left exactly when every character is white space. */
  lemma StripIsBlankIff(text: string)
    ensures Strip(text) == "" <==> forall i :: 0 <= i < |text| ==> IsSpace(text[i])
  {
    LStripIs(text);
    RStripKeeps(LStrip(text));
  }

  ghost predicate AllSpace(text: string) {
    forall i :: 0 <= i < |text| ==> IsSpace(text[i])
  }

  /** Stripping leaves what is between the white space at both ends. */
  lemma StripBetween(before: string, text: string, after: string)
    requires AllSpace(before) && AllSpace(after)
    requires text != "" && !IsSpace(text[0]) && !IsSpace(text[|text| - 1])
    ensures Strip(before + text + after) == text
  {
    var all := before + text + after;
    LStripIs(all);
    var n := |all| - |LStrip(all)|;
    assert all[|before|] == text[0];
    assert forall i :: 0 <= i < |before| ==> all[i] == before[i];
    assert n == |before| && all[n..] == text + after;
    var rest := text + after;
    assert rest[|text| - 1] == text[|text| - 1];
    assert forall i :: |text| <= i < |rest| ==> rest[i] == after[i - |text|];
    assert |RStrip(rest)| == |text| && rest[..|text|] == text;
  }

  /** A text is what stripping leaves, with white space around it. */
  lemma StripLeaves(text: string) returns (before: string, after: string)
    ensures AllSpace(before) && AllSpace(after) && text == before + Strip(text) + after
  {
    var rest := LStrip(text);
    before := LStripLeaves(text);
    after := RStripLeaves(rest);
    Regroup(before, RStrip(rest), after);
  }

  lemma LStripLeaves(text: string) returns (before: string)
    ensures AllSpace(before) && text == before + LStrip(text)
  {
    LStripIs(text);
    before := text[..|text| - |LStrip(text)|];
  }

  lemma RStripLeaves(text: string) returns (after: string)
    ensures AllSpace(after) && text == RStrip(text) + after
  {
    after := text[|RStrip(text)|..];
  }

  lemma Regroup(a: string, b: string, c: string)
    ensures a + (b + c) == a + b + c
  {
  }

  /** Python's `lower()`, for the letters A to Z. */
  function Lower(text: string): string {
    seq(|text|, i requires 0 <= i < |text| => if 'A' <= text[i] <= 'Z' then text[i] - 'A' + 'a' else text[i])
  }

  // ---------------------------------------------------------------- pieces

  function Join(pieces: seq<string>): string {
    if pieces == [] then "" else Join(pieces[..|pieces| - 1]) + pieces[|pieces| - 1]
  }

  lemma JoinSnoc(pieces: seq<string>, piece: string)
    ensures Join(pieces + [piece]) == Join(pieces) + piece
  {
    assert (pieces + [piece])[..|pieces|] == pieces;
  }

  lemma JoinOne(piece: string)
    ensures Join([piece]) == piece
  {
    var all := [piece];
    assert all[..|all| - 1] == [];
    assert "" + piece == piece;
  }
}
