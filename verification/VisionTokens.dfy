/**
 Compression of visual tokens: which positions of a sequence are kept, how many, and
 where merged rows go.  What a token holds is not modelled; whatever ranks the groups
 by detail is an arbitrary order.  Ratios are exact reals.
 */
module VisionTokens {
  import opened Wrappers
  import opened Ordering
  import Text

  // ---------------------------------------------------------------- how many tokens to keep

  function Ceil(x: real): int {
    -((-x).Floor)
  }

  /** The integer quotient, rounded up. */
  function CeilDivide(n: nat, width: nat): nat
    requires width >= 1
  {
    if n % width == 0 then n / width else n / width + 1
  }

  lemma CeilDivideIsLeast(n: nat, width: nat, q: nat)
    requires width >= 1
    ensures CeilDivide(n, width) * width >= n
    ensures q * width >= n ==> q >= CeilDivide(n, width)
  {
    var c := CeilDivide(n, width);
    assert n == n / width * width + n % width;
    assert c * width >= n && (c - 1) * width < n by {
      assert (n / width + 1) * width == n / width * width + width;
      assert (n / width - 1) * width == n / width * width - width;
    }
    if q < c {
      Multiply(q, c - 1, width);
    }
  }

  lemma Multiply(a: int, b: int, width: nat)
    requires a <= b
    ensures a * width <= b * width
  {
  }

  /** At least one token, and at least the ratio asked for. */
  ghost predicate Covers(n: int, wanted: real) {
    n >= 1 && n as real >= wanted
  }

  ghost predicate WholeBuckets(n: int, bucket: int) {
    bucket <= 1 || exists k: nat :: n == k * bucket
  }

  function Wanted(x: real): int {
    Max(1, Ceil(x))
  }

  function Bucketed(wanted: nat, bucket: int): int {
    if bucket > 1 then CeilDivide(wanted, bucket) * bucket else wanted
  }

  /** The target for `count` tokens of which `wanted`, the count times the ratio, are asked for. */
  function Target(count: nat, wanted: real, bucket: int): int {
    Min(count, Bucketed(Wanted(wanted), bucket))
  }

  function BucketTokenTarget(visualCount: int, ratio: real, bucket: int): int {
    if visualCount <= 0 then 0 else Target(visualCount, visualCount as real * ratio, bucket)
  }

  lemma BucketedIsLeast(wanted: nat, bucket: int, m: int)
    ensures Bucketed(wanted, bucket) >= wanted && WholeBuckets(Bucketed(wanted, bucket), bucket)
    ensures WholeBuckets(m, bucket) && m >= wanted ==> m >= Bucketed(wanted, bucket)
  {
    if bucket > 1 {
      var k := CeilDivide(wanted, bucket);
      CeilDivideIsLeast(wanted, bucket, 0);
      assert Bucketed(wanted, bucket) == k * bucket;
      if WholeBuckets(m, bucket) && m >= wanted {
        var q: nat :| m == q * bucket;
        CeilDivideIsLeast(wanted, bucket, q);
        Multiply(k, q, bucket);
      }
    }
  }

  /**
   The target is the least number of tokens, in whole buckets, that covers the ratio asked for and is not
   zero; or all the tokens, when there are fewer than that.
   */
  ghost predicate IsLeastCovering(target: int, count: nat, wanted: real, bucket: int, m: int) {
    && 1 <= target <= count
    && (target == count || IsEnough(target, wanted, bucket))
    && (IsEnough(m, wanted, bucket) ==> target <= m)
  }

  lemma TargetIsLeastCovering(count: nat, wanted: real, bucket: int, m: int)
    requires count > 0
    ensures IsLeastCovering(Target(count, wanted, bucket), count, wanted, bucket, m)
  {
    LeastEnough(wanted, bucket, m);
  }

  /** The same for a count and a ratio. */
  lemma TokenTargetIsLeastCovering(count: nat, ratio: real, bucket: int, m: int)
    ensures if count == 0 then BucketTokenTarget(count, ratio, bucket) == 0
            else IsLeastCovering(BucketTokenTarget(count, ratio, bucket), count, count as real * ratio, bucket, m)
  {
    if count > 0 {
      TargetIsLeastCovering(count, count as real * ratio, bucket, m);
    }
  }

  ghost predicate IsEnough(n: int, wanted: real, bucket: int) {
    Covers(n, wanted) && WholeBuckets(n, bucket)
  }

  lemma LeastEnough(x: real, bucket: int, m: int)
    ensures IsEnough(Bucketed(Wanted(x), bucket), x, bucket)
    ensures IsEnough(m, x, bucket) ==> Bucketed(Wanted(x), bucket) <= m
  {
    BucketedIsLeast(Wanted(x), bucket, m);
  }

  // ---------------------------------------------------------------- cells

  /** The square of `f` is at least `y`. */
  predicate SquareCovers(f: nat, y: real) {
    (f * f) as real >= y
  }

  /** At most this many sides from `f` on have a square below `y`. */
  function SidesLeft(y: real, f: nat): nat {
    Max(0, Ceil(y) - f)
  }

  lemma OneSideLess(y: real, f: nat)
    requires !SquareCovers(f, y)
    ensures SidesLeft(y, f + 1) < SidesLeft(y, f)
  {
    assert f <= f * f;
  }

  /** The least integer, from `f` on, whose square is at least `y`. */
  function CeilSqrt(y: real, f: nat): nat
    decreases SidesLeft(y, f)
  {
    if SquareCovers(f, y) then f
    else
      OneSideLess(y, f);
      CeilSqrt(y, f + 1)
  }

  lemma {:induction false} CeilSqrtIsLeast(y: real, f: nat, g: nat)
    ensures CeilSqrt(y, f) >= f && SquareCovers(CeilSqrt(y, f), y)
    ensures f <= g < CeilSqrt(y, f) ==> !SquareCovers(g, y)
    decreases SidesLeft(y, f)
  {
    if !SquareCovers(f, y) {
      OneSideLess(y, f);
      CeilSqrtIsLeast(y, f + 1, g);
    }
  }

  datatype RatioError = RatioOutOfRange

  function SpatialGroupFactor(ratio: real): Result<nat, RatioError> {
    if !(0.0 < ratio <= 1.0) then Failure(RatioOutOfRange) else Success(Max(1, CeilSqrt(1.0 / ratio, 0)))
  }

  /** The side of the least square cell that, reduced to one token, keeps no more than the ratio of its tokens. */
  lemma FactorIsLeastCell(ratio: real, g: nat)
    ensures SpatialGroupFactor(ratio).Success? <==> 0.0 < ratio <= 1.0
    ensures 0.0 < ratio <= 1.0 ==>
      var f := SpatialGroupFactor(ratio).value;
      && f >= 1
      && (f * f) as real * ratio >= 1.0
      && ((g * g) as real * ratio >= 1.0 ==> g >= f)
  {
    if 0.0 < ratio <= 1.0 {
      var y := 1.0 / ratio;
      CeilSqrtIsLeast(y, 0, g);
      AtLeastReciprocal((CeilSqrt(y, 0) * CeilSqrt(y, 0)) as real, ratio);
      AtLeastReciprocal((g * g) as real, ratio);
      AtLeastReciprocal(0.0, ratio);
    }
  }

  lemma AtLeastReciprocal(x: real, ratio: real)
    requires ratio > 0.0
    ensures x >= 1.0 / ratio <==> x * ratio >= 1.0
  {
    var y := 1.0 / ratio;
    assert y * ratio == 1.0;
    if x >= y {
      MultiplyReal(y, x, ratio);
    } else {
      Shorter(x, y, ratio);
    }
  }

  lemma MultiplyReal(a: real, b: real, c: real)
    requires a <= b && c >= 0.0
    ensures a * c <= b * c
  {
  }

  lemma Shorter(a: real, b: real, c: real)
    requires a < b && c > 0.0
    ensures a * c < b * c
  {
  }

  // ---------------------------------------------------------------- runs of adjacent tokens

  /** The number of gaps before the index at `i`. */
  function SegmentAt(indices: seq<int>, i: nat): nat
    requires i < |indices|
  {
    if i == 0 then 0 else SegmentAt(indices, i - 1) + if indices[i] == indices[i - 1] + 1 then 0 else 1
  }

  /** The list gives the first `k` indices the numbers of gaps before them. */
  ghost predicate AreSegments(segments: seq<nat>, indices: seq<int>, k: nat)
    requires k <= |indices|
  {
    |segments| == k && forall i :: 0 <= i < k ==> segments[i] == SegmentAt(indices, i)
  }

  lemma OneMoreSegment(segments: seq<nat>, indices: seq<int>, k: nat)
    requires k < |indices| && AreSegments(segments, indices, k)
    ensures AreSegments(segments + [SegmentAt(indices, k)], indices, k + 1)
  {
  }

  method ContiguousSegments(indices: seq<int>) returns (segments: seq<nat>)
    ensures AreSegments(segments, indices, |indices|)
    ensures indices != [] ==> segments[0] == 0
    ensures forall i :: 0 < i < |indices| ==> segments[i - 1] <= segments[i] <= segments[i - 1] + 1
  {
    segments := [];
    var segment := 0;
    var previous: Option<int> := None;
    for k := 0 to |indices|
      invariant AreSegments(segments, indices, k)
      invariant k == 0 ==> previous.None? && segment == 0
      invariant k > 0 ==> previous == Some(indices[k - 1]) && segment == SegmentAt(indices, k - 1)
    {
      if previous.Some? && indices[k] != previous.value + 1 {
        segment := segment + 1;
      }
      OneMoreSegment(segments, indices, k);
      segments := segments + [segment];
      previous := Some(indices[k]);
    }
  }

  /** Two tokens are in one segment exactly when no index between them is missing. */
  lemma {:induction false} SameSegmentIffAdjacent(indices: seq<int>, i: nat, j: nat)
    requires Increasing(indices) && i <= j < |indices|
    ensures SegmentAt(indices, i) <= SegmentAt(indices, j) && indices[j] - indices[i] >= j - i
    ensures SegmentAt(indices, i) == SegmentAt(indices, j) <==> indices[j] - indices[i] == j - i
    decreases j - i
  {
    if i < j {
      SameSegmentIffAdjacent(indices, i, j - 1);
    }
  }

  // ---------------------------------------------------------------- grouping tokens by cell

  datatype Key = Key(segment: int, time: int, height: int, width: int)

  type Groups = seq<seq<int>>

  /** No group is empty, and a group lists some of the first `n` positions in order. */
  ghost predicate Shaped(groups: Groups, n: nat) {
    forall g :: 0 <= g < |groups| ==> groups[g] != [] && IsPositions(groups[g], n)
  }

  ghost predicate IsPositions(group: seq<int>, n: nat) {
    Increasing(group) && forall a :: 0 <= a < |group| ==> 0 <= group[a] < n
  }

  /** Groups come in the order of their first positions. */
  ghost predicate FirstsIncrease(groups: Groups)
    requires forall g :: 0 <= g < |groups| ==> groups[g] != []
  {
    forall g, h :: 0 <= g < h < |groups| ==> groups[g][0] < groups[h][0]
  }

  /** Every position of a group has the group's key, and no two groups have the same. */
  ghost predicate Labelled(groups: Groups, labels: seq<Key>, keys: seq<Key>)
    requires Shaped(groups, |keys|)
  {
    && |labels| == |groups|
    && (forall g :: 0 <= g < |groups| ==> HasLabel(groups[g], labels[g], keys))
    && (forall g, h :: 0 <= g < h < |labels| ==> labels[g] != labels[h])
  }

  ghost predicate HasLabel(group: seq<int>, key: Key, keys: seq<Key>)
    requires IsPositions(group, |keys|)
  {
    forall a :: 0 <= a < |group| ==> keys[group[a]] == key
  }

  ghost predicate InSome(groups: Groups, i: int) {
    exists g :: 0 <= g < |groups| && i in groups[g]
  }

  ghost predicate CoversAll(groups: Groups, n: nat) {
    forall i :: 0 <= i < n ==> InSome(groups, i)
  }

  function TotalSize(groups: Groups): nat {
    if groups == [] then 0 else TotalSize(groups[..|groups| - 1]) + |groups[|groups| - 1]|
  }

  /** The groups partition the positions, by key. */
  ghost predicate IsGrouping(groups: Groups, labels: seq<Key>, keys: seq<Key>) {
    && Shaped(groups, |keys|) && FirstsIncrease(groups)
    && Labelled(groups, labels, keys)
    && IsPartition(groups, |keys|)
  }

  ghost predicate IsPartition(groups: Groups, n: nat) {
    CoversAll(groups, n) && TotalSize(groups) == n
  }

  lemma {:induction false} TotalAfterAppend(groups: Groups, g: nat, i: int)
    requires g < |groups|
    ensures TotalSize(groups[g := groups[g] + [i]]) == TotalSize(groups) + 1
  {
    var n := |groups| - 1;
    if g == n {
      assert groups[g := groups[g] + [i]][..n] == groups[..n];
    } else {
      assert groups[g := groups[g] + [i]][..n] == groups[..n][g := groups[..n][g] + [i]];
      TotalAfterAppend(groups[..n], g, i);
    }
  }

  lemma JoinGroup(groups: Groups, labels: seq<Key>, keys: seq<Key>, g: nat, key: Key)
    requires IsGrouping(groups, labels, keys) && g < |groups| && labels[g] == key
    ensures IsGrouping(groups[g := groups[g] + [|keys|]], labels, keys + [key])
  {
    TotalAfterAppend(groups, g, |keys|);
    JoinCovers(groups, g, |keys|);
    JoinShaped(groups, g, |keys|);
    JoinLabelled(groups, labels, keys, g, key);
  }

  lemma JoinShaped(groups: Groups, g: nat, n: nat)
    requires Shaped(groups, n) && FirstsIncrease(groups) && g < |groups|
    ensures Shaped(groups[g := groups[g] + [n]], n + 1)
    ensures FirstsIncrease(groups[g := groups[g] + [n]])
  {
    var after := groups[g := groups[g] + [n]];
    forall h | 0 <= h < |after|
      ensures after[h] != [] && IsPositions(after[h], n + 1) && after[h][0] == groups[h][0]
    {
      assert IsPositions(groups[h], n);
    }
  }

  lemma JoinLabelled(groups: Groups, labels: seq<Key>, keys: seq<Key>, g: nat, key: Key)
    requires Shaped(groups, |keys|) && Labelled(groups, labels, keys) && g < |groups| && labels[g] == key
    requires Shaped(groups[g := groups[g] + [|keys|]], |keys| + 1)
    ensures Labelled(groups[g := groups[g] + [|keys|]], labels, keys + [key])
  {
    var after := groups[g := groups[g] + [|keys|]];
    forall h | 0 <= h < |after|
      ensures HasLabel(after[h], labels[h], keys + [key])
    {
      assert HasLabel(groups[h], labels[h], keys);
    }
  }

  lemma JoinCovers(groups: Groups, g: nat, n: nat)
    requires CoversAll(groups, n) && g < |groups|
    ensures CoversAll(groups[g := groups[g] + [n]], n + 1)
  {
    var after := groups[g := groups[g] + [n]];
    forall i | 0 <= i < n + 1
      ensures InSome(after, i)
    {
      if i == n {
        assert after[g][|groups[g]|] == n;
        assert i in after[g];
      } else {
        assert InSome(groups, i);
        var h :| 0 <= h < |groups| && i in groups[h];
        assert i in after[h];
      }
    }
  }

  lemma NewGroup(groups: Groups, labels: seq<Key>, keys: seq<Key>, key: Key)
    requires IsGrouping(groups, labels, keys) && key !in labels
    ensures IsGrouping(groups + [[|keys|]], labels + [key], keys + [key])
  {
    var n := |keys|;
    var after := groups + [[n]];
    assert after[..|groups|] == groups;
    NewCovers(groups, n);
    NewShaped(groups, n);
    forall h | 0 <= h < |after|
      ensures HasLabel(after[h], (labels + [key])[h], keys + [key])
    {
      if h < |groups| {
        assert HasLabel(groups[h], labels[h], keys);
      }
    }
  }

  lemma NewShaped(groups: Groups, n: nat)
    requires Shaped(groups, n) && FirstsIncrease(groups)
    ensures Shaped(groups + [[n]], n + 1)
    ensures FirstsIncrease(groups + [[n]])
  {
    var after := groups + [[n]];
    forall h | 0 <= h < |after|
      ensures after[h] != [] && IsPositions(after[h], n + 1)
    {
      if h < |groups| {
        assert IsPositions(groups[h], n);
      }
    }
  }

  lemma NewCovers(groups: Groups, n: nat)
    requires CoversAll(groups, n)
    ensures CoversAll(groups + [[n]], n + 1)
  {
    var after := groups + [[n]];
    forall i | 0 <= i < n + 1
      ensures InSome(after, i)
    {
      if i == n {
        assert i in after[|groups|];
      } else {
        assert InSome(groups, i);
        var h :| 0 <= h < |groups| && i in groups[h];
        assert i in after[h];
      }
    }
  }

  /** The dictionary's view of the groups: each key seen, with its group. */
  ghost predicate IsIndex(index: map<Key, nat>, labels: seq<Key>) {
    && (forall key :: key in index ==> index[key] < |labels| && labels[index[key]] == key)
    && (forall g :: 0 <= g < |labels| ==> labels[g] in index)
  }

  method GroupPositions(keys: seq<Key>) returns (groups: Groups, labels: seq<Key>)
    ensures IsGrouping(groups, labels, keys)
  {
    groups, labels := [], [];
    var index: map<Key, nat> := map[];
    for position := 0 to |keys|
      invariant IsGrouping(groups, labels, keys[..position])
      invariant IsIndex(index, labels)
    {
      var key := keys[position];
      assert keys[..position + 1] == keys[..position] + [key];
      if key in index {
        JoinGroup(groups, labels, keys[..position], index[key], key);
        groups := groups[index[key] := groups[index[key]] + [position]];
      } else {
        NewGroup(groups, labels, keys[..position], key);
        index := index[key := |groups|];
        groups, labels := groups + [[position]], labels + [key];
      }
    }
    assert keys[..|keys|] == keys;
  }

  // ---------------------------------------------------------------- which groups to keep whole

  /** Tokens kept of the first `n` groups: all of a preserved one, one of any other. */
  function Retained(groups: Groups, preserved: set<nat>, n: nat): nat
    requires n <= |groups|
  {
    if n == 0 then 0
    else Retained(groups, preserved, n - 1) + if n - 1 in preserved then |groups[n - 1]| else 1
  }

  lemma {:induction false} RetainedNone(groups: Groups, n: nat)
    requires n <= |groups|
    ensures Retained(groups, {}, n) == n
  {
    if n > 0 {
      RetainedNone(groups, n - 1);
    }
  }

  lemma {:induction false} RetainedOneMore(groups: Groups, preserved: set<nat>, g: nat, n: nat)
    requires n <= |groups| && g !in preserved && g < |groups|
    ensures Retained(groups, preserved + {g}, n) ==
      Retained(groups, preserved, n) + if g < n then |groups[g]| - 1 else 0
  {
    if n > 0 {
      RetainedOneMore(groups, preserved, g, n - 1);
    }
  }

  lemma {:induction false} RetainedAll(groups: Groups, preserved: set<nat>, n: nat)
    requires n <= |groups|
    requires forall g :: 0 <= g < n && |groups[g]| != 1 ==> g in preserved
    ensures Retained(groups, preserved, n) == TotalSize(groups[..n])
  {
    if n > 0 {
      RetainedAll(groups, preserved, n - 1);
      assert groups[..n][..n - 1] == groups[..n - 1];
    }
  }

  /** Every group is ranked, once. */
  ghost predicate IsRanking(ranked: seq<nat>, n: nat) {
    && (forall k :: 0 <= k < |ranked| ==> ranked[k] < n)
    && (forall j, k :: 0 <= j < k < |ranked| ==> ranked[j] != ranked[k])
    && (forall g :: 0 <= g < n ==> g in ranked)
  }

  /** The groups of more than one token among the first `k` ranked. */
  function Chosen(groups: Groups, ranked: seq<nat>, k: nat): set<nat>
    requires k <= |ranked| && forall j :: 0 <= j < |ranked| ==> ranked[j] < |groups|
  {
    set j | 0 <= j < k && |groups[ranked[j]]| > 1 :: ranked[j]
  }

  ghost predicate NoLargerThan(groups: Groups, largest: nat) {
    forall g :: 0 <= g < |groups| ==> 1 <= |groups[g]| <= largest
  }

  datatype Mode = Off | Merge | Adaptive | Random

  /**
   Preserve groups in rank order until the target is met.  Nothing is preserved when one token a group is enough;
   otherwise the target is met, by a prefix of the ranking, and is missed by any shorter one.
   */
  method DetailGroups(mode: Mode, groups: Groups, target: int, ranked: seq<nat>)
    returns (selected: set<nat>, ghost k: nat)
    requires IsRanking(ranked, |groups|) && target <= TotalSize(groups)
    requires forall g :: 0 <= g < |groups| ==> |groups[g]| >= 1
    ensures k <= |ranked| && selected == Chosen(groups, ranked, k)
    ensures !(mode.Adaptive? || mode.Random?) || target <= |groups| ==> k == 0
    ensures (mode.Adaptive? || mode.Random?) && target > |groups| ==>
      && k > 0 && |groups[ranked[k - 1]]| > 1
      && Retained(groups, Chosen(groups, ranked, k - 1), |groups|) < target <= Retained(groups, selected, |groups|)
  {
    selected, k := {}, 0;
    if !(mode.Adaptive? || mode.Random?) {
      return;
    }
    var retained := |groups|;
    if target <= retained {
      return;
    }
    RetainedNone(groups, |groups|);
    for i := 0 to |ranked|
      invariant selected == Chosen(groups, ranked, i)
      invariant retained == Retained(groups, selected, |groups|) < target
    {
      var group := ranked[i];
      var gain := |groups[group]| - 1;
      if gain > 0 {
        ChosenOneMore(groups, ranked, i);
        RetainedOneMore(groups, selected, group, |groups|);
        selected := selected + {group};
        retained := retained + gain;
        if retained >= target {
          k := i + 1;
          return;
        }
      } else {
        ChosenSame(groups, ranked, i);
      }
    }
    ChosenAll(groups, ranked);
    assert false;
  }

  lemma ChosenAll(groups: Groups, ranked: seq<nat>)
    requires IsRanking(ranked, |groups|)
    requires forall g :: 0 <= g < |groups| ==> |groups[g]| >= 1
    ensures Retained(groups, Chosen(groups, ranked, |ranked|), |groups|) == TotalSize(groups)
  {
    forall g | 0 <= g < |groups| && |groups[g]| != 1
      ensures g in Chosen(groups, ranked, |ranked|)
    {
      assert g in ranked;
    }
    RetainedAll(groups, Chosen(groups, ranked, |ranked|), |groups|);
    assert groups[..|groups|] == groups;
  }

  lemma ChosenOneMore(groups: Groups, ranked: seq<nat>, i: nat)
    requires IsRanking(ranked, |groups|) && i < |ranked| && |groups[ranked[i]]| > 1
    ensures Chosen(groups, ranked, i + 1) == Chosen(groups, ranked, i) + {ranked[i]}
    ensures ranked[i] !in Chosen(groups, ranked, i)
  {
  }

  lemma ChosenSame(groups: Groups, ranked: seq<nat>, i: nat)
    requires IsRanking(ranked, |groups|) && i < |ranked| && |groups[ranked[i]]| <= 1
    ensures Chosen(groups, ranked, i + 1) == Chosen(groups, ranked, i)
  {
  }

  /** Meeting the target overshoots it by less than the largest group, less one. */
  lemma OvershootIsBounded(groups: Groups, ranked: seq<nat>, k: nat, target: int, largest: nat)
    requires IsRanking(ranked, |groups|) && NoLargerThan(groups, largest)
    requires 0 < k <= |ranked| && |groups[ranked[k - 1]]| > 1
    requires Retained(groups, Chosen(groups, ranked, k - 1), |groups|) < target
    ensures Retained(groups, Chosen(groups, ranked, k), |groups|) <= target + largest - 2
  {
    ChosenOneMore(groups, ranked, k - 1);
    RetainedOneMore(groups, Chosen(groups, ranked, k - 1), ranked[k - 1], |groups|);
  }

  // ---------------------------------------------------------------- which positions are kept, and where rows go

  /** The positions below `n` where the flag has the given value, in order. */
  function Flagged(flags: seq<bool>, value: bool, n: nat): seq<int>
    requires n <= |flags|
  {
    if n == 0 then [] else Flagged(flags, value, n - 1) + if flags[n - 1] == value then [n - 1] else []
  }

  lemma {:induction false} FlaggedAre(flags: seq<bool>, value: bool, n: nat)
    requires n <= |flags|
    ensures Increasing(Flagged(flags, value, n))
    ensures forall x :: x in Flagged(flags, value, n) <==> 0 <= x < n && flags[x] == value
  {
    if n > 0 {
      FlaggedAre(flags, value, n - 1);
      var before := Flagged(flags, value, n - 1);
      assert forall k :: 0 <= k < |before| ==> before[k] in before;
    }
  }

  /** The sequence indices of the given positions among the visual tokens. */
  function Take(visual: seq<int>, positions: seq<int>): (r: seq<int>)
    requires forall a :: 0 <= a < |positions| ==> 0 <= positions[a] < |visual|
    ensures |r| == |positions| && forall a :: 0 <= a < |r| ==> r[a] == visual[positions[a]]
  {
    seq(|positions|, a requires 0 <= a < |positions| => visual[positions[a]])
  }

  /** What a group keeps: every position when preserved, its first one otherwise. */
  function KeptOf(group: seq<int>, preserved: bool): seq<int>
    requires group != []
  {
    if preserved then group else [group[0]]
  }

  /** The visual tokens kept of the first `n` groups, group by group. */
  function KeptVisual(visual: seq<int>, groups: Groups, preserved: set<nat>, n: nat): seq<int>
    requires n <= |groups| && Shaped(groups, |visual|)
  {
    if n == 0 then []
    else
      assert IsPositions(groups[n - 1], |visual|);
      KeptVisual(visual, groups, preserved, n - 1) + Take(visual, KeptOf(groups[n - 1], n - 1 in preserved))
  }

  lemma {:induction false} KeptVisualLength(visual: seq<int>, groups: Groups, preserved: set<nat>, n: nat)
    requires n <= |groups| && Shaped(groups, |visual|)
    ensures |KeptVisual(visual, groups, preserved, n)| == Retained(groups, preserved, n)
  {
    if n > 0 {
      assert IsPositions(groups[n - 1], |visual|);
      KeptVisualLength(visual, groups, preserved, n - 1);
    }
  }

  /** Position `i` of the visual tokens is kept by group `g`. */
  ghost predicate KeptBy(groups: Groups, preserved: set<nat>, g: nat, i: int)
    requires g < |groups| && groups[g] != []
  {
    i in KeptOf(groups[g], g in preserved)
  }

  lemma {:induction false} KeptVisualIs(visual: seq<int>, groups: Groups, preserved: set<nat>, n: nat, x: int)
    requires n <= |groups| && Shaped(groups, |visual|)
    ensures x in KeptVisual(visual, groups, preserved, n) <==>
      exists g, i :: 0 <= g < n && 0 <= i < |visual| && KeptBy(groups, preserved, g, i) && visual[i] == x
  {
    if n > 0 {
      assert IsPositions(groups[n - 1], |visual|);
      KeptVisualIs(visual, groups, preserved, n - 1, x);
      TakeIs(visual, KeptOf(groups[n - 1], n - 1 in preserved), x);
      var last := Take(visual, KeptOf(groups[n - 1], n - 1 in preserved));
      if x in last {
        var i :| 0 <= i < |visual| && i in KeptOf(groups[n - 1], n - 1 in preserved) && visual[i] == x;
        assert KeptBy(groups, preserved, n - 1, i);
      }
    }
  }

  lemma TakeIs(visual: seq<int>, positions: seq<int>, x: int)
    requires forall a :: 0 <= a < |positions| ==> 0 <= positions[a] < |visual|
    ensures x in Take(visual, positions) <==> exists i :: 0 <= i < |visual| && i in positions && visual[i] == x
  {
    if x in Take(visual, positions) {
      var a :| 0 <= a < |positions| && Take(visual, positions)[a] == x;
      assert positions[a] in positions;
    }
    if i :| 0 <= i < |visual| && i in positions && visual[i] == x {
      var a :| 0 <= a < |positions| && positions[a] == i;
      assert Take(visual, positions)[a] == x;
    }
  }

  ghost predicate Disjoint(groups: Groups) {
    forall g, h, i :: 0 <= g < h < |groups| && i in groups[g] ==> i !in groups[h]
  }

  lemma GroupsAreDisjoint(groups: Groups, labels: seq<Key>, keys: seq<Key>)
    requires IsGrouping(groups, labels, keys)
    ensures Disjoint(groups)
  {
    forall g, h, i | 0 <= g < h < |groups| && i in groups[g]
      ensures i !in groups[h]
    {
      assert IsPositions(groups[g], |keys|) && IsPositions(groups[h], |keys|);
      assert HasLabel(groups[g], labels[g], keys) && HasLabel(groups[h], labels[h], keys);
    }
  }

  lemma {:induction false} KeptVisualIsDistinct(visual: seq<int>, groups: Groups, preserved: set<nat>, n: nat,
                                                kept: seq<int>)
    requires n <= |groups| && Shaped(groups, |visual|) && Disjoint(groups) && Increasing(visual)
    requires kept == KeptVisual(visual, groups, preserved, n)
    ensures Distinct(kept)
  {
    if n > 0 {
      assert IsPositions(groups[n - 1], |visual|);
      var before := KeptVisual(visual, groups, preserved, n - 1);
      var last := Take(visual, KeptOf(groups[n - 1], n - 1 in preserved));
      KeptVisualIsDistinct(visual, groups, preserved, n - 1, before);
      OneMoreDistinct(visual, groups, preserved, n, before, last);
      assert kept == before + last;
    }
  }

  lemma OneMoreDistinct(visual: seq<int>, groups: Groups, preserved: set<nat>, n: nat, before: seq<int>, last: seq<int>)
    requires 0 < n <= |groups| && Shaped(groups, |visual|) && Disjoint(groups) && Increasing(visual)
    requires IsPositions(groups[n - 1], |visual|)
    requires before == KeptVisual(visual, groups, preserved, n - 1) && Distinct(before)
    requires last == Take(visual, KeptOf(groups[n - 1], n - 1 in preserved))
    ensures Distinct(before + last)
  {
    forall x | x in before
      ensures x !in last
    {
      KeptElsewhere(visual, groups, preserved, n, x);
    }
    TakeDistinct(visual, KeptOf(groups[n - 1], n - 1 in preserved));
    DistinctConcat(before, last);
  }

  lemma TakeDistinct(visual: seq<int>, positions: seq<int>)
    requires IsPositions(positions, |visual|) && Increasing(visual)
    ensures Distinct(Take(visual, positions))
  {
  }

  lemma KeptElsewhere(visual: seq<int>, groups: Groups, preserved: set<nat>, n: nat, x: int)
    requires 0 < n <= |groups| && Shaped(groups, |visual|) && Disjoint(groups) && Increasing(visual)
    requires IsPositions(groups[n - 1], |visual|) && x in KeptVisual(visual, groups, preserved, n - 1)
    ensures x !in Take(visual, KeptOf(groups[n - 1], n - 1 in preserved))
  {
    KeptVisualIs(visual, groups, preserved, n - 1, x);
    var g, i :| 0 <= g < n - 1 && 0 <= i < |visual| && KeptBy(groups, preserved, g, i) && visual[i] == x;
    KeptIsOwn(groups[g], g in preserved, i);
    NotTaken(visual, groups[n - 1], n - 1 in preserved, i);
  }

  lemma KeptIsOwn(group: seq<int>, preserved: bool, i: int)
    requires group != [] && i in KeptOf(group, preserved)
    ensures i in group
  {
  }

  lemma NotTaken(visual: seq<int>, group: seq<int>, preserved: bool, i: int)
    requires Increasing(visual) && 0 <= i < |visual| && group != [] && IsPositions(group, |visual|) && i !in group
    ensures visual[i] !in Take(visual, KeptOf(group, preserved))
  {
    TakeIs(visual, KeptOf(group, preserved), visual[i]);
  }

  lemma DistinctConcat(a: seq<int>, b: seq<int>)
    requires Distinct(a) && Distinct(b) && forall x :: x in a ==> x !in b
    ensures Distinct(a + b)
  {
    forall i, j | 0 <= i < j < |a + b|
      ensures (a + b)[i] != (a + b)[j]
    {
      if i < |a| <= j {
        assert a[i] in a && b[j - |a|] in b;
      }
    }
  }

  /** The first tokens of the groups that are not preserved, which take the merged rows. */
  ghost predicate MergesInto(groups: Groups, preserved: set<nat>, visual: seq<int>, keep: seq<int>, merged: seq<nat>,
                             destinations: seq<nat>, n: nat)
    requires Shaped(groups, |visual|)
  {
    && |destinations| == |merged|
    && Increasing(merged)
    && (forall g :: g in merged <==> 0 <= g < n && g < |groups| && g !in preserved)
    && (forall k :: 0 <= k < |merged| ==>
        merged[k] < |groups| && MergesAt(groups[merged[k]], visual, keep, destinations[k]))
  }

  ghost predicate MergesAt(group: seq<int>, visual: seq<int>, keep: seq<int>, destination: nat) {
    group != [] && 0 <= group[0] < |visual| && destination < |keep| && keep[destination] == visual[group[0]]
  }

  /** Rows merged from different groups go to different places, in order. */
  lemma DestinationsIncrease(groups: Groups, preserved: set<nat>, visual: seq<int>, keep: seq<int>, merged: seq<nat>,
                             destinations: seq<nat>)
    requires Shaped(groups, |visual|) && FirstsIncrease(groups) && Increasing(visual) && Increasing(keep)
    requires MergesInto(groups, preserved, visual, keep, merged, destinations, |groups|)
    ensures Increasing(destinations)
  {
    forall j, k | 0 <= j < k < |destinations|
      ensures destinations[j] < destinations[k]
    {
      assert MergesAt(groups[merged[j]], visual, keep, destinations[j]);
      assert MergesAt(groups[merged[k]], visual, keep, destinations[k]);
    }
  }

  /** The two lists in one, in increasing order, without repetition. */
  ghost predicate KeepsExactly(keep: seq<int>, text: seq<int>, kept: seq<int>) {
    && Increasing(keep)
    && |keep| == |text| + |kept|
    && forall x :: x in keep <==> x in text || x in kept
  }

  method RetainVisual(visual: seq<int>, groups: Groups, preserved: set<nat>) returns (kept: seq<int>)
    requires Shaped(groups, |visual|)
    ensures kept == KeptVisual(visual, groups, preserved, |groups|)
  {
    kept := [];
    for g := 0 to |groups|
      invariant kept == KeptVisual(visual, groups, preserved, g)
    {
      assert IsPositions(groups[g], |visual|);
      var positions := [groups[g][0]];
      if g in preserved {
        positions := groups[g];
      }
      kept := kept + Take(visual, positions);
    }
  }

  method IndexMap(text: seq<int>, visual: seq<int>, groups: Groups, preserved: set<nat>)
    returns (keep: seq<int>, merged: seq<nat>, destinations: seq<nat>, retained: nat)
    requires Increasing(text) && Increasing(visual) && forall x :: x in text ==> x !in visual
    requires Shaped(groups, |visual|) && FirstsIncrease(groups) && Disjoint(groups)
    ensures KeepsExactly(keep, text, KeptVisual(visual, groups, preserved, |groups|))
    ensures retained == Retained(groups, preserved, |groups|)
    ensures MergesInto(groups, preserved, visual, keep, merged, destinations, |groups|) && Increasing(destinations)
  {
    var kept := RetainVisual(visual, groups, preserved);
    KeepAll(text, visual, groups, preserved, kept);
    retained := |kept|;
    keep := Sort(text + kept);
    merged, destinations := MergeRows(visual, groups, preserved, keep);
  }

  lemma KeepAll(text: seq<int>, visual: seq<int>, groups: Groups, preserved: set<nat>, kept: seq<int>)
    requires Increasing(text) && Increasing(visual) && forall x :: x in text ==> x !in visual
    requires Shaped(groups, |visual|) && Disjoint(groups)
    requires kept == KeptVisual(visual, groups, preserved, |groups|)
    ensures |kept| == Retained(groups, preserved, |groups|)
    ensures KeepsExactly(Sort(text + kept), text, kept)
    ensures forall g :: 0 <= g < |groups| ==> First(visual, groups, g) in Sort(text + kept)
  {
    KeptVisualLength(visual, groups, preserved, |groups|);
    KeptVisualIsDistinct(visual, groups, preserved, |groups|, kept);
    forall x | x in kept
      ensures x !in text
    {
      KeptVisualIs(visual, groups, preserved, |groups|, x);
      var g, i :| 0 <= g < |groups| && 0 <= i < |visual| && KeptBy(groups, preserved, g, i) && visual[i] == x;
      assert visual[i] in visual;
    }
    DistinctConcat(text, kept);
    SortKeeps(text + kept);
    forall g | 0 <= g < |groups|
      ensures First(visual, groups, g) in kept
    {
      KeptVisualIs(visual, groups, preserved, |groups|, First(visual, groups, g));
      assert IsPositions(groups[g], |visual|);
      assert KeptBy(groups, preserved, g, groups[g][0]);
    }
  }

  /** The token that stands for a group. */
  function First(visual: seq<int>, groups: Groups, g: nat): int
    requires Shaped(groups, |visual|) && g < |groups|
  {
    assert IsPositions(groups[g], |visual|);
    visual[groups[g][0]]
  }

  method MergeRows(visual: seq<int>, groups: Groups, preserved: set<nat>, keep: seq<int>)
    returns (merged: seq<nat>, destinations: seq<nat>)
    requires Increasing(visual) && Increasing(keep) && Shaped(groups, |visual|) && FirstsIncrease(groups)
    requires forall g :: 0 <= g < |groups| ==> First(visual, groups, g) in keep
    ensures MergesInto(groups, preserved, visual, keep, merged, destinations, |groups|) && Increasing(destinations)
  {
    merged, destinations := [], [];
    for g := 0 to |groups|
      invariant MergesInto(groups, preserved, visual, keep, merged, destinations, g)
    {
      if g !in preserved {
        assert First(visual, groups, g) in keep && IsPositions(groups[g], |visual|);
        var k: nat :| k < |keep| && keep[k] == visual[groups[g][0]];
        OneMoreMerged(groups, preserved, visual, keep, merged, destinations, g, k);
        merged, destinations := merged + [g], destinations + [k];
      }
    }
    DestinationsIncrease(groups, preserved, visual, keep, merged, destinations);
  }

  lemma OneMoreMerged(groups: Groups, preserved: set<nat>, visual: seq<int>, keep: seq<int>, merged: seq<nat>,
                      destinations: seq<nat>, g: nat, k: nat)
    requires Shaped(groups, |visual|) && g < |groups| && g !in preserved
    requires MergesInto(groups, preserved, visual, keep, merged, destinations, g) &&
      MergesAt(groups[g], visual, keep, k)
    ensures MergesInto(groups, preserved, visual, keep, merged + [g], destinations + [k], g + 1)
  {
    assert forall j :: 0 <= j < |merged| ==> merged[j] in merged;
  }

  /** A visual token is dropped exactly when its group is not preserved and it is not the group's first. */
  lemma VisualTokenIsKeptIff(visual: seq<int>, groups: Groups, preserved: set<nat>, g: nat, i: int)
    requires Shaped(groups, |visual|) && Disjoint(groups) && Increasing(visual)
    requires g < |groups| && i in groups[g] && 0 <= i < |visual|
    ensures visual[i] in KeptVisual(visual, groups, preserved, |groups|) <==> g in preserved || i == groups[g][0]
  {
    KeptVisualIs(visual, groups, preserved, |groups|, visual[i]);
    if g in preserved || i == groups[g][0] {
      assert KeptBy(groups, preserved, g, i);
    } else if visual[i] in KeptVisual(visual, groups, preserved, |groups|) {
      var h, j :| 0 <= h < |groups| && 0 <= j < |visual| && KeptBy(groups, preserved, h, j) && visual[j] == visual[i];
      OwnGroupKeeps(visual, groups, preserved, g, i, h, j);
    }
  }

  lemma OwnGroupKeeps(visual: seq<int>, groups: Groups, preserved: set<nat>, g: nat, i: int, h: nat, j: int)
    requires Disjoint(groups) && Increasing(visual) && g < |groups| && h < |groups|
    requires i in groups[g] && groups[h] != [] && KeptBy(groups, preserved, h, j)
    requires 0 <= i < |visual| && 0 <= j < |visual| && visual[i] == visual[j]
    ensures g == h && i == j
  {
    assert i == j && j in groups[h];
  }

  // ---------------------------------------------------------------- the wrapper

  /** A token's place: its frame, row and column. */
  datatype Cell = Cell(time: int, height: int, width: int)

  function KeyAt(visual: seq<int>, cells: seq<Cell>, factor: nat, p: nat): Key
    requires p < |visual| && 0 <= visual[p] < |cells| && factor >= 1
  {
    var cell := cells[visual[p]];
    Key(SegmentAt(visual, p), cell.time, cell.height / factor, cell.width / factor)
  }

  ghost predicate AreKeys(keys: seq<Key>, visual: seq<int>, cells: seq<Cell>, factor: nat)
    requires factor >= 1 && forall p :: 0 <= p < |visual| ==> 0 <= visual[p] < |cells|
  {
    |keys| == |visual| && forall p :: 0 <= p < |visual| ==> keys[p] == KeyAt(visual, cells, factor, p)
  }

  /** The groups are the runs of tokens, cut by frame and by square cell. */
  ghost predicate GroupedByCell(groups: Groups, visual: seq<int>, cells: seq<Cell>, ratio: real)
    requires 0.0 < ratio <= 1.0 && forall p :: 0 <= p < |visual| ==> 0 <= visual[p] < |cells|
  {
    exists labels, keys ::
      IsGrouping(groups, labels, keys) && SpatialGroupFactor(ratio).value >= 1 &&
      AreKeys(keys, visual, cells, SpatialGroupFactor(ratio).value)
  }

  /** How many visual tokens a mode leaves of `before`, when they fall into the given groups. */
  ghost predicate MeetsTarget(mode: Mode, groups: Groups, target: int, after: nat) {
    if (mode.Adaptive? || mode.Random?) && target > |groups|
    then target <= after && forall largest :: NoLargerThan(groups, largest) ==> after <= target + largest - 2
    else after == |groups|
  }

  lemma TargetAtMostCount(count: nat, ratio: real, bucket: int)
    ensures BucketTokenTarget(count, ratio, bucket) <= count
  {
    if count > 0 {
      TargetIsLeastCovering(count, count as real * ratio, bucket, 0);
    }
  }

  lemma TargetIsMet(mode: Mode, groups: Groups, target: int, ranked: seq<nat>, k: nat)
    requires IsRanking(ranked, |groups|) && k <= |ranked|
    requires !(mode.Adaptive? || mode.Random?) || target <= |groups| ==> k == 0
    requires (mode.Adaptive? || mode.Random?) && target > |groups| ==>
      && k > 0 && |groups[ranked[k - 1]]| > 1
      && Retained(groups, Chosen(groups, ranked, k - 1), |groups|) < target <=
        Retained(groups, Chosen(groups, ranked, k), |groups|)
    ensures MeetsTarget(mode, groups, target, Retained(groups, Chosen(groups, ranked, k), |groups|))
  {
    if k == 0 {
      assert Chosen(groups, ranked, 0) == {};
      RetainedNone(groups, |groups|);
    } else {
      forall largest | NoLargerThan(groups, largest)
        ensures Retained(groups, Chosen(groups, ranked, k), |groups|) <= target + largest - 2
      {
        OvershootIsBounded(groups, ranked, k, target, largest);
      }
    }
  }

  // ---------------------------------------------------------------- the wrapper around the language model

  datatype ConfigError = ModeError | RatioError | LayerError | BucketError

  /** The counts of the last pass that was compressed. */
  datatype Stats = Stats(originalSequence: nat, retainedSequence: nat, originalVisual: nat, retainedVisual: nat,
                         targetVisual: int, appliedAfterLayer: nat)

  const NO_STATS := Stats(0, 0, 0, 0, 0, 0)

  function NameOf(mode: Mode): string {
    match mode
    case Off => "off"
    case Merge => "merge"
    case Adaptive => "adaptive"
    case Random => "random"
  }

  /**
   A missing or empty name means "off"; otherwise case and surrounding blanks do not matter.  The letters beyond A to Z
   need no case: none of them lowers to a text with only letters of these names.
   */
  function Normalized(name: Option<string>): string {
    Text.Lower(Text.Strip(if name.None? || name.value == "" then "off" else name.value))
  }

  function ModeNamed(name: Option<string>): (mode: Option<Mode>)
    ensures forall m :: mode == Some(m) <==> Normalized(name) == NameOf(m)
  {
    var text := Normalized(name);
    if text == "off" then Some(Off)
    else if text == "merge" then Some(Merge)
    else if text == "adaptive" then Some(Adaptive)
    else if text == "random" then Some(Random)
    else None
  }

  /** The text is the word, with letters in either case. */
  ghost predicate Spells(text: string, word: string) {
    |text| == |word| && forall i :: 0 <= i < |text| ==>
      text[i] == word[i] || ('A' <= text[i] <= 'Z' && text[i] as int + 32 == word[i] as int)
  }

  ghost predicate SpellsWithin(name: string, before: string, text: string, after: string, word: string) {
    name == before + text + after && Text.AllSpace(before) && Text.AllSpace(after) && Spells(text, word)
  }

  /** The name stands for the mode: its name, in any case, with white space around it; no name stands for "off". */
  ghost predicate StandsFor(name: Option<string>, mode: Mode) {
    if name.None? || name == Some("") then mode == Off else SpelledInside(name.value, NameOf(mode))
  }

  ghost predicate SpelledInside(name: string, word: string) {
    exists before, text, after :: SpellsWithin(name, before, text, after, word)
  }

  lemma LowerSpells(text: string, mode: Mode)
    ensures Text.Lower(text) == NameOf(mode) <==> Spells(text, NameOf(mode))
  {
    var word := NameOf(mode);
    assert forall i :: 0 <= i < |word| ==> 'a' <= word[i] <= 'z';
    if Spells(text, word) {
      assert Text.Lower(text) == word;
    }
  }

  lemma SpelledIsSolid(text: string, mode: Mode)
    requires Spells(text, NameOf(mode))
    ensures text != "" && !Text.IsSpace(text[0]) && !Text.IsSpace(text[|text| - 1])
  {
  }

  /** A name is taken for a mode exactly when it stands for it. */
  lemma ModeNamedIff(name: Option<string>, mode: Mode)
    ensures ModeNamed(name) == Some(mode) <==> StandsFor(name, mode)
  {
    if name.None? || name == Some("") {
      OffIsPlain();
    } else if Normalized(name) == NameOf(mode) {
      var before, after := Text.StripLeaves(name.value);
      LowerSpells(Text.Strip(name.value), mode);
      assert SpellsWithin(name.value, before, Text.Strip(name.value), after, NameOf(mode));
    } else if StandsFor(name, mode) {
      var before, text, after :| SpellsWithin(name.value, before, text, after, NameOf(mode));
      SpelledIsSolid(text, mode);
      Text.StripBetween(before, text, after);
      LowerSpells(text, mode);
    }
  }

  ghost function FirstRefused(named: Option<Mode>, ratio: real, layer: int, bucket: int): Option<ConfigError> {
    if named.None? then Some(ModeError)
    else if !(0.1 <= ratio <= 1.0) then Some(RatioError)
    else if layer < 1 then Some(LayerError)
    else if bucket < 0 then Some(BucketError)
    else None
  }

  /** Each setting is refused exactly when it is the first that is not in range. */
  ghost predicate IsVerdict(name: Option<string>, ratio: real, layer: int, bucket: int, error: Option<ConfigError>) {
    && (error == Some(ModeError) <==> forall mode :: !StandsFor(name, mode))
    && (error == Some(RatioError) <==> error != Some(ModeError) && (ratio < 0.1 || 1.0 < ratio))
    && (error == Some(LayerError) <==> error !in {Some(ModeError), Some(RatioError)} && layer <= 0)
    && (error == Some(BucketError) <==> error !in {Some(ModeError), Some(RatioError), Some(LayerError)} && bucket <= -1)
  }

  lemma VerdictIs(name: Option<string>, named: Option<Mode>, ratio: real, layer: int, bucket: int)
    requires named == ModeNamed(name)
    ensures IsVerdict(name, ratio, layer, bucket, FirstRefused(named, ratio, layer, bucket))
    ensures named.Some? ==> StandsFor(name, named.value)
  {
    forall mode ensures named == Some(mode) <==> StandsFor(name, mode) {
      ModeNamedIff(name, mode);
    }
  }

  lemma OffIsPlain()
    ensures Text.Lower(Text.Strip("off")) == "off"
  {
    assert "" + "off" + "" == "off";
    Text.StripBetween("", "off", "");
  }

  /** The layer after which a pass is compressed. */
  function CompressAfter(pruneAfterLayer: int, deepstack: nat, layers: nat): int {
    Min(Max(pruneAfterLayer, deepstack), Max(1, layers - 1))
  }

  /** What a pass does to the states between its layers; an injection adds to the `states` there are by then. */
  datatype Action = Inject(layer: nat, states: nat) | Shorten

  /** What follows the layer at `index`: an injection, after each of the first `deepstack` layers, and compression. */
  function ActionsAt(index: nat, deepstack: nat, after: int, states: nat): seq<Action> {
    (if index < deepstack then [Inject(index, states)] else []) + (if index + 1 == after then [Shorten] else [])
  }

  /**
   The actions of the first `n` layers, when compression follows
   layer `after` and leaves `short` of `length` states.
   */
  function Actions(n: nat, deepstack: nat, after: int, length: nat, short: nat): seq<Action> {
    if n == 0 then []
    else
      Actions(n - 1, deepstack, after, length, short)
      + ActionsAt(n - 1, deepstack, after, if n - 1 < after then length else short)
  }

  /** One more layer: `states` before its actions, `left` after them. */
  lemma OneMoreLayer(n: nat, deepstack: nat, after: int, length: nat, states: nat, left: nat)
    requires n < after ==> states == length
    requires n + 1 != after ==> left == states
    ensures Actions(n, deepstack, after, length, states) + ActionsAt(n, deepstack, after, states) ==
      Actions(n + 1, deepstack, after, length, left)
  {
    if n + 1 == after {
      NotYetShort(n, deepstack, after, length, left);
    }
  }

  lemma {:induction false} NotYetShort(n: nat, deepstack: nat, after: int, length: nat, short: nat)
    requires n <= after
    ensures Actions(n, deepstack, after, length, short) == Actions(n, deepstack, after, length, length)
  {
    if n > 0 {
      NotYetShort(n - 1, deepstack, after, length, short);
    }
  }

  /** No injection follows compression. */
  ghost predicate FusedFirst(actions: seq<Action>) {
    forall i, j :: 0 <= i < j < |actions| && actions[i].Shorten? ==> !actions[j].Inject?
  }

  /** The mask of an injection marks the positions of the whole sequence, so there must be as many states. */
  ghost predicate MasksFit(actions: seq<Action>, length: nat) {
    forall i :: 0 <= i < |actions| && actions[i].Inject? ==> actions[i].states == length
  }

  lemma {:induction false} NothingCompressed(n: nat, deepstack: nat, after: int, length: nat, short: nat)
    requires n < after
    ensures forall i :: 0 <= i < |Actions(n, deepstack, after, length, short)| ==>
      Actions(n, deepstack, after, length, short)[i].Inject?
      && Actions(n, deepstack, after, length, short)[i].states == length
  {
    if n > 0 {
      NothingCompressed(n - 1, deepstack, after, length, short);
    }
  }

  /** Up to compression, and beyond it as long as no layer injects, everything is in order. */
  lemma {:induction false} InOrder(n: nat, deepstack: nat, after: int, length: nat, short: nat)
    requires 1 <= after && (n <= after || deepstack <= after)
    ensures FusedFirst(Actions(n, deepstack, after, length, short))
    ensures MasksFit(Actions(n, deepstack, after, length, short), length)
  {
    if n > 0 {
      InOrder(n - 1, deepstack, after, length, short);
      if n <= after {
        NothingCompressed(n - 1, deepstack, after, length, short);
      }
    }
  }

  lemma {:induction false} CompressedAt(n: nat, deepstack: nat, after: int, length: nat, short: nat) returns (i: nat)
    requires 1 <= after <= n
    ensures i < |Actions(n, deepstack, after, length, short)| && Actions(n, deepstack, after, length, short)[i].Shorten?
  {
    if n == after {
      i := |Actions(n, deepstack, after, length, short)| - 1;
    } else {
      i := CompressedAt(n - 1, deepstack, after, length, short);
    }
  }

  /** With deep-stack states for every one of two or more layers, the last layer injects after compression. */
  lemma LastInjectsLate(n: nat, deepstack: nat, length: nat, short: nat)
    requires 2 <= n <= deepstack
    ensures var actions := Actions(n, deepstack, n - 1, length, short);
            && actions[|actions| - 1] == Inject(n - 1, short)
            && !FusedFirst(actions)
  {
    var actions := Actions(n, deepstack, n - 1, length, short);
    var i := CompressedAt(n - 1, deepstack, n - 1, length, short);
    assert actions == Actions(n - 1, deepstack, n - 1, length, short) + [Inject(n - 1, short)];
    assert actions[i].Shorten?;
  }

  /**
   In a pass of one layer or more no injection follows compression if and only if there is just one layer, or some
   layer has no injection.  The masks fit in those cases, and otherwise only when compression dropped nothing.
   */
  lemma FusedFirstIff(pruneAfterLayer: int, deepstack: nat, layers: nat, length: nat, short: nat)
    requires pruneAfterLayer >= 1 && layers >= 1
    ensures var actions := Actions(layers, deepstack, CompressAfter(pruneAfterLayer, deepstack, layers), length, short);
            && (FusedFirst(actions) <==> layers == 1 || deepstack < layers)
            && (MasksFit(actions, length) <==> layers == 1 || deepstack < layers || short == length)
  {
    var after := CompressAfter(pruneAfterLayer, deepstack, layers);
    if layers == 1 || deepstack < layers {
      InOrder(layers, deepstack, after, length, short);
    } else {
      assert after == layers - 1;
      LastInjectsLate(layers, deepstack, length, short);
      if short == length {
        AllFit(layers, deepstack, after, length);
      }
    }
  }

  lemma {:induction false} AllFit(n: nat, deepstack: nat, after: int, length: nat)
    ensures MasksFit(Actions(n, deepstack, after, length, length), length)
  {
    if n > 0 {
      AllFit(n - 1, deepstack, after, length);
    }
  }

  /**
   Two layers, both with deep-stack states: the second injection
   comes after compression, with the uncompressed mask.
   */
  lemma LateInjection(pruneAfterLayer: int, length: nat, short: nat)
    requires pruneAfterLayer >= 1
    ensures Actions(2, 2, CompressAfter(pruneAfterLayer, 2, 2), length, short) ==
      [Inject(0, length), Shorten, Inject(1, short)]
  {
    assert Actions(1, 2, 1, length, short) == [Inject(0, length), Shorten];
  }

  /** The positions kept are in order and include all text. */
  ghost predicate KeepsText(keep: seq<int>, flags: seq<bool>) {
    && Increasing(keep)
    && (forall x :: x in keep ==> 0 <= x < |flags|)
    && forall x :: 0 <= x < |flags| && !flags[x] ==> x in keep
  }

  lemma {:induction false} FlaggedSplit(flags: seq<bool>, n: nat)
    requires n <= |flags|
    ensures |Flagged(flags, true, n)| + |Flagged(flags, false, n)| == n
  {
    if n > 0 {
      FlaggedSplit(flags, n - 1);
    }
  }

  lemma {:induction false} KeptVisualAreVisual(visual: seq<int>, groups: Groups, preserved: set<nat>, n: nat)
    requires n <= |groups| && Shaped(groups, |visual|)
    ensures forall x :: x in KeptVisual(visual, groups, preserved, n) ==> x in visual
  {
    if n > 0 {
      KeptVisualAreVisual(visual, groups, preserved, n - 1);
    }
  }

  lemma AllIsKept(flags: seq<bool>, keep: seq<int>)
    requires keep == seq(|flags|, i => i)
    ensures KeepsText(keep, flags)
  {
    forall x | 0 <= x < |flags|
      ensures x in keep
    {
      assert keep[x] == x;
    }
  }

  lemma AllTextIsKept(flags: seq<bool>, keep: seq<int>, kept: seq<int>)
    requires KeepsExactly(keep, Flagged(flags, false, |flags|), kept)
    requires forall x :: x in kept ==> x in Flagged(flags, true, |flags|)
    ensures KeepsText(keep, flags)
    ensures |keep| == |flags| - |Flagged(flags, true, |flags|)| + |kept|
  {
    FlaggedAre(flags, true, |flags|);
    FlaggedAre(flags, false, |flags|);
    FlaggedSplit(flags, |flags|);
  }

  class PostFusionVisionModel {
    var mode: Mode
    var retainRatio: real
    var pruneAfterLayer: int
    var tokenBucket: int
    var policy: map<string, string>
    var stats: Stats

    ghost predicate Valid()
      reads this
    {
      0.1 <= retainRatio <= 1.0 && pruneAfterLayer >= 1 && tokenBucket >= 0
    }

    constructor ()
      ensures Valid() && mode == Off && retainRatio == 0.35 && pruneAfterLayer == 3 && tokenBucket == 0
      ensures policy == map[] && stats == NO_STATS
    {
      mode, retainRatio, pruneAfterLayer, tokenBucket := Off, 0.35, 3, 0;
      policy, stats := map[], NO_STATS;
    }

    /** Take the settings and forget the counts when all settings are in range; otherwise change nothing. */
    method Configure(name: Option<string>, ratio: real, layer: int, bucket: int, newPolicy: Option<map<string, string>>)
      returns (error: Option<ConfigError>)
      requires Valid()
      modifies this
      ensures Valid()
      ensures IsVerdict(name, ratio, layer, bucket, error)
      ensures error.None? ==>
        && StandsFor(name, mode) && retainRatio == ratio && pruneAfterLayer == layer && tokenBucket == bucket
        && policy == (if newPolicy.Some? then newPolicy.value else map[]) && stats == NO_STATS
      ensures error.Some? ==> unchanged(this)
    {
      var normalized := ModeNamed(name);
      VerdictIs(name, normalized, ratio, layer, bucket);
      if normalized.None? {
        return Some(ModeError);
      }
      if !(0.1 <= ratio <= 1.0) {
        return Some(RatioError);
      }
      if layer < 1 {
        return Some(LayerError);
      }
      if bucket < 0 {
        return Some(BucketError);
      }
      mode, retainRatio, pruneAfterLayer, tokenBucket := normalized.value, ratio, layer, bucket;
      policy := if newPolicy.Some? then newPolicy.value else map[];
      ResetStats();
      error := None;
    }

    method ResetStats()
      modifies this`stats
      ensures stats == NO_STATS
    {
      stats := NO_STATS;
    }

    /** Group the visual tokens: by run, frame, and cell. */
    method Layout(visual: seq<int>, cells: seq<Cell>)
      returns (groups: Groups, ghost labels: seq<Key>, ghost keys: seq<Key>, factor: nat)
      requires Valid() && forall p :: 0 <= p < |visual| ==> 0 <= visual[p] < |cells|
      ensures SpatialGroupFactor(retainRatio) == Success(factor) && factor >= 1
      ensures AreKeys(keys, visual, cells, factor) && IsGrouping(groups, labels, keys)
    {
      FactorIsLeastCell(retainRatio, 0);
      factor := SpatialGroupFactor(retainRatio).value;
      var segments := ContiguousSegments(visual);
      var found: seq<Key> := [];
      for p := 0 to |visual|
        invariant |found| == p
        invariant forall q :: 0 <= q < p ==> found[q] == KeyAt(visual, cells, factor, q)
      {
        var cell := cells[visual[p]];
        found := found + [Key(segments[p], cell.time, cell.height / factor, cell.width / factor)];
      }
      keys := found;
      groups, labels := GroupPositions(found);
    }

    /** Choose what to preserve; `ranked` is any order of the groups. */
    method Preserve(groups: Groups, ghost labels: seq<Key>, ghost keys: seq<Key>, count: nat, ranked: seq<nat>)
      returns (preserved: set<nat>)
      requires Valid() && IsGrouping(groups, labels, keys) && |keys| == count && IsRanking(ranked, |groups|)
      ensures MeetsTarget(mode, groups, BucketTokenTarget(count, retainRatio, tokenBucket),
                          Retained(groups, preserved, |groups|))
      ensures exists k: nat :: k <= |ranked| && preserved == Chosen(groups, ranked, k)
    {
      var target := BucketTokenTarget(count, retainRatio, tokenBucket);
      TargetAtMostCount(count, retainRatio, tokenBucket);
      ghost var k;
      preserved, k := DetailGroups(mode, groups, target, ranked);
      TargetIsMet(mode, groups, target, ranked, k);
    }

    /**
     The positions kept, and where each merged row goes.  All text is kept; so is one token at least of every group;
     the count of visual tokens kept meets the target when a mode sets one.
     */
    method Compress(flags: seq<bool>, cells: Option<seq<Cell>>, rank: Groups -> seq<nat>)
      returns (keep: seq<int>, merged: seq<nat>, destinations: seq<nat>, before: nat, after: nat,
               ghost groups: Groups, ghost preserved: set<nat>)
      requires Valid() && (cells.Some? ==> |cells.value| == |flags|)
      requires forall all: Groups :: IsRanking(rank(all), |all|)
      ensures before == |Flagged(flags, true, |flags|)|
      ensures before < 4 || cells.None? ==>
        keep == seq(|flags|, i => i) && merged == [] && destinations == [] && after == before
      ensures before >= 4 && cells.Some? ==>
        var visual := Flagged(flags, true, |flags|);
        && (forall p :: 0 <= p < before ==> 0 <= visual[p] < |cells.value|)
        && GroupedByCell(groups, visual, cells.value, retainRatio) && Shaped(groups, before) && Disjoint(groups)
        && KeepsExactly(keep, Flagged(flags, false, |flags|), KeptVisual(visual, groups, preserved, |groups|))
        && MergesInto(groups, preserved, visual, keep, merged, destinations, |groups|) && Increasing(destinations)
        && after == Retained(groups, preserved, |groups|)
        && MeetsTarget(mode, groups, BucketTokenTarget(before, retainRatio, tokenBucket), after)
    {
      groups, preserved := [], {};
      var visual, text := Flagged(flags, true, |flags|), Flagged(flags, false, |flags|);
      before := |visual|;
      if before < 4 || cells.None? {
        keep, merged, destinations, after := seq(|flags|, i => i), [], [], before;
        return;
      }
      FlaggedAre(flags, true, |flags|);
      FlaggedAre(flags, false, |flags|);
      assert forall p :: 0 <= p < |visual| ==> visual[p] in visual;
      var inGroups, labels, keys, factor := Layout(visual, cells.value);
      GroupsAreDisjoint(inGroups, labels, keys);
      var toPreserve := Preserve(inGroups, labels, keys, before, rank(inGroups));
      keep, merged, destinations, after := IndexMap(text, visual, inGroups, toPreserve);
      groups, preserved := inGroups, toPreserve;
    }

    /** What a compressed pass leaves behind: no text is lost, and a mode that aims at a target meets it. */
    ghost predicate Recorded(flags: seq<bool>, keep: seq<int>, layer: int)
      reads this
    {
      && KeepsText(keep, flags)
      && stats.originalSequence == |flags| && stats.retainedSequence == |keep|
      && stats.originalVisual == |Flagged(flags, true, |flags|)|
      && stats.originalSequence - stats.retainedSequence == stats.originalVisual - stats.retainedVisual
      && stats.targetVisual == BucketTokenTarget(stats.originalVisual, retainRatio, tokenBucket)
      && (mode.Adaptive? || mode.Random? ==> stats.targetVisual <= stats.retainedVisual)
      && stats.appliedAfterLayer == layer
    }

    /** Compress and count. */
    method CompressAndRecord(flags: seq<bool>, cells: Option<seq<Cell>>, rank: Groups -> seq<nat>, layer: nat)
      returns (keep: seq<int>)
      requires Valid() && (cells.Some? ==> |cells.value| == |flags|)
      requires forall all: Groups :: IsRanking(rank(all), |all|)
      modifies this`stats
      ensures Recorded(flags, keep, layer)
    {
      var kept, _, _, before, after, groups, preserved := Compress(flags, cells, rank);
      keep := kept;
      TargetAtMostCount(before, retainRatio, tokenBucket);
      if before >= 4 && cells.Some? {
        var visual := Flagged(flags, true, |flags|);
        KeptVisualLength(visual, groups, preserved, |groups|);
        KeptVisualAreVisual(visual, groups, preserved, |groups|);
        AllTextIsKept(flags, keep, KeptVisual(visual, groups, preserved, |groups|));
      } else {
        AllIsKept(flags, keep);
      }
      stats := Stats(|flags|, |keep|, before, after, BucketTokenTarget(before, retainRatio, tokenBucket), layer);
    }

    /**
     One pass through the layers: it is compressed once, unless there is nothing to compress, no later than before the
     last layer when there are two.  The first `deepstack` layers are each followed by an injection of visual states,
     with the mask of the whole sequence.
     */
    method Forward(batch: nat, length: nat, flags: Option<seq<bool>>, cells: Option<seq<Cell>>,
                   rank: Groups -> seq<nat>, layers: nat, deepstack: nat)
      returns (kept: Option<seq<int>>, ghost actions: seq<Action>)
      requires Valid() && (flags.Some? ==> |flags.value| == length)
      requires cells.Some? ==> |cells.value| == length
      requires forall all: Groups :: IsRanking(rank(all), |all|)
      modifies this`stats
      ensures kept.Some? <==> !mode.Off? && flags.Some? && batch == 1 && length > 1 && layers >= 1
      ensures kept.None? ==> stats == old(stats)
      ensures kept.Some? ==> Recorded(flags.value, kept.value, CompressAfter(pruneAfterLayer, deepstack, layers))
      ensures kept.Some? ==> 1 <= stats.appliedAfterLayer <= Max(1, layers - 1)
      ensures kept.Some? ==>
        actions == Actions(layers, deepstack, stats.appliedAfterLayer, length, stats.retainedSequence)
      ensures kept.Some? ==> (FusedFirst(actions) <==> layers == 1 || deepstack < layers)
      ensures kept.Some? ==>
        (MasksFit(actions, length) <==> layers == 1 || deepstack < layers || |kept.value| == length)
    {
      kept, actions := None, [];
      if mode.Off? || flags.None? || batch != 1 || length <= 1 {
        return;
      }
      var after := CompressAfter(pruneAfterLayer, deepstack, layers);
      ghost var states := length;
      for index := 0 to layers
        invariant index < after ==> kept.None? && stats == old(stats) && states == length
        invariant index >= after ==>
          kept.Some? && Recorded(flags.value, kept.value, after) && states == |kept.value|
        invariant actions == Actions(index, deepstack, after, length, states)
      {
        ghost var before, present := actions, states;
        if index < deepstack {
          actions := actions + [Inject(index, states)];
        }
        if index + 1 == after {
          var keep := CompressAndRecord(flags.value, cells, rank, index + 1);
          kept, states, actions := Some(keep), |keep|, actions + [Shorten];
        }
        assert actions == before + ActionsAt(index, deepstack, after, present);
        OneMoreLayer(index, deepstack, after, length, present, states);
      }
      if layers >= 1 {
        FusedFirstIff(pruneAfterLayer, deepstack, layers, length, states);
      }
    }
  }
}
