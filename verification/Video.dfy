/**
 The choice of video frames: uniformly spaced, or where the picture changes most.
 A quotient of frame numbers is an exact rational, rounded half to even.
 */
module Video {
  import opened Wrappers
  import opened Ordering

  datatype FrameError = MaxFramesTooSmall

  // ---------------------------------------------------------------- uniform choice

  /** The integer nearest to a / b; of two that are as near, the even one. */
  function RoundHalfEven(a: nat, b: nat): nat
    requires b >= 1
  {
    var q, r := a / b, a % b;
    if 2 * r < b || (2 * r == b && q % 2 == 0) then q else q + 1
  }

  lemma RoundedIsNearest(a: nat, b: nat)
    requires b >= 1
    ensures 2 * a - b <= 2 * (RoundHalfEven(a, b) * b) <= 2 * a + b
    ensures 2 * a - b == 2 * (RoundHalfEven(a, b) * b) || 2 * (RoundHalfEven(a, b) * b) == 2 * a + b ==>
      RoundHalfEven(a, b) % 2 == 0
  {
    var q, r := a / b, a % b;
    assert a == q * b + r;
    assert (q + 1) * b == q * b + b;
    assert q % 2 == 1 ==> (q + 1) % 2 == 0;
  }

  lemma RoundedMultiple(q: nat, b: nat)
    requires b >= 1
    ensures RoundHalfEven(q * b, b) == q
  {
    RoundedIsNearest(q * b, b);
    var x := RoundHalfEven(q * b, b);
    NearMultiple(x, q, b);
  }

  lemma NearMultiple(x: int, q: int, b: int)
    requires b >= 1 && 2 * (q * b) - b <= 2 * (x * b) <= 2 * (q * b) + b
    ensures x == q
  {
    assert (q - 1) * b == q * b - b && (q + 1) * b == q * b + b;
    if x < q {
      TimesMonotone(x, q - 1, b);
    } else if x > q {
      TimesMonotone(q + 1, x, b);
    }
  }

  lemma TimesMonotone(x: int, y: int, b: int)
    requires x <= y && b >= 0
    ensures x * b <= y * b
  {
  }

  function Uniform(last: nat, steps: nat, i: nat): nat
    requires steps >= 1
  {
    RoundHalfEven(i * last, steps)
  }

  function SelectUniformFrames(frameCount: int, maxFrames: int): Result<seq<int>, FrameError> {
    if frameCount <= 0 then Success([])
    else if maxFrames < 1 then Failure(MaxFramesTooSmall)
    else
      var chosen := Min(frameCount, maxFrames);
      if chosen == 1 then Success([0])
      else Success(seq(chosen, i requires 0 <= i < chosen => Uniform(frameCount - 1, chosen - 1, i)))
  }

  /** What is nearest to two values more than a divisor apart is not the same. */
  lemma StepsApart(x: int, y: int, p: int, q: int, steps: nat)
    requires 2 * (x * steps) <= 2 * p + steps && 2 * q - steps <= 2 * (y * steps) && p + steps < q
    ensures x < y
  {
    if y <= x {
      TimesMonotone(y, x, steps);
    }
  }

  /** Half to even could send two neighbours to one frame; it never does, as they are more than one frame apart. */
  lemma UniformSteps(last: nat, steps: nat, i: nat)
    requires 1 <= steps <= last
    ensures Uniform(last, steps, i) < Uniform(last, steps, i + 1)
  {
    assert (i + 1) * last == i * last + last;
    if steps == last {
      RoundedMultiple(i, steps);
      RoundedMultiple(i + 1, steps);
    } else {
      RoundedIsNearest(i * last, steps);
      RoundedIsNearest((i + 1) * last, steps);
      StepsApart(Uniform(last, steps, i), Uniform(last, steps, i + 1), i * last, (i + 1) * last, steps);
    }
  }

  lemma {:induction false} UniformIncreases(last: nat, steps: nat, i: nat, j: nat)
    requires 1 <= steps <= last && i < j
    ensures Uniform(last, steps, i) < Uniform(last, steps, j)
    decreases j - i
  {
    UniformSteps(last, steps, j - 1);
    if i < j - 1 {
      UniformIncreases(last, steps, i, j - 1);
    }
  }

  lemma UniformEnds(last: nat, steps: nat)
    requires 1 <= steps
    ensures Uniform(last, steps, 0) == 0 && Uniform(last, steps, steps) == last
  {
    assert steps * last == last * steps;
    RoundedMultiple(0, steps);
    RoundedMultiple(last, steps);
  }

  /** As many frames as asked for and there are, in order, without repetition, from the first frame to the last. */
  lemma UniformFrames(frameCount: int, maxFrames: int)
    requires frameCount > 0 && maxFrames >= 1
    ensures SelectUniformFrames(frameCount, maxFrames).Success?
    ensures var frames := SelectUniformFrames(frameCount, maxFrames).value;
      && |frames| == Min(frameCount, maxFrames)
      && Increasing(frames)
      && frames[0] == 0
      && (|frames| >= 2 ==> frames[|frames| - 1] == frameCount - 1)
  {
    var chosen := Min(frameCount, maxFrames);
    if chosen > 1 {
      UniformEnds(frameCount - 1, chosen - 1);
      var frames := SelectUniformFrames(frameCount, maxFrames).value;
      forall i, j | 0 <= i < j < |frames|
        ensures frames[i] < frames[j]
      {
        UniformIncreases(frameCount - 1, chosen - 1, i, j);
      }
    }
  }

  // ---------------------------------------------------------------- temporal choice

  /** The members of `s` below `n`, in order. */
  function Listed(s: set<int>, n: nat): seq<int> {
    if n == 0 then [] else Listed(s, n - 1) + if n - 1 in s then [n - 1] else []
  }

  function SetOf(s: seq<int>): set<int> {
    set x | x in s
  }

  lemma {:induction false} ListedAre(s: set<int>, n: nat)
    ensures Increasing(Listed(s, n))
    ensures forall x :: x in Listed(s, n) <==> 0 <= x < n && x in s
  {
    if n > 0 {
      ListedAre(s, n - 1);
      var before := Listed(s, n - 1);
      assert forall k :: 0 <= k < |before| ==> before[k] in before;
    }
  }

  lemma {:induction false} SetOfDistinct(s: seq<int>)
    requires Distinct(s)
    ensures |SetOf(s)| == |s|
  {
    if s != [] {
      var n := |s| - 1;
      SetOfDistinct(s[..n]);
      assert s == s[..n] + [s[n]];
      assert SetOf(s) == SetOf(s[..n]) + {s[n]};
    }
  }

  lemma ListedSize(s: set<int>, n: nat)
    requires forall x :: x in s ==> 0 <= x < n
    ensures |Listed(s, n)| == |s|
  {
    ListedAre(s, n);
    SetOfDistinct(Listed(s, n));
    var t := SetOf(Listed(s, n));
    forall x | x in s
      ensures x in t
    {
      assert x in Listed(s, n);
    }
    assert s == t;
  }

  /** A frame outranks another by its score, then by coming first. */
  predicate Outranks(scores: seq<real>, i: int, j: int)
    requires 0 <= i < |scores| && 0 <= j < |scores|
  {
    scores[i] > scores[j] || (scores[i] == scores[j] && i < j)
  }

  ghost predicate InRange(scores: seq<real>, frames: seq<int>) {
    forall k :: 0 <= k < |frames| ==> 0 <= frames[k] < |scores|
  }

  function InsertRanked(scores: seq<real>, x: int, ranked: seq<int>): seq<int>
    requires 0 <= x < |scores| && InRange(scores, ranked)
  {
    if ranked == [] || !Outranks(scores, ranked[0], x) then [x] + ranked
    else [ranked[0]] + InsertRanked(scores, x, ranked[1..])
  }

  /** No frame of the list outranks an earlier one. */
  ghost predicate IsRanked(scores: seq<real>, ranked: seq<int>)
    requires InRange(scores, ranked)
  {
    forall i, j :: 0 <= i < j < |ranked| ==> !Outranks(scores, ranked[j], ranked[i])
  }

  function Ranked(scores: seq<real>, frames: seq<int>): (r: seq<int>)
    requires InRange(scores, frames)
    ensures InRange(scores, r)
  {
    if frames == [] then []
    else
      var rest := Ranked(scores, frames[1..]);
      InsertInRange(scores, frames[0], rest);
      InsertRanked(scores, frames[0], rest)
  }

  lemma {:induction false} InsertInRange(scores: seq<real>, x: int, ranked: seq<int>)
    requires 0 <= x < |scores| && InRange(scores, ranked)
    ensures InRange(scores, InsertRanked(scores, x, ranked))
    ensures |InsertRanked(scores, x, ranked)| == |ranked| + 1
    ensures forall y :: y in InsertRanked(scores, x, ranked) <==> y == x || y in ranked
  {
    if ranked != [] && Outranks(scores, ranked[0], x) {
      InsertInRange(scores, x, ranked[1..]);
      assert ranked == [ranked[0]] + ranked[1..];
    }
  }

  lemma {:induction false} InsertKeepsRank(scores: seq<real>, x: int, ranked: seq<int>)
    requires 0 <= x < |scores| && InRange(scores, ranked) && IsRanked(scores, ranked)
    ensures InRange(scores, InsertRanked(scores, x, ranked)) && IsRanked(scores, InsertRanked(scores, x, ranked))
    ensures Distinct(ranked) && x !in ranked ==> Distinct(InsertRanked(scores, x, ranked))
  {
    InsertInRange(scores, x, ranked);
    if ranked != [] && Outranks(scores, ranked[0], x) {
      InsertInRange(scores, x, ranked[1..]);
      InsertKeepsRank(scores, x, ranked[1..]);
      FirstStaysFirst(scores, x, ranked, InsertRanked(scores, x, ranked[1..]));
    } else {
      NewFirst(scores, x, ranked);
    }
  }

  lemma FirstStaysFirst(scores: seq<real>, x: int, ranked: seq<int>, rest: seq<int>)
    requires 0 <= x < |scores| && ranked != [] && InRange(scores, ranked) && IsRanked(scores, ranked)
    requires Outranks(scores, ranked[0], x) && InRange(scores, rest) && IsRanked(scores, rest)
    requires forall y :: y in rest <==> y == x || y in ranked[1..]
    requires Distinct(ranked[1..]) && x !in ranked[1..] ==> Distinct(rest)
    ensures InRange(scores, [ranked[0]] + rest) && IsRanked(scores, [ranked[0]] + rest)
    ensures Distinct(ranked) && x !in ranked ==> Distinct([ranked[0]] + rest)
  {
    forall j | 0 <= j < |rest|
      ensures !Outranks(scores, rest[j], ranked[0]) && (Distinct(ranked) ==> rest[j] != ranked[0])
    {
      assert rest[j] in rest;
    }
  }

  lemma NewFirst(scores: seq<real>, x: int, ranked: seq<int>)
    requires 0 <= x < |scores| && InRange(scores, ranked) && IsRanked(scores, ranked)
    requires ranked == [] || !Outranks(scores, ranked[0], x)
    ensures InRange(scores, [x] + ranked) && IsRanked(scores, [x] + ranked)
    ensures Distinct(ranked) && x !in ranked ==> Distinct([x] + ranked)
  {
    forall j | 0 <= j < |ranked|
      ensures !Outranks(scores, ranked[j], x)
    {
      assert j > 0 ==> !Outranks(scores, ranked[j], ranked[0]);
    }
  }

  /** Ranking keeps the frames and puts the ones that outrank others first. */
  lemma {:induction false} RankedKeeps(scores: seq<real>, frames: seq<int>)
    requires InRange(scores, frames)
    ensures |Ranked(scores, frames)| == |frames| && IsRanked(scores, Ranked(scores, frames))
    ensures forall y :: y in Ranked(scores, frames) <==> y in frames
    ensures Distinct(frames) ==> Distinct(Ranked(scores, frames))
  {
    if frames != [] {
      RankedKeeps(scores, frames[1..]);
      InsertInRange(scores, frames[0], Ranked(scores, frames[1..]));
      InsertKeepsRank(scores, frames[0], Ranked(scores, frames[1..]));
      assert frames == [frames[0]] + frames[1..];
    }
  }

  /** A frame is a candidate when it is the first or the last, or changes enough. */
  ghost predicate IsCandidate(scores: seq<real>, threshold: real, i: int) {
    0 <= i < |scores| && (i == 0 || i == |scores| - 1 || scores[i] >= threshold)
  }

  /**
   What the temporal choice promises: candidates only; all of them when they fit, and else as many as fit, with the
   first frame, with the last when two fit, and with no inner candidate dropped that outranks a kept one.
   */
  ghost predicate IsTemporalChoice(scores: seq<real>, threshold: real, maxFrames: int, frames: seq<int>) {
    && Increasing(frames)
    && |frames| <= maxFrames
    && (forall i :: i in frames ==> IsCandidate(scores, threshold, i))
    && 0 in frames
    && (maxFrames >= 2 ==> |scores| - 1 in frames)
    && (|frames| < maxFrames ==> forall i :: IsCandidate(scores, threshold, i) ==> i in frames)
    && RanksAreRespected(scores, threshold, frames)
  }

  ghost predicate RanksAreRespected(scores: seq<real>, threshold: real, frames: seq<int>) {
    forall i, j ::
      (0 < i < |scores| - 1 && i in frames && 0 < j < |scores| - 1 && j !in frames && scores[j] >= threshold) ==>
        scores[i] > scores[j] || (scores[i] == scores[j] && i < j)
  }

  /** The final frame is kept exactly when the budget allows two frames, or there is only one. */
  lemma FinalFrameIsKeptIff(scores: seq<real>, threshold: real, maxFrames: int, frames: seq<int>)
    requires scores != [] && maxFrames >= 1 && IsTemporalChoice(scores, threshold, maxFrames, frames)
    ensures |scores| - 1 in frames <==> maxFrames >= 2 || |scores| == 1
  {
    if |scores| - 1 in frames && |scores| > 1 {
      AtLeastTwo(frames, 0, |scores| - 1);
    }
  }

  lemma AtLeastTwo(frames: seq<int>, x: int, y: int)
    requires x in frames && y in frames && x != y
    ensures |frames| >= 2
  {
  }

  ghost predicate AreCandidates(scores: seq<real>, threshold: real, selected: set<int>) {
    forall i :: i in selected <==> IsCandidate(scores, threshold, i)
  }

  lemma AllFit(scores: seq<real>, threshold: real, maxFrames: int, selected: set<int>)
    requires scores != [] && AreCandidates(scores, threshold, selected) && |selected| <= maxFrames
    ensures IsTemporalChoice(scores, threshold, maxFrames, Listed(selected, |scores|))
  {
    assert IsCandidate(scores, threshold, 0) && IsCandidate(scores, threshold, |scores| - 1);
    ListedAre(selected, |scores|);
    ListedSize(selected, |scores|);
  }

  /** The frames kept beside the boundaries: the best of the others. */
  function Best(scores: seq<real>, others: set<int>, budget: int): (r: seq<int>)
    ensures InRange(scores, r)
  {
    ListedAre(others, |scores|);
    var inner := Listed(others, |scores|);
    assert forall k :: 0 <= k < |inner| ==> inner[k] in inner;
    var ranked := Ranked(scores, inner);
    if budget <= 0 then [] else ranked[..Min(|ranked|, budget)]
  }

  lemma BestAre(scores: seq<real>, others: set<int>, budget: int)
    requires 0 <= budget <= |others| && forall i :: i in others ==> 0 <= i < |scores|
    ensures |SetOf(Best(scores, others, budget))| == budget && SetOf(Best(scores, others, budget)) <= others
    ensures forall i, j ::
      i in SetOf(Best(scores, others, budget)) && j in others && j !in SetOf(Best(scores, others, budget)) ==>
      Outranks(scores, i, j)
  {
    ListedAre(others, |scores|);
    ListedSize(others, |scores|);
    var inner := Listed(others, |scores|);
    assert forall k :: 0 <= k < |inner| ==> inner[k] in inner;
    RankedKeeps(scores, inner);
    var ranked := Ranked(scores, inner);
    var best := Best(scores, others, budget);
    assert best == ranked[..budget];
    SetOfDistinct(best);
    forall i, j | i in SetOf(best) && j in others && j !in SetOf(best)
      ensures Outranks(scores, i, j)
    {
      assert j in inner && j in ranked;
      EarlierOutranks(scores, ranked, budget, i, j);
    }
  }

  lemma EarlierOutranks(scores: seq<real>, ranked: seq<int>, budget: nat, i: int, j: int)
    requires InRange(scores, ranked) && IsRanked(scores, ranked) && budget <= |ranked|
    requires i in ranked[..budget] && j in ranked && j !in ranked[..budget]
    ensures Outranks(scores, i, j)
  {
    var a :| 0 <= a < budget && ranked[a] == i;
    var b :| 0 <= b < |ranked| && ranked[b] == j;
    assert forall c :: 0 <= c < budget ==> ranked[..budget][c] == ranked[c];
    assert !Outranks(scores, ranked[b], ranked[a]);
  }

  lemma BestFit(scores: seq<real>, threshold: real, maxFrames: int, selected: set<int>, boundaries: set<int>,
                best: set<int>)
    requires scores != [] && AreCandidates(scores, threshold, selected) && 1 <= maxFrames < |selected|
    requires boundaries == if maxFrames == 1 then {0} else {0, |scores| - 1}
    requires best <= selected - boundaries && |best| == maxFrames - |boundaries|
    requires forall i, j :: i in best && j in selected - boundaries && j !in best ==> Outranks(scores, i, j)
    ensures IsTemporalChoice(scores, threshold, maxFrames, Listed(boundaries + best, |scores|))
  {
    BoundariesAreCandidates(scores, threshold, boundaries);
    ListedAre(boundaries + best, |scores|);
    ListedSize(boundaries + best, |scores|);
    SizeOfUnion(boundaries, best);
    BestRespectRanks(scores, threshold, selected, boundaries, best, Listed(boundaries + best, |scores|));
  }

  lemma BestRespectRanks(scores: seq<real>, threshold: real, selected: set<int>, boundaries: set<int>, best: set<int>,
                         frames: seq<int>)
    requires scores != [] && AreCandidates(scores, threshold, selected) && 0 in boundaries &&
      boundaries <= {0, |scores| - 1}
    requires best <= selected - boundaries
    requires forall i, j :: i in best && j in selected - boundaries && j !in best ==> Outranks(scores, i, j)
    requires forall x :: x in frames <==> 0 <= x < |scores| && x in boundaries + best
    ensures RanksAreRespected(scores, threshold, frames)
  {
  }

  lemma BoundariesAreCandidates(scores: seq<real>, threshold: real, boundaries: set<int>)
    requires scores != [] && boundaries <= {0, |scores| - 1}
    ensures forall i :: i in boundaries ==> IsCandidate(scores, threshold, i)
  {
  }

  lemma SizeOfUnion(a: set<int>, b: set<int>)
    requires a !! b
    ensures |a + b| == |a| + |b|
  {
  }

  method SelectTemporalFrames(scores: seq<real>, threshold: real, maxFrames: int)
    returns (r: Result<seq<int>, FrameError>)
    ensures scores == [] ==> r == Success([])
    ensures scores != [] && maxFrames < 1 ==> r == Failure(MaxFramesTooSmall)
    ensures scores != [] && maxFrames >= 1 ==> r.Success? && IsTemporalChoice(scores, threshold, maxFrames, r.value)
  {
    if scores == [] {
      return Success([]);
    }
    if maxFrames < 1 {
      return Failure(MaxFramesTooSmall);
    }
    var last := |scores| - 1;
    var selected := {0, last};
    for index := 1 to |scores|
      invariant forall i :: i in selected <==> IsCandidate(scores, threshold, i) && (i < index || i == last)
    {
      if scores[index] >= threshold {
        selected := selected + {index};
      }
    }
    if |selected| <= maxFrames {
      AllFit(scores, threshold, maxFrames, selected);
    } else {
      var boundaries := if maxFrames == 1 then {0} else {0, last};
      var budget := maxFrames - |boundaries|;
      BudgetFits(selected, boundaries, maxFrames);
      BestAre(scores, selected - boundaries, budget);
      var best := SetOf(Best(scores, selected - boundaries, budget));
      BestFit(scores, threshold, maxFrames, selected, boundaries, best);
      selected := boundaries + best;
    }
    r := Success(Listed(selected, |scores|));
  }

  lemma BudgetFits(selected: set<int>, boundaries: set<int>, maxFrames: int)
    requires boundaries <= selected && |boundaries| <= maxFrames < |selected|
    ensures 0 <= maxFrames - |boundaries| <= |selected - boundaries|
  {
    assert selected == boundaries + (selected - boundaries);
    SizeOfUnion(boundaries, selected - boundaries);
  }
}
