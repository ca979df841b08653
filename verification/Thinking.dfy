/**
 The thinking splitter: separates a model's reasoning, between an opening and a
 closing marker, from its content, as the text arrives in chunks.  Partial markers
 are held back, markers are removed, and newlines after a marker are dropped.
 Splitting is proved to undo rendering however the rendered text was chunked.
 */
module Thinking {
  import opened Wrappers
  import opened Text

  datatype Markers = Markers(opens: seq<string>, closes: seq<string>, contents: seq<string>)

  datatype Splitter = Splitter(buffer: string, inThinking: bool, thinkingDone: bool)

  datatype Delta = Delta(reasoning: string, content: string)

  // ---------------------------------------------------------------- building blocks

  /** The first of the markers, from the `k`-th on, that occurs at `i`. */
  function MarkerOf(text: string, markers: seq<string>, i: nat, k: nat): (m: string)
    requires k <= |markers|
    ensures m != "" ==> OccursAt(text, i, m)
    decreases |markers| - k
  {
    if k == |markers| then ""
    else if markers[k] != "" && OccursAt(text, i, markers[k]) then markers[k]
    else MarkerOf(text, markers, i, k + 1)
  }

  lemma {:induction false} MarkerOfFinds(text: string, markers: seq<string>, i: nat, k: nat, j: nat)
    requires k <= j < |markers| && markers[j] != "" && OccursAt(text, i, markers[j])
    ensures MarkerOf(text, markers, i, k) != "" &&
      exists x :: 0 <= x < |markers| && markers[x] == MarkerOf(text, markers, i, k)
    decreases |markers| - k
  {
    if markers[k] == "" || !OccursAt(text, i, markers[k]) {
      MarkerOfFinds(text, markers, i, k + 1, j);
    }
  }

  /** Python's `text.replace(marker, "")` for a non-empty marker. */
  function Without(text: string, marker: string): string
    requires marker != ""
    decreases |text|
  {
    if text == "" then ""
    else if OccursAt(text, 0, marker) then Without(text[|marker|..], marker)
    else [text[0]] + Without(text[1..], marker)
  }

  /** All markers removed, one after the other, from the `k`-th on. */
  function Unmark(text: string, markers: seq<string>, k: nat): string
    requires k <= |markers|
    decreases |markers| - k
  {
    if k == |markers| then text
    else Unmark(if markers[k] == "" then text else Without(text, markers[k]), markers, k + 1)
  }

  function DropNewlines(text: string): (r: string)
    ensures |r| <= |text|
  {
    if text != "" && text[0] == '\n' then DropNewlines(text[1..]) else text
  }

  /** How much of the text can be passed on: all of it at the end, otherwise all but the held suffix. */
  function SafeLength(text: string, markers: seq<string>, final: bool): (n: nat)
    ensures n <= |text|
  {
    if final then |text| else |text| - Held(text, markers)
  }

  /** Pass on the part of the buffer that can hold no marker. */
  function Flush(s: Splitter, markers: seq<string>, final: bool): (Splitter, string) {
    var n := SafeLength(s.buffer, markers, final);
    (s.(buffer := s.buffer[n..]), s.buffer[..n])
  }

  /** The text after the marker at `i`, without the newlines that follow it. */
  function AfterMarker(text: string, markers: seq<string>, i: nat): (r: string)
    requires i < |text|
    ensures |r| <= |text|
    ensures MarkerOf(text, markers, i, 0) != "" ==> |r| < |text|
  {
    DropNewlines(text[i + |MarkerOf(text, markers, i, 0)|..])
  }

  function Plus(a: Delta, b: Delta): Delta {
    Delta(a.reasoning + b.reasoning, a.content + b.content)
  }

  /** The marker that ends the current phase, if the buffer holds one. */
  function Ending(s: Splitter, m: Markers): (r: Option<nat>)
    ensures r.Some? ==> r.value < |s.buffer|
  {
    if s.inThinking then FirstMarker(s.buffer, m.closes, 0)
    else if s.thinkingDone then None
    else FirstMarker(s.buffer, m.opens, 0)
  }

  /** The state and output of leaving a phase at its marker. */
  function Leave(s: Splitter, m: Markers, i: nat): (Splitter, Delta)
    requires i < |s.buffer|
  {
    if s.inThinking then
      (Splitter(AfterMarker(s.buffer, m.closes, i), false, true), Delta(Unmark(s.buffer[..i], m.opens, 0), ""))
    else
      (Splitter(AfterMarker(s.buffer, m.opens, i), true, s.thinkingDone),
       Delta("", Unmark(s.buffer[..i], m.contents, 0)))
  }

  /** The state and output of staying in a phase. */
  function Stay(s: Splitter, m: Markers, final: bool): (Splitter, Delta) {
    if s.inThinking then
      var (t, value) := Flush(s, m.closes, final);
      (t, Delta(Unmark(value, m.opens, 0), ""))
    else
      var (t, value) := Flush(s, if s.thinkingDone then m.contents else m.opens + m.contents, final);
      (t, Delta("", Unmark(value, m.contents, 0)))
  }

  /** How many phases may still follow. */
  function PhasesLeft(s: Splitter): nat {
    if s.inThinking then 1 else if s.thinkingDone then 0 else 2
  }

  /** The buffer worked off, phase by phase. */
  function Drain(s: Splitter, m: Markers, final: bool): (Splitter, Delta)
    decreases PhasesLeft(s)
  {
    if s.buffer == "" then (s, Delta("", ""))
    else
      var i := Ending(s, m);
      if i.None? then Stay(s, m, final)
      else
        var (t, first) := Leave(s, m, i.value);
        var (u, rest) := Drain(t, m, final);
        (u, Plus(first, rest))
  }

  function AfterFeed(s: Splitter, text: string, final: bool, m: Markers): (Splitter, Delta) {
    Drain(s.(buffer := s.buffer + text), m, final)
  }

  /** The state after the chunks, and all they put out. */
  function FeedAll(s: Splitter, chunks: seq<string>, m: Markers): (Splitter, Delta) {
    if chunks == [] then (s, Delta("", ""))
    else
      var (t, before) := FeedAll(s, chunks[..|chunks| - 1], m);
      var (u, last) := AfterFeed(t, chunks[|chunks| - 1], false, m);
      (u, Plus(before, last))
  }

  /** Everything put out for a text fed in chunks and then flushed. */
  function Split(s: Splitter, chunks: seq<string>, m: Markers): Delta {
    var (t, fed) := FeedAll(s, chunks, m);
    Plus(fed, AfterFeed(t, "", true, m).1)
  }

  // ---------------------------------------------------------------- text without markers

  ghost predicate NoMarker(text: string, markers: seq<string>) {
    forall i: nat :: !MarkerAt(text, markers, i)
  }

  lemma NoMarkerInPart(text: string, markers: seq<string>, x: nat, y: nat)
    requires x <= y <= |text| && NoMarker(text, markers)
    ensures NoMarker(text[x..y], markers)
  {
    forall i: nat ensures !MarkerAt(text[x..y], markers, i) {
      forall k | 0 <= k < |markers| && markers[k] != "" ensures !OccursAt(text[x..y], i, markers[k]) {
        PartOccurs(text, x, y, i, markers[k]);
        assert !MarkerAt(text, markers, x + i);
      }
    }
  }

  lemma PartOccurs(text: string, x: nat, y: nat, i: nat, m: string)
    requires x <= y <= |text|
    ensures OccursAt(text[x..y], i, m) ==> OccursAt(text, x + i, m)
    ensures OccursAt(text, x + i, m) && x + i + |m| <= y ==> OccursAt(text[x..y], i, m)
  {
    if i + |m| <= y - x {
      SliceOfSlice(text, x, y - x, i, |m|);
    }
  }

  lemma {:induction false} WithoutNothing(text: string, marker: string)
    requires marker != "" && forall i: nat :: !OccursAt(text, i, marker)
    ensures Without(text, marker) == text
    decreases |text|
  {
    if text != "" {
      forall i: nat ensures !OccursAt(text[1..], i, marker) {
        PartOccurs(text, 1, |text|, i, marker);
      }
      WithoutNothing(text[1..], marker);
    }
  }

  lemma {:induction false} UnmarkNothing(text: string, markers: seq<string>, k: nat)
    requires k <= |markers| && NoMarker(text, markers)
    ensures Unmark(text, markers, k) == text
    decreases |markers| - k
  {
    if k < |markers| {
      if markers[k] != "" {
        forall i: nat ensures !OccursAt(text, i, markers[k]) {
          assert !MarkerAt(text, markers, i);
        }
        WithoutNothing(text, markers[k]);
      }
      UnmarkNothing(text, markers, k + 1);
    }
  }

  // ---------------------------------------------------------------- announced markers

  /**
   In `before + marker`, the marker is the first of the markers to be completed:
   none is completed earlier, none that starts earlier is completed with it or by
   more text, and none continues it.
   */
  ghost predicate Announces(before: string, marker: string, markers: seq<string>) {
    && marker != "" && (exists k :: 0 <= k < |markers| && markers[k] == marker)
    && NoMarker(before + marker[..|marker| - 1], markers)
    && (forall i: nat | i < |before| :: !MarkerAt(before + marker, markers, i))
    && (forall k | 0 <= k < |markers| :: marker <= markers[k] ==> markers[k] == marker)
    && (forall k, o: nat | 0 <= k < |markers| :: !InsideAt(markers[k], marker, o))
  }

  lemma AnnouncesTail(before: string, marker: string, markers: seq<string>, n: nat)
    requires Announces(before, marker, markers) && n <= |before|
    ensures Announces(before[n..], marker, markers)
  {
    var whole := before + marker[..|marker| - 1];
    NoMarkerInPart(whole, markers, n, |whole|);
    assert whole[n..|whole|] == before[n..] + marker[..|marker| - 1];
    assert before + marker == before[..n] + (before[n..] + marker);
    forall i: nat | i < |before[n..]| ensures !MarkerAt(before[n..] + marker, markers, i) {
      MarkerInTail(before[..n], before[n..] + marker, markers, i);
    }
  }

  /** While the announced marker is incomplete, no marker is found. */
  lemma NotYetFound(before: string, marker: string, markers: seq<string>, text: string)
    requires Announces(before, marker, markers) && text <= before + marker && |text| < |before| + |marker|
    ensures FirstMarker(text, markers, 0).None?
  {
    var whole := before + marker[..|marker| - 1];
    assert text == whole[0..|text|];
    NoMarkerInPart(whole, markers, 0, |text|);
    FirstIsUnique(text, markers, 0, None);
  }

  /** Nothing of an incomplete marker is passed on. */
  lemma PartialIsHeld(before: string, marker: string, markers: seq<string>, text: string)
    requires marker != "" && exists k :: 0 <= k < |markers| && markers[k] == marker
    requires text <= before + marker && |text| < |before| + |marker|
    ensures SafeLength(text, markers, false) <= |before|
  {
    if |text| > |before| {
      var j := |text| - |before|;
      assert text[|text| - j..] == marker[..j];
      assert EndsInPartial(text, markers, j);
    }
  }

  lemma AnnouncedStart(before: string, marker: string, markers: seq<string>, more: string, i: nat)
    requires Announces(before, marker, markers) && i < |before|
    ensures !MarkerAt(before + marker + more, markers, i)
  {
    var text := before + marker + more;
    forall k | 0 <= k < |markers| && markers[k] != "" ensures !OccursAt(text, i, markers[k]) {
      var m := markers[k];
      OccursInPrefix(before + marker, more, i, m);
      assert !MarkerAt(before + marker, markers, i);
      if OccursAt(text, i, m) {
        assert |before| + |marker| < i + |m|;
        SliceOfSlice(text, i, |m|, |before| - i, |marker|);
        assert text[|before|..|before| + |marker|] == marker;
        assert InsideAt(m, marker, |before| - i);
        assert false;
      }
    }
  }

  /** Once complete, the announced marker is the one found. */
  lemma AnnouncedIsFound(before: string, marker: string, markers: seq<string>, more: string)
    requires Announces(before, marker, markers)
    ensures FirstMarker(before + marker + more, markers, 0) == Some(|before|)
    ensures MarkerOf(before + marker + more, markers, |before|, 0) == marker
  {
    var text := before + marker + more;
    forall i: nat | i < |before| ensures !MarkerAt(text, markers, i) {
      AnnouncedStart(before, marker, markers, more, i);
    }
    var k :| 0 <= k < |markers| && markers[k] == marker;
    assert text[|before|..|before| + |marker|] == marker;
    assert MarkerAt(text, markers, |before|);
    FirstIsUnique(text, markers, 0, Some(|before|));
    MarkerOfFinds(text, markers, |before|, 0, k);
    var x :| 0 <= x < |markers| && markers[x] == MarkerOf(text, markers, |before|, 0);
    OnlyMarkerThere(before, marker, markers, more, x);
  }

  lemma OnlyMarkerThere(before: string, marker: string, markers: seq<string>, more: string, x: nat)
    requires Announces(before, marker, markers) && x < |markers| && markers[x] != ""
    requires OccursAt(before + marker + more, |before|, markers[x])
    ensures markers[x] == marker
  {
    var text, m := before + marker + more, markers[x];
    var n := Min(|m|, |marker|);
    assert text[|before|..|before| + |marker|] == marker;
    assert m[..n] == text[|before|..|before| + n] == marker[..n];
    if |m| < |marker| {
      ShorterIsComplete(before, marker, markers, x);
    }
  }

  lemma ShorterIsComplete(before: string, marker: string, markers: seq<string>, x: nat)
    requires x < |markers| && markers[x] != "" && markers[x] <= marker && |markers[x]| < |marker|
    ensures MarkerAt(before + marker[..|marker| - 1], markers, |before|)
  {
    var whole := before + marker[..|marker| - 1];
    assert whole[|before|..|before| + |markers[x]|] == markers[x];
  }

  // ---------------------------------------------------------------- texts with markers to be removed

  /** A text in which markers of a list occur, each given by its index. */
  datatype Marked = Plain(text: string) | Mark(before: string, k: nat, rest: Marked)

  function Render(t: Marked, ms: seq<string>): string {
    match t
    case Plain(text) => text
    case Mark(before, k, rest) => before + ((if k < |ms| then ms[k] else "") + Render(rest, ms))
  }

  /** The text without its markers. */
  function Clean(t: Marked): string {
    match t
    case Plain(text) => text
    case Mark(before, _, rest) => before + Clean(rest)
  }

  /** No earlier marker occurs in marker `k`, and no marker starts in it and goes on beyond its end. */
  ghost predicate Removable(ms: seq<string>, k: nat) {
    && k < |ms| && ms[k] != ""
    && (forall j, o: nat | 0 <= j < k && ms[j] != "" :: !OccursAt(ms[k], o, ms[j]))
    && (forall j | 0 <= j < |ms| :: ms[k] <= ms[j] ==> ms[j] == ms[k])
    && (forall j, o: nat | 0 <= j < |ms| && 0 < o < |ms[k]| :: ms[k][o..] <= ms[j] ==> ms[k][o..] == ms[j])
  }

  ghost predicate NoPartial(text: string, ms: seq<string>) {
    forall n: nat | 0 < n <= |text| :: !EndsInPartial(text, ms, n)
  }

  /** Besides its markers the text holds none, nor anything before a marker that could become one. */
  ghost predicate Tidy(t: Marked, ms: seq<string>) {
    match t
    case Plain(text) => NoMarker(text, ms)
    case Mark(before, k, rest) =>
      NoMarker(before, ms) && NoPartial(before, ms) && Removable(ms, k) && Tidy(rest, ms)
  }

  ghost predicate From(t: Marked, k: nat) {
    t.Mark? ==> t.k >= k && From(t.rest, k)
  }

  /** Removal skips what no occurrence starts in. */
  lemma {:induction false} WithoutSkips(x: string, y: string, m: string)
    requires m != "" && forall i: nat | i < |x| :: !OccursAt(x + y, i, m)
    ensures Without(x + y, m) == x + Without(y, m)
  {
    if x == "" {
      assert x + y == y && x + Without(y, m) == Without(y, m);
    } else {
      var rest := x[1..];
      assert x + y == [x[0]] + (rest + y) && (x + y)[1..] == rest + y;
      forall i: nat | i < |rest| ensures !OccursAt(rest + y, i, m) {
        OccursInSuffix([x[0]], rest + y, i, m);
        assert !OccursAt(x + y, i + 1, m);
      }
      WithoutSkips(rest, y, m);
      assert !OccursAt(x + y, 0, m);
      assert [x[0]] + (rest + Without(y, m)) == x + Without(y, m);
    }
  }

  /** Removal takes the first occurrence away and goes on behind it. */
  lemma WithoutFirst(a: string, m: string, b: string)
    requires m != "" && forall i: nat | i < |a| :: !OccursAt(a + (m + b), i, m)
    ensures Without(a + (m + b), m) == a + Without(b, m)
  {
    WithoutSkips(a, m + b, m);
    assert (m + b)[..|m|] == m && (m + b)[|m|..] == b;
  }

  lemma NoStartBefore(before: string, more: string, ms: seq<string>, j: nat, i: nat)
    requires NoMarker(before, ms) && NoPartial(before, ms) && j < |ms| && ms[j] != "" && i < |before|
    ensures !OccursAt(before + more, i, ms[j])
  {
    var m := ms[j];
    if i + |m| <= |before| {
      OccursInPrefix(before, more, i, m);
      assert !MarkerAt(before, ms, i);
    } else {
      assert before[|before| - (|before| - i)..] == before[i..];
      assert !EndsInPartial(before, ms, |before| - i);
      NoOverlap(before, more, i, m);
    }
  }

  lemma NoStartInside(ms: seq<string>, k: nat, more: string, j: nat, o: nat)
    requires Removable(ms, k) && j < k && ms[j] != "" && o < |ms[k]|
    ensures !OccursAt(ms[k] + more, o, ms[j])
  {
    var mark, m := ms[k], ms[j];
    assert mark[0..] == mark;
    if o + |m| <= |mark| {
      OccursInPrefix(mark, more, o, m);
    } else {
      NoOverlap(mark, more, o, m);
    }
  }

  /** A marker that the end of another does not begin does not start there. */
  lemma NoOverlap(mark: string, more: string, o: nat, m: string)
    requires o < |mark| < o + |m| && (mark[o..] <= m ==> mark[o..] == m)
    ensures !OccursAt(mark + more, o, m)
  {
    var end := mark[o..];
    var i :| 0 <= i < |end| && end[i] != m[i];
    assert o + |m| <= |mark + more| ==> (mark + more)[o..o + |m|][i] == end[i];
  }

  function Prepend(a: string, t: Marked): Marked {
    match t
    case Plain(text) => Plain(a + text)
    case Mark(before, k, rest) => Mark(a + before, k, rest)
  }

  lemma PrependKeeps(a: string, t: Marked, ms: seq<string>, k: nat)
    requires NoMarker(a, ms) && NoPartial(a, ms) && Tidy(t, ms) && From(t, k)
    ensures Tidy(Prepend(a, t), ms) && From(Prepend(a, t), k)
    ensures Render(Prepend(a, t), ms) == a + Render(t, ms) && Clean(Prepend(a, t)) == a + Clean(t)
  {
    var b := if t.Plain? then t.text else t.before;
    JoinIsClear(a, b, ms);
    if t.Mark? {
      Associates(a, b, ms[t.k] + Render(t.rest, ms));
      Associates(a, b, Clean(t.rest));
    }
  }

  lemma JoinIsClear(a: string, b: string, ms: seq<string>)
    requires NoMarker(a, ms) && NoPartial(a, ms) && NoMarker(b, ms)
    ensures NoMarker(a + b, ms)
    ensures NoPartial(b, ms) ==> NoPartial(a + b, ms)
  {
    forall i: nat ensures !MarkerAt(a + b, ms, i) {
      forall j | 0 <= j < |ms| && ms[j] != "" ensures !OccursAt(a + b, i, ms[j]) {
        if i < |a| {
          NoStartBefore(a, b, ms, j, i);
        } else {
          OccursInSuffix(a, b, i - |a|, ms[j]);
          assert !MarkerAt(b, ms, i - |a|);
        }
      }
    }
    if NoPartial(b, ms) {
      forall n: nat | 0 < n <= |a + b| ensures !EndsInPartial(a + b, ms, n) {
        JoinEndsInNone(a, b, ms, n);
      }
    }
  }

  lemma JoinEndsInNone(a: string, b: string, ms: seq<string>, n: nat)
    requires NoPartial(a, ms) && NoPartial(b, ms) && 0 < n <= |a + b|
    ensures !EndsInPartial(a + b, ms, n)
  {
    var tail := (a + b)[|a + b| - n..];
    if n <= |b| {
      assert tail == b[|b| - n..];
      assert !EndsInPartial(b, ms, n);
    } else {
      var x := n - |b|;
      assert tail[..x] == a[|a| - x..];
      forall j | 0 <= j < |ms| && n < |ms[j]| ensures tail != ms[j][..n] {
        assert !EndsInPartial(a, ms, x);
        assert ms[j][..n][..x] == ms[j][..x] != tail[..x];
      }
    }
  }

  /** Marker `k` taken out. */
  function Drop(t: Marked, k: nat): Marked {
    match t
    case Plain(_) => t
    case Mark(before, j, rest) => if j == k then Prepend(before, Drop(rest, k)) else Mark(before, j, Drop(rest, k))
  }

  lemma {:induction false} DropIsWithout(t: Marked, ms: seq<string>, k: nat)
    requires Tidy(t, ms) && From(t, k) && k < |ms| && ms[k] != ""
    ensures Render(Drop(t, k), ms) == Without(Render(t, ms), ms[k]) && Clean(Drop(t, k)) == Clean(t)
    ensures Tidy(Drop(t, k), ms) && From(Drop(t, k), k + 1)
  {
    match t
    case Plain(text) =>
      forall i: nat ensures !OccursAt(text, i, ms[k]) {
        assert !MarkerAt(text, ms, i);
      }
      WithoutNothing(text, ms[k]);
    case Mark(before, j, rest) =>
      DropIsWithout(rest, ms, k);
      forall i: nat | i < |before| ensures !OccursAt(before + (ms[j] + Render(rest, ms)), i, ms[k]) {
        NoStartBefore(before, ms[j] + Render(rest, ms), ms, k, i);
      }
      if j == k {
        WithoutFirst(before, ms[k], Render(rest, ms));
        PrependKeeps(before, Drop(rest, k), ms, k + 1);
      } else {
        forall o: nat | o < |ms[j]| ensures !OccursAt(ms[j] + Render(rest, ms), o, ms[k]) {
          NoStartInside(ms, j, Render(rest, ms), k, o);
        }
        WithoutSkips(before, ms[j] + Render(rest, ms), ms[k]);
        WithoutSkips(ms[j], Render(rest, ms), ms[k]);
      }
  }

  /** Removing all markers in turn leaves the clean text. */
  lemma {:induction false} UnmarkIsClean(t: Marked, ms: seq<string>, k: nat)
    requires Tidy(t, ms) && From(t, k) && k <= |ms|
    ensures Unmark(Render(t, ms), ms, k) == Clean(t)
    decreases |ms| - k
  {
    if k < |ms| {
      if ms[k] == "" {
        NoneIsEmpty(t, ms, k);
        UnmarkIsClean(t, ms, k + 1);
      } else {
        DropIsWithout(t, ms, k);
        UnmarkIsClean(Drop(t, k), ms, k + 1);
      }
    }
  }

  lemma {:induction false} NoneIsEmpty(t: Marked, ms: seq<string>, k: nat)
    requires Tidy(t, ms) && From(t, k) && k < |ms| && ms[k] == ""
    ensures From(t, k + 1)
  {
    if t.Mark? {
      NoneIsEmpty(t.rest, ms, k);
    }
  }

  lemma {:induction false} FromZero(t: Marked)
    ensures From(t, 0)
  {
    if t.Mark? {
      FromZero(t.rest);
    }
  }

  // ---------------------------------------------------------------- cutting such a text where it is passed on

  /** `text` is a proper prefix of some marker. */
  ghost predicate Partial(text: string, ms: seq<string>) {
    exists j :: 0 <= j < |ms| && |text| < |ms[j]| && ms[j][..|text|] == text
  }

  /** Marker `k` is held back while it is incomplete, and no longer when it is complete. */
  ghost predicate Holdable(ms: seq<string>, held: seq<string>, k: nat) {
    && k < |ms|
    && (forall c: nat | 0 < c < |ms[k]| :: Partial(ms[k][..c], held))
    && (forall j, o: nat | 0 <= j < |held| && 0 < o < |ms[k]| :: ms[k][o..] <= held[j] ==> ms[k][o..] == held[j])
  }

  ghost predicate AllHoldable(t: Marked, ms: seq<string>, held: seq<string>) {
    t.Mark? ==> Holdable(ms, held, t.k) && AllHoldable(t.rest, ms, held)
  }

  /** Of the first `len` characters all but the longest partial marker at their end is before `n`. */
  ghost predicate SafeCut(text: string, held: seq<string>, len: nat, n: nat) {
    && n <= len <= |text|
    && (n == len || Partial(text[n..len], held))
    && forall x: nat | x < n :: !Partial(text[x..len], held)
  }

  lemma HeldIsSafe(buffer: string, unfed: string, held: seq<string>)
    ensures SafeCut(buffer + unfed, held, |buffer|, |buffer| - Held(buffer, held))
  {
    var text, n := buffer + unfed, |buffer| - Held(buffer, held);
    forall x: nat | x <= |buffer|
      ensures x < |buffer| ==> (Partial(text[x..|buffer|], held) <==> EndsInPartial(buffer, held, |buffer| - x))
    {
      assert text[x..|buffer|] == buffer[|buffer| - (|buffer| - x)..];
    }
  }

  lemma CutBehind(a: string, text: string, held: seq<string>, len: nat, n: nat)
    requires SafeCut(a + text, held, len, n) && |a| <= n
    ensures SafeCut(text, held, len - |a|, n - |a|)
  {
    var l := len - |a|;
    forall x: nat | x <= l ensures text[x..l] == (a + text)[x + |a|..len] {}
    forall x: nat | x < n - |a| ensures !Partial(text[x..l], held) {
      assert !Partial((a + text)[x + |a|..len], held);
    }
  }

  /** What starts inside a holdable marker and goes on beyond its end is no partial marker. */
  lemma NoPartialBehind(ms: seq<string>, k: nat, held: seq<string>, o: nat, tail: string)
    requires Holdable(ms, held, k) && 0 < o < |ms[k]| && ms[k][o..] <= tail
    ensures !Partial(tail, held)
  {
    forall j | 0 <= j < |held| && |tail| < |held[j]|
      ensures held[j][..|tail|] != tail
    {
      var end := ms[k][o..];
      var i :| 0 <= i < |end| && end[i] != held[j][i];
      assert tail[i] == end[i] && held[j][..|tail|][i] == held[j][i];
    }
  }

  lemma InTheMiddle(a: string, mark: string, more: string, x: nat, len: nat)
    requires |a| <= x <= |a| + |mark| && x <= len <= |a| + |mark| + |more|
    ensures len <= |a| + |mark| ==> (a + (mark + more))[x..len] == mark[x - |a|..len - |a|]
    ensures |a| + |mark| <= len ==> mark[x - |a|..] <= (a + (mark + more))[x..len]
  {
  }

  lemma NotCutInside(a: string, ms: seq<string>, k: nat, more: string, held: seq<string>, len: nat, n: nat)
    requires Holdable(ms, held, k) && SafeCut(a + (ms[k] + more), held, len, n)
    ensures n <= |a| || n >= |a| + |ms[k]|
  {
    var mark, text := ms[k], a + (ms[k] + more);
    if |a| < len < |a| + |mark| {
      InTheMiddle(a, mark, more, |a|, len);
      assert Partial(text[|a|..len], held);
    } else if |a| + |mark| <= len {
      forall x: nat | |a| < x < |a| + |mark| ensures !Partial(text[x..len], held) {
        InTheMiddle(a, mark, more, x, len);
        NoPartialBehind(ms, k, held, x - |a|, text[x..len]);
      }
    }
  }

  /** A safe cut takes whole markers, and both parts are such texts again. */
  lemma {:induction false} CutMarked(t: Marked, ms: seq<string>, more: string, held: seq<string>, len: nat, n: nat)
    returns (t1: Marked, t2: Marked)
    requires Tidy(t, ms) && AllHoldable(t, ms, held) && SafeCut(Render(t, ms) + more, held, len, n)
    requires n <= |Render(t, ms)|
    ensures Tidy(t1, ms) && Render(t1, ms) == Render(t, ms)[..n]
    ensures Tidy(t2, ms) && AllHoldable(t2, ms, held) && Render(t2, ms) == Render(t, ms)[n..]
    ensures Clean(t1) + Clean(t2) == Clean(t)
  {
    match t
    case Plain(text) =>
      t1, t2 := Plain(text[..n]), Plain(text[n..]);
      PartIsClear(text, ms, n);
    case Mark(before, k, rest) =>
      var all := Render(rest, ms);
      Associates(before, ms[k] + all, more);
      Associates(ms[k], all, more);
      NotCutInside(before, ms, k, all + more, held, len, n);
      if n <= |before| {
        t1, t2 := Plain(before[..n]), Mark(before[n..], k, rest);
        PartIsClear(before, ms, n);
        assert before == before[..n] + before[n..];
        DropPrefix(before, ms[k] + all, n);
        Associates(before[..n], before[n..], Clean(rest));
      } else {
        var gone := |before| + |ms[k]|;
        Associates(before, ms[k], all + more);
        CutBehind(before + ms[k], all + more, held, len, n);
        var r1, r2 := CutMarked(rest, ms, more, held, len - gone, n - gone);
        t1, t2 := Mark(before, k, r1), r2;
        Associates(before, ms[k], all);
        CutConcat(before + ms[k], all, n);
        Associates(before, ms[k], all[..n - gone]);
        Associates(before, Clean(r1), Clean(r2));
      }
  }

  lemma PartIsClear(text: string, ms: seq<string>, n: nat)
    requires NoMarker(text, ms) && n <= |text|
    ensures NoMarker(text[..n], ms) && NoMarker(text[n..], ms) && text[..n] + text[n..] == text
    ensures NoPartial(text, ms) ==> NoPartial(text[n..], ms)
  {
    NoMarkerInPart(text, ms, 0, n);
    NoMarkerInPart(text, ms, n, |text|);
    assert text[0..n] == text[..n] && text[n..|text|] == text[n..];
    if NoPartial(text, ms) {
      forall x: nat | 0 < x <= |text[n..]| ensures !EndsInPartial(text[n..], ms, x) {
        assert text[n..][|text[n..]| - x..] == text[|text| - x..];
        assert !EndsInPartial(text, ms, x);
      }
    }
  }

  lemma DropPrefix(a: string, b: string, n: nat)
    requires n <= |a|
    ensures (a + b)[..n] == a[..n] && (a + b)[n..] == a[n..] + b
  {
  }

  lemma CutConcat(a: string, b: string, n: nat)
    requires |a| <= n <= |a| + |b|
    ensures (a + b)[..n] == a + b[..n - |a|] && (a + b)[n..] == b[n - |a|..]
  {
  }

  lemma Associates(a: string, b: string, c: string)
    ensures (a + b) + c == a + (b + c)
  {
  }

  // ---------------------------------------------------------------- what is still to come

  datatype Phase = Pre | Think | Post

  function PhaseOf(s: Splitter): Phase {
    if s.inThinking then Think else if s.thinkingDone then Post else Pre
  }

  function After(p: Phase): Phase {
    if p.Pre? then Think else Post
  }

  /** The markers that end a phase, those removed from its text, and those held back while incomplete. */
  ghost function Enders(p: Phase, m: Markers): seq<string> {
    match p
    case Pre => m.opens
    case Think => m.closes
    case Post => []
  }

  ghost function Removed(p: Phase, m: Markers): seq<string> {
    if p.Think? then m.opens else m.contents
  }

  ghost function HeldBack(p: Phase, m: Markers): seq<string> {
    match p
    case Pre => m.opens + m.contents
    case Think => m.closes
    case Post => m.contents
  }

  /** The part of a text that has not been put out: the last of it, or up to the marker that ends its phase. */
  datatype Rest = Last(text: Marked) | Before(text: Marked, marker: string, next: Rest)

  ghost function Rendered(r: Rest, p: Phase, m: Markers): string {
    match r
    case Last(text) => Render(text, Removed(p, m))
    case Before(text, marker, next) => Render(text, Removed(p, m)) + (marker + Rendered(next, After(p), m))
  }

  function Put(p: Phase, text: string): Delta {
    if p.Think? then Delta(text, "") else Delta("", text)
  }

  /** What splitting should put out. */
  function Promise(r: Rest, p: Phase): Delta {
    match r
    case Last(text) => Put(p, Clean(text))
    case Before(text, _, next) => Plus(Put(p, Clean(text)), Promise(next, After(p)))
  }

  predicate NoNewlineAtStart(text: string) {
    text == "" || text[0] != '\n'
  }

  /** The texts introduce no marker of their own, and no newline follows a marker that ends a phase. */
  ghost predicate Well(r: Rest, p: Phase, m: Markers) {
    var text := Render(r.text, Removed(p, m));
    && Tidy(r.text, Removed(p, m)) && AllHoldable(r.text, Removed(p, m), HeldBack(p, m))
    && match r
       case Last(_) => NoMarker(text, Enders(p, m))
       case Before(_, marker, next) =>
         && !p.Post? && Announces(text, marker, Enders(p, m))
         && NoNewlineAtStart(Rendered(next, After(p), m)) && Well(next, After(p), m)
  }

  /** The buffer, followed by what has not been fed yet, is the rendering of what is still to come. */
  ghost predicate Expects(s: Splitter, r: Rest, unfed: string, m: Markers) {
    Well(r, PhaseOf(s), m) && Rendered(r, PhaseOf(s), m) == s.buffer + unfed
  }

  /** `d` was put out, and `r1` is what remains of `r0`. */
  ghost predicate Kept(p0: Phase, r0: Rest, d: Delta, p1: Phase, r1: Rest) {
    Plus(d, Promise(r1, p1)) == Promise(r0, p0)
  }

  lemma KeptTwice(p0: Phase, r0: Rest, d0: Delta, p1: Phase, r1: Rest, d1: Delta, p2: Phase, r2: Rest)
    requires Kept(p0, r0, d0, p1, r1) && Kept(p1, r1, d1, p2, r2)
    ensures Kept(p0, r0, Plus(d0, d1), p2, r2)
  {
    PlusAssociates(d0, d1, Promise(r2, p2));
  }

  lemma PlusAssociates(a: Delta, b: Delta, c: Delta)
    ensures Plus(Plus(a, b), c) == Plus(a, Plus(b, c))
  {
    Associates(a.reasoning, b.reasoning, c.reasoning);
    Associates(a.content, b.content, c.content);
  }

  lemma PutTwice(p: Phase, a: string, b: string)
    ensures Plus(Put(p, a), Put(p, b)) == Put(p, a + b)
  {
    assert "" + "" == "";
  }

  lemma Everything(d: Delta)
    ensures Plus(d, Delta("", "")) == d
  {
    assert d.reasoning + "" == d.reasoning && d.content + "" == d.content;
  }

  // ---------------------------------------------------------------- staying in a phase

  /** What a phase passes on is held back and cleaned by its own markers. */
  lemma StayIs(s: Splitter, m: Markers, final: bool)
    ensures var p, n := PhaseOf(s), SafeLength(s.buffer, HeldBack(PhaseOf(s), m), final);
            Stay(s, m, final) ==
            (s.(buffer := s.buffer[n..]), Put(p, Unmark(s.buffer[..n], Removed(p, m), 0)))
  {
  }

  /** Some of a text that goes on is put out, and no part of the marker that ends it. */
  lemma StayBefore(s: Splitter, r: Rest, unfed: string, m: Markers) returns (left: Rest)
    requires Expects(s, r, unfed, m) && r.Before? && s.buffer != ""
    requires |s.buffer| < |Render(r.text, Removed(PhaseOf(s), m))| + |r.marker|
    ensures Ending(s, m).None?
    ensures var (t, d) := Stay(s, m, false);
            Expects(t, left, unfed, m) && Kept(PhaseOf(s), r, d, PhaseOf(t), left)
  {
    var p := PhaseOf(s);
    var text, rest := Render(r.text, Removed(p, m)), Rendered(r.next, After(p), m);
    Associates(text, r.marker, rest);
    PrefixOfConcat(s.buffer, unfed, text + r.marker, rest);
    NotYetFound(text, r.marker, Enders(p, m), s.buffer);
    EnderIsHeld(p, m, r.marker);
    PartialIsHeld(text, r.marker, HeldBack(p, m), s.buffer);
    var n := SafeLength(s.buffer, HeldBack(p, m), false);
    StayIs(s, m, false);
    HeldIsSafe(s.buffer, unfed, HeldBack(p, m));
    var t1, t2 := CutMarked(r.text, Removed(p, m), r.marker + rest, HeldBack(p, m), |s.buffer|, n);
    left := Before(t2, r.marker, r.next);
    PassedOn(s.buffer, unfed, text, r.marker + rest, n);
    FromZero(t1);
    UnmarkIsClean(t1, Removed(p, m), 0);
    AnnouncesTail(text, r.marker, Enders(p, m), n);
    PutTwice(p, Clean(t1), Clean(t2));
    PlusAssociates(Put(p, Clean(t1)), Put(p, Clean(t2)), Promise(r.next, After(p)));
  }

  lemma EnderIsHeld(p: Phase, m: Markers, marker: string)
    requires !p.Post? && exists k :: 0 <= k < |Enders(p, m)| && Enders(p, m)[k] == marker
    ensures exists k :: 0 <= k < |HeldBack(p, m)| && HeldBack(p, m)[k] == marker
  {
    var k :| 0 <= k < |Enders(p, m)| && Enders(p, m)[k] == marker;
    assert HeldBack(p, m)[k] == marker;
  }

  lemma PassedOn(buffer: string, unfed: string, text: string, rest: string, n: nat)
    requires text + rest == buffer + unfed && n <= |buffer| && n <= |text|
    ensures buffer[..n] == text[..n] && text[n..] + rest == buffer[n..] + unfed
  {
    assert (text + rest)[..n] == text[..n] && (buffer + unfed)[..n] == buffer[..n];
    assert (text + rest)[n..] == text[n..] + rest && (buffer + unfed)[n..] == buffer[n..] + unfed;
  }

  lemma PrefixOfConcat(a: string, b: string, c: string, d: string)
    requires a + b == c + d && |a| <= |c|
    ensures a <= c
  {
    assert a == (a + b)[..|a|] == (c + d)[..|a|] == c[..|a|];
  }

  /** Some of a last text is put out; all of it at the end. */
  lemma StayLast(s: Splitter, r: Rest, unfed: string, m: Markers, final: bool) returns (left: Rest)
    requires Expects(s, r, unfed, m) && r.Last? && s.buffer != "" && (final ==> unfed == "")
    ensures Ending(s, m).None?
    ensures var (t, d) := Stay(s, m, final);
            && Expects(t, left, unfed, m) && Kept(PhaseOf(s), r, d, PhaseOf(t), left)
            && (final ==> t.buffer == "" && Promise(left, PhaseOf(t)) == Delta("", ""))
  {
    var p := PhaseOf(s);
    var text := Render(r.text, Removed(p, m));
    NoMarkerInPart(text, Enders(p, m), 0, |s.buffer|);
    assert text[0..|s.buffer|] == s.buffer;
    FirstIsUnique(s.buffer, Enders(p, m), 0, None);
    StayIs(s, m, final);
    if final {
      assert text == s.buffer && s.buffer[..|s.buffer|] == s.buffer;
      FromZero(r.text);
      UnmarkIsClean(r.text, Removed(p, m), 0);
      left := Last(Plain(""));
      assert s.buffer[|s.buffer|..] == "" && "" + "" == "";
      Everything(Put(p, Clean(r.text)));
    } else {
      left := StayLastInPart(s, r, unfed, m);
    }
  }

  lemma StayLastInPart(s: Splitter, r: Rest, unfed: string, m: Markers) returns (left: Rest)
    requires Expects(s, r, unfed, m) && r.Last? && s.buffer != ""
    ensures var (t, d) := Stay(s, m, false);
            Expects(t, left, unfed, m) && Kept(PhaseOf(s), r, d, PhaseOf(t), left)
  {
    var p := PhaseOf(s);
    var text, n := Render(r.text, Removed(p, m)), SafeLength(s.buffer, HeldBack(p, m), false);
    StayIs(s, m, false);
    HeldIsSafe(s.buffer, unfed, HeldBack(p, m));
    assert text + "" == text && text[n..] + "" == text[n..];
    var t1, t2 := CutMarked(r.text, Removed(p, m), "", HeldBack(p, m), |s.buffer|, n);
    left := Last(t2);
    PassedOn(s.buffer, unfed, text, "", n);
    FromZero(t1);
    UnmarkIsClean(t1, Removed(p, m), 0);
    NoMarkerInPart(text, Enders(p, m), n, |text|);
    assert text[n..|text|] == text[n..];
    PutTwice(p, Clean(t1), Clean(t2));
  }

  // ---------------------------------------------------------------- leaving a phase

  lemma SplitAt(a: string, b: string, c: string, d: string)
    requires a + b == c + d && |a| >= |c|
    ensures a == c + a[|c|..] && d == a[|c|..] + b
  {
    assert c == (c + d)[..|c|] == (a + b)[..|c|] == a[..|c|];
    assert d == (c + d)[|c|..] == (a + b)[|c|..];
  }

  /** Once its marker is complete the phase ends, its text is put out clean, and the next one is expected. */
  lemma LeaveBefore(s: Splitter, r: Rest, unfed: string, m: Markers)
    requires Expects(s, r, unfed, m) && r.Before?
    requires |s.buffer| >= |Render(r.text, Removed(PhaseOf(s), m))| + |r.marker|
    ensures var i := |Render(r.text, Removed(PhaseOf(s), m))|;
            && Ending(s, m) == Some(i)
            && var (t, d) := Leave(s, m, i);
            && PhaseOf(t) == After(PhaseOf(s)) && Expects(t, r.next, unfed, m) && d == Put(PhaseOf(s), Clean(r.text))
  {
    var p := PhaseOf(s);
    var text, rest := Render(r.text, Removed(p, m)), Rendered(r.next, After(p), m);
    var more := s.buffer[|text| + |r.marker|..];
    Associates(text, r.marker, rest);
    SplitAt(s.buffer, unfed, text + r.marker, rest);
    AnnouncedIsFound(text, r.marker, Enders(p, m), more);
    FromZero(r.text);
    UnmarkIsClean(r.text, Removed(p, m), 0);
    assert s.buffer[..|text|] == text;
    assert more == "" || more[0] == rest[0];
  }

  /** Working off the buffer puts out a part of what was promised, and what remains is still expected. */
  lemma {:induction false} DrainKeepsPromise(s: Splitter, r: Rest, unfed: string, m: Markers, final: bool)
    returns (left: Rest)
    requires Expects(s, r, unfed, m) && (final ==> unfed == "")
    ensures var (t, d) := Drain(s, m, final);
            && Expects(t, left, unfed, m) && Kept(PhaseOf(s), r, d, PhaseOf(t), left)
            && (final ==> t.buffer == "" && Promise(left, PhaseOf(t)) == Delta("", ""))
    decreases r
  {
    if s.buffer == "" {
      left := r;
      NothingPut(Promise(r, PhaseOf(s)));
      if final {
        NothingIsLeft(r, PhaseOf(s), m);
      }
    } else if r.Last? {
      left := StayLast(s, r, unfed, m, final);
    } else if |s.buffer| < |Render(r.text, Removed(PhaseOf(s), m))| + |r.marker| {
      left := StayBefore(s, r, unfed, m);
    } else {
      left := DrainPast(s, r, unfed, m, final);
    }
  }

  lemma DrainPast(s: Splitter, r: Rest, unfed: string, m: Markers, final: bool) returns (left: Rest)
    requires Expects(s, r, unfed, m) && (final ==> unfed == "") && r.Before? && s.buffer != ""
    requires |s.buffer| >= |Render(r.text, Removed(PhaseOf(s), m))| + |r.marker|
    ensures var (t, d) := Drain(s, m, final);
            && Expects(t, left, unfed, m) && Kept(PhaseOf(s), r, d, PhaseOf(t), left)
            && (final ==> t.buffer == "" && Promise(left, PhaseOf(t)) == Delta("", ""))
    decreases r, 0
  {
    var i := |Render(r.text, Removed(PhaseOf(s), m))|;
    LeaveBefore(s, r, unfed, m);
    var (t, d) := Leave(s, m, i);
    left := DrainKeepsPromise(t, r.next, unfed, m, final);
    var (u, more) := Drain(t, m, final);
    KeptTwice(PhaseOf(s), r, d, PhaseOf(t), r.next, more, PhaseOf(u), left);
  }

  lemma NothingPut(d: Delta)
    ensures Plus(Delta("", ""), d) == d
  {
    assert "" + d.reasoning == d.reasoning && "" + d.content == d.content;
  }

  lemma NothingIsLeft(r: Rest, p: Phase, m: Markers)
    requires Well(r, p, m) && Rendered(r, p, m) == ""
    ensures Promise(r, p) == Delta("", "")
  {
  }

  lemma FeedKeepsPromise(s: Splitter, r: Rest, text: string, unfed: string, m: Markers, final: bool)
    returns (left: Rest)
    requires Expects(s, r, text + unfed, m) && (final ==> unfed == "")
    ensures var (t, d) := AfterFeed(s, text, final, m);
            && Expects(t, left, unfed, m) && Kept(PhaseOf(s), r, d, PhaseOf(t), left)
            && (final ==> t.buffer == "" && Promise(left, PhaseOf(t)) == Delta("", ""))
  {
    Associates(s.buffer, text, unfed);
    left := DrainKeepsPromise(s.(buffer := s.buffer + text), r, unfed, m, final);
  }

  /** After any chunks of a rendered text, what was put out and what is still expected make up the promise. */
  lemma {:induction false} FeedAllKeepsPromise(s: Splitter, r: Rest, chunks: seq<string>, unfed: string, m: Markers)
    returns (left: Rest)
    requires Expects(s, r, Join(chunks) + unfed, m)
    ensures var (t, d) := FeedAll(s, chunks, m);
            Expects(t, left, unfed, m) && Kept(PhaseOf(s), r, d, PhaseOf(t), left)
  {
    if chunks == [] {
      left := r;
      assert "" + unfed == unfed;
      NothingPut(Promise(r, PhaseOf(s)));
    } else {
      var before, last := chunks[..|chunks| - 1], chunks[|chunks| - 1];
      Associates(Join(before), last, unfed);
      var mid := FeedAllKeepsPromise(s, r, before, last + unfed, m);
      var (t, d) := FeedAll(s, before, m);
      left := FeedKeepsPromise(t, mid, last, unfed, m, false);
      var (u, more) := AfterFeed(t, last, false, m);
      KeptTwice(PhaseOf(s), r, d, PhaseOf(t), mid, more, PhaseOf(u), left);
    }
  }

  // ---------------------------------------------------------------- splitting undoes rendering

  /** Fed in any chunks and flushed, a rendered text is split into exactly its clean parts. */
  lemma SplitMeetsPromise(s: Splitter, r: Rest, chunks: seq<string>, m: Markers)
    requires s.buffer == "" && Well(r, PhaseOf(s), m) && Join(chunks) == Rendered(r, PhaseOf(s), m)
    ensures Split(s, chunks, m) == Promise(r, PhaseOf(s))
  {
    assert Join(chunks) + "" == Join(chunks) && s.buffer + Join(chunks) == Join(chunks);
    var mid := FeedAllKeepsPromise(s, r, chunks, "", m);
    var (t, d) := FeedAll(s, chunks, m);
    assert "" + "" == "";
    var left := FeedKeepsPromise(t, mid, "", "", m, true);
    var (u, last) := AfterFeed(t, "", true, m);
    KeptTwice(PhaseOf(s), r, d, PhaseOf(t), mid, last, PhaseOf(u), left);
    Everything(Plus(d, last));
  }

  /** Reasoning between content: what splitting returns is the clean pieces, for all chunkings. */
  lemma SplitUndoesRendering(pre: Marked, open: string, think: Marked, close: string, post: Marked,
                             chunks: seq<string>, m: Markers)
    requires Well(Before(pre, open, Before(think, close, Last(post))), Pre, m)
    requires Join(chunks) ==
      Render(pre, m.contents) + open + (Render(think, m.opens) + close + Render(post, m.contents))
    ensures Split(Splitter("", false, false), chunks, m) == Delta(Clean(think), Clean(pre) + Clean(post))
  {
    var whole := Before(pre, open, Before(think, close, Last(post)));
    WholeIs(pre, open, think, close, post, m);
    SplitMeetsPromise(Splitter("", false, false), whole, chunks, m);
  }

  lemma WholeIs(pre: Marked, open: string, think: Marked, close: string, post: Marked, m: Markers)
    ensures Rendered(Before(pre, open, Before(think, close, Last(post))), Pre, m) ==
      Render(pre, m.contents) + open + (Render(think, m.opens) + close + Render(post, m.contents))
    ensures Promise(Before(pre, open, Before(think, close, Last(post))), Pre) ==
      Delta(Clean(think), Clean(pre) + Clean(post))
  {
    var inner := Before(think, close, Last(post));
    ThoughtIs(think, close, post, m);
    Associates(Render(pre, m.contents), open, Rendered(inner, Think, m));
    assert "" + Clean(think) == Clean(think);
  }

  lemma ThoughtIs(think: Marked, close: string, post: Marked, m: Markers)
    ensures Rendered(Before(think, close, Last(post)), Think, m) ==
      Render(think, m.opens) + close + Render(post, m.contents)
    ensures Promise(Before(think, close, Last(post)), Think) == Delta(Clean(think), Clean(post))
  {
    Associates(Render(think, m.opens), close, Render(post, m.contents));
    assert Clean(think) + "" == Clean(think) && "" + Clean(post) == Clean(post);
  }

  /** The same for a stream that starts inside the reasoning. */
  lemma SplitFromThinking(think: Marked, close: string, post: Marked, chunks: seq<string>, m: Markers)
    requires Well(Before(think, close, Last(post)), Think, m)
    requires Join(chunks) == Render(think, m.opens) + close + Render(post, m.contents)
    ensures Split(Splitter("", true, false), chunks, m) == Delta(Clean(think), Clean(post))
  {
    ThoughtIs(think, close, post, m);
    SplitMeetsPromise(Splitter("", true, false), Before(think, close, Last(post)), chunks, m);
  }

  /** Without an opening marker all is content, and before or after thinking no content marker is left of it. */
  lemma ContentIsClean(text: Marked, chunks: seq<string>, m: Markers, thinkingDone: bool)
    requires Well(Last(text), if thinkingDone then Post else Pre, m) && Join(chunks) == Render(text, m.contents)
    ensures Split(Splitter("", false, thinkingDone), chunks, m) == Delta("", Clean(text))
  {
    SplitMeetsPromise(Splitter("", false, thinkingDone), Last(text), chunks, m);
  }

  /** Reasoning that is never closed is put out in full. */
  lemma UnclosedThinking(think: Marked, chunks: seq<string>, m: Markers)
    requires Well(Last(think), Think, m) && Join(chunks) == Render(think, m.opens)
    ensures Split(Splitter("", true, false), chunks, m) == Delta(Clean(think), "")
  {
    SplitMeetsPromise(Splitter("", true, false), Last(think), chunks, m);
  }

  /** At every moment of the stream, what was put out is a prefix of the result: no marker, whole or partial, leaks. */
  lemma NothingLeaks(s: Splitter, r: Rest, chunks: seq<string>, unfed: string, m: Markers)
    requires s.buffer == "" && Well(r, PhaseOf(s), m) && Rendered(r, PhaseOf(s), m) == Join(chunks) + unfed
    ensures var d, result := FeedAll(s, chunks, m).1, Promise(r, PhaseOf(s));
            d.reasoning <= result.reasoning && d.content <= result.content
  {
    assert s.buffer + (Join(chunks) + unfed) == Join(chunks) + unfed;
    var left := FeedAllKeepsPromise(s, r, chunks, unfed, m);
  }

  // ---------------------------------------------------------------- a newline after the closing marker

  lemma NothingBefore(d: Delta)
    ensures Plus(Delta("", ""), d) == d
  {
    assert "" + d.reasoning == d.reasoning && "" + d.content == d.content;
  }

  /** After the closing marker, newlines that arrive in the same chunk are dropped. */
  lemma LeaveAtClose(think: Marked, close: string, more: string, m: Markers)
    requires Announces(Render(think, m.opens), close, m.closes) && Tidy(think, m.opens)
    ensures var text := Render(think, m.opens);
            var s := Splitter(text + close + more, true, false);
            && Ending(s, m) == Some(|text|)
            && Leave(s, m, |text|) == (Splitter(DropNewlines(more), false, true), Delta(Clean(think), ""))
  {
    var text := Render(think, m.opens);
    AnnouncedIsFound(text, close, m.closes, more);
    FromZero(think);
    UnmarkIsClean(think, m.opens, 0);
    assert (text + close + more)[..|text|] == text && (text + close + more)[|text| + |close|..] == more;
  }

  lemma DropNewlinesIsSuffix(text: string)
    ensures exists n: nat :: n <= |text| && DropNewlines(text) == text[n..]
    ensures text != "" && text[0] == '\n' ==> DropNewlines(text) != text
  {
    if text != "" && text[0] == '\n' {
      DropNewlinesIsSuffix(text[1..]);
      var n: nat :| n <= |text[1..]| && DropNewlines(text[1..]) == text[1..][n..];
      assert text[1..][n..] == text[n + 1..];
      assert |DropNewlines(text)| < |text|;
    } else {
      assert text[0..] == text;
    }
  }

  /** What follows the reasoning is passed on in full, now or when flushed. */
  lemma RestIsPassedOn(rest: string, m: Markers)
    requires NoMarker(rest, m.contents)
    ensures var (t, d) := Drain(Splitter(rest, false, true), m, false);
            Plus(d, AfterFeed(t, "", true, m).1) == Delta("", rest)
  {
    var s, r := Splitter(rest, false, true), Last(Plain(rest));
    assert rest + "" == rest;
    var mid := DrainKeepsPromise(s, r, "", m, false);
    var (t, d) := Drain(s, m, false);
    assert "" + "" == "";
    var left := FeedKeepsPromise(t, mid, "", "", m, true);
    var (u, last) := AfterFeed(t, "", true, m);
    KeptTwice(Post, r, d, PhaseOf(t), mid, last, PhaseOf(u), left);
    Everything(Plus(d, last));
  }

  /** Draining a buffer that ends the phase: first the phase, then what follows the marker. */
  lemma DrainLeaves(s: Splitter, m: Markers, t: Splitter, first: Delta, i: nat)
    requires s.buffer != "" && Ending(s, m) == Some(i) && Leave(s, m, i) == (t, first)
    ensures Drain(s, m, false) == (Drain(t, m, false).0, Plus(first, Drain(t, m, false).1))
  {
  }

  /** The first chunk contains the closing marker, and `more` after it. */
  lemma FirstChunk(think: Marked, close: string, more: string, m: Markers)
    requires Announces(Render(think, m.opens), close, m.closes) && Tidy(think, m.opens)
    ensures var rest := Splitter(DropNewlines(more), false, true);
            FeedAll(Splitter("", true, false), [Render(think, m.opens) + close + more], m) ==
            (Drain(rest, m, false).0, Plus(Delta(Clean(think), ""), Drain(rest, m, false).1))
  {
    var text := Render(think, m.opens);
    var all := text + close + more;
    LeaveAtClose(think, close, more, m);
    DrainLeaves(Splitter(all, true, false), m, Splitter(DropNewlines(more), false, true), Delta(Clean(think), ""),
                |text|);
    OneChunk(Splitter("", true, false), all, m);
    assert "" + all == all;
  }

  lemma OneChunk(s: Splitter, text: string, m: Markers)
    ensures FeedAll(s, [text], m) == AfterFeed(s, text, false, m)
  {
    assert [text][..0] == [];
    NothingBefore(AfterFeed(s, text, false, m).1);
  }

  lemma ThinkThenRest(think: string, d: Delta, last: Delta, rest: string)
    requires Plus(d, last) == Delta("", rest)
    ensures Plus(Plus(Delta(think, ""), d), last) == Delta(think, rest)
  {
    PlusAssociates(Delta(think, ""), d, last);
    assert think + "" == think && "" + rest == rest;
  }

  /** All in one chunk, opening markers repeated in the reasoning are removed, and the newlines are lost. */
  lemma InOneChunk(think: Marked, close: string, post: string, m: Markers)
    requires Announces(Render(think, m.opens), close, m.closes) && Tidy(think, m.opens) && NoMarker(post, m.contents)
    ensures Split(Splitter("", true, false), [Render(think, m.opens) + close + post], m) ==
      Delta(Clean(think), DropNewlines(post))
  {
    var rest := DropNewlines(post);
    DropNewlinesIsSuffix(post);
    var n: nat :| n <= |post| && rest == post[n..];
    NoMarkerInPart(post, m.contents, n, |post|);
    assert post[n..|post|] == rest;
    FirstChunk(think, close, post, m);
    RestIsPassedOn(rest, m);
    var (t, d) := Drain(Splitter(rest, false, true), m, false);
    ThinkThenRest(Clean(think), d, AfterFeed(t, "", true, m).1, rest);
  }

  /** With the chunk ending at the marker, the newlines are kept. */
  lemma InTwoChunks(think: string, close: string, post: string, m: Markers)
    requires Announces(think, close, m.closes) && NoMarker(think, m.opens) && NoMarker(post, m.contents)
    ensures Split(Splitter("", true, false), [think + close, post], m) == Delta(think, post)
  {
    var s := Splitter("", true, false);
    var (t, d) := Drain(Splitter(post, false, true), m, false);
    HeadChunk(think, close, m);
    RestIsPassedOn(post, m);
    SecondChunk(s, think + close, post, m, Delta(think, ""));
    ThinkThenRest(think, d, AfterFeed(t, "", true, m).1, post);
  }

  lemma HeadChunk(think: string, close: string, m: Markers)
    requires Announces(think, close, m.closes) && NoMarker(think, m.opens)
    ensures FeedAll(Splitter("", true, false), [think + close], m) == (Splitter("", false, true), Delta(think, ""))
  {
    assert think + close + "" == think + close;
    FirstChunk(Plain(think), close, "", m);
    Everything(Delta(think, ""));
  }

  lemma SecondChunk(s: Splitter, head: string, post: string, m: Markers, first: Delta)
    requires FeedAll(s, [head], m) == (Splitter("", false, true), first)
    ensures var (t, d) := Drain(Splitter(post, false, true), m, false);
            FeedAll(s, [head, post], m) == (t, Plus(first, d))
  {
    assert [head, post][..1] == [head];
    assert "" + post == post;
  }

  /** The result for a closed reasoning depends on the chunks exactly when a newline follows the closing marker. */
  lemma ChunksMatterIff(think: string, close: string, post: string, m: Markers)
    requires Announces(think, close, m.closes) && NoMarker(think, m.opens) && NoMarker(post, m.contents)
    ensures NoNewlineAtStart(post) <==>
            forall chunks :: Join(chunks) == think + close + post ==>
              Split(Splitter("", true, false), chunks, m) == Delta(think, post)
    ensures !NoNewlineAtStart(post) ==>
            && Join([think + close, post]) == Join([think + close + post])
            && Split(Splitter("", true, false), [think + close, post], m) !=
              Split(Splitter("", true, false), [think + close + post], m)
  {
    if NoNewlineAtStart(post) {
      forall chunks | Join(chunks) == think + close + post
        ensures Split(Splitter("", true, false), chunks, m) == Delta(think, post)
      {
        SplitFromThinking(Plain(think), close, Plain(post), chunks, m);
      }
    } else {
      InOneChunk(Plain(think), close, post, m);
      InTwoChunks(think, close, post, m);
      DropNewlinesIsSuffix(post);
      JoinOne(think + close + post);
      JoinOne(think + close);
      JoinSnoc([think + close], post);
      assert [think + close] + [post] == [think + close, post];
    }
  }

  // ---------------------------------------------------------------- opening markers inside the reasoning

  /** No other marker of the list occurs in marker `k`. */
  ghost predicate Lone(ms: seq<string>, k: nat)
    requires k < |ms|
  {
    forall j, o: nat | 0 <= j < |ms| && ms[j] != "" && ms[j] != ms[k] :: !OccursAt(ms[k], o, ms[j])
  }

  /** No closing marker starts in the opening marker `k` and goes on beyond its end. */
  ghost predicate NoCloseInside(m: Markers, k: nat)
    requires k < |m.opens|
  {
    forall j, o: nat | 0 <= j < |m.closes| && 0 < o < |m.opens[k]| ::
      m.opens[k][o..] <= m.closes[j] ==> m.opens[k][o..] == m.closes[j]
  }

  /**
   Inside the reasoning only closing markers are held back while incomplete.  So an opening marker repeated there is
   removed for every chunking exactly when each of its beginnings is also the beginning of a closing marker.
   */
  lemma RepeatedOpenIsRemovedIff(m: Markers, k: nat, close: string)
    requires Removable(m.opens, k) && Lone(m.opens, k) && NoCloseInside(m, k) && Announces(m.opens[k], close, m.closes)
    ensures (forall c: nat | 0 < c < |m.opens[k]| :: Partial(m.opens[k][..c], m.closes)) <==>
            forall chunks :: Join(chunks) == m.opens[k] + close ==>
              Split(Splitter("", true, false), chunks, m) == Delta("", "")
  {
    var open := m.opens[k];
    if c: nat :| 0 < c < |open| && !Partial(open[..c], m.closes) {
      var chunks := CutOpenLeaks(m, k, close, c);
    } else {
      forall chunks | Join(chunks) == open + close
        ensures Split(Splitter("", true, false), chunks, m) == Delta("", "")
      {
        HeldOpenIsRemoved(m, k, close, chunks);
      }
    }
  }

  lemma JoinTwo(a: string, b: string)
    ensures Join([a, b]) == a + b
  {
    JoinOne(a);
    JoinSnoc([a], b);
    assert [a] + [b] == [a, b];
  }

  lemma JoinCut(a: string, c: nat, b: string)
    requires c <= |a|
    ensures Join([a[..c], a[c..] + b]) == a + b
  {
    JoinTwo(a[..c], a[c..] + b);
    assert a[..c] + (a[c..] + b) == a + b;
  }

  lemma HeldOpenIsRemoved(m: Markers, k: nat, close: string, chunks: seq<string>)
    requires Removable(m.opens, k) && Holdable(m.opens, m.closes, k) && Announces(m.opens[k], close, m.closes)
    requires Join(chunks) == m.opens[k] + close
    ensures Split(Splitter("", true, false), chunks, m) == Delta("", "")
  {
    var think := Mark("", k, Plain(""));
    assert Render(think, m.opens) == m.opens[k] && Clean(think) == "" by {
      assert "" + (m.opens[k] + "") == m.opens[k] && "" + "" == "";
    }
    assert m.opens[k] + close + "" == m.opens[k] + close;
    SplitFromThinking(think, close, Plain(""), chunks, m);
  }

  /** Cut where no closing marker holds it back, the opening marker leaks. */
  lemma CutOpenLeaks(m: Markers, k: nat, close: string, c: nat) returns (chunks: seq<string>)
    requires k < |m.opens| && Lone(m.opens, k) && Announces(m.opens[k], close, m.closes)
    requires 0 < c < |m.opens[k]| && !Partial(m.opens[k][..c], m.closes)
    ensures Join(chunks) == m.opens[k] + close && Split(Splitter("", true, false), chunks, m) != Delta("", "")
  {
    var head, rest := m.opens[k][..c], m.opens[k][c..] + close;
    var leak := FirstPartLeaks(m, k, close, c);
    FirstOutputStays(Splitter("", true, false), head, rest, m, leak);
    chunks := [head, rest];
    JoinCut(m.opens[k], c, close);
  }

  /** What the first of two chunks puts out starts the result. */
  lemma FirstOutputStays(s: Splitter, a: string, b: string, m: Markers, leak: string)
    requires leak != "" && AfterFeed(s, a, false, m).1 == Delta(leak, "")
    ensures Split(s, [a, b], m) != Delta("", "")
  {
    OneChunk(s, a, m);
    assert [a, b][..1] == [a];
    var (t, d) := AfterFeed(s, a, false, m);
    var (u, e) := AfterFeed(t, b, false, m);
    StillNotEmpty(d, e);
    StillNotEmpty(Plus(d, e), AfterFeed(u, "", true, m).1);
  }

  lemma StillNotEmpty(d: Delta, e: Delta)
    requires d.reasoning != ""
    ensures Plus(d, e).reasoning != ""
  {
  }

  lemma FirstPartLeaks(m: Markers, k: nat, close: string, c: nat) returns (leak: string)
    requires k < |m.opens| && Lone(m.opens, k) && Announces(m.opens[k], close, m.closes)
    requires 0 < c < |m.opens[k]| && !Partial(m.opens[k][..c], m.closes)
    ensures leak != "" && AfterFeed(Splitter("", true, false), m.opens[k][..c], false, m).1 == Delta(leak, "")
  {
    var open := m.opens[k];
    var head := open[..c];
    assert "" + head == head;
    NotYetFound(open, close, m.closes, head);
    assert head[|head| - c..] == head;
    assert !EndsInPartial(head, m.closes, c);
    var n := SafeLength(head, m.closes, false);
    leak := head[..n];
    assert leak == open[0..n];
    forall i: nat ensures !MarkerAt(leak, m.opens, i) {
      forall j | 0 <= j < |m.opens| && m.opens[j] != "" ensures !OccursAt(leak, i, m.opens[j]) {
        PartOccurs(open, 0, n, i, m.opens[j]);
      }
    }
    UnmarkNothing(leak, m.opens, 0);
  }

  // ---------------------------------------------------------------- newlines after the opening marker

  /** After the opening marker, newlines that arrive in the same chunk are dropped. */
  lemma LeaveAtOpen(pre: string, open: string, more: string, m: Markers)
    requires Announces(pre, open, m.opens) && NoMarker(pre, m.contents)
    ensures var s := Splitter(pre + open + more, false, false);
            && Ending(s, m) == Some(|pre|)
            && Leave(s, m, |pre|) == (Splitter(DropNewlines(more), true, false), Delta("", pre))
  {
    var text := pre + open + more;
    AnnouncedIsFound(pre, open, m.opens, more);
    UnmarkNothing(pre, m.contents, 0);
    assert text[..|pre|] == pre && text[|pre| + |open|..] == more;
  }

  /** The first chunk contains the opening marker, and `more` after it. */
  lemma OpeningChunk(pre: string, open: string, more: string, m: Markers)
    requires Announces(pre, open, m.opens) && NoMarker(pre, m.contents)
    ensures var rest := Splitter(DropNewlines(more), true, false);
            FeedAll(Splitter("", false, false), [pre + open + more], m) ==
            (Drain(rest, m, false).0, Plus(Delta("", pre), Drain(rest, m, false).1))
  {
    var all := pre + open + more;
    LeaveAtOpen(pre, open, more, m);
    DrainLeaves(Splitter(all, false, false), m, Splitter(DropNewlines(more), true, false), Delta("", pre), |pre|);
    OneChunk(Splitter("", false, false), all, m);
    assert "" + all == all;
  }

  /** The reasoning and what follows it, drained and flushed: the newlines after the closing marker are lost. */
  lemma ThinkingDrains(think: string, close: string, post: string, m: Markers)
    requires Announces(think, close, m.closes) && NoMarker(think, m.opens) && NoMarker(post, m.contents)
    ensures var (t, d) := Drain(Splitter(think + close + post, true, false), m, false);
            Plus(d, AfterFeed(t, "", true, m).1) == Delta(think, DropNewlines(post))
  {
    var s, all := Splitter("", true, false), think + close + post;
    InOneChunk(Plain(think), close, post, m);
    OneChunk(s, all, m);
    assert "" + all == all;
  }

  /** Newlines dropped before the reasoning are dropped from it. */
  lemma {:induction false} DropFromThinking(think: string, rest: string)
    requires rest != "" && rest[0] != '\n'
    ensures DropNewlines(think + rest) == DropNewlines(think) + rest
  {
    if think == "" {
      assert think + rest == rest;
    } else {
      assert (think + rest)[1..] == think[1..] + rest;
      if think[0] == '\n' {
        DropFromThinking(think[1..], rest);
      }
    }
  }

  /** Without its first newlines, the reasoning is still announced and free of markers. */
  lemma ShorterThinking(think: string, close: string, m: Markers)
    requires Announces(think, close, m.closes) && NoMarker(think, m.opens)
    ensures Announces(DropNewlines(think), close, m.closes) && NoMarker(DropNewlines(think), m.opens)
  {
    DropNewlinesIsSuffix(think);
    var n: nat :| n <= |think| && DropNewlines(think) == think[n..];
    AnnouncesTail(think, close, m.closes, n);
    PartIsClear(think, m.opens, n);
  }

  lemma PreThenThinking(pre: string, d: Delta, last: Delta, think: string, post: string)
    requires Plus(d, last) == Delta(think, post)
    ensures Plus(Plus(Delta("", pre), d), last) == Delta(think, pre + post)
  {
    PlusAssociates(Delta("", pre), d, last);
    assert "" + think == think;
  }

  /** All in one chunk, the newlines after both markers are lost. */
  lemma WholeInOneChunk(pre: string, open: string, think: string, close: string, post: string, m: Markers)
    requires Announces(pre, open, m.opens) && NoMarker(pre, m.contents)
    requires Announces(think, close, m.closes) && NoMarker(think, m.opens) && NoMarker(post, m.contents)
    requires close[0] != '\n'
    ensures Split(Splitter("", false, false), [pre + open + (think + close + post)], m) ==
      Delta(DropNewlines(think), pre + DropNewlines(post))
  {
    var rest := DropNewlines(think);
    DroppedWhole(think, close, post);
    OpeningChunk(pre, open, think + close + post, m);
    ShorterThinking(think, close, m);
    ThinkingDrains(rest, close, post, m);
    var (t, d) := Drain(Splitter(rest + close + post, true, false), m, false);
    PreThenThinking(pre, d, AfterFeed(t, "", true, m).1, rest, DropNewlines(post));
  }

  lemma DroppedWhole(think: string, close: string, post: string)
    requires close != "" && close[0] != '\n'
    ensures DropNewlines(think + close + post) == DropNewlines(think) + close + post
  {
    Associates(think, close, post);
    DropFromThinking(think, close + post);
    Associates(DropNewlines(think), close, post);
  }

  lemma OpeningAlone(pre: string, open: string, m: Markers)
    requires Announces(pre, open, m.opens) && NoMarker(pre, m.contents)
    ensures FeedAll(Splitter("", false, false), [pre + open], m) == (Splitter("", true, false), Delta("", pre))
  {
    assert pre + open + "" == pre + open;
    OpeningChunk(pre, open, "", m);
    Everything(Delta("", pre));
  }

  /** With a chunk ending at the opening marker, the newlines after it are kept. */
  lemma OpeningInItsOwnChunk(pre: string, open: string, think: string, close: string, post: string, m: Markers)
    requires Announces(pre, open, m.opens) && NoMarker(pre, m.contents)
    requires Announces(think, close, m.closes) && NoMarker(think, m.opens) && NoMarker(post, m.contents)
    ensures Split(Splitter("", false, false), [pre + open, think + close + post], m) ==
      Delta(think, pre + DropNewlines(post))
  {
    var rest := think + close + post;
    OpeningAlone(pre, open, m);
    ThinkingDrains(think, close, post, m);
    assert [pre + open, rest][..1] == [pre + open];
    assert "" + rest == rest;
    var (t, d) := Drain(Splitter(rest, true, false), m, false);
    PreThenThinking(pre, d, AfterFeed(t, "", true, m).1, think, DropNewlines(post));
  }

  lemma SomethingIsLost(pre: string, think: string, post: string)
    requires !NoNewlineAtStart(think) || !NoNewlineAtStart(post)
    ensures Delta(DropNewlines(think), pre + DropNewlines(post)) != Delta(think, pre + post)
    ensures !NoNewlineAtStart(think) ==> DropNewlines(think) != think
  {
    DropNewlinesIsSuffix(think);
    DropNewlinesIsSuffix(post);
    assert (pre + DropNewlines(post))[|pre|..] == DropNewlines(post) && (pre + post)[|pre|..] == post;
  }

  lemma PlainSplit(pre: string, open: string, think: string, close: string, post: string, chunks: seq<string>,
                   m: Markers)
    requires Announces(pre, open, m.opens) && NoMarker(pre, m.contents)
    requires Announces(think, close, m.closes) && NoMarker(think, m.opens) && NoMarker(post, m.contents)
    requires NoNewlineAtStart(think + close) && NoNewlineAtStart(post)
    requires Join(chunks) == pre + open + (think + close + post)
    ensures Split(Splitter("", false, false), chunks, m) == Delta(think, pre + post)
  {
    ThoughtIs(Plain(think), close, Plain(post), m);
    assert NoNewlineAtStart(think + close + post);
    SplitUndoesRendering(Plain(pre), open, Plain(think), close, Plain(post), chunks, m);
  }

  /**
   The result for a whole rendered text depends on the chunks exactly when a newline follows one of its markers.
   The closing marker itself must not start with a newline.
   */
  lemma ChunksMatterForWholeIff(pre: string, open: string, think: string, close: string, post: string, m: Markers)
    requires Announces(pre, open, m.opens) && NoMarker(pre, m.contents)
    requires Announces(think, close, m.closes) && NoMarker(think, m.opens) && NoMarker(post, m.contents)
    requires close[0] != '\n'
    ensures NoNewlineAtStart(think) && NoNewlineAtStart(post) <==>
            forall chunks :: Join(chunks) == pre + open + (think + close + post) ==>
              Split(Splitter("", false, false), chunks, m) == Delta(think, pre + post)
    ensures !NoNewlineAtStart(think) ==>
            && Join([pre + open, think + close + post]) == Join([pre + open + (think + close + post)])
            && Split(Splitter("", false, false), [pre + open, think + close + post], m) !=
               Split(Splitter("", false, false), [pre + open + (think + close + post)], m)
  {
    WholeInOneChunk(pre, open, think, close, post, m);
    JoinOne(pre + open + (think + close + post));
    if NoNewlineAtStart(think) && NoNewlineAtStart(post) {
      assert NoNewlineAtStart(think + close);
      forall chunks | Join(chunks) == pre + open + (think + close + post)
        ensures Split(Splitter("", false, false), chunks, m) == Delta(think, pre + post)
      {
        PlainSplit(pre, open, think, close, post, chunks, m);
      }
    } else {
      SomethingIsLost(pre, think, post);
      OpeningInItsOwnChunk(pre, open, think, close, post, m);
      JoinOne(pre + open);
      JoinSnoc([pre + open], think + close + post);
      assert [pre + open] + [think + close + post] == [pre + open, think + close + post];
    }
  }

  // ---------------------------------------------------------------- marker sets that need no case analysis

  /** No marker starts with another one, or completes strictly inside another one. */
  ghost predicate Apart(markers: seq<string>) {
    && (forall j, k | 0 <= j < |markers| && 0 <= k < |markers| && markers[k] != "" ::
          markers[k] <= markers[j] ==> markers[j] == markers[k])
    && (forall j, k, o: nat | 0 <= j < |markers| && 0 <= k < |markers| :: !InsideAt(markers[j], markers[k], o))
  }

  /** With such markers it is enough that the text before a marker introduces no other one. */
  lemma ApartMarkersAnnounce(before: string, x: nat, markers: seq<string>)
    requires Apart(markers) && x < |markers| && markers[x] != ""
    requires forall i: nat | i < |before| :: !MarkerAt(before + markers[x], markers, i)
    ensures Announces(before, markers[x], markers)
  {
    var marker := markers[x];
    var whole := before + marker[..|marker| - 1];
    assert before + marker == whole + marker[|marker| - 1..];
    forall i: nat ensures !MarkerAt(whole, markers, i) {
      forall k | 0 <= k < |markers| && markers[k] != "" ensures !OccursAt(whole, i, markers[k]) {
        OccursInPrefix(whole, marker[|marker| - 1..], i, markers[k]);
        if i < |before| {
          assert !MarkerAt(before + marker, markers, i);
        } else {
          NotInsideMarker(before, marker, markers, x, k, i - |before|);
        }
      }
    }
  }

  lemma NotInsideMarker(before: string, marker: string, markers: seq<string>, x: nat, k: nat, o: nat)
    requires Apart(markers) && x < |markers| && k < |markers| && marker == markers[x] != "" && markers[k] != ""
    ensures !OccursAt(before + marker[..|marker| - 1], |before| + o, markers[k])
  {
    OccursInSuffix(before, marker[..|marker| - 1], o, markers[k]);
    OccursInPrefix(marker[..|marker| - 1], marker[|marker| - 1..], o, markers[k]);
    assert marker[..|marker| - 1] + marker[|marker| - 1..] == marker;
    assert !InsideAt(marker, markers[k], o);
  }

  const DEFAULT_OPENS: seq<string> := ["<|channel>thought", "<think>", "<|START_THINKING|>"]
  const DEFAULT_CLOSES: seq<string> := ["<channel|>", "</think>", "<|END_THINKING|>"]
  const CONTENT_MARKERS: seq<string> := [
    "<|start|>assistant to=user<|message|>", "<|start|>assistant<|message|>", "assistant to=user<|message|>",
    "to=user<|message|>", "<|START_TEXT|>", "<|END_TEXT|>", "<|eot|>", "<turn|>", "<end_turn|>"]

  /** A marker that starts with `<` and has no other `<`. */
  predicate OneBracket(m: string) {
    m != "" && m[0] == '<' && forall i :: 1 <= i < |m| ==> m[i] != '<'
  }

  lemma BracketsApart(markers: seq<string>)
    requires forall k :: 0 <= k < |markers| ==> OneBracket(markers[k])
    requires forall j, k | 0 <= j < |markers| && 0 <= k < |markers| :: markers[k] <= markers[j] ==>
      markers[j] == markers[k]
    ensures Apart(markers)
  {
    forall j, k, o: nat | 0 <= j < |markers| && 0 <= k < |markers| ensures !InsideAt(markers[j], markers[k], o) {
      if OccursAt(markers[j], o, markers[k]) {
        assert markers[j][o] == markers[j][o..o + |markers[k]|][0] == markers[k][0];
      }
    }
  }

  /** Another marker that starts differently, or not with `<` and then has one inside and no `>` before its end. */
  ghost predicate Foreign(mark: string, other: string) {
    && other != ""
    && if other[0] == '<' then exists i :: 0 <= i < |mark| && i < |other| && mark[i] != other[i]
       else (exists x :: 0 < x < |other| && other[x] == '<') && forall x :: 0 <= x < |other| - 1 ==> other[x] != '>'
  }

  lemma ForeignIsApart(mark: string, other: string)
    requires OneBracket(mark) && mark[|mark| - 1] == '>' && Foreign(mark, other)
    ensures forall o: nat :: !OccursAt(mark, o, other)
    ensures !(mark <= other)
    ensures forall o: nat | 0 < o < |mark| :: mark[o..] <= other ==> mark[o..] == other
  {
    forall o: nat ensures !OccursAt(mark, o, other) {
      if o + |other| <= |mark| {
        var part := mark[o..o + |other|];
        if other[0] == '<' {
          var i :| 0 <= i < |mark| && i < |other| && mark[i] != other[i];
          assert o == 0 ==> part[i] == mark[i];
          assert o > 0 ==> part[0] == mark[o] != '<';
        } else {
          var x :| 0 < x < |other| && other[x] == '<';
          assert part[x] == mark[o + x];
        }
      }
    }
    forall o: nat | 0 < o < |mark| ensures mark[o..] <= other ==> mark[o..] == other {
      var end := mark[o..];
      assert end[0] == mark[o] != '<' && end[|end| - 1] == '>';
    }
  }

  /** A marker all others are foreign to can be removed from any text and held back while incomplete. */
  lemma ForeignToAll(ms: seq<string>, k: nat)
    requires k < |ms| && OneBracket(ms[k]) && ms[k][|ms[k]| - 1] == '>'
    requires forall j | 0 <= j < |ms| && j != k :: Foreign(ms[k], ms[j])
    ensures Removable(ms, k) && Holdable(ms, ms, k)
  {
    forall j | 0 <= j < |ms| && j != k
      ensures forall o: nat :: !OccursAt(ms[k], o, ms[j])
      ensures !(ms[k] <= ms[j])
      ensures forall o: nat | 0 < o < |ms[k]| :: ms[k][o..] <= ms[j] ==> ms[k][o..] == ms[j]
    {
      ForeignIsApart(ms[k], ms[j]);
    }
    forall c: nat | 0 < c < |ms[k]| ensures Partial(ms[k][..c], ms) {
      assert ms[k][..|ms[k][..c]|] == ms[k][..c];
    }
    forall o: nat | 0 < o < |ms[k]| ensures !(ms[k][o..] <= ms[k]) {
      assert ms[k][o..][0] == ms[k][o] != '<';
    }
  }

  /** The end-of-turn marker meets the assumptions made of content markers. */
  lemma EndOfTurnIsRemovable()
    ensures CONTENT_MARKERS[6] == "<|eot|>" && Removable(CONTENT_MARKERS, 6) &&
      Holdable(CONTENT_MARKERS, CONTENT_MARKERS, 6)
  {
    var c, eot := CONTENT_MARKERS, CONTENT_MARKERS[6];
    assert eot[0] == '<' && eot[1] == '|' && eot[2] == 'e' && eot[6] == '>';
    assert c[0][0] == '<' && c[0][2] == 's' && c[1][0] == '<' && c[1][2] == 's';
    assert c[2][17] == '<' && c[2][0] == 'a' && c[3][7] == '<' && c[3][0] == 't';
    assert c[4][0] == '<' && c[4][2] == 'S' && c[5][0] == '<' && c[5][2] == 'E';
    assert c[7][0] == '<' && c[7][1] == 't' && c[8][0] == '<' && c[8][1] == 'e';
    assert OneBracket(eot);
    ForeignToAll(c, 6);
  }

  /** The built-in markers are such a set, so the assumptions of the splitting theorems can be met. */
  lemma DefaultMarkersAreApart()
    ensures Apart(DEFAULT_OPENS) && Apart(DEFAULT_CLOSES)
  {
    var o0, o1, o2 := DEFAULT_OPENS[0], DEFAULT_OPENS[1], DEFAULT_OPENS[2];
    assert OneBracket(o0) && OneBracket(o1) && OneBracket(o2);
    assert o0[1] == '|' && o1[1] == 't' && o2[1] == '|' && o0[2] == 'c' && o2[2] == 'S';
    BracketsApart(DEFAULT_OPENS);
    var c0, c1, c2 := DEFAULT_CLOSES[0], DEFAULT_CLOSES[1], DEFAULT_CLOSES[2];
    assert OneBracket(c0) && OneBracket(c1) && OneBracket(c2);
    assert c0[1] == 'c' && c1[1] == '/' && c2[1] == '|';
    BracketsApart(DEFAULT_CLOSES);
  }

  // ---------------------------------------------------------------- the splitter

  /** The opening markers that a caller's own pair stands for: itself last, and a form with the sender before it. */
  function CustomOpens(startMarker: string, endMarker: string): (opens: seq<string>)
    ensures |opens| <= 2 && (opens == [] <==> startMarker == "" || endMarker == "")
    ensures |opens| == 2 <==> "to=" <= startMarker && endMarker != ""
    ensures opens != [] ==> opens[|opens| - 1] == startMarker
    ensures |opens| == 2 ==> opens[0] == "<|start|>assistant " + startMarker
  {
    if startMarker == "" || endMarker == "" then []
    else if StartsWith(startMarker, "to=") then ["<|start|>assistant " + startMarker, startMarker]
    else [startMarker]
  }

  predicate HasPair(opens: seq<string>, closes: seq<string>, open: string, close: string)
    requires |opens| == |closes|
  {
    exists k :: 0 <= k < |opens| && opens[k] == open && closes[k] == close
  }

  /** The pairs are the caller's, in front, and the first `n` built-in ones, each of them once. */
  ghost predicate PairsAre(opens: seq<string>, closes: seq<string>, custom: seq<string>, endMarker: string, n: nat)
    requires n <= 3
  {
    && |opens| == |closes| && custom <= opens
    && (forall k :: 0 <= k < |custom| ==> closes[k] == endMarker)
    && (forall k :: |custom| <= k < |opens| ==> HasPair(DEFAULT_OPENS[..n], DEFAULT_CLOSES[..n], opens[k], closes[k]))
    && (forall i :: 0 <= i < n ==> HasPair(opens, closes, DEFAULT_OPENS[i], DEFAULT_CLOSES[i]))
    && (forall j, k :: 0 <= j < k < |opens| ==> opens[j] != opens[k] || closes[j] != closes[k])
  }

  lemma OneMorePair(opens: seq<string>, closes: seq<string>, custom: seq<string>, endMarker: string, n: nat)
    requires n < 3 && PairsAre(opens, closes, custom, endMarker, n)
    requires !HasPair(opens, closes, DEFAULT_OPENS[n], DEFAULT_CLOSES[n])
    ensures PairsAre(opens + [DEFAULT_OPENS[n]], closes + [DEFAULT_CLOSES[n]], custom, endMarker, n + 1)
  {
    var open, close := DEFAULT_OPENS[n], DEFAULT_CLOSES[n];
    var os, cs := opens + [open], closes + [close];
    assert os[|opens|] == open && cs[|closes|] == close;
    forall i | 0 <= i < n
      ensures HasPair(os, cs, DEFAULT_OPENS[i], DEFAULT_CLOSES[i])
    {
      PairStays(opens, closes, open, close, DEFAULT_OPENS[i], DEFAULT_CLOSES[i]);
    }
    forall k | |custom| <= k < |os|
      ensures HasPair(DEFAULT_OPENS[..n + 1], DEFAULT_CLOSES[..n + 1], os[k], cs[k])
    {
      OneMoreDefault(n, os[k], cs[k]);
    }
  }

  lemma OneMoreDefault(n: nat, open: string, close: string)
    requires n < 3
    requires HasPair(DEFAULT_OPENS[..n], DEFAULT_CLOSES[..n], open, close) ||
      (open, close) == (DEFAULT_OPENS[n], DEFAULT_CLOSES[n])
    ensures HasPair(DEFAULT_OPENS[..n + 1], DEFAULT_CLOSES[..n + 1], open, close)
  {
    var os, cs := DEFAULT_OPENS[..n + 1], DEFAULT_CLOSES[..n + 1];
    assert forall i :: 0 <= i < n ==> os[i] == DEFAULT_OPENS[..n][i] && cs[i] == DEFAULT_CLOSES[..n][i];
    assert os[n] == DEFAULT_OPENS[n] && cs[n] == DEFAULT_CLOSES[n];
  }

  lemma PairStays(opens: seq<string>, closes: seq<string>, o: string, c: string, open: string, close: string)
    requires |opens| == |closes| && HasPair(opens, closes, open, close)
    ensures HasPair(opens + [o], closes + [c], open, close)
  {
    var k :| 0 <= k < |opens| && opens[k] == open && closes[k] == close;
    assert (opens + [o])[k] == open && (closes + [c])[k] == close;
  }

  class ThinkingStreamSplitter {
    const opens: seq<string>
    const closes: seq<string>
    const contents: seq<string>
    var buffer: string
    var inThinking: bool
    var thinkingDone: bool

    ghost function Value(): Splitter
      reads this
    {
      Splitter(buffer, inThinking, thinkingDone)
    }

    ghost function Config(): Markers {
      Markers(opens, closes, contents)
    }

    constructor (startsInThinking: bool, startMarker: string, endMarker: string)
      ensures Value() == Splitter("", startsInThinking, false)
      ensures contents == CONTENT_MARKERS
      ensures PairsAre(opens, closes, CustomOpens(startMarker, endMarker), endMarker, 3)
    {
      var os := CustomOpens(startMarker, endMarker);
      var cs := seq(|os|, i => endMarker);
      ghost var custom := os;
      for i := 0 to 3
        invariant PairsAre(os, cs, custom, endMarker, i)
      {
        if !HasPair(os, cs, DEFAULT_OPENS[i], DEFAULT_CLOSES[i]) {
          OneMorePair(os, cs, custom, endMarker, i);
          os, cs := os + [DEFAULT_OPENS[i]], cs + [DEFAULT_CLOSES[i]];
        }
      }
      opens, closes, contents := os, cs, CONTENT_MARKERS;
      buffer, inThinking, thinkingDone := "", startsInThinking, false;
    }

    method Feed(text: string, final: bool) returns (delta: Delta)
      modifies this
      ensures (Value(), delta) == AfterFeed(old(Value()), text, final, Config())
    {
      buffer := buffer + text;
      ghost var s0 := Value();
      delta := Delta("", "");
      NothingYet(s0, delta, Config(), final);
      while buffer != ""
        invariant Remains(s0, Value(), delta, Config(), final)
        decreases PhasesLeft(Value())
      {
        ghost var s, before := Value(), delta;
        var turn, more := Turn(final);
        delta := Plus(delta, turn);
        if !more {
          return;
        }
        LeaveContinues(s0, s, before, Ending(s, Config()).value, Config(), final);
      }
      Everything(delta);
    }

    /** One turn of the loop: stay in the phase and stop, or leave it at its marker and go on. */
    method Turn(final: bool) returns (delta: Delta, more: bool)
      modifies this
      requires buffer != ""
      ensures more <==> Ending(old(Value()), Config()).Some?
      ensures (Value(), delta) == if more then Leave(old(Value()), Config(), Ending(old(Value()), Config()).value)
                                  else Stay(old(Value()), Config(), final)
    {
      if inThinking {
        var index, marker := FindFirst(buffer, closes);
        if index < 0 {
          var clean := PassOn(closes, opens, final);
          return Delta(clean, ""), false;
        }
        var clean := Remove(buffer[..index], opens);
        buffer := DropNewlines(buffer[index + |marker|..]);
        inThinking, thinkingDone := false, true;
        return Delta(clean, ""), true;
      }
      if thinkingDone {
        var clean := PassOn(contents, contents, final);
        return Delta("", clean), false;
      }
      var index, marker := FindFirst(buffer, opens);
      if index < 0 {
        var clean := PassOn(opens + contents, contents, final);
        return Delta("", clean), false;
      }
      var clean := Remove(buffer[..index], contents);
      buffer := DropNewlines(buffer[index + |marker|..]);
      inThinking := true;
      return Delta("", clean), true;
    }

    /** Pass on what may be passed on, cleaned. */
    method PassOn(held: seq<string>, removed: seq<string>, final: bool) returns (clean: string)
      modifies this`buffer
      ensures Value() == Flush(old(Value()), held, final).0
      ensures clean == Unmark(Flush(old(Value()), held, final).1, removed, 0)
    {
      var value, rest := SplitPartial(buffer, held, final);
      buffer := rest;
      clean := Remove(value, removed);
    }

    /** The first marker found, the earlier in the list when two are found at the same place. */
    method FindFirst(text: string, markers: seq<string>) returns (index: int, marker: string)
      ensures FirstMarker(text, markers, 0).None? ==> index == -1
      ensures FirstMarker(text, markers, 0).Some? ==>
                index == FirstMarker(text, markers, 0).value && marker == MarkerOf(text, markers, index, 0)
    {
      index, marker := -1, "";
      ghost var first: Option<nat> := None;
      for k := 0 to |markers|
        invariant IsFirst(text, markers[..k], 0, first)
        invariant index == if first.None? then -1 else first.value
        invariant first.Some? ==> marker == MarkerOf(text, markers[..k], first.value, 0)
      {
        var found := if markers[k] == "" then None else Find(text, markers[k], 0);
        AddMarker(text, markers[..k], markers[k], first, found);
        assert markers[..k + 1] == markers[..k] + [markers[k]];
        if found.Some? && (index < 0 || found.value < index) {
          NotAmong(text, markers[..k], found.value, 0);
          MarkerOfAppend(text, markers[..k], markers[k], found.value, 0);
          first, index, marker := found, found.value, markers[k];
        } else if first.Some? {
          IsAmong(text, markers[..k], first.value);
          MarkerOfAppend(text, markers[..k], markers[k], first.value, 0);
        }
      }
      assert markers[..|markers|] == markers;
      FirstIsUnique(text, markers, 0, first);
    }

    /** Hold back the longest suffix that a marker may still complete. */
    method SplitPartial(text: string, markers: seq<string>, final: bool) returns (value: string, rest: string)
      ensures var n := SafeLength(text, markers, final);
              value == text[..n] && rest == text[n..]
    {
      if final || markers == [] {
        NoMarkersHoldNothing(text, markers);
        return text, "";
      }
      var hold: nat := 0;
      for k := 0 to |markers|
        invariant hold <= |text| && (hold > 0 ==> EndsInPartial(text, markers, hold))
        invariant forall n: nat | hold < n <= |text| :: !EndsInPartial(text, markers[..k], n)
      {
        var longest := LongestPrefixAtEnd(text, markers[k]);
        hold := Max(hold, longest);
        OneMoreMarker(text, markers[..k], markers[k], hold);
        assert markers[..k + 1] == markers[..k] + [markers[k]];
      }
      assert markers[..|markers|] == markers;
      HeldIs(text, markers, hold);
      return text[..|text| - hold], text[|text| - hold..];
    }

    /** The longest proper prefix of the marker that the text ends with, trying every length from 1 up. */
    method LongestPrefixAtEnd(text: string, marker: string) returns (longest: nat)
      ensures longest <= |text| && (longest > 0 ==> longest < |marker| && text[|text| - longest..] == marker[..longest])
      ensures forall n: nat | longest < n <= |text| :: !(n < |marker| && text[|text| - n..] == marker[..n])
    {
      longest := 0;
      var upper := Min(|text|, |marker| - 1);
      for length := 1 to Max(0, upper) + 1
        invariant longest < length
        invariant longest <= |text| &&
          (longest > 0 ==> longest < |marker| && text[|text| - longest..] == marker[..longest])
        invariant forall n: nat | longest < n < length && n <= |text| ::
          !(n < |marker| && text[|text| - n..] == marker[..n])
      {
        if text[|text| - length..] == marker[..length] {
          longest := Max(longest, length);
        }
      }
    }

    /** Remove each of the markers in turn. */
    method Remove(text: string, markers: seq<string>) returns (clean: string)
      ensures clean == Unmark(text, markers, 0)
    {
      clean := text;
      for k := 0 to |markers|
        invariant Unmark(text, markers, 0) == Unmark(clean, markers, k)
      {
        if markers[k] != "" {
          clean := Without(clean, markers[k]);
        }
      }
    }
  }

  lemma OneMoreMarker(text: string, markers: seq<string>, m: string, hold: nat)
    requires forall n: nat | hold < n <= |text| :: !EndsInPartial(text, markers, n)
    requires forall n: nat | hold < n <= |text| :: !(n < |m| && text[|text| - n..] == m[..n])
    ensures forall n: nat | hold < n <= |text| :: !EndsInPartial(text, markers + [m], n)
  {
    var more := markers + [m];
    forall n: nat | hold < n <= |text| ensures !EndsInPartial(text, more, n) {
      assert !EndsInPartial(text, markers, n);
    }
  }

  // ---------------------------------------------------------------- the loop of `Feed`

  /** Working off the rest of the buffer completes what has been put out so far. */
  ghost predicate Remains(s0: Splitter, s: Splitter, acc: Delta, m: Markers, final: bool) {
    var (t, d) := Drain(s, m, final);
    Drain(s0, m, final) == (t, Plus(acc, d))
  }

  lemma NothingYet(s0: Splitter, acc: Delta, m: Markers, final: bool)
    requires acc == Delta("", "")
    ensures Remains(s0, s0, acc, m, final)
  {
    var d := Drain(s0, m, final).1;
    assert "" + d.reasoning == d.reasoning && "" + d.content == d.content;
  }

  lemma LeaveContinues(s0: Splitter, s: Splitter, acc: Delta, i: nat, m: Markers, final: bool)
    requires Remains(s0, s, acc, m, final) && s.buffer != "" && Ending(s, m) == Some(i)
    ensures Remains(s0, Leave(s, m, i).0, Plus(acc, Leave(s, m, i).1), m, final)
  {
    var (t, d) := Leave(s, m, i);
    var rest := Drain(t, m, final).1;
    Associates(acc.reasoning, d.reasoning, rest.reasoning);
    Associates(acc.content, d.content, rest.content);
  }

  lemma {:induction false} MarkerOfAppend(text: string, markers: seq<string>, m: string, i: nat, k: nat)
    requires k <= |markers|
    ensures MarkerOf(text, markers + [m], i, k)
            == if MarkerOf(text, markers, i, k) != "" then MarkerOf(text, markers, i, k)
               else if OccursAt(text, i, m) then m else ""
    decreases |markers| - k
  {
    var more := markers + [m];
    if k == |markers| {
      assert more[k] == m;
      assert MarkerOf(text, more, i, k + 1) == "";
    } else {
      assert more[k] == markers[k];
      MarkerOfAppend(text, markers, m, i, k + 1);
    }
  }

  lemma {:induction false} NotAmong(text: string, markers: seq<string>, i: nat, k: nat)
    requires k <= |markers| && !MarkerAt(text, markers, i)
    ensures MarkerOf(text, markers, i, k) == ""
    decreases |markers| - k
  {
    if k < |markers| {
      NotAmong(text, markers, i, k + 1);
    }
  }

  lemma IsAmong(text: string, markers: seq<string>, i: nat)
    requires MarkerAt(text, markers, i)
    ensures MarkerOf(text, markers, i, 0) != ""
  {
    var k :| 0 <= k < |markers| && markers[k] != "" && OccursAt(text, i, markers[k]);
    MarkerOfFinds(text, markers, i, 0, k);
  }

  lemma NoMarkersHoldNothing(text: string, markers: seq<string>)
    ensures markers == [] ==> Held(text, markers) == 0
    ensures text[..|text|] == text && text[|text|..] == ""
  {
  }
}
