/**
 The chat text streamer: text arrives in arbitrary pushes and is passed on as it
 comes, except that a leading role label is removed, output ends before the first
 stop string, and the end of the text is held back while it may still grow into
 one.  The result is compared with truncating the whole text at once.
 */
module ChatStream {
  import opened Wrappers
  import opened Text

  const ROLE_LABELS: seq<string> := ["Assistant:", "assistant:"]

  // ---------------------------------------------------------------- stop strings, all at once

  /** The text before its first stop string. */
  function Truncate(text: string, stops: seq<string>): string {
    match FirstMarker(text, stops, 0)
    case None => text
    case Some(i) => text[..i]
  }

  /** The least place found, searching each stop string in turn. */
  method FirstStopIndex(text: string, stops: seq<string>) returns (index: Option<nat>)
    ensures index == FirstMarker(text, stops, 0)
  {
    index := None;
    for k := 0 to |stops|
      invariant IsFirst(text, stops[..k], 0, index)
    {
      var found := if stops[k] == "" then None else Find(text, stops[k], 0);
      AddMarker(text, stops[..k], stops[k], index, found);
      if found.Some? && (index.None? || found.value < index.value) {
        index := found;
      }
      assert stops[..k + 1] == stops[..k] + [stops[k]];
    }
    assert stops[..|stops|] == stops;
    FirstIsUnique(text, stops, 0, index);
  }

  method TruncateAtStopStrings(text: string, stops: seq<string>) returns (cut: string)
    ensures cut == Truncate(text, stops)
  {
    var end := |text|;
    ghost var index: Option<nat> := None;
    for k := 0 to |stops|
      invariant IsFirst(text, stops[..k], 0, index)
      invariant end == (if index.Some? then index.value else |text|) <= |text|
    {
      var found := if stops[k] == "" then None else Find(text, stops[k], 0);
      AddMarker(text, stops[..k], stops[k], index, found);
      if found.Some? {
        index := if index.None? || found.value < index.value then found else index;
        end := Min(end, found.value);
      }
      assert stops[..k + 1] == stops[..k] + [stops[k]];
    }
    assert stops[..|stops|] == stops;
    FirstIsUnique(text, stops, 0, index);
    cut := text[..end];
  }

  /** Try every prefix length of every stop string, longest first. */
  method TrailingStopPrefixLength(text: string, stops: seq<string>) returns (longest: nat)
    ensures longest == Held(text, stops)
  {
    longest := 0;
    for k := 0 to |stops|
      invariant longest <= |text| && (longest > 0 ==> EndsInPartial(text, stops, longest))
      invariant forall n, i :: longest < n <= |text| && 0 <= i < k ==>
        !(n < |stops[i]| && text[|text| - n..] == stops[i][..n])
    {
      var stop := stops[k];
      var length := Min(|text|, Max(0, |stop| - 1));
      while length > 0 && text[|text| - length..] != stop[..length]
        invariant 0 <= length <= Min(|text|, Max(0, |stop| - 1))
        invariant forall n :: length < n <= |text| && n < |stop| ==> text[|text| - n..] != stop[..n]
      {
        length := length - 1;
      }
      if length > 0 {
        longest := Max(longest, length);
      }
    }
    HeldIs(text, stops, longest);
  }

  // ---------------------------------------------------------------- which stop sets stream exactly

  /**
   A stop string that can be completed inside another one must not be able to
   fire first: the outer one has a proper prefix that is itself a stop string.
   */
  ghost predicate Streamable(stops: seq<string>) {
    forall a <- stops, b <- stops, o: nat :: InsideAt(a, b, o) ==> HasStopPrefix(a, stops)
  }

  ghost predicate HasStopPrefix(a: string, stops: seq<string>) {
    exists c <- stops :: c != "" && |c| < |a| && a[..|c|] == c
  }

  /** Once a stop string is seen, the text to come cannot move the first one. */
  lemma StopIsFinal(text: string, more: string, stops: seq<string>)
    requires Streamable(stops) && FirstMarker(text, stops, 0).Some?
    ensures FirstMarker(text + more, stops, 0) == FirstMarker(text, stops, 0)
  {
    FirstMarkerIsFirst(text, stops, 0);
    var j := FirstMarker(text, stops, 0).value;
    var k :| 0 <= k < |stops| && stops[k] != "" && OccursAt(text, j, stops[k]);
    OccursInPrefix(text, more, j, stops[k]);
    forall i: nat | i < j ensures !MarkerAt(text + more, stops, i) {
      forall x | 0 <= x < |stops| && stops[x] != "" ensures !OccursAt(text + more, i, stops[x]) {
        NoEarlierStop(text, more, stops, i, j, stops[x], stops[k]);
      }
    }
    FirstIsUnique(text + more, stops, 0, Some(j));
  }

  lemma {:induction false} NoEarlierStop(text: string, more: string, stops: seq<string>, i: nat, j: nat, a: string,
                                         b: string)
    requires Streamable(stops) && a in stops && a != "" && b in stops && b != ""
    requires IsFirst(text, stops, 0, Some(j)) && OccursAt(text, j, b) && i < j
    ensures !OccursAt(text + more, i, a)
    decreases |a|
  {
    OccursInPrefix(text, more, i, a);
    assert !MarkerAt(text, stops, i);
    if OccursAt(text + more, i, a) {
      assert |text| < i + |a|;
      OccursInPrefix(text, more, j, b);
      SliceOfSlice(text + more, i, |a|, j - i, |b|);
      assert InsideAt(a, b, j - i);
      var c :| c in stops && c != "" && |c| < |a| && a[..|c|] == c;
      SliceOfSlice(text + more, i, |a|, 0, |c|);
      NoEarlierStop(text, more, stops, i, j, c, b);
    }
  }

  /** A stop set that is not streamable has a text whose first stop string moves back as the text grows. */
  lemma StopCanMove(stops: seq<string>) returns (text: string, more: string)
    requires !Streamable(stops)
    ensures FirstMarker(text, stops, 0).Some? && FirstMarker(text, stops, 0).value > 0
    ensures FirstMarker(text + more, stops, 0) == Some(0)
  {
    var a, b, o: nat :| a in stops && b in stops && InsideAt(a, b, o) && !HasStopPrefix(a, stops);
    text, more := a[..o + |b|], a[o + |b|..];
    assert text + more == a;
    assert OccursAt(text, o, b) && OccursAt(a, 0, a);
    assert MarkerAt(text, stops, o) && MarkerAt(a, stops, 0);
    forall k | 0 <= k < |stops| && stops[k] != "" ensures !OccursAt(text, 0, stops[k]) {
      assert |stops[k]| <= |text| ==> text[..|stops[k]|] == a[..|stops[k]|];
    }
    assert !MarkerAt(text, stops, 0);
    FirstMarkerIsFirst(text, stops, 0);
  }

  // ---------------------------------------------------------------- the role label

  /** The first role label, from the `k`-th on, that the stripped text starts with. */
  function RoleLabel(stripped: string, labels: seq<string>, k: nat): (r: Option<string>)
    requires k <= |labels|
    ensures r.Some? ==> StartsWith(stripped, r.value)
    decreases |labels| - k
  {
    if k == |labels| then None
    else if StartsWith(stripped, labels[k]) then Some(labels[k])
    else RoleLabel(stripped, labels, k + 1)
  }

  /** More text could still turn this into a role label. */
  predicate MayBecomeLabel(stripped: string, labels: seq<string>) {
    exists k :: 0 <= k < |labels| && StartsWith(labels[k], stripped)
  }

  /** What one look at a whole text makes of it: its label, and the whitespace around it, removed. */
  function WithoutRole(text: string, labels: seq<string>): string {
    var stripped := LStrip(text);
    var role := RoleLabel(stripped, labels, 0);
    if role.Some? then LStrip(stripped[|role.value|..]) else stripped
  }

  /** Enough text has arrived to tell whether it starts with a label. */
  predicate Decided(text: string, labels: seq<string>) {
    RoleLabel(LStrip(text), labels, 0).Some? || !MayBecomeLabel(LStrip(text), labels)
  }

  /** There are labels, none of them empty or starting with a space, and none a proper prefix of another. */
  ghost predicate ProperLabels(labels: seq<string>) {
    && labels != []
    && (forall k :: 0 <= k < |labels| ==> labels[k] != "" && !IsSpace(labels[k][0]))
    && (forall j, k :: 0 <= j < |labels| && 0 <= k < |labels| && StartsWith(labels[j], labels[k]) ==>
        labels[j] == labels[k])
  }

  lemma RoleLabelsAreProper()
    ensures ProperLabels(ROLE_LABELS)
  {
    assert ROLE_LABELS[0][0] == 'A' && ROLE_LABELS[1][0] == 'a';
    assert |ROLE_LABELS[0]| == |ROLE_LABELS[1]| == 10;
    forall j, k | 0 <= j < 2 && 0 <= k < 2 && StartsWith(ROLE_LABELS[j], ROLE_LABELS[k]) ensures j == k {
      assert ROLE_LABELS[j][0] == ROLE_LABELS[j][0..10][0] == ROLE_LABELS[k][0];
    }
  }

  /** Either spelling of the label goes, with the white space after it. */
  lemma AssistantLabelGoes(before: string, role: string, text: string)
    requires AllSpace(before) && role in {"Assistant:", "assistant:"}
    ensures WithoutRole(before + role + text, ROLE_LABELS) == LStrip(text)
  {
    var all := role + text;
    AppendTwice(before, role, text);
    StripsTo(before, all);
    assert all[0] == role[0] && all[..|role|] == role && all[|role|..] == text;
    assert |ROLE_LABELS[0]| == 10 && ROLE_LABELS[0][0] == 'A' && all[0..10] == role;
  }

  /** White space before a text that starts with none is stripped. */
  lemma StripsTo(before: string, text: string)
    requires AllSpace(before) && text != "" && !IsSpace(text[0])
    ensures LStrip(before + text) == text
  {
    LStripAppend(before, text);
    LStripIs(before);
    LStripKeeps(text);
  }

  lemma StartsTransitive(a: string, t: string, l: string)
    requires StartsWith(a, t) && StartsWith(t, l)
    ensures StartsWith(a, l)
  {
    assert a[..|l|] == a[..|t|][..|l|];
  }

  /** Once decided, the label does not change as the text grows. */
  lemma {:induction false} LabelIsStable(t: string, more: string, labels: seq<string>, k: nat)
    requires ProperLabels(labels) && k <= |labels|
    requires RoleLabel(t, labels, k).Some? || !MayBecomeLabel(t, labels)
    ensures RoleLabel(t + more, labels, k) == RoleLabel(t, labels, k)
    decreases |labels| - k
  {
    if k < |labels| {
      if !StartsWith(t, labels[k]) {
        if StartsWith(t + more, labels[k]) {
          LabelsOverlap(t, labels, k);
        }
        LabelIsStable(t, more, labels, k + 1);
      }
    }
  }

  /** A text that is a proper prefix of one label does not start with another one. */
  lemma {:induction false} LabelsOverlap(t: string, labels: seq<string>, k: nat)
    requires ProperLabels(labels) && k < |labels| && StartsWith(labels[k], t) && !StartsWith(t, labels[k])
    ensures forall j: nat | j <= |labels| :: RoleLabel(t, labels, j).None?
  {
    forall j: nat | j <= |labels| ensures RoleLabel(t, labels, j).None? {
      NoLabelFrom(t, labels, k, j);
    }
  }

  lemma {:induction false} NoLabelFrom(t: string, labels: seq<string>, k: nat, j: nat)
    requires ProperLabels(labels) && k < |labels| && StartsWith(labels[k], t) && !StartsWith(t, labels[k])
    requires j <= |labels|
    ensures RoleLabel(t, labels, j).None?
    decreases |labels| - j
  {
    if j < |labels| {
      if StartsWith(t, labels[j]) {
        StartsTransitive(labels[k], t, labels[j]);
      }
      NoLabelFrom(t, labels, k, j + 1);
    }
  }

  lemma DecidedIsStable(text: string, more: string, labels: seq<string>)
    requires ProperLabels(labels) && Decided(text, labels)
    ensures LStrip(text) != "" && LStrip(text + more) == LStrip(text) + more
    ensures RoleLabel(LStrip(text + more), labels, 0) == RoleLabel(LStrip(text), labels, 0)
  {
    var t := LStrip(text);
    assert StartsWith(labels[0], "");
    assert !StartsWith("", labels[0]);
    LabelsOverlap("", labels, 0);
    LStripAppend(text, more);
    LabelIsStable(t, more, labels, 0);
  }

  // ---------------------------------------------------------------- the streamer as a value

  datatype Streamer = Streamer(buffer: string, started: bool, stopped: bool, emitted: seq<string>)

  datatype Options = Options(stops: seq<string>, labels: seq<string>)

  const NEW_STREAMER := Streamer("", false, false, [])

  /** Remove the leading label once it, or its absence, is certain; `force` when no more text will come. */
  function StripRole(s: Streamer, force: bool, o: Options): Streamer {
    if s.started || (!force && !Decided(s.buffer, o.labels)) then s
    else s.(buffer := WithoutRole(s.buffer, o.labels), started := true)
  }

  function Emit(s: Streamer, text: string): Streamer {
    if text == "" then s else s.(emitted := s.emitted + [text])
  }

  /** Pass on what can no longer be part of a stop string. */
  function EmitSafe(s: Streamer, stops: seq<string>): Streamer {
    match FirstMarker(s.buffer, stops, 0)
    case Some(i) => Emit(s, s.buffer[..i]).(buffer := "", stopped := true)
    case None =>
      var safe := |s.buffer| - Held(s.buffer, stops);
      if safe == 0 then s else Emit(s, s.buffer[..safe]).(buffer := s.buffer[safe..])
  }

  function AfterPush(s: Streamer, text: string, o: Options): Streamer {
    if s.stopped || text == "" then s
    else
      var t := StripRole(s.(buffer := s.buffer + text), false, o);
      if t.started then EmitSafe(t, o.stops) else t
  }

  function AfterFinish(s: Streamer, o: Options): Streamer {
    if s.stopped then s
    else
      var t := StripRole(s, true, o);
      Emit(t, Truncate(t.buffer, o.stops)).(buffer := "")
  }

  function PushAll(chunks: seq<string>, o: Options): Streamer {
    if chunks == [] then NEW_STREAMER
    else AfterPush(PushAll(chunks[..|chunks| - 1], o), chunks[|chunks| - 1], o)
  }

  /** Everything passed on for a text that arrived in the given pushes. */
  function Streamed(chunks: seq<string>, o: Options): string {
    Join(AfterFinish(PushAll(chunks, o), o).emitted)
  }

  // ---------------------------------------------------------------- the visible text

  /** It has become certain, at some push, whether the text starts with a label. */
  ghost predicate Opened(chunks: seq<string>, labels: seq<string>) {
    chunks != [] &&
    (Opened(chunks[..|chunks| - 1], labels) || (chunks[|chunks| - 1] != "" && Decided(Join(chunks), labels)))
  }

  /** The text with the label removed as the streamer removes it: at the opening, and not again afterwards. */
  ghost function Visible(chunks: seq<string>, labels: seq<string>): string {
    if chunks != [] && Opened(chunks[..|chunks| - 1], labels) then
      Visible(chunks[..|chunks| - 1], labels) + chunks[|chunks| - 1]
    else
      WithoutRole(Join(chunks), labels)
  }

  /** `text` has no stop string, and no stop string can still begin in its first `n` characters. */
  ghost predicate Settled(text: string, stops: seq<string>, n: nat) {
    && n <= |text|
    && (forall i: nat :: !MarkerAt(text, stops, i))
    && (forall i: nat | i < n :: !Pending(text, stops, i))
  }

  /** More text after a settled one: no stop string, and nothing pending, shows up in the settled part. */
  lemma StaysSettled(text: string, more: string, stops: seq<string>, n: nat, i: nat)
    requires Settled(text, stops, n) && i < n
    ensures !MarkerAt(text + more, stops, i) && !Pending(text + more, stops, i)
  {
    if MarkerAt(text + more, stops, i) {
      CompletedWasPending(text, more, stops, i);
    }
    if Pending(text + more, stops, i) {
      PendingWasPending(text, more, stops, i);
    }
  }

  /** What the streamer has done with the text `t` seen so far. */
  ghost predicate InStep(s: Streamer, t: string, stops: seq<string>) {
    if s.stopped then FirstMarker(t, stops, 0) == Some(|Join(s.emitted)|) && Join(s.emitted) <= t
    else t == Join(s.emitted) + s.buffer && Settled(t, stops, |Join(s.emitted)|)
  }

  /** A settled text may grow by a buffer: its first stop string, if any, is the buffer's. */
  lemma StopIsInBuffer(e: string, b: string, stops: seq<string>)
    requires forall k: nat | k < |e| :: !MarkerAt(e + b, stops, k)
    ensures var i := FirstMarker(b, stops, 0);
            FirstMarker(e + b, stops, 0) == if i.Some? then Some(|e| + i.value) else None
  {
    FirstMarkerFrom(e + b, stops, 0, |e|);
    FirstMarkerInTail(e, b, stops, 0);
  }

  /** Without a stop string, everything but the held suffix is settled. */
  lemma BufferSettles(e: string, b: string, stops: seq<string>)
    requires forall k: nat | k < |e| :: !Pending(e + b, stops, k)
    requires FirstMarker(e + b, stops, 0).None?
    ensures Settled(e + b, stops, |e| + |b| - Held(b, stops))
  {
    FirstMarkerIsFirst(e + b, stops, 0);
    var safe := |b| - Held(b, stops);
    forall k: nat | k < |e| + safe ensures !Pending(e + b, stops, k) {
      if |e| <= k {
        PendingInTail(e, b, stops, k - |e|);
        assert !EndsInPartial(b, stops, |b| - (k - |e|));
      }
    }
  }

  /** A text that grows from a settled one has nothing new in the settled part. */
  lemma GrowthIsClear(t: string, more: string, stops: seq<string>, n: nat)
    requires Settled(t, stops, n)
    ensures forall k: nat | k < n :: !MarkerAt(t + more, stops, k)
    ensures forall k: nat | k < n :: !Pending(t + more, stops, k)
  {
    forall k: nat | k < n ensures !MarkerAt(t + more, stops, k) && !Pending(t + more, stops, k) {
      StaysSettled(t, more, stops, n, k);
    }
  }

  lemma EmitBeforeStop(s: Streamer, i: nat, all: string, stops: seq<string>)
    requires all == Join(s.emitted) + s.buffer && i <= |s.buffer|
    requires FirstMarker(all, stops, 0) == Some(|Join(s.emitted)| + i)
    ensures InStep(Emit(s, s.buffer[..i]).(buffer := "", stopped := true), all, stops)
  {
    var e, b := Join(s.emitted), s.buffer;
    assert all[..|e| + i] == e + b[..i];
  }

  lemma EmitUpTo(s: Streamer, n: nat, all: string, stops: seq<string>)
    requires !s.stopped && all == Join(s.emitted) + s.buffer && n <= |s.buffer|
    requires Settled(all, stops, |Join(s.emitted)| + n)
    ensures InStep(if n == 0 then s else Emit(s, s.buffer[..n]).(buffer := s.buffer[n..]), all, stops)
  {
    if n > 0 {
      JoinSnoc(s.emitted, s.buffer[..n]);
      assert Join(s.emitted) + s.buffer == (Join(s.emitted) + s.buffer[..n]) + s.buffer[n..];
    }
  }

  /** Passing on the safe part of a buffer that continues a settled text. */
  lemma EmitSafeInStep(s: Streamer, t: string, more: string, stops: seq<string>)
    requires !s.stopped && Settled(t, stops, |Join(s.emitted)|) && t + more == Join(s.emitted) + s.buffer
    ensures InStep(EmitSafe(s, stops), t + more, stops)
  {
    var e, b := Join(s.emitted), s.buffer;
    GrowthIsClear(t, more, stops, |e|);
    StopIsInBuffer(e, b, stops);
    var stop := FirstMarker(b, stops, 0);
    if stop.Some? {
      EmitBeforeStop(s, stop.value, t + more, stops);
    } else {
      BufferSettles(e, b, stops);
      EmitUpTo(s, |b| - Held(b, stops), t + more, stops);
    }
  }

  // ---------------------------------------------------------------- one push

  /** Before the opening the streamer has only buffered. */
  ghost predicate Waiting(s: Streamer, t: string) {
    !s.started && !s.stopped && s.buffer == t && s.emitted == []
  }

  /** The streamer after some pushes, told by the text received. */
  ghost predicate Tracks(s: Streamer, chunks: seq<string>, o: Options) {
    if !Opened(chunks, o.labels) then Waiting(s, Join(chunks))
    else s.started && InStep(s, Visible(chunks, o.labels), o.stops)
  }

  /** What the text received becomes with one more push. */
  lemma PushSeen(chunks: seq<string>, text: string, labels: seq<string>)
    ensures var all := chunks + [text];
            && Join(all) == Join(chunks) + text
            && (Opened(all, labels) <==> Opened(chunks, labels) || (text != "" && Decided(Join(chunks) + text, labels)))
            && Visible(all, labels) == if Opened(chunks, labels) then Visible(chunks, labels) + text
                                       else WithoutRole(Join(chunks) + text, labels)
  {
    JoinSnoc(chunks, text);
    assert (chunks + [text])[..|chunks|] == chunks;
  }

  lemma PushWhenOpen(s: Streamer, t: string, text: string, o: Options)
    requires Streamable(o.stops) && s.started && InStep(s, t, o.stops) && text != ""
    ensures AfterPush(s, text, o).started && InStep(AfterPush(s, text, o), t + text, o.stops)
  {
    if s.stopped {
      StopIsFinal(t, text, o.stops);
    } else {
      EmitSafeInStep(s.(buffer := s.buffer + text), t, text, o.stops);
    }
  }

  lemma PushOpens(s: Streamer, t: string, text: string, o: Options)
    requires Waiting(s, t) && Decided(t + text, o.labels) && text != ""
    ensures AfterPush(s, text, o).started && InStep(AfterPush(s, text, o), WithoutRole(t + text, o.labels), o.stops)
  {
    var begun := Streamer(WithoutRole(t + text, o.labels), true, false, []);
    assert StripRole(s.(buffer := s.buffer + text), false, o) == begun;
    FreshInStep(begun, o.stops);
  }

  lemma FreshInStep(s: Streamer, stops: seq<string>)
    requires s.emitted == [] && !s.stopped
    ensures InStep(EmitSafe(s, stops), s.buffer, stops)
  {
    var t, e := "", Join(s.emitted);
    assert t == e && t + s.buffer == s.buffer;
    EmptyIsSettled(stops);
    EmitSafeInStep(s, t, s.buffer, stops);
  }

  lemma PushTracks(s: Streamer, chunks: seq<string>, text: string, o: Options)
    requires Streamable(o.stops) && Tracks(s, chunks, o) && text != ""
    ensures Tracks(AfterPush(s, text, o), chunks + [text], o)
  {
    PushSeen(chunks, text, o.labels);
    if Opened(chunks, o.labels) {
      PushWhenOpen(s, Visible(chunks, o.labels), text, o);
    } else if Decided(Join(chunks) + text, o.labels) {
      PushOpens(s, Join(chunks), text, o);
    }
  }

  lemma EmptyIsSettled(stops: seq<string>)
    ensures Settled("", stops, 0)
  {
  }

  lemma EmptyPushTracks(s: Streamer, chunks: seq<string>, o: Options)
    requires Tracks(s, chunks, o)
    ensures Tracks(s, chunks + [""], o)
  {
    PushSeen(chunks, "", o.labels);
    assert Join(chunks) + "" == Join(chunks);
    assert Visible(chunks, o.labels) + "" == Visible(chunks, o.labels);
  }

  lemma {:induction false} PushAllTracks(chunks: seq<string>, o: Options)
    requires Streamable(o.stops)
    ensures Tracks(PushAll(chunks, o), chunks, o)
  {
    if chunks != [] {
      var before, text := chunks[..|chunks| - 1], chunks[|chunks| - 1];
      assert chunks == before + [text];
      PushAllTracks(before, o);
      if text == "" {
        EmptyPushTracks(PushAll(before, o), before, o);
      } else {
        PushTracks(PushAll(before, o), before, text, o);
      }
    }
  }

  /** Streaming a text in any pushes passes on exactly the visible text before its first stop string. */
  lemma StreamingIsTruncation(chunks: seq<string>, o: Options)
    requires Streamable(o.stops)
    ensures Streamed(chunks, o) == Truncate(Visible(chunks, o.labels), o.stops)
  {
    PushAllTracks(chunks, o);
    FinishTruncates(PushAll(chunks, o), chunks, o);
  }

  lemma FinishTruncates(s: Streamer, chunks: seq<string>, o: Options)
    requires Tracks(s, chunks, o)
    ensures Join(AfterFinish(s, o).emitted) == Truncate(Visible(chunks, o.labels), o.stops)
  {
    if Opened(chunks, o.labels) && !s.stopped {
      NoStopInTail(Join(s.emitted), s.buffer, o.stops);
    }
  }

  lemma NoStopInTail(e: string, b: string, stops: seq<string>)
    requires Settled(e + b, stops, |e|)
    ensures Truncate(e + b, stops) == e + b && Truncate(b, stops) == b
  {
    FirstIsUnique(e + b, stops, 0, None);
    StopIsInBuffer(e, b, stops);
  }

  /**
   Truncation after streaming is exact for every way of cutting every text exactly when the stop set is streamable.
   */
  lemma StreamingExactIff(o: Options)
    requires ProperLabels(o.labels)
    ensures Streamable(o.stops)
            <==> forall chunks :: Streamed(chunks, o) == Truncate(Visible(chunks, o.labels), o.stops)
  {
    if Streamable(o.stops) {
      forall chunks ensures Streamed(chunks, o) == Truncate(Visible(chunks, o.labels), o.stops) {
        StreamingIsTruncation(chunks, o);
      }
    } else {
      var text, more := StopCanMove(o.stops);
      var chunks := EarlyStop(text, more, o);
      assert Streamed(chunks, o) != Truncate(Visible(chunks, o.labels), o.stops);
    }
  }

  /** A push of just a label opens the text and leaves nothing to show. */
  lemma LabelPush(l: string, o: Options)
    requires ProperLabels(o.labels) && l == o.labels[0]
    ensures l != "" && Decided(l, o.labels) && WithoutRole(l, o.labels) == ""
    ensures AfterPush(NEW_STREAMER, l, o) == Streamer("", true, false, [])
  {
    assert StartsWith(l, l) && LStrip(l) == l;
    assert RoleLabel(l, o.labels, 0) == Some(l);
    assert l[|l|..] == "" && "" + l == l;
  }

  /** A push that contains a stop string after its start ends the output there. */
  lemma StoppingPush(text: string, more: string, o: Options)
    requires FirstMarker(text, o.stops, 0).Some? && FirstMarker(text, o.stops, 0).value > 0
    ensures var s := AfterPush(AfterPush(Streamer("", true, false, []), text, o), more, o);
            s.stopped && s.emitted == [text[..FirstMarker(text, o.stops, 0).value]]
  {
    assert "" + text == text;
    assert [] + [text[..FirstMarker(text, o.stops, 0).value]] == [text[..FirstMarker(text, o.stops, 0).value]];
  }

  lemma PushAllSnoc(chunks: seq<string>, text: string, o: Options)
    ensures PushAll(chunks + [text], o) == AfterPush(PushAll(chunks, o), text, o)
  {
    assert (chunks + [text])[..|chunks|] == chunks;
  }

  lemma ThreePushes(a: string, b: string, c: string, o: Options)
    ensures PushAll([] + [a] + [b] + [c], o) == AfterPush(AfterPush(AfterPush(NEW_STREAMER, a, o), b, o), c, o)
  {
    PushAllSnoc([], a, o);
    PushAllSnoc([] + [a], b, o);
    PushAllSnoc([] + [a] + [b], c, o);
  }

  lemma OneSeen(a: string, labels: seq<string>)
    requires a != "" && Decided(a, labels)
    ensures Opened([] + [a], labels) && Visible([] + [a], labels) == WithoutRole(a, labels)
  {
    PushSeen([], a, labels);
    assert Join([]) + a == a;
  }

  lemma StoppedStream(chunks: seq<string>, s: Streamer, shown: string, o: Options)
    requires PushAll(chunks, o) == s && s.stopped && s.emitted == [shown]
    ensures Streamed(chunks, o) == shown
  {
    JoinOne(shown);
  }

  lemma SeenAfterLabel(l: string, text: string, more: string, o: Options)
    requires ProperLabels(o.labels) && l == o.labels[0] && text != ""
    ensures Visible([] + [l] + [text] + [more], o.labels) == text + more
  {
    LabelPush(l, o);
    OneSeen(l, o.labels);
    PushSeen([] + [l], text, o.labels);
    PushSeen([] + [l] + [text], more, o.labels);
    assert "" + text + more == text + more;
  }

  lemma ShownAfterLabel(l: string, text: string, more: string, shown: string, o: Options)
    requires ProperLabels(o.labels) && l == o.labels[0]
    requires FirstMarker(text, o.stops, 0).Some? && FirstMarker(text, o.stops, 0).value > 0
    requires shown == text[..FirstMarker(text, o.stops, 0).value]
    ensures Streamed([] + [l] + [text] + [more], o) == shown
  {
    LabelPush(l, o);
    ThreePushes(l, text, more, o);
    StoppingPush(text, more, o);
    StoppedStream([] + [l] + [text] + [more],
                  AfterPush(AfterPush(Streamer("", true, false, []), text, o), more, o), shown, o);
  }

  /** Sent after a label in two pushes, a text whose first stop string moves back is not truncated. */
  lemma EarlyStop(text: string, more: string, o: Options) returns (chunks: seq<string>)
    requires ProperLabels(o.labels)
    requires FirstMarker(text, o.stops, 0).Some? && FirstMarker(text, o.stops, 0).value > 0
    requires FirstMarker(text + more, o.stops, 0) == Some(0)
    ensures Streamed(chunks, o) != Truncate(Visible(chunks, o.labels), o.stops)
  {
    chunks := [] + [o.labels[0]] + [text] + [more];
    var shown := text[..FirstMarker(text, o.stops, 0).value];
    SeenAfterLabel(o.labels[0], text, more, o);
    ShownAfterLabel(o.labels[0], text, more, shown, o);
  }

  // ---------------------------------------------------------------- when the pushes do not matter

  /** The text received when it became certain whether it starts with a label. */
  ghost function OpeningText(chunks: seq<string>, labels: seq<string>): string
    requires Opened(chunks, labels)
  {
    if Opened(chunks[..|chunks| - 1], labels) then OpeningText(chunks[..|chunks| - 1], labels) else Join(chunks)
  }

  lemma {:induction false} VisibleFromOpening(chunks: seq<string>, labels: seq<string>) returns (tail: string)
    requires Opened(chunks, labels)
    ensures Decided(OpeningText(chunks, labels), labels)
    ensures Join(chunks) == OpeningText(chunks, labels) + tail
    ensures Visible(chunks, labels) == WithoutRole(OpeningText(chunks, labels), labels) + tail
  {
    var before, last := chunks[..|chunks| - 1], chunks[|chunks| - 1];
    if Opened(before, labels) {
      var t := VisibleFromOpening(before, labels);
      tail := t + last;
      AppendTwice(OpeningText(before, labels), t, last);
      AppendTwice(WithoutRole(OpeningText(before, labels), labels), t, last);
    } else {
      tail := "";
      AppendNothing(Join(chunks));
      AppendNothing(WithoutRole(Join(chunks), labels));
    }
  }

  lemma AppendTwice(a: string, b: string, c: string)
    ensures a + (b + c) == a + b + c
  {
  }

  lemma AppendNothing(a: string)
    ensures a + "" == a
  {
  }

  /** The pushes separate a label from whitespace that follows it. */
  ghost predicate SplitsLabel(chunks: seq<string>, labels: seq<string>) {
    && Opened(chunks, labels)
    && var head, all := OpeningText(chunks, labels), Join(chunks);
    && RoleLabel(LStrip(head), labels, 0).Some? && WithoutRole(head, labels) == ""
    && |head| < |all| && IsSpace(all[|head|])
  }

  /** What the growth of a decided text by `tail` means for its label-free form. */
  lemma WithoutRoleGrows(head: string, tail: string, labels: seq<string>)
    requires ProperLabels(labels) && Decided(head, labels)
    ensures WithoutRole(head + tail, labels) == WithoutRole(head, labels) + tail
            <==> !(RoleLabel(LStrip(head), labels, 0).Some? && WithoutRole(head, labels) == ""
                   && tail != "" && IsSpace(tail[0]))
  {
    DecidedIsStable(head, tail, labels);
    var t := LStrip(head);
    var role := RoleLabel(t, labels, 0);
    WithoutRoleIs(head, t, role, labels);
    WithoutRoleIs(head + tail, t + tail, role, labels);
    if role.Some? {
      RestGrows(t[|role.value|..], tail);
      SliceAppend(t, tail, |role.value|);
    }
  }

  lemma WithoutRoleIs(text: string, stripped: string, role: Option<string>, labels: seq<string>)
    requires stripped == LStrip(text) && role == RoleLabel(stripped, labels, 0)
    ensures WithoutRole(text, labels) == if role.Some? then LStrip(stripped[|role.value|..]) else stripped
  {
  }

  lemma SliceAppend(t: string, tail: string, n: nat)
    requires n <= |t|
    ensures (t + tail)[n..] == t[n..] + tail
  {
  }

  lemma RestGrows(rest: string, tail: string)
    ensures LStrip(rest + tail) == LStrip(rest) + tail <==> !(LStrip(rest) == "" && tail != "" && IsSpace(tail[0]))
  {
    LStripAppend(rest, tail);
    LStripKeeps(tail);
    if LStrip(rest) == "" {
      EmptyHead(LStrip(rest), tail);
    }
  }

  lemma EmptyHead(a: string, b: string)
    requires a == ""
    ensures a + b == b
  {
  }

  /**
   The visible text does not depend on the pushes exactly when
   no push ends between a label and whitespace after it.
   */
  lemma VisibleIsWholeIff(chunks: seq<string>, labels: seq<string>)
    requires ProperLabels(labels)
    ensures Visible(chunks, labels) == WithoutRole(Join(chunks), labels) <==> !SplitsLabel(chunks, labels)
  {
    if Opened(chunks, labels) {
      var head := OpeningText(chunks, labels);
      var tail := VisibleFromOpening(chunks, labels);
      WithoutRoleGrows(head, tail, labels);
      assert tail != "" ==> (head + tail)[|head|] == tail[0];
    } else if chunks != [] {
      assert !Opened(chunks[..|chunks| - 1], labels);
    }
  }

  /** Chunk invariance: however the text was pushed, the output is the whole text, stripped and truncated at once. */
  lemma ChunkInvariance(chunks: seq<string>, o: Options)
    requires ProperLabels(o.labels) && Streamable(o.stops) && !SplitsLabel(chunks, o.labels)
    ensures Streamed(chunks, o) == Truncate(WithoutRole(Join(chunks), o.labels), o.stops)
  {
    StreamingIsTruncation(chunks, o);
    VisibleIsWholeIff(chunks, o.labels);
  }

  /**
   For a text without a leading label, whatever the pushes, the
   output is the left-stripped text before its first stop.
   */
  lemma ChunkInvarianceWithoutLabel(chunks: seq<string>, o: Options)
    requires ProperLabels(o.labels) && Streamable(o.stops)
    requires RoleLabel(LStrip(Join(chunks)), o.labels, 0).None?
    ensures Streamed(chunks, o) == Truncate(LStrip(Join(chunks)), o.stops)
  {
    if Opened(chunks, o.labels) {
      var tail := VisibleFromOpening(chunks, o.labels);
      DecidedIsStable(OpeningText(chunks, o.labels), tail, o.labels);
    }
    ChunkInvariance(chunks, o);
  }

  ghost predicate NonEmptyPieces(s: Streamer) {
    forall k :: 0 <= k < |s.emitted| ==> s.emitted[k] != ""
  }

  lemma PushKeepsNonEmpty(s: Streamer, text: string, o: Options)
    requires NonEmptyPieces(s)
    ensures NonEmptyPieces(AfterPush(s, text, o))
  {
  }

  /** Every piece passed on is non-empty. */
  lemma {:induction false} PiecesAreNonEmpty(chunks: seq<string>, o: Options)
    ensures NonEmptyPieces(PushAll(chunks, o)) && NonEmptyPieces(AfterFinish(PushAll(chunks, o), o))
  {
    if chunks != [] {
      PiecesAreNonEmpty(chunks[..|chunks| - 1], o);
      PushKeepsNonEmpty(PushAll(chunks[..|chunks| - 1], o), chunks[|chunks| - 1], o);
    }
  }

  // ---------------------------------------------------------------- nothing is held back in vain

  /** What is held back: the text so far, while it may yet be a label, and later only what may yet be a stop string. */
  ghost predicate HoldsOnlyDoubts(s: Streamer, t: string, o: Options) {
    if !s.started then Waiting(s, t) && !Decided(t, o.labels)
    else s.stopped || s.buffer == "" || EndsInPartial(s.buffer, o.stops, |s.buffer|)
  }

  lemma EmitSafeHoldsOnlyDoubts(s: Streamer, t: string, o: Options)
    requires s.started && !s.stopped
    ensures EmitSafe(s, o.stops).started && HoldsOnlyDoubts(EmitSafe(s, o.stops), t, o)
  {
    var held := Held(s.buffer, o.stops);
    var rest := s.buffer[|s.buffer| - held..];
    assert held > 0 ==> rest[|rest| - held..] == rest;
    assert held == |s.buffer| ==> rest == s.buffer;
  }

  lemma PushHoldsOnlyDoubts(s: Streamer, t: string, text: string, o: Options)
    requires HoldsOnlyDoubts(s, t, o)
    ensures HoldsOnlyDoubts(AfterPush(s, text, o), t + text, o)
  {
    if text == "" {
      assert t + text == t;
    } else if !s.stopped {
      var begun := StripRole(s.(buffer := s.buffer + text), false, o);
      if begun.started {
        EmitSafeHoldsOnlyDoubts(begun, t + text, o);
      }
    }
  }

  lemma {:induction false} PushAllHoldsOnlyDoubts(chunks: seq<string>, o: Options)
    requires ProperLabels(o.labels)
    ensures HoldsOnlyDoubts(PushAll(chunks, o), Join(chunks), o)
  {
    if chunks == [] {
      assert StartsWith(o.labels[0], "");
      assert !StartsWith("", o.labels[0]);
      LabelsOverlap("", o.labels, 0);
    } else {
      PushAllHoldsOnlyDoubts(chunks[..|chunks| - 1], o);
      PushHoldsOnlyDoubts(PushAll(chunks[..|chunks| - 1], o), Join(chunks[..|chunks| - 1]), chunks[|chunks| - 1], o);
    }
  }

  /** A text that may become a label does, when the rest of the label follows, and nothing is left of it. */
  lemma BecomesLabel(t: string, o: Options) returns (more: string)
    requires ProperLabels(o.labels) && !Decided(t, o.labels)
    ensures more != "" && Decided(t + more, o.labels) && WithoutRole(t + more, o.labels) == ""
  {
    var stripped := LStrip(t);
    var k :| 0 <= k < |o.labels| && StartsWith(o.labels[k], stripped);
    var l := o.labels[k];
    more := l[|stripped|..];
    assert l == stripped + more;
    LStripAppend(t, more);
    LStripKeeps(l);
    if stripped == "" {
      assert l == more;
    }
    assert StartsWith(l, l);
    LabelIsItself(o.labels, 0, k);
    NoLabelIn(stripped, l, o.labels);
    assert l[|l|..] == "";
  }

  /** The label a label starts with is itself. */
  lemma {:induction false} LabelIsItself(labels: seq<string>, j: nat, k: nat)
    requires ProperLabels(labels) && j <= k < |labels|
    ensures RoleLabel(labels[k], labels, j) == Some(labels[k])
    decreases k - j
  {
    assert StartsWith(labels[k], labels[k]);
    if j < k && !StartsWith(labels[k], labels[j]) {
      LabelIsItself(labels, j + 1, k);
    }
  }

  lemma NoLabelIn(t: string, l: string, labels: seq<string>)
    requires l in labels && RoleLabel(t, labels, 0).None?
    ensures t != l
  {
    if t == l {
      var k :| 0 <= k < |labels| && labels[k] == l;
      assert StartsWith(t, l);
      FoundLabel(t, labels, 0, k);
    }
  }

  lemma {:induction false} FoundLabel(t: string, labels: seq<string>, j: nat, k: nat)
    requires j <= k < |labels| && StartsWith(t, labels[k])
    ensures RoleLabel(t, labels, j).Some?
    decreases k - j
  {
    if j < k && !StartsWith(t, labels[j]) {
      FoundLabel(t, labels, j + 1, k);
    }
  }

  /** A buffer that may become a stop string does, when the rest of it follows. */
  lemma BecomesStop(s: Streamer, o: Options) returns (more: string)
    requires s.started && !s.stopped && s.buffer != "" && EndsInPartial(s.buffer, o.stops, |s.buffer|)
    ensures more != "" && AfterPush(s, more, o) == s.(buffer := "", stopped := true)
  {
    var k :| 0 <= k < |o.stops| && |s.buffer| < |o.stops[k]| && s.buffer[0..] == o.stops[k][..|s.buffer|];
    more := o.stops[k][|s.buffer|..];
    var all := s.buffer + more;
    assert s.buffer[0..] == s.buffer;
    assert all == o.stops[k] && OccursAt(all, 0, o.stops[k]);
    assert MarkerAt(all, o.stops, 0);
  }

  /**
   Nothing is held back in vain: for any text received so far some continuation ends the output just where it is, so
   no streamer that has to be right could have passed on more.
   */
  lemma NothingIsHeldInVain(chunks: seq<string>, o: Options) returns (more: string)
    requires ProperLabels(o.labels)
    ensures Streamed(chunks + [more], o) == Join(PushAll(chunks, o).emitted)
  {
    var s := PushAll(chunks, o);
    PushAllHoldsOnlyDoubts(chunks, o);
    if !s.started {
      more := BecomesLabel(Join(chunks), o);
      LabelShowsNothing(s, Join(chunks), more, o);
    } else if s.stopped || s.buffer == "" {
      more := "";
    } else {
      more := BecomesStop(s, o);
    }
    PushAllSnoc(chunks, more, o);
  }

  lemma LabelShowsNothing(s: Streamer, t: string, more: string, o: Options)
    requires Waiting(s, t) && more != "" && Decided(t + more, o.labels) && WithoutRole(t + more, o.labels) == ""
    ensures AfterFinish(AfterPush(s, more, o), o).emitted == []
  {
    assert StripRole(s.(buffer := s.buffer + more), false, o) == Streamer("", true, false, []);
  }

  /** What is passed on is never taken back: it stays the beginning of the output, whatever follows. */
  lemma PassedOnStays(chunks: seq<string>, more: string, o: Options)
    ensures Join(PushAll(chunks, o).emitted) <= Join(PushAll(chunks + [more], o).emitted)
    ensures Join(PushAll(chunks + [more], o).emitted) <= Streamed(chunks + [more], o)
  {
    PushAllSnoc(chunks, more, o);
  }

  // ---------------------------------------------------------------- the streamer

  class ChatTextStreamer {
    const stopStrings: seq<string>
    const prefixes: seq<string>
    var buffer: string
    var started: bool
    var stopped: bool
    var emitted: seq<string>

    ghost function Value(): Streamer
      reads this
    {
      Streamer(buffer, started, stopped, emitted)
    }

    ghost function Opts(): Options {
      Options(stopStrings, prefixes)
    }

    constructor (stopStrings: seq<string>)
      ensures Value() == NEW_STREAMER && Opts() == Options(stopStrings, ROLE_LABELS)
    {
      this.stopStrings, prefixes := stopStrings, ROLE_LABELS;
      buffer, started, stopped, emitted := "", false, false, [];
    }

    method EmitText(text: string)
      modifies this`emitted
      ensures Value() == Emit(old(Value()), text)
    {
      if text != "" {
        emitted := emitted + [text];
      }
    }

    method Push(text: string)
      modifies this
      ensures Value() == AfterPush(old(Value()), text, Opts())
      ensures stopped && !old(stopped) ==> buffer == ""
    {
      if stopped || text == "" {
        return;
      }
      buffer := buffer + text;
      StripLeadingRolePrefix(false);
      if !started {
        return;
      }
      EmitSafeText();
    }

    method Finish()
      modifies this
      ensures Value() == AfterFinish(old(Value()), Opts())
      ensures !stopped ==> buffer == ""
    {
      if stopped {
        return;
      }
      StripLeadingRolePrefix(true);
      var final := TruncateAtStopStrings(buffer, stopStrings);
      EmitText(final);
      buffer := "";
    }

    method StripLeadingRolePrefix(force: bool)
      modifies this`buffer, this`started
      ensures Value() == StripRole(old(Value()), force, Opts())
    {
      if started {
        return;
      }
      var stripped := LStrip(buffer);
      var role := FindRole(stripped);
      if role.Some? {
        buffer := LStrip(stripped[|role.value|..]);
        started := true;
        return;
      }
      if !force && MayBecomeLabel(stripped, prefixes) {
        return;
      }
      buffer := stripped;
      started := true;
    }

    method FindRole(stripped: string) returns (role: Option<string>)
      ensures role == RoleLabel(stripped, prefixes, 0)
    {
      for k := 0 to |prefixes|
        invariant RoleLabel(stripped, prefixes, 0) == RoleLabel(stripped, prefixes, k)
      {
        if StartsWith(stripped, prefixes[k]) {
          return Some(prefixes[k]);
        }
      }
      return None;
    }

    method EmitSafeText()
      modifies this`buffer, this`stopped, this`emitted
      ensures Value() == EmitSafe(old(Value()), stopStrings)
    {
      var stopIndex := FirstStopIndex(buffer, stopStrings);
      if stopIndex.Some? {
        EmitText(buffer[..stopIndex.value]);
        buffer := "";
        stopped := true;
        return;
      }
      var keep := TrailingStopPrefixLength(buffer, stopStrings);
      var safe := |buffer| - keep;
      if safe <= 0 {
        return;
      }
      EmitText(buffer[..safe]);
      buffer := buffer[safe..];
    }
  }
}
