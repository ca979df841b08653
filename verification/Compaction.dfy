/**
 Compaction of a conversation: all but its recent and essential items are replaced by
 a summary, inside an envelope that later requests send back.  What must survive is
 proved to survive any number of rounds.

 An envelope's payload is kept as the value its JSON text decodes to.
 */
module Compaction {
  import opened Wrappers
  import opened Text

  const SUMMARY_LABEL := "Conversation summary (historical context):\n"

  /** One part of an item's content; a part that is no object has no kind to ask for. */
  datatype Part = Part(isObject: bool, kind: Option<string>, body: string)

  datatype Content = Absent | Plain(text: string) | Parts(parts: seq<Part>)

  /**
   An item of the conversation; what is not looked at here is its `body`.  A kind of None is a missing type; a type that
   is no text, null for one, is treated like any text the code does not know.
   */
  datatype Item = Item(kind: Option<string>, role: Option<string>, content: Content, stored: Payload, body: string)

  /** What the text inside a compaction item decodes to; a member that is missing or of the wrong type is None. */
  datatype Payload =
    | NoPayload
    | Unreadable
    | Payload(tag: Option<string>, version: Option<int>, summary: Option<string>, retained: Option<seq<Item>>)

  datatype Input = Words(text: string) | Items(items: seq<Item>) | OtherInput

  datatype Error = NotItems | CannotRestore | BadTrigger | InvalidInput | EmptySummary

  // ---------------------------------------------------------------- blank summaries

  /** Stripping twice is stripping once, so a summary that is not blank is still not blank in the envelope. */
  lemma StripTwice(text: string)
    ensures Strip(Strip(text)) == Strip(text)
  {
    RStripKeeps(LStrip(text));
    LStripKeeps(Strip(text));
  }

  // ---------------------------------------------------------------- expanding envelopes

  function UserMessage(text: string): Item {
    Item(Some("message"), Some("user"), Plain(text), NoPayload, "")
  }

  function SummaryMessage(summary: string): Item {
    Item(Some("message"), Some("assistant"), Plain(SUMMARY_LABEL + summary), NoPayload, "")
  }

  predicate IsCompaction(item: Item) {
    item.kind == Some("compaction")
  }

  predicate IsTrigger(item: Item) {
    item.kind == Some("compaction_trigger")
  }

  /** No item stands for others or asks for compaction. */
  predicate Flat(items: seq<Item>) {
    forall i :: 0 <= i < |items| ==> !IsCompaction(items[i]) && !IsTrigger(items[i])
  }

  /** The envelope is one of ours, whole, with a summary. */
  predicate Restorable(stored: Payload) {
    && stored.Payload?
    && stored.tag == Some("machboost_compaction") && stored.version == Some(1)
    && stored.summary.Some? && Strip(stored.summary.value) != ""
    && stored.retained.Some? && Flat(stored.retained.value)
  }

  /** What one item stands for. */
  function ExpandItem(item: Item): Result<seq<Item>, Error> {
    if !IsCompaction(item) then Success([item])
    else if !Restorable(item.stored) then Failure(CannotRestore)
    else Success([SummaryMessage(item.stored.summary.value)] + item.stored.retained.value)
  }

  function Expanded(items: seq<Item>): Result<seq<Item>, Error> {
    if items == [] then Success([])
    else
      var before := Expanded(items[..|items| - 1]);
      var last := ExpandItem(items[|items| - 1]);
      if before.Failure? then before
      else if last.Failure? then last
      else Success(before.value + last.value)
  }

  function Expand(input: Input): Result<seq<Item>, Error> {
    match input
    case Words(text) => Expanded([UserMessage(text)])
    case Items(items) => Expanded(items)
    case OtherInput => Failure(NotItems)
  }

  /** An envelope of ours: a summary that says something, and items that are no envelopes or triggers themselves. */
  ghost predicate IsOurs(stored: Payload) {
    exists summary: string, retained: seq<Item> ::
      && stored == Payload(Some("machboost_compaction"), Some(1), Some(summary), Some(retained))
      && (exists i :: 0 <= i < |summary| && !IsSpace(summary[i]))
      && forall item <- retained :: item.kind !in {Some("compaction"), Some("compaction_trigger")}
  }

  lemma RestorableIff(stored: Payload)
    ensures Restorable(stored) <==> IsOurs(stored)
  {
    if stored.Payload? && stored.summary.Some? && stored.retained.Some? {
      StripIsBlankIff(stored.summary.value);
      assert Flat(stored.retained.value) <==>
        forall item <- stored.retained.value :: item.kind !in {Some("compaction"), Some("compaction_trigger")};
    }
  }

  ghost predicate CanBeExpanded(item: Item) {
    item.kind == Some("compaction") ==> IsOurs(item.stored)
  }

  /** The items can be expanded exactly when every envelope among them is ours. */
  lemma {:induction false} ExpandsIff(items: seq<Item>)
    ensures Expanded(items).Success? <==> forall item <- items :: CanBeExpanded(item)
    ensures Expanded(items).Failure? ==> Expanded(items).error == CannotRestore
  {
    if items != [] {
      ExpandsIff(items[..|items| - 1]);
      RestorableIff(items[|items| - 1].stored);
      LastOfAll(items);
    }
  }

  lemma LastOfAll(items: seq<Item>)
    requires items != []
    ensures (forall item <- items :: CanBeExpanded(item)) <==>
      CanBeExpanded(items[|items| - 1]) && forall item <- items[..|items| - 1] :: CanBeExpanded(item)
  {
    assert items == items[..|items| - 1] + [items[|items| - 1]];
  }

  /** Expansion leaves exactly the triggers there were, and leaves nothing only of nothing. */
  lemma {:induction false} ExpansionKeepsTriggers(items: seq<Item>)
    requires Expanded(items).Success?
    ensures HasTrigger(Expanded(items).value) <==> exists item <- items :: item.kind == Some("compaction_trigger")
    ensures Expanded(items).value == [] <==> items == []
  {
    if items != [] {
      var n := |items| - 1;
      var before, last := Expanded(items[..n]).value, ExpandItem(items[n]).value;
      ExpansionKeepsTriggers(items[..n]);
      assert items == items[..n] + [items[n]];
      TriggerAppend(before, last);
      LastKeepsTriggers(items[n]);
    }
  }

  lemma TriggerAppend(a: seq<Item>, b: seq<Item>)
    ensures HasTrigger(a + b) <==> HasTrigger(a) || HasTrigger(b)
  {
    if i :| 0 <= i < |b| && IsTrigger(b[i]) {
      assert IsTrigger((a + b)[|a| + i]);
    }
    if i :| 0 <= i < |a| && IsTrigger(a[i]) {
      assert IsTrigger((a + b)[i]);
    }
  }

  lemma LastKeepsTriggers(item: Item)
    requires ExpandItem(item).Success?
    ensures ExpandItem(item).value != []
    ensures HasTrigger(ExpandItem(item).value) <==> item.kind == Some("compaction_trigger")
  {
    if !IsCompaction(item) {
      assert [item][0] == item;
    }
  }

  method ExpandItems(input: Input) returns (r: Result<seq<Item>, Error>)
    ensures r == Expand(input)
  {
    if input.OtherInput? {
      return Failure(NotItems);
    }
    var items := if input.Words? then [UserMessage(input.text)] else input.items;
    var expanded: seq<Item> := [];
    for i := 0 to |items|
      invariant Expanded(items[..i]) == Success(expanded)
    {
      assert items[..i + 1][..i] == items[..i];
      if !IsCompaction(items[i]) {
        expanded := expanded + [items[i]];
      } else {
        if !Restorable(items[i].stored) {
          ExpansionFails(items, i);
          return Failure(CannotRestore);
        }
        expanded := expanded + ([SummaryMessage(items[i].stored.summary.value)] + items[i].stored.retained.value);
      }
    }
    assert items[..|items|] == items;
    r := Success(expanded);
  }

  lemma {:induction false} ExpansionFails(items: seq<Item>, i: nat)
    requires i < |items| && Expanded(items[..i]).Success? && ExpandItem(items[i]) == Failure(CannotRestore)
    ensures Expanded(items) == Failure(CannotRestore)
  {
    var n := |items| - 1;
    if i < n {
      assert items[..n][..i] == items[..i];
      ExpansionFails(items[..n], i);
    }
  }

  lemma {:induction false} ExpandedAppend(a: seq<Item>, b: seq<Item>)
    requires Expanded(a).Success?
    ensures Expanded(a + b) ==
      if Expanded(b).Failure? then Expanded(b) else Success(Expanded(a).value + Expanded(b).value)
  {
    if b == [] {
      assert a + b == a && Expanded(a).value + [] == Expanded(a).value;
    } else {
      var n := |b| - 1;
      assert (a + b)[..|a + b| - 1] == a + b[..n];
      ExpandedAppend(a, b[..n]);
      if Expanded(b).Success? {
        assert Expanded(a).value + (Expanded(b[..n]).value + ExpandItem(b[n]).value) ==
          Expanded(a).value + Expanded(b[..n]).value + ExpandItem(b[n]).value;
      }
    }
  }

  /** No compaction item is left by an expansion. */
  lemma {:induction false} ExpansionIsFlat(items: seq<Item>)
    requires Expanded(items).Success?
    ensures forall i :: 0 <= i < |Expanded(items).value| ==> !IsCompaction(Expanded(items).value[i])
  {
    if items != [] {
      ExpansionIsFlat(items[..|items| - 1]);
    }
  }

  // ---------------------------------------------------------------- the trigger

  /** The request asks for compaction: its one trigger is the last item, and it streams. */
  function Triggered(input: Input, stream: bool): Result<bool, Error> {
    if !input.Items? || !HasTrigger(input.items) then Success(false)
    else if HasTrigger(input.items[..|input.items| - 1]) || !IsTrigger(input.items[|input.items| - 1]) || !stream
    then Failure(BadTrigger)
    else Success(true)
  }

  /** It asks for it when its last item is the one trigger, and it streams; any other trigger is an error. */
  lemma TriggeredIff(items: seq<Item>, stream: bool)
    ensures var lone := items != [] && forall i :: 0 <= i < |items| ==>
              (items[i].kind == Some("compaction_trigger") <==> i == |items| - 1);
            var none := forall item <- items :: item.kind != Some("compaction_trigger");
            Triggered(Items(items), stream) ==
              if none then Success(false) else if lone && stream then Success(true) else Failure(BadTrigger)
  {
    if items != [] {
      var n := |items| - 1;
      TriggerAppend(items[..n], [items[n]]);
      assert items == items[..n] + [items[n]];
    }
  }

  predicate HasTrigger(items: seq<Item>) {
    exists i :: 0 <= i < |items| && IsTrigger(items[i])
  }

  // ---------------------------------------------------------------- what to keep

  /** A part that is not text: an image, say. */
  predicate IsVisualPart(part: Part) {
    part.isObject && part.kind !in {Some("input_text"), Some("output_text"), Some("text")}
  }

  predicate IsVisual(item: Item) {
    item.content.Parts? && exists i :: 0 <= i < |item.content.parts| && IsVisualPart(item.content.parts[i])
  }

  predicate IsMessage(item: Item) {
    item.kind == None || item.kind == Some("message")
  }

  /** Tool state, instructions and visuals, which no summary may replace. */
  predicate IsEssential(item: Item) {
    !IsMessage(item) || item.role in {Some("system"), Some("developer")} || IsVisual(item)
  }

  ghost predicate IsToolState(item: Item) {
    item.kind.Some? && item.kind.value != "message"
  }

  ghost predicate Instructs(item: Item) {
    item.role == Some("system") || item.role == Some("developer")
  }

  ghost predicate ShowsMoreThanText(item: Item) {
    exists parts: seq<Part>, part <- parts ::
      && item.content == Parts(parts) && part.isObject
      && part.kind != Some("input_text") && part.kind != Some("output_text") && part.kind != Some("text")
  }

  lemma EssentialIff(item: Item)
    ensures IsEssential(item) <==> IsToolState(item) || Instructs(item) || ShowsMoreThanText(item)
  {
    if item.content.Parts? {
      var parts := item.content.parts;
      assert forall part <- parts :: exists i :: 0 <= i < |parts| && parts[i] == part;
    }
  }

  /** The item at `i` of `n` is essential or among the last four. */
  predicate IsKept(item: Item, i: nat, n: nat) {
    i + 4 >= n || IsEssential(item)
  }

  function Select(items: seq<Item>, kept: bool, upTo: nat): seq<Item>
    requires upTo <= |items|
  {
    if upTo == 0 then []
    else
      Select(items, kept, upTo - 1) + if IsKept(items[upTo - 1], upTo - 1, |items|) == kept then [items[upTo - 1]]
        else []
  }

  function Essentials(items: seq<Item>): seq<Item> {
    if items == [] then []
    else
      Essentials(items[..|items| - 1]) + if IsEssential(items[|items| - 1]) then [items[|items| - 1]] else []
  }

  lemma {:induction false} EssentialsAppend(a: seq<Item>, b: seq<Item>)
    ensures Essentials(a + b) == Essentials(a) + Essentials(b)
  {
    if b == [] {
      assert a + b == a && Essentials(a) + [] == Essentials(a);
    } else {
      assert (a + b)[..|a + b| - 1] == a + b[..|b| - 1];
      EssentialsAppend(a, b[..|b| - 1]);
    }
  }

  /** Selection drops nothing essential and keeps the order. */
  lemma {:induction false} SelectKeepsEssentials(items: seq<Item>, upTo: nat)
    requires upTo <= |items|
    ensures Essentials(Select(items, true, upTo)) == Essentials(items[..upTo])
    ensures Essentials(Select(items, false, upTo)) == []
  {
    if upTo > 0 {
      var item := items[upTo - 1];
      SelectKeepsEssentials(items, upTo - 1);
      EssentialsSnoc(items[..upTo - 1], item);
      assert items[..upTo] == items[..upTo - 1] + [item];
      if IsKept(item, upTo - 1, |items|) {
        EssentialsSnoc(Select(items, true, upTo - 1), item);
        AddNothing(Select(items, false, upTo - 1));
      } else {
        EssentialsSnoc(Select(items, false, upTo - 1), item);
        AddNothing(Select(items, true, upTo - 1));
      }
    }
  }

  lemma AddNothing(items: seq<Item>)
    ensures items + [] == items
  {
  }

  lemma EssentialsSnoc(items: seq<Item>, item: Item)
    ensures Essentials(items + [item]) == Essentials(items) + if IsEssential(item) then [item] else []
  {
    assert (items + [item])[..|items|] == items;
  }

  /** The items a summary may replace, in order. */
  function Talk(items: seq<Item>): seq<Item> {
    if items == [] then []
    else
      Talk(items[..|items| - 1]) + if IsEssential(items[|items| - 1]) then [] else [items[|items| - 1]]
  }

  lemma TalkSnoc(items: seq<Item>, item: Item)
    ensures Talk(items + [item]) == Talk(items) + if IsEssential(item) then [] else [item]
  {
    assert (items + [item])[..|items|] == items;
  }

  /** Before the last four items, what may be summarized is, and nothing else. */
  lemma {:induction false} OldItemsAreSplit(items: seq<Item>, upTo: nat)
    requires upTo <= Max(0, |items| - 4)
    ensures Select(items, false, upTo) == Talk(items[..upTo])
    ensures Select(items, true, upTo) == Essentials(items[..upTo])
  {
    if upTo > 0 {
      OldItemsAreSplit(items, upTo - 1);
      TalkSnoc(items[..upTo - 1], items[upTo - 1]);
      EssentialsSnoc(items[..upTo - 1], items[upTo - 1]);
      assert items[..upTo] == items[..upTo - 1] + [items[upTo - 1]];
    }
  }

  lemma {:induction false} LastItemsAreKept(items: seq<Item>, from: nat, upTo: nat)
    requires from == Max(0, |items| - 4) && from <= upTo <= |items|
    ensures Select(items, false, upTo) == Select(items, false, from)
    ensures Select(items, true, upTo) == Select(items, true, from) + items[from..upTo]
  {
    if upTo > from {
      LastItemsAreKept(items, from, upTo - 1);
      assert items[from..upTo] == items[from..upTo - 1] + [items[upTo - 1]];
      Regroup(Select(items, true, from), items[from..upTo - 1], [items[upTo - 1]]);
    }
  }

  /** Summarized is exactly what is not essential before the last four items; retained is exactly the rest. */
  lemma OnlyOldTalkIsSummarized(items: seq<Item>)
    ensures var from := Max(0, |items| - 4);
            && Select(items, false, |items|) == Talk(items[..from])
            && Select(items, true, |items|) == Essentials(items[..from]) + items[from..]
    ensures forall item <- Select(items, false, |items|) :: !IsEssential(item)
    ensures |Select(items, true, |items|)| + |Select(items, false, |items|)| == |items|
  {
    var from := Max(0, |items| - 4);
    OldItemsAreSplit(items, from);
    LastItemsAreKept(items, from, |items|);
    assert items[from..|items|] == items[from..];
    TalkAndEssentials(items[..from]);
  }

  /** An item is talk or essential, never both. */
  lemma {:induction false} TalkAndEssentials(items: seq<Item>)
    ensures |Talk(items)| + |Essentials(items)| == |items|
    ensures forall item :: item in Talk(items) <==> item in items && !IsEssential(item)
  {
    if items != [] {
      TalkAndEssentials(items[..|items| - 1]);
      assert items == items[..|items| - 1] + [items[|items| - 1]];
    }
  }

  /** The last four items are kept, in their places at the end. */
  lemma {:induction false} RecentItemsAreKept(items: seq<Item>, upTo: nat)
    requires Max(0, |items| - 4) <= upTo <= |items|
    ensures var recent := items[Max(0, |items| - 4)..upTo];
      |Select(items, true, upTo)| >= |recent| &&
      Select(items, true, upTo)[|Select(items, true, upTo)| - |recent|..] == recent
  {
    var from := Max(0, |items| - 4);
    if upTo > from {
      RecentItemsAreKept(items, upTo - 1);
      assert items[from..upTo] == items[from..upTo - 1] + [items[upTo - 1]];
    }
  }

  /** The items of the request, before any instructions: without the trigger at the end when streaming. */
  function Body(input: Input, stream: bool): Input {
    if !stream then input
    else
      match input
      case Words(text) => Words(if text == "" then "" else text[..|text| - 1])
      case Items(items) => Items(if items == [] then [] else items[..|items| - 1])
      case OtherInput => OtherInput
  }

  function Instruction(text: string): Item {
    Item(Some("message"), Some("system"), Plain(text), NoPayload, "")
  }

  function WithInstructions(instructions: string, items: seq<Item>): seq<Item> {
    if instructions != "" then [Instruction(instructions)] + items else items
  }

  /** Everything there is to compact. */
  function Gathered(input: Input, instructions: string, stream: bool): Result<seq<Item>, Error> {
    var expanded := Expand(Body(input, stream));
    if expanded.Failure? then expanded
    else
      var items := WithInstructions(instructions, expanded.value);
      if items == [] || HasTrigger(items) then Failure(InvalidInput) else Success(items)
  }

  /** A request that does not stream gathers its expanded items, behind its instructions. */
  lemma GatheredItems(items: seq<Item>, instructions: string)
    ensures Gathered(Items(items), instructions, false).Success? <==>
      && (forall item <- items :: CanBeExpanded(item) && item.kind != Some("compaction_trigger"))
      && (items != [] || instructions != "")
    ensures Gathered(Items(items), instructions, false) == Failure(CannotRestore) <==>
      exists item <- items :: !CanBeExpanded(item)
    ensures Gathered(Items(items), instructions, false).Success? ==>
      Gathered(Items(items), instructions, false).value == Expanded(items).value || instructions != ""
    ensures Gathered(Items(items), instructions, false).Success? && instructions != "" ==>
      Gathered(Items(items), instructions, false).value ==
        [Item(Some("message"), Some("system"), Plain(instructions), NoPayload, "")] + Expanded(items).value
  {
    ExpandsIff(items);
    if Expanded(items).Success? {
      ExpansionKeepsTriggers(items);
      TriggerAppend([Instruction(instructions)], Expanded(items).value);
    }
  }

  /** A text is one message of the user. */
  lemma GatheredWords(text: string, instructions: string)
    ensures Gathered(Words(text), instructions, false) ==
      Gathered(Items([Item(Some("message"), Some("user"), Plain(text), NoPayload, "")]), instructions, false)
  {
  }

  /** When streaming, the last item of the input is left out, or the last character of a text. */
  lemma StreamDropsTheLast(items: seq<Item>, item: Item, text: string, c: char, instructions: string)
    ensures Gathered(Items(items + [item]), instructions, true) == Gathered(Items(items), instructions, false)
    ensures Gathered(Words(text + [c]), instructions, true) == Gathered(Words(text), instructions, false)
    ensures Gathered(Items([]), instructions, true) == Gathered(Items([]), instructions, false)
    ensures Gathered(Words(""), instructions, true) == Gathered(Words(""), instructions, false)
    ensures Gathered(OtherInput, instructions, true) == Gathered(OtherInput, instructions, false) == Failure(NotItems)
  {
    assert (items + [item])[..|items + [item]| - 1] == items;
    assert (text + [c])[..|text + [c]| - 1] == text;
  }

  /** Kept are tool state, instructions and what shows more than text; nothing of that kind is summarized. */
  ghost predicate KeepsWhatCounts(items: seq<Item>, older: seq<Item>, retained: seq<Item>) {
    forall item :: IsToolState(item) || Instructs(item) || ShowsMoreThanText(item) ==>
      item !in older && (item in items ==> item in retained)
  }

  /** Kept are also the last four items; anything else is summarized. */
  ghost predicate KeepsTheRecent(items: seq<Item>, older: seq<Item>, retained: seq<Item>) {
    && |older| + |retained| == |items|
    && (forall i :: 0 <= i < |items| && |items| <= i + 4 ==> items[i] in retained)
    && (forall i :: 0 <= i < |items| - 4 ==>
          items[i] in older || IsToolState(items[i]) || Instructs(items[i]) || ShowsMoreThanText(items[i]))
  }

  /** Split what there is to compact into what is summarized and what is kept. */
  method Prepare(input: Input, instructions: string, stream: bool) returns (r: Result<(seq<Item>, seq<Item>), Error>)
    ensures r == Prepared(input, instructions, stream)
    ensures r.Failure? <==> Gathered(input, instructions, stream).Failure?
    ensures r.Success? ==> KeepsWhatCounts(Gathered(input, instructions, stream).value, r.value.0, r.value.1)
    ensures r.Success? ==> KeepsTheRecent(Gathered(input, instructions, stream).value, r.value.0, r.value.1)
  {
    var expanded := ExpandItems(Body(input, stream));
    if expanded.Failure? {
      return Failure(expanded.error);
    }
    var items := WithInstructions(instructions, expanded.value);
    if items == [] || HasTrigger(items) {
      return Failure(InvalidInput);
    }
    var retained: seq<Item>, older: seq<Item> := [], [];
    for i := 0 to |items|
      invariant retained == Select(items, true, i) && older == Select(items, false, i)
    {
      if IsKept(items[i], i, |items|) {
        retained := retained + [items[i]];
      } else {
        older := older + [items[i]];
      }
    }
    SelectKeepsWhatCounts(items);
    SelectKeepsTheRecent(items);
    r := Success((older, retained));
  }

  lemma SelectKeepsWhatCounts(items: seq<Item>)
    ensures KeepsWhatCounts(items, Select(items, false, |items|), Select(items, true, |items|))
  {
    var older, retained := Select(items, false, |items|), Select(items, true, |items|);
    OnlyOldTalkIsSummarized(items);
    SelectKeepsEssentials(items, |items|);
    assert items[..|items|] == items;
    forall item | IsToolState(item) || Instructs(item) || ShowsMoreThanText(item)
      ensures item !in older && (item in items ==> item in retained)
    {
      EssentialIff(item);
      EssentialsAre(items, item);
      EssentialsAre(retained, item);
    }
  }

  lemma SelectKeepsTheRecent(items: seq<Item>)
    ensures KeepsTheRecent(items, Select(items, false, |items|), Select(items, true, |items|))
  {
    var from := Max(0, |items| - 4);
    OnlyOldTalkIsSummarized(items);
    forall i | 0 <= i < |items|
      ensures if i < from then items[i] in items[..from] else items[i] in items[from..]
    {
      assert if i < from then items[..from][i] == items[i] else items[from..][i - from] == items[i];
    }
    forall i | 0 <= i < from
      ensures items[i] in Talk(items[..from]) || IsToolState(items[i]) || Instructs(items[i]) ||
        ShowsMoreThanText(items[i])
    {
      TalkAndEssentials(items[..from]);
      EssentialIff(items[i]);
    }
  }

  lemma {:induction false} EssentialsAre(items: seq<Item>, item: Item)
    ensures item in Essentials(items) <==> item in items && IsEssential(item)
  {
    if items != [] {
      EssentialsAre(items[..|items| - 1], item);
      assert items == items[..|items| - 1] + [items[|items| - 1]];
    }
  }

  function Prepared(input: Input, instructions: string, stream: bool): Result<(seq<Item>, seq<Item>), Error> {
    var items := Gathered(input, instructions, stream);
    if items.Failure? then Failure(items.error)
    else Success((Select(items.value, false, |items.value|), Select(items.value, true, |items.value|)))
  }

  /** The envelope for what is kept. */
  function Envelope(summary: string, retained: seq<Item>): Result<Item, Error> {
    if Strip(summary) == "" then Failure(EmptySummary)
    else
      Success(Item(Some("compaction"), None, Absent,
                   Payload(Some("machboost_compaction"), Some(1), Some(Strip(summary)), Some(retained)), ""))
  }

  /** No compaction item and no trigger is left in what a request gathers. */
  lemma GatheredAreFlat(input: Input, instructions: string, stream: bool)
    requires Gathered(input, instructions, stream).Success?
    ensures Flat(Gathered(input, instructions, stream).value)
  {
    var body := Body(input, stream);
    ExpansionIsFlat(if body.Words? then [UserMessage(body.text)] else body.items);
  }

  /** An envelope restores its summary and exactly the items it was made of. */
  lemma EnvelopeExpands(summary: string, retained: seq<Item>)
    requires Flat(retained) && Strip(summary) != ""
    ensures Envelope(summary, retained).Success?
    ensures Expanded([Envelope(summary, retained).value]) ==
      Success([Item(Some("message"), Some("assistant"),
                    Plain("Conversation summary (historical context):\n" + Strip(summary)), NoPayload, "")] + retained)
  {
    StripTwice(summary);
    var envelope := Envelope(summary, retained).value;
    assert [envelope][..0] == [];
    assert [] + ([SummaryMessage(Strip(summary))] + retained) == [SummaryMessage(Strip(summary))] + retained;
  }

  /** An envelope is refused exactly when its summary is all white space, and nothing is summarized then. */
  lemma BlankSummaryIsRefused(summary: string, retained: seq<Item>)
    ensures Envelope(summary, retained) == Failure(EmptySummary) <==> AllSpace(summary)
    ensures Envelope(summary, retained).Failure? ==> Envelope(summary, retained) == Failure(EmptySummary)
  {
    StripIsBlankIff(summary);
  }

  /** Whatever was asked for, the envelope made of what is retained expands again, without error and to just that. */
  lemma PreparedEnvelopeExpands(input: Input, instructions: string, stream: bool, summary: string)
    requires Prepared(input, instructions, stream).Success? && Strip(summary) != ""
    ensures var retained := Prepared(input, instructions, stream).value.1;
      && Envelope(summary, retained).Success?
      && Expanded([Envelope(summary, retained).value]) == Success([SummaryMessage(Strip(summary))] + retained)
  {
    var items := Gathered(input, instructions, stream).value;
    GatheredAreFlat(input, instructions, stream);
    SelectIsFlat(items, |items|);
    EnvelopeExpands(summary, Select(items, true, |items|));
  }

  // ---------------------------------------------------------------- rounds

  const TRIGGER := Item(Some("compaction_trigger"), None, Absent, NoPayload, "")

  /** One compaction: the items added since the last one, the instructions, and the summary that was made. */
  datatype Round = Round(added: seq<Item>, instructions: string, summary: string, stream: bool)

  /** The items a client sends in a round: its history, what was added, and the trigger when it streams. */
  function Sent(history: seq<Item>, round: Round): Input {
    Items(if round.stream then history + round.added + [TRIGGER] else history + round.added)
  }

  /** The history left by a round is the envelope alone. */
  function AfterRound(history: seq<Item>, round: Round): Result<seq<Item>, Error> {
    var split := Prepared(Sent(history, round), round.instructions, round.stream);
    if split.Failure? then Failure(split.error)
    else
      var envelope := Envelope(round.summary, split.value.1);
      if envelope.Failure? then Failure(envelope.error) else Success([envelope.value])
  }

  function AfterRounds(history: seq<Item>, rounds: seq<Round>): Result<seq<Item>, Error> {
    if rounds == [] then Success(history)
    else
      var before := AfterRounds(history, rounds[..|rounds| - 1]);
      if before.Failure? then before else AfterRound(before.value, rounds[|rounds| - 1])
  }

  /** A history that can be sent back: it expands, to something, without triggers. */
  ghost predicate Sendable(history: seq<Item>) {
    Expanded(history).Success? && Expanded(history).value != [] && !HasTrigger(Expanded(history).value)
  }

  /** Ordinary new items, and a summary that says something. */
  ghost predicate Ordinary(round: Round) {
    Flat(round.added) && Strip(round.summary) != ""
  }

  lemma {:induction false} FlatExpandsToItself(items: seq<Item>)
    requires Flat(items)
    ensures Expanded(items) == Success(items)
  {
    if items != [] {
      var n := |items| - 1;
      assert !IsCompaction(items[n]);
      FlatExpandsToItself(items[..n]);
      assert items == items[..n] + [items[n]];
    }
  }

  lemma {:induction false} SelectIsFlat(items: seq<Item>, upTo: nat)
    requires upTo <= |items| && Flat(items)
    ensures Flat(Select(items, true, upTo))
  {
    if upTo > 0 {
      SelectIsFlat(items, upTo - 1);
      assert !IsCompaction(items[upTo - 1]) && !IsTrigger(items[upTo - 1]);
    }
  }

  /** What a round gathers: instructions, the history restored, and the items added. */
  lemma RoundGathers(history: seq<Item>, round: Round)
    requires Sendable(history) && Ordinary(round)
    ensures Gathered(Sent(history, round), round.instructions, round.stream) ==
      Success(WithInstructions(round.instructions, Expanded(history).value + round.added))
    ensures Flat(WithInstructions(round.instructions, Expanded(history).value + round.added))
  {
    var body := history + round.added;
    assert body + [TRIGGER] != [] && (body + [TRIGGER])[..|body + [TRIGGER]| - 1] == body;
    FlatExpandsToItself(round.added);
    ExpandedAppend(history, round.added);
    ExpansionIsFlat(history);
    GatheredIsFlat(Expanded(history).value, round.added, round.instructions);
  }

  lemma GatheredIsFlat(restored: seq<Item>, added: seq<Item>, instructions: string)
    requires Flat(added) && !HasTrigger(restored)
    requires forall i :: 0 <= i < |restored| ==> !IsCompaction(restored[i])
    ensures Flat(WithInstructions(instructions, restored + added))
    ensures !HasTrigger(WithInstructions(instructions, restored + added))
  {
    var items := WithInstructions(instructions, restored + added);
    var from := if instructions != "" then 1 else 0;
    forall i | 0 <= i < |items|
      ensures !IsCompaction(items[i]) && !IsTrigger(items[i])
    {
      if i < from {
      } else if i - from < |restored| {
        assert items[i] == restored[i - from];
      } else {
        assert items[i] == added[i - from - |restored|];
      }
    }
  }

  /** The trigger sent at the end of a streaming round is recognized, and only then. */
  lemma RoundIsTriggered(history: seq<Item>, round: Round)
    requires !HasTrigger(history) && Flat(round.added)
    ensures Triggered(Sent(history, round), round.stream) == Success(round.stream)
  {
    var body := history + round.added;
    assert (body + [TRIGGER])[..|body|] == body && (body + [TRIGGER])[|body|] == TRIGGER;
    forall i | 0 <= i < |body|
      ensures !IsTrigger(body[i])
    {
      assert i >= |history| ==> body[i] == round.added[i - |history|];
    }
  }

  /**
   A round never fails, leaves a history that can be sent back, and keeps every tool item, instruction and visual,
   old and new, in order; the round's own instructions come first.
   */
  lemma RoundKeepsEssentials(history: seq<Item>, round: Round)
    requires Sendable(history) && Ordinary(round)
    ensures AfterRound(history, round).Success? && Sendable(AfterRound(history, round).value)
    ensures Essentials(Expanded(AfterRound(history, round).value).value) ==
      Essentials(WithInstructions(round.instructions, [])) + Essentials(Expanded(history).value) +
        Essentials(round.added)
  {
    var restored := Expanded(history).value;
    var items := WithInstructions(round.instructions, restored + round.added);
    var kept := Select(items, true, |items|);
    RoundGathers(history, round);
    SelectIsFlat(items, |items|);
    EnvelopeExpands(round.summary, kept);
    SelectKeepsEssentials(items, |items|);
    assert items[..|items|] == items;
    EssentialsGathered(round.instructions, restored, round.added);
    SummaryIsNotEssential(Strip(round.summary), kept);
  }

  lemma EssentialsGathered(instructions: string, restored: seq<Item>, added: seq<Item>)
    ensures Essentials(WithInstructions(instructions, restored + added)) ==
      Essentials(WithInstructions(instructions, [])) + Essentials(restored) + Essentials(added)
  {
    EssentialsAppend(restored, added);
    EssentialsBehind(instructions, restored + added);
    Regroup(Essentials(WithInstructions(instructions, [])), Essentials(restored), Essentials(added));
  }

  lemma EssentialsBehind(instructions: string, items: seq<Item>)
    ensures Essentials(WithInstructions(instructions, items)) ==
      Essentials(WithInstructions(instructions, [])) + Essentials(items)
  {
    if instructions != "" {
      EssentialsAppend([Instruction(instructions)], items);
      assert [Instruction(instructions)] + [] == [Instruction(instructions)];
    } else {
      assert [] + Essentials(items) == Essentials(items);
    }
  }

  lemma Regroup(a: seq<Item>, b: seq<Item>, c: seq<Item>)
    ensures a + (b + c) == a + b + c
  {
  }

  lemma SummaryIsNotEssential(summary: string, kept: seq<Item>)
    requires Flat(kept)
    ensures Essentials([SummaryMessage(summary)] + kept) == Essentials(kept)
    ensures !HasTrigger([SummaryMessage(summary)] + kept)
  {
    EssentialsAppend([SummaryMessage(summary)], kept);
    assert [] + Essentials(kept) == Essentials(kept);
  }

  /** The essential items after some rounds: those there were, those added, and each round's instructions put before. */
  function EssentialsAfter(essentials: seq<Item>, rounds: seq<Round>): seq<Item> {
    if rounds == [] then essentials
    else
      var last := rounds[|rounds| - 1];
      Essentials(WithInstructions(last.instructions, [])) + EssentialsAfter(essentials, rounds[..|rounds| - 1]) +
        Essentials(last.added)
  }

  /** Over any number of rounds no step fails, and everything essential survives, verbatim and in order. */
  lemma {:induction false} RoundsKeepEssentials(history: seq<Item>, rounds: seq<Round>)
    requires Sendable(history) && forall k :: 0 <= k < |rounds| ==> Ordinary(rounds[k])
    ensures AfterRounds(history, rounds).Success? && Sendable(AfterRounds(history, rounds).value)
    ensures Essentials(Expanded(AfterRounds(history, rounds).value).value) ==
      EssentialsAfter(Essentials(Expanded(history).value), rounds)
  {
    if rounds != [] {
      RoundsKeepEssentials(history, rounds[..|rounds| - 1]);
      RoundKeepsEssentials(AfterRounds(history, rounds[..|rounds| - 1]).value, rounds[|rounds| - 1]);
    }
  }

  /** The item was there before the rounds, was added in one, or is the instructions of one. */
  ghost predicate Given(history: seq<Item>, rounds: seq<Round>, item: Item) {
    || item in history
    || exists k :: 0 <= k < |rounds| && GivenIn(rounds[k], item)
  }

  ghost predicate GivenIn(round: Round, item: Item) {
    item in round.added || (round.instructions != "" && item == Instruction(round.instructions))
  }

  /** Whatever is given at any time and is tool state, instructs or shows more than text, is there after all rounds. */
  lemma GivenItemsSurvive(history: seq<Item>, rounds: seq<Round>, item: Item)
    requires Sendable(history) && forall k :: 0 <= k < |rounds| ==> Ordinary(rounds[k])
    requires Given(Expanded(history).value, rounds, item)
    requires IsToolState(item) || Instructs(item) || ShowsMoreThanText(item)
    ensures AfterRounds(history, rounds).Success? && Expanded(AfterRounds(history, rounds).value).Success?
    ensures item in Expanded(AfterRounds(history, rounds).value).value
  {
    RoundsKeepEssentials(history, rounds);
    EssentialIff(item);
    EssentialsAre(Expanded(history).value, item);
    GivenIsEssential(Expanded(history).value, rounds, item);
    EssentialsAre(Expanded(AfterRounds(history, rounds).value).value, item);
  }

  lemma {:induction false} GivenIsEssential(history: seq<Item>, rounds: seq<Round>, item: Item)
    requires IsEssential(item) && Given(history, rounds, item)
    ensures item in EssentialsAfter(Essentials(history), rounds)
  {
    if rounds == [] {
      EssentialsAre(history, item);
    } else {
      var last := rounds[|rounds| - 1];
      EssentialsAre(last.added, item);
      EssentialsAre(WithInstructions(last.instructions, []), item);
      if !GivenIn(last, item) {
        GivenIsEssential(history, rounds[..|rounds| - 1], item);
      }
    }
  }

  /** The instructions of every round survive all later ones. */
  lemma InstructionsSurvive(history: seq<Item>, rounds: seq<Round>, k: nat)
    requires Sendable(history) && forall k :: 0 <= k < |rounds| ==> Ordinary(rounds[k])
    requires k < |rounds| && rounds[k].instructions != ""
    ensures AfterRounds(history, rounds).Success? && Expanded(AfterRounds(history, rounds).value).Success?
    ensures Item(Some("message"), Some("system"), Plain(rounds[k].instructions), NoPayload, "") in
      Expanded(AfterRounds(history, rounds).value).value
  {
    assert GivenIn(rounds[k], Instruction(rounds[k].instructions));
    GivenItemsSurvive(history, rounds, Instruction(rounds[k].instructions));
  }
}
