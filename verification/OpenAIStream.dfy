/** The OpenAI stream reader and its accumulator (provider/openai.go). */
module OpenAIStream {
  import opened Options
  import opened StreamEvents

  /** One entry of a chunk's tool_calls; absent texts are empty. */
  datatype ToolDelta = ToolDelta(index: int, id: string, name: string, arguments: string)

  datatype Choice = Choice(content: string, toolCalls: seq<ToolDelta>, finishReason: string)

  /** A decoded data line; lines that cannot be decoded are skipped by the reader and do not appear here. */
  datatype Chunk = Chunk(choices: seq<Choice>, usage: Option<nat>)

  datatype Result = Result(publicOutputBegan: bool, accepted: Option<Message>)

  // ---------------------------------------------------------------------------------------------
  // What the deltas of one index add up to

  function Applied(t: ToolCall, d: ToolDelta): ToolCall {
    ToolCall(if d.id != "" then d.id else t.id, if d.name != "" then d.name else t.name, t.arguments + d.arguments)
  }

  /** The last id and name sent for an index and all its arguments in order. */
  function Assembled(deltas: seq<ToolDelta>, index: int): ToolCall {
    if deltas == [] then ToolCall("", "", "")
    else
      var before := Assembled(deltas[..|deltas| - 1], index);
      var d := deltas[|deltas| - 1];
      if d.index == index then Applied(before, d) else before
  }

  function Indexes(deltas: seq<ToolDelta>): set<int> {
    set i | 0 <= i < |deltas| :: deltas[i].index
  }

  lemma SeenOneMore(deltas: seq<ToolDelta>, d: ToolDelta)
    ensures Indexes(deltas + [d]) == Indexes(deltas) + {d.index}
    ensures forall index ::
              Assembled(deltas + [d], index)
              == if d.index == index then Applied(Assembled(deltas, index), d) else Assembled(deltas, index)
    ensures d.index !in Indexes(deltas) ==> Assembled(deltas, d.index) == ToolCall("", "", "")
  {
    var all := deltas + [d];
    assert all[..|deltas|] == deltas;
    forall x ensures x in Indexes(all) <==> x in Indexes(deltas) || x == d.index {
      if x in Indexes(deltas) {
        var i :| 0 <= i < |deltas| && deltas[i].index == x;
        assert all[i].index == x;
      }
      assert all[|deltas|].index == d.index;
    }
    if d.index !in Indexes(deltas) {
      UnseenIsEmpty(deltas, d.index);
    }
  }

  lemma {:induction false} UnseenIsEmpty(deltas: seq<ToolDelta>, index: int)
    requires index !in Indexes(deltas)
    ensures Assembled(deltas, index) == ToolCall("", "", "")
  {
    if deltas != [] {
      var n := |deltas| - 1;
      assert deltas[n].index in Indexes(deltas);
      forall x | x in Indexes(deltas[..n]) ensures x in Indexes(deltas) {
        var i :| 0 <= i < n && deltas[..n][i].index == x;
        assert deltas[i].index == x;
      }
      UnseenIsEmpty(deltas[..n], index);
    }
  }

  /** x is the last text of an index that is not empty; empty if there is none. */
  ghost predicate IsLast(texts: seq<string>, x: string) {
    if x == "" then forall i | 0 <= i < |texts| :: texts[i] == ""
    else exists n | 0 <= n < |texts| :: texts[n] == x && forall i | n < i < |texts| :: texts[i] == ""
  }

  lemma LastOneMore(texts: seq<string>, x: string, text: string)
    requires IsLast(texts, x)
    ensures IsLast(texts + [text], if text != "" then text else x)
  {
    var all := texts + [text];
    if text != "" {
      assert all[|texts|] == text;
    } else if x != "" {
      var n :| 0 <= n < |texts| && texts[n] == x && forall i | n < i < |texts| :: texts[i] == "";
      assert all[n] == x;
    }
  }

  function Ids(deltas: seq<ToolDelta>, index: int): seq<string> {
    if deltas == [] then []
    else
      var d := deltas[|deltas| - 1];
      Ids(deltas[..|deltas| - 1], index) + if d.index == index then [d.id] else []
  }

  function Names(deltas: seq<ToolDelta>, index: int): seq<string> {
    if deltas == [] then []
    else
      var d := deltas[|deltas| - 1];
      Names(deltas[..|deltas| - 1], index) + if d.index == index then [d.name] else []
  }

  /** A tool call has the last id and the last name sent for its index. */
  lemma {:induction false} LastIdAndName(deltas: seq<ToolDelta>, index: int)
    ensures IsLast(Ids(deltas, index), Assembled(deltas, index).id)
    ensures IsLast(Names(deltas, index), Assembled(deltas, index).name)
  {
    if deltas != [] {
      var n := |deltas| - 1;
      var d := deltas[n];
      LastIdAndName(deltas[..n], index);
      assert Ids(deltas[..n], index) + [] == Ids(deltas[..n], index) && Names(deltas[..n], index) + [] == Names(deltas[..n], index);
      LastOneMore(Ids(deltas[..n], index), Assembled(deltas[..n], index).id, d.id);
      LastOneMore(Names(deltas[..n], index), Assembled(deltas[..n], index).name, d.name);
      hide IsLast;
    }
  }

  function ChoiceDeltas(choices: seq<Choice>): seq<ToolDelta> {
    if choices == [] then [] else ChoiceDeltas(choices[..|choices| - 1]) + choices[|choices| - 1].toolCalls
  }

  /** Every tool delta of the stream, in order. */
  function Deltas(chunks: seq<Chunk>): seq<ToolDelta> {
    if chunks == [] then [] else Deltas(chunks[..|chunks| - 1]) + ChoiceDeltas(chunks[|chunks| - 1].choices)
  }

  function ChoiceText(choices: seq<Choice>): string {
    if choices == [] then "" else ChoiceText(choices[..|choices| - 1]) + choices[|choices| - 1].content
  }

  /** All the text of the stream. */
  function ChunkText(chunks: seq<Chunk>): string {
    if chunks == [] then "" else ChunkText(chunks[..|chunks| - 1]) + ChoiceText(chunks[|chunks| - 1].choices)
  }

  // ---------------------------------------------------------------------------------------------
  // The accumulator against the emitted events

  ghost predicate Agrees(content: string, tools: map<int, ToolCall>, events: seq<Event>, began: bool, seen: seq<ToolDelta>) {
    && content == Content(events)
    && tools.Keys == Indexes(seen)
    && (forall i | i in tools :: tools[i] == Assembled(seen, i))
    && (forall i :: Arguments(events, i) == Assembled(seen, i).arguments)
    && (began <==> AnyPublic(events))
  }

  /** Events that carry neither content nor arguments. */
  lemma SilentEvent(content: string, tools: map<int, ToolCall>, events: seq<Event>, began: bool, seen: seq<ToolDelta>, e: Event)
    requires Agrees(content, tools, events, began, seen) && !e.ContentDelta? && !e.ToolCallArgsDelta?
    ensures Agrees(content, tools, events + [e], began || IsPublic(e), seen)
  {
    Emitted(events, e);
  }

  lemma ContentKeeps(content: string, tools: map<int, ToolCall>, events: seq<Event>, began: bool, seen: seq<ToolDelta>, text: string)
    requires Agrees(content, tools, events, began, seen)
    ensures Agrees(content + text, tools, events + [ContentDelta(text)], true, seen)
  {
    Emitted(events, ContentDelta(text));
    assert forall i :: Arguments(events, i) + "" == Arguments(events, i);
  }

  // ---------------------------------------------------------------------------------------------
  // Starts and finishes

  function StartsIn(e: Event, index: int): nat { if e.ToolCallStart? && e.index == index then 1 else 0 }

  /** How often a tool call's start was emitted. */
  function Starts(events: seq<Event>, index: int): nat {
    if events == [] then 0 else Starts(events[..|events| - 1], index) + StartsIn(events[|events| - 1], index)
  }

  /** The finish reasons emitted, in order. */
  function Finishes(events: seq<Event>): seq<string> {
    if events == [] then []
    else
      var e := events[|events| - 1];
      Finishes(events[..|events| - 1]) + if e.Finish? then [e.reason] else []
  }

  /** The finish reasons of the choices, in order; an empty one is none. */
  function ChoiceReasons(choices: seq<Choice>): seq<string> {
    if choices == [] then []
    else
      var reason := choices[|choices| - 1].finishReason;
      ChoiceReasons(choices[..|choices| - 1]) + if reason != "" then [reason] else []
  }

  function Reasons(chunks: seq<Chunk>): seq<string> {
    if chunks == [] then [] else Reasons(chunks[..|chunks| - 1]) + ChoiceReasons(chunks[|chunks| - 1].choices)
  }

  function LastOf(reasons: seq<string>): string { if reasons == [] then "" else reasons[|reasons| - 1] }

  /** Some delta of the index has an id or a name. */
  ghost predicate Named(seen: seq<ToolDelta>, index: int) {
    exists i :: 0 <= i < |seen| && seen[i].index == index && (seen[i].id != "" || seen[i].name != "")
  }

  /** A tool call is started once, when it is first named, and every finish reason goes out. */
  ghost predicate Marks(events: seq<Event>, finish: string, reasons: seq<string>, started: set<int>, seen: seq<ToolDelta>) {
    && Finishes(events) == reasons && finish == LastOf(reasons)
    && (forall i :: Starts(events, i) == if i in started then 1 else 0)
    && (forall i :: i in started <==> Named(seen, i))
  }

  lemma MarkOne(events: seq<Event>, e: Event)
    ensures Finishes(events + [e]) == Finishes(events) + if e.Finish? then [e.reason] else []
    ensures forall i :: Starts(events + [e], i) == Starts(events, i) + StartsIn(e, i)
  {
    assert (events + [e])[..|events|] == events;
  }

  lemma OtherMarks(events: seq<Event>, finish: string, reasons: seq<string>, started: set<int>, seen: seq<ToolDelta>, e: Event)
    requires Marks(events, finish, reasons, started, seen) && !e.ToolCallStart? && !e.Finish?
    ensures Marks(events + [e], finish, reasons, started, seen)
  {
    MarkOne(events, e);
  }

  lemma FinishMarks(events: seq<Event>, finish: string, reasons: seq<string>, started: set<int>, seen: seq<ToolDelta>, reason: string)
    requires Marks(events, finish, reasons, started, seen)
    ensures Marks(events + [Finish(reason)], reason, reasons + [reason], started, seen)
  {
    MarkOne(events, Finish(reason));
  }

  lemma NamedOneMore(seen: seq<ToolDelta>, d: ToolDelta)
    ensures forall i :: Named(seen + [d], i) <==> Named(seen, i) || (d.index == i && (d.id != "" || d.name != ""))
  {
    var all := seen + [d];
    assert all[|seen|] == d;
    forall i | Named(seen, i) ensures Named(all, i) {
      var k :| 0 <= k < |seen| && seen[k].index == i && (seen[k].id != "" || seen[k].name != "");
      assert all[k] == seen[k];
    }
  }

  /** A delta that names a new index starts it; then the delta is seen. */
  lemma StartMarks(events: seq<Event>, finish: string, reasons: seq<string>, started: set<int>, seen: seq<ToolDelta>, d: ToolDelta, e: Event)
    requires Marks(events, finish, reasons, started, seen) && e.ToolCallStart? && e.index == d.index
    ensures var starts := (d.id != "" || d.name != "") && d.index !in started;
            Marks(if starts then events + [e] else events, finish, reasons, if starts then started + {d.index} else started, seen + [d])
  {
    MarkOne(events, e);
    NamedOneMore(seen, d);
    hide Named, Starts, Finishes;
  }

  lemma MarksOfNothing()
    ensures Marks([Created], "", [], {}, [])
  {
    MarkOne([], Created);
    assert [] + [Created] == [Created];
  }

  // ---------------------------------------------------------------------------------------------
  // The whole event stream

  /** The events of one tool delta: the start when it is the first to name its index, then its arguments. */
  ghost function DeltaEvents(d: ToolDelta, seen: seq<ToolDelta>): seq<Event> {
    (if (d.id != "" || d.name != "") && !Named(seen, d.index) then [ToolCallStart(d.index, d.id, d.name)] else [])
    + (if d.arguments != "" then [ToolCallArgsDelta(d.index, d.arguments)] else [])
  }

  ghost function ToolEvents(deltas: seq<ToolDelta>, seen: seq<ToolDelta>): seq<Event> {
    if deltas == [] then []
    else
      var n := |deltas| - 1;
      ToolEvents(deltas[..n], seen) + DeltaEvents(deltas[n], seen + deltas[..n])
  }

  function TextEvents(text: string): seq<Event> { if text == "" then [] else [ContentDelta(text)] }

  function Completions(order: seq<int>): seq<Event> { seq(|order|, i requires 0 <= i < |order| => ToolCallCompleted(order[i])) }

  /** The order has every index once. */
  ghost predicate Lists(order: seq<int>, indexes: set<int>) {
    && (forall x :: x in order <==> x in indexes)
    && (forall i, k | 0 <= i < k < |order| :: order[i] != order[k])
  }

  /** The events of one choice, after the tool deltas seen before it: text, tools, and on a finish every open tool call. */
  ghost predicate ChoiceEmits(c: Choice, seen: seq<ToolDelta>, out: seq<Event>) {
    var said := TextEvents(c.content) + ToolEvents(c.toolCalls, seen);
    if c.finishReason == "" then out == said
    else exists order :: Lists(order, Indexes(seen + c.toolCalls)) && out == said + Completions(order) + [Finish(c.finishReason)]
  }

  /** The events of a stream of choices, one choice after the other. */
  ghost predicate Trace(choices: seq<Choice>, events: seq<Event>) {
    if choices == [] then events == [Created]
    else
      var n := |choices| - 1;
      exists k | 0 <= k <= |events| ::
        Trace(choices[..n], events[..k]) && ChoiceEmits(choices[n], ChoiceDeltas(choices[..n]), events[k..])
  }

  lemma TraceOneMore(choices: seq<Choice>, events: seq<Event>, c: Choice, out: seq<Event>)
    requires Trace(choices, events) && ChoiceEmits(c, ChoiceDeltas(choices), out)
    ensures Trace(choices + [c], events + out)
    ensures ChoiceDeltas(choices + [c]) == ChoiceDeltas(choices) + c.toolCalls
  {
    var all := choices + [c];
    assert all[..|choices|] == choices && all[|choices|] == c;
    assert (events + out)[..|events|] == events && (events + out)[|events|..] == out;
  }

  /** A choice heard to its end; `order` is that of the completions, if any. */
  lemma ChoiceTold(choices: seq<Choice>, events: seq<Event>, c: Choice, order: seq<int>, after: seq<Event>)
    requires Trace(choices, events)
    requires var said := events + (TextEvents(c.content) + ToolEvents(c.toolCalls, ChoiceDeltas(choices)));
             after == if c.finishReason == "" then said else said + Completions(order) + [Finish(c.finishReason)]
    requires c.finishReason != "" ==> Lists(order, Indexes(ChoiceDeltas(choices) + c.toolCalls))
    ensures Trace(choices + [c], after) && ChoiceDeltas(choices + [c]) == ChoiceDeltas(choices) + c.toolCalls
  {
    var said := TextEvents(c.content) + ToolEvents(c.toolCalls, ChoiceDeltas(choices));
    var out := if c.finishReason == "" then said else said + Completions(order) + [Finish(c.finishReason)];
    hide Trace, Lists, Indexes, TextEvents, ToolEvents, Completions, ChoiceDeltas;
    assert after == events + out;
    assert ChoiceEmits(c, ChoiceDeltas(choices), out);
    TraceOneMore(choices, events, c, out);
  }

  /** The choices of all chunks. */
  function Choices(chunks: seq<Chunk>): seq<Choice> {
    if chunks == [] then [] else Choices(chunks[..|chunks| - 1]) + chunks[|chunks| - 1].choices
  }

  /** Before it is named a tool call has no id and no name. */
  lemma {:induction false} UnnamedIsBlank(seen: seq<ToolDelta>, index: int)
    requires !Named(seen, index)
    ensures Assembled(seen, index).id == "" && Assembled(seen, index).name == ""
  {
    if seen != [] {
      var n := |seen| - 1;
      assert forall i | 0 <= i < n :: seen[..n][i] == seen[i];
      UnnamedIsBlank(seen[..n], index);
    }
  }

  lemma SlotIsBlank(content: string, tools: map<int, ToolCall>, events: seq<Event>, began: bool, seen: seq<ToolDelta>, index: int)
    requires Agrees(content, tools, events, began, seen) && index in tools && !Named(seen, index)
    ensures tools[index].id == "" && tools[index].name == ""
  {
    UnnamedIsBlank(seen, index);
  }

  lemma StartedIffNamed(events: seq<Event>, finish: string, reasons: seq<string>, started: set<int>, seen: seq<ToolDelta>)
    requires Marks(events, finish, reasons, started, seen)
    ensures forall i :: i in started <==> Named(seen, i)
  {
  }

  lemma NoChoices()
    ensures ChoiceDeltas([]) == [] && ChoiceReasons([]) == [] && ChoiceText([]) == ""
  {
  }

  lemma OneMoreChoice(choices: seq<Choice>, i: nat)
    requires i < |choices|
    ensures ChoiceDeltas(choices[..i + 1]) == ChoiceDeltas(choices[..i]) + choices[i].toolCalls
    ensures ChoiceText(choices[..i + 1]) == ChoiceText(choices[..i]) + choices[i].content
    ensures ChoiceReasons(choices[..i + 1])
            == ChoiceReasons(choices[..i]) + if choices[i].finishReason != "" then [choices[i].finishReason] else []
  {
    assert choices[..i + 1][..i] == choices[..i];
  }

  /** What a delta emits, given whether it starts its tool call. */
  lemma DeltaTold(d: ToolDelta, seen: seq<ToolDelta>, before: seq<Event>, started: seq<Event>)
    requires started == if (d.id != "" || d.name != "") && !Named(seen, d.index)
                        then before + [ToolCallStart(d.index, d.id, d.name)] else before
    ensures before + DeltaEvents(d, seen)
            == if d.arguments != "" then started + [ToolCallArgsDelta(d.index, d.arguments)] else started
  {
    hide Named;
  }

  lemma NoToolEvents(seen: seq<ToolDelta>)
    ensures ToolEvents([], seen) == []
  {
  }

  lemma OneMoreToolEvent(deltas: seq<ToolDelta>, i: nat, seen: seq<ToolDelta>)
    requires i < |deltas|
    ensures ToolEvents(deltas[..i + 1], seen) == ToolEvents(deltas[..i], seen) + DeltaEvents(deltas[i], seen + deltas[..i])
  {
    assert deltas[..i + 1][..i] == deltas[..i];
  }

  lemma KeysAreSeen(content: string, tools: map<int, ToolCall>, events: seq<Event>, began: bool, seen: seq<ToolDelta>)
    requires Agrees(content, tools, events, began, seen)
    ensures tools.Keys == Indexes(seen)
  {
  }

  function SlotFor(tools: map<int, ToolCall>, index: int): ToolCall {
    if index in tools then tools[index] else ToolCall("", "", "")
  }

  lemma DeltaKeeps(content: string, tools: map<int, ToolCall>, events: seq<Event>, began: bool, seen: seq<ToolDelta>, d: ToolDelta)
    requires Agrees(content, tools, events, began, seen)
    ensures var slot := Applied(SlotFor(tools, d.index), d);
            var e := ToolCallArgsDelta(d.index, d.arguments);
            if d.arguments == "" then Agrees(content, tools[d.index := slot], events, began, seen + [d])
            else Agrees(content, tools[d.index := slot], events + [e], true, seen + [d])
  {
    hide Content, Arguments, Assembled, Indexes, AnyPublic;
    SeenOneMore(seen, d);
    Emitted(events, ToolCallArgsDelta(d.index, d.arguments));
    if d.arguments == "" {
      assert forall i :: Assembled(seen, i).arguments + "" == Assembled(seen, i).arguments;
    }
  }

  lemma EmptyOrNot(s: set<int>)
    ensures s == {} || exists x :: x in s
  {
    if forall x :: x !in s {
      assert s == {};
    }
  }

  method MaxIndex(indexes: set<int>) returns (max: int)
    ensures -1 <= max && forall x :: x in indexes ==> x <= max
  {
    max := -1;
    var left := indexes;
    while left != {}
      invariant -1 <= max
      invariant left <= indexes
      invariant forall x :: x in indexes ==> x in left || x <= max
      decreases left
    {
      EmptyOrNot(left);
      var index: int :| index in left;
      left := left - {index};
      if index > max {
        max := index;
      }
    }
  }

  class OpenAIStreamAccumulator {
    var content: string
    var finishReason: string
    var usage: Option<nat>
    var toolCallsByIndex: map<int, ToolCall>
    var toolStartEmitted: set<int>
    var publicBegan: bool
    /** Everything the sink has received. */
    var events: seq<Event>
    /** The tool deltas applied and the finish reasons met so far. */
    ghost var seen: seq<ToolDelta>
    ghost var reasons: seq<string>
    ghost var heard: seq<Choice>

    ghost predicate Agreed()
      reads this
    {
      Agrees(content, toolCallsByIndex, events, publicBegan, seen)
    }

    ghost predicate Valid()
      reads this
    {
      Agreed() && Marks(events, finishReason, reasons, toolStartEmitted, seen)
    }

    /** The sink has received exactly the events of the choices heard. */
    ghost predicate Told()
      reads this
    {
      Trace(heard, events) && seen == ChoiceDeltas(heard)
    }

    constructor ()
      ensures Told() && heard == []
      ensures Valid() && content == "" && seen == [] && reasons == [] && usage == None
    {
      content, finishReason, usage := "", "", None;
      toolCallsByIndex, toolStartEmitted, publicBegan := map[], {}, false;
      events := [Created];
      seen, reasons, heard := [], [], [];
      new;
      Emitted([], Created);
      MarksOfNothing();
      assert [] + [Created] == events;
    }

    method Emit(e: Event)
      requires Agreed() && !e.ContentDelta? && !e.ToolCallArgsDelta?
      modifies this`events, this`publicBegan
      ensures Agreed() && events == old(events) + [e]
    {
      SilentEvent(content, toolCallsByIndex, events, publicBegan, seen, e);
      events := events + [e];
      publicBegan := publicBegan || IsPublic(e);
    }

    method AddContent(text: string)
      requires Valid()
      modifies this`content, this`events, this`publicBegan
      ensures Valid() && content == old(content) + text && events == old(events) + TextEvents(text)
    {
      hide Agrees, Marks;
      if text != "" {
        ContentKeeps(content, toolCallsByIndex, events, publicBegan, seen, text);
        OtherMarks(events, finishReason, reasons, toolStartEmitted, seen, ContentDelta(text));
        content := content + text;
        events := events + [ContentDelta(text)];
        publicBegan := true;
      }
    }

    /** Emits the start of a tool call when the delta is the first to name it. */
    method StartTool(d: ToolDelta, slot: ToolCall)
      requires Valid()
      modifies this`events, this`publicBegan, this`toolStartEmitted
      ensures Agreed() && Marks(events, finishReason, reasons, toolStartEmitted, seen + [d])
      ensures events == if (d.id != "" || d.name != "") && !Named(seen, d.index)
                        then old(events) + [ToolCallStart(d.index, slot.id, slot.name)] else old(events)
    {
      hide Agrees, Marks, Named;
      StartedIffNamed(events, finishReason, reasons, toolStartEmitted, seen);
      StartMarks(events, finishReason, reasons, toolStartEmitted, seen, d, ToolCallStart(d.index, slot.id, slot.name));
      if (d.id != "" || d.name != "") && d.index !in toolStartEmitted {
        toolStartEmitted := toolStartEmitted + {d.index};
        Emit(ToolCallStart(d.index, slot.id, slot.name));
      }
    }

    /** Creates the slot if the index is new, then takes over id, name and arguments, emitting as it goes. */
    method AddToolDelta(d: ToolDelta)
      requires Valid()
      modifies this
      ensures Valid() && seen == old(seen) + [d] && reasons == old(reasons) && usage == old(usage) && content == old(content)
      ensures events == old(events) + DeltaEvents(d, old(seen)) && heard == old(heard)
    {
      hide Agrees, Marks, Named, DeltaEvents;
      StartedIffNamed(events, finishReason, reasons, toolStartEmitted, seen);
      if d.index in toolCallsByIndex && !Named(seen, d.index) {
        SlotIsBlank(content, toolCallsByIndex, events, publicBegan, seen, d.index);
      }
      var slot := if d.index in toolCallsByIndex then toolCallsByIndex[d.index] else ToolCall("", "", "");
      if d.id != "" {
        slot := slot.(id := d.id);
      }
      if d.name != "" {
        slot := slot.(name := d.name);
      }
      assert (d.id != "" || d.name != "") && !Named(seen, d.index) ==> slot.id == d.id && slot.name == d.name;
      assert slot.(arguments := slot.arguments + d.arguments) == Applied(SlotFor(toolCallsByIndex, d.index), d);
      hide Applied, SlotFor;
      StartTool(d, slot);
      DeltaKeeps(content, toolCallsByIndex, events, publicBegan, seen, d);
      DeltaTold(d, seen, old(events), events);
      slot := slot.(arguments := slot.arguments + d.arguments);
      if d.arguments != "" {
        OtherMarks(events, finishReason, reasons, toolStartEmitted, seen + [d], ToolCallArgsDelta(d.index, d.arguments));
        events := events + [ToolCallArgsDelta(d.index, d.arguments)];
        publicBegan := true;
      }
      toolCallsByIndex := toolCallsByIndex[d.index := slot];
      seen := seen + [d];
    }

    /** Completed events go out in whatever order the map is walked. */
    method CompleteTools() returns (ghost order: seq<int>)
      requires Valid()
      modifies this`events, this`publicBegan
      ensures Valid() && Lists(order, toolCallsByIndex.Keys) && events == old(events) + Completions(order)
    {
      hide Agrees, Marks;
      var left := toolCallsByIndex.Keys;
      order := [];
      while left != {}
        invariant Valid()
        invariant left <= toolCallsByIndex.Keys && Lists(order, toolCallsByIndex.Keys - left)
        invariant events == old(events) + Completions(order)
        decreases left
      {
        EmptyOrNot(left);
        var index: int :| index in left;
        ghost var more := order + [index];
        assert Completions(more) == Completions(order) + [ToolCallCompleted(index)];
        order := more;
        OtherMarks(events, finishReason, reasons, toolStartEmitted, seen, ToolCallCompleted(index));
        Emit(ToolCallCompleted(index));
        left := left - {index};
      }
    }

    method AddChoice(c: Choice)
      requires Valid() && Told()
      modifies this
      ensures Valid() && seen == old(seen) + c.toolCalls && usage == old(usage) && content == old(content) + c.content
      ensures reasons == old(reasons) + if c.finishReason != "" then [c.finishReason] else []
      ensures heard == old(heard) + [c] && Told()
    {
      hide Agrees, Marks, Trace, DeltaEvents, ToolEvents, TextEvents, Completions, Lists, Indexes, ChoiceDeltas;
      NoToolEvents(seen);
      AddContent(c.content);
      for i := 0 to |c.toolCalls|
        invariant Valid() && seen == old(seen) + c.toolCalls[..i] && usage == old(usage) && reasons == old(reasons)
        invariant content == old(content) + c.content && heard == old(heard)
        invariant events == old(events) + (TextEvents(c.content) + ToolEvents(c.toolCalls[..i], old(seen)))
      {
        assert c.toolCalls[..i + 1] == c.toolCalls[..i] + [c.toolCalls[i]];
        OneMoreToolEvent(c.toolCalls, i, old(seen));
        AddToolDelta(c.toolCalls[i]);
      }
      assert c.toolCalls[..|c.toolCalls|] == c.toolCalls;
      ghost var order: seq<int> := [];
      if c.finishReason != "" {
        KeysAreSeen(content, toolCallsByIndex, events, publicBegan, seen);
        order := CompleteTools();
        FinishMarks(events, finishReason, reasons, toolStartEmitted, seen, c.finishReason);
        finishReason := c.finishReason;
        reasons := reasons + [c.finishReason];
        Emit(Finish(c.finishReason));
      }
      ChoiceTold(heard, old(events), c, order, events);
      heard := heard + [c];
    }

    method AddChunk(chunk: Chunk)
      requires Valid() && Told()
      modifies this
      ensures Valid() && seen == old(seen) + ChoiceDeltas(chunk.choices) && reasons == old(reasons) + ChoiceReasons(chunk.choices)
      ensures content == old(content) + ChoiceText(chunk.choices)
      ensures usage == if chunk.usage.Some? then chunk.usage else old(usage)
      ensures heard == old(heard) + chunk.choices && Told()
    {
      hide Agrees, Marks, Trace, ChoiceDeltas, ChoiceText, ChoiceReasons;
      if chunk.usage.Some? {
        usage := chunk.usage;
      }
      ghost var latest := usage;
      NoChoices();
      for i := 0 to |chunk.choices|
        invariant Valid() && seen == old(seen) + ChoiceDeltas(chunk.choices[..i]) && usage == latest
        invariant reasons == old(reasons) + ChoiceReasons(chunk.choices[..i])
        invariant content == old(content) + ChoiceText(chunk.choices[..i])
        invariant heard == old(heard) + chunk.choices[..i] && Told()
      {
        OneMoreChoice(chunk.choices, i);
        assert chunk.choices[..i + 1] == chunk.choices[..i] + [chunk.choices[i]];
        AddChoice(chunk.choices[i]);
      }
      assert chunk.choices[..|chunk.choices|] == chunk.choices;
    }

    /** The tool calls in ascending index order; negative indexes are dropped. */
    method FinalizeTools() returns (out: seq<ToolCall>)
      requires Valid()
      ensures exists order: seq<int> :: Ordered(toolCallsByIndex, order, out)
    {
      hide Agrees;
      var max := MaxIndex(toolCallsByIndex.Keys);
      assert forall x | x in toolCallsByIndex :: x in toolCallsByIndex.Keys;
      out := [];
      ghost var order: seq<int> := [];
      for i := 0 to max + 1
        invariant OrderedBelow(toolCallsByIndex, i, order, out)
      {
        if i in toolCallsByIndex {
          out := out + [toolCallsByIndex[i]];
          order := order + [i];
        }
      }
      assert Ordered(toolCallsByIndex, order, out);
    }
  }

  /** `out` lists the entries of the indexes from 0 up to but not including `bound`, in ascending order. */
  ghost predicate OrderedBelow(tools: map<int, ToolCall>, bound: int, order: seq<int>, out: seq<ToolCall>) {
    && |out| == |order|
    && (forall i | 0 <= i < |order| :: 0 <= order[i] < bound && order[i] in tools && out[i] == tools[order[i]])
    && (forall i, k | 0 <= i < k < |order| :: order[i] < order[k])
    && (forall x | 0 <= x < bound && x in tools :: x in order)
  }

  ghost predicate Ordered(tools: map<int, ToolCall>, order: seq<int>, out: seq<ToolCall>) {
    && (exists bound :: OrderedBelow(tools, bound, order, out) && forall x | x in tools :: x < bound)
  }

  /** The last usage reported in the stream. */
  function LastUsage(chunks: seq<Chunk>): Option<nat> {
    if chunks == [] then None
    else
      var last := chunks[|chunks| - 1];
      if last.usage.Some? then last.usage else LastUsage(chunks[..|chunks| - 1])
  }

  /**
   A message agrees with what was emitted: its content is the concatenated content deltas, and its tool calls are
   those of the non-negative indexes in ascending order, each with its concatenated argument deltas.
   */
  ghost predicate AgreesWith(m: Message, events: seq<Event>, deltas: seq<ToolDelta>, order: seq<int>) {
    && m.content == Content(events)
    && |m.toolCalls| == |order|
    && (forall i, k | 0 <= i < k < |order| :: order[i] < order[k])
    && (forall x :: x in order <==> 0 <= x && x in Indexes(deltas))
    && (forall i | 0 <= i < |order| ::
          m.toolCalls[i] == Assembled(deltas, order[i]) && m.toolCalls[i].arguments == Arguments(events, order[i]))
  }

  lemma LastEvent(
      content: string, tools: map<int, ToolCall>, events: seq<Event>, began: bool, seen: seq<ToolDelta>,
      finish: string, reasons: seq<string>, started: set<int>, e: Event)
    requires Agrees(content, tools, events, began, seen) && Marks(events, finish, reasons, started, seen)
    requires e.Error? || e.FinalUsage?
    ensures Agrees(content, tools, events + [e], began || IsPublic(e), seen)
    ensures Marks(events + [e], finish, reasons, started, seen)
  {
    SilentEvent(content, tools, events, began, seen, e);
    OtherMarks(events, finish, reasons, started, seen, e);
  }

  /** What the accumulator's invariant says about the events. */
  lemma EventsTell(
      content: string, tools: map<int, ToolCall>, events: seq<Event>, began: bool, seen: seq<ToolDelta>,
      finish: string, reasons: seq<string>, started: set<int>)
    requires Agrees(content, tools, events, began, seen) && Marks(events, finish, reasons, started, seen)
    ensures began <==> AnyPublic(events)
    ensures content == Content(events)
    ensures Finishes(events) == reasons && finish == LastOf(reasons)
    ensures forall i :: Starts(events, i) == if Named(seen, i) then 1 else 0
  {
  }

  lemma AgreementOf(
      content: string, tools: map<int, ToolCall>, events: seq<Event>, began: bool, seen: seq<ToolDelta>, order: seq<int>, m: Message)
    requires Agrees(content, tools, events, began, seen) && Ordered(tools, order, m.toolCalls) && m.content == content
    ensures AgreesWith(m, events, seen, order)
  {
    hide Content, Arguments, Assembled, AnyPublic, Indexes;
  }

  /** Reads the chunks up to the end marker, an interruption or the end of the body. */
  method ReadChatStream(chunks: seq<Chunk>, interrupted: bool)
    returns (events: seq<Event>, result: Result, ghost order: seq<int>)
    ensures result.accepted.Some? <==> !interrupted && LastUsage(chunks).Some?
    ensures result.accepted.Some? ==> AgreesWith(result.accepted.value, events, Deltas(chunks), order)
    ensures result.publicOutputBegan <==> AnyPublic(events)
    ensures Content(events) == ChunkText(chunks)
    ensures result.accepted.Some? ==> result.accepted.value.finishReason == LastOf(Reasons(chunks))
    ensures |events| > 0
    ensures events[|events| - 1] == if interrupted then Error("stream_interrupted")
                                    else match LastUsage(chunks)
                                         case None => Error("usage_missing")
                                         case Some(usage) => FinalUsage(usage)
    ensures Finishes(events) == Reasons(chunks)
    ensures forall i :: Starts(events, i) == if Named(Deltas(chunks), i) then 1 else 0
    ensures Trace(Choices(chunks), events[..|events| - 1])
  {
    hide Marks, Agrees, Trace;
    order := [];
    var acc := new OpenAIStreamAccumulator();
    for i := 0 to |chunks|
      invariant acc.Valid() && acc.seen == Deltas(chunks[..i]) && acc.usage == LastUsage(chunks[..i])
      invariant acc.reasons == Reasons(chunks[..i]) && acc.content == ChunkText(chunks[..i])
      invariant acc.heard == Choices(chunks[..i]) && acc.Told()
    {
      assert chunks[..i + 1][..i] == chunks[..i];
      acc.AddChunk(chunks[i]);
    }
    assert chunks[..|chunks|] == chunks;
    ghost var last := if interrupted then Error("stream_interrupted")
                      else if acc.usage.None? then Error("usage_missing") else FinalUsage(acc.usage.value);
    LastEvent(acc.content, acc.toolCallsByIndex, acc.events, acc.publicBegan, acc.seen, acc.finishReason, acc.reasons,
              acc.toolStartEmitted, last);
    if interrupted {
      acc.Emit(Error("stream_interrupted"));
      EventsTell(acc.content, acc.toolCallsByIndex, acc.events, acc.publicBegan, acc.seen, acc.finishReason, acc.reasons,
                 acc.toolStartEmitted);
      return acc.events, Result(acc.publicBegan, None), [];
    }
    var tools := acc.FinalizeTools();
    order :| Ordered(acc.toolCallsByIndex, order, tools);
    if acc.usage.None? {
      acc.Emit(Error("usage_missing"));
      EventsTell(acc.content, acc.toolCallsByIndex, acc.events, acc.publicBegan, acc.seen, acc.finishReason, acc.reasons,
                 acc.toolStartEmitted);
      return acc.events, Result(acc.publicBegan, None), [];
    }
    acc.Emit(FinalUsage(acc.usage.value));
    EventsTell(acc.content, acc.toolCallsByIndex, acc.events, acc.publicBegan, acc.seen, acc.finishReason, acc.reasons,
               acc.toolStartEmitted);
    var message := Message(acc.content, tools, acc.finishReason);
    AgreementOf(acc.content, acc.toolCallsByIndex, acc.events, acc.publicBegan, acc.seen, order, message);
    assert AgreesWith(message, acc.events, acc.seen, order);
    return acc.events, Result(acc.publicBegan, Some(message)), order;
  }
}
