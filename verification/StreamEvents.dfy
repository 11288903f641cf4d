/** The semantic events a provider stream emits (provider/event.go) and what a reader can rebuild from them. */
module StreamEvents {

  /** Usage is carried whole; its numbers play no part here. */
  datatype Event =
    | Created | ContentDelta(text: string) | ToolCallStart(index: int, id: string, name: string)
    | ToolCallArgsDelta(index: int, arguments: string) | ToolCallCompleted(index: int)
    | Finish(reason: string) | FinalUsage(usage: nat) | Error(code: string)

  datatype ToolCall = ToolCall(id: string, name: string, arguments: string)

  datatype Message = Message(content: string, toolCalls: seq<ToolCall>, finishReason: string)

  function TextOf(e: Event): string {
    if e.ContentDelta? then e.text else ""
  }

  function ArgumentsFor(e: Event, index: int): string {
    if e.ToolCallArgsDelta? && e.index == index then e.arguments else ""
  }

  /** The concatenated content deltas. */
  function Content(events: seq<Event>): string {
    if events == [] then "" else Content(events[..|events| - 1]) + TextOf(events[|events| - 1])
  }

  /** The concatenated argument deltas of one tool index. */
  function Arguments(events: seq<Event>, index: int): string {
    if events == [] then ""
    else Arguments(events[..|events| - 1], index) + ArgumentsFor(events[|events| - 1], index)
  }

  /** Output a client can see, after which no other key may be tried. */
  predicate IsPublic(e: Event) {
    e.ContentDelta? || e.ToolCallStart? || e.ToolCallArgsDelta? || e.Finish?
  }

  predicate AnyPublic(events: seq<Event>) {
    exists i :: 0 <= i < |events| && IsPublic(events[i])
  }

  /** Everything but the start of the stream, the end of a tool call, the usage and an error counts as output. */
  lemma PublicIs(events: seq<Event>)
    ensures AnyPublic(events)
            <==> exists i :: 0 <= i < |events|
                             && !events[i].Created? && !events[i].ToolCallCompleted? && !events[i].FinalUsage? && !events[i].Error?
  {
    if AnyPublic(events) {
      var i :| 0 <= i < |events| && IsPublic(events[i]);
      assert !events[i].Created?;
    }
    if i :| 0 <= i < |events|
            && !events[i].Created? && !events[i].ToolCallCompleted? && !events[i].FinalUsage? && !events[i].Error? {
      assert IsPublic(events[i]);
    }
  }

  lemma Emitted(events: seq<Event>, e: Event)
    ensures Content(events + [e]) == Content(events) + TextOf(e)
    ensures forall index :: Arguments(events + [e], index) == Arguments(events, index) + ArgumentsFor(e, index)
    ensures AnyPublic(events + [e]) <==> AnyPublic(events) || IsPublic(e)
  {
    var all := events + [e];
    assert all[..|events|] == events;
    if AnyPublic(events) {
      var i :| 0 <= i < |events| && IsPublic(events[i]);
      assert all[i] == events[i];
    }
    assert all[|events|] == e;
  }
}
