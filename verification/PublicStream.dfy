/** The chat-completions encoder of the public event stream (provider/public_sse.go). */
module PublicStream {
  import opened StreamEvents
  import OpenAIStream

  /** The server-sent frames of a chat stream, by what their delta carries. */
  datatype Frame =
    | RoleFrame | ContentFrame(text: string) | ToolStartFrame(index: int, id: string, name: string)
    | ArgumentsFrame(index: int, arguments: string) | FinishFrame(reason: string) | UsageFrame(usage: nat)
    | ErrorFrame(code: string)

  /** Events whose frame must come after the role frame. */
  predicate Opens(e: Event) { e.ContentDelta? || e.ToolCallStart? }

  predicate AnyOpens(events: seq<Event>) {
    exists i :: 0 <= i < |events| && Opens(events[i])
  }

  function Body(e: Event, includeUsage: bool): seq<Frame> {
    match e
    case Created => []
    case ContentDelta(text) => [ContentFrame(text)]
    case ToolCallStart(index, id, name) => [ToolStartFrame(index, id, name)]
    case ToolCallArgsDelta(index, arguments) => [ArgumentsFrame(index, arguments)]
    case ToolCallCompleted(_) => []
    case Finish(reason) => [FinishFrame(reason)]
    case FinalUsage(usage) => if includeUsage then [UsageFrame(usage)] else []
    case Error(code) => [ErrorFrame(code)]
  }

  /** The frames of one event, the role frame first when something needs it that did not go out yet. */
  function Encoded(e: Event, roleSent: bool, includeUsage: bool): seq<Frame> {
    if Opens(e) && !roleSent then [RoleFrame] + Body(e, includeUsage) else Body(e, includeUsage)
  }

  function Frames(events: seq<Event>, includeUsage: bool): seq<Frame> {
    if events == [] then []
    else
      var n := |events| - 1;
      Frames(events[..n], includeUsage) + Encoded(events[n], AnyOpens(events[..n]), includeUsage)
  }

  class PublicStreamEncoder {
    const includeUsage: bool
    var roleSent: bool
    ghost var encoded: seq<Event>
    ghost var sent: seq<Frame>

    ghost predicate Valid()
      reads this
    {
      sent == Frames(encoded, includeUsage) && (roleSent <==> AnyOpens(encoded))
    }

    constructor (includeUsage: bool)
      ensures Valid() && encoded == [] && this.includeUsage == includeUsage
    {
      this.includeUsage, roleSent, encoded, sent := includeUsage, false, [], [];
    }

    method EncodeChatCompletions(e: Event) returns (frames: seq<Frame>, stop: bool)
      requires Valid()
      modifies this
      ensures Valid() && encoded == old(encoded) + [e] && sent == old(sent) + frames
      ensures stop <==> e.Error?
    {
      hide Frames, AnyOpens;
      frames, stop := [], false;
      match e {
        case Created => {}
        case ContentDelta(text) =>
          if !roleSent {
            frames := [RoleFrame];
            roleSent := true;
          }
          frames := frames + [ContentFrame(text)];
        case ToolCallStart(index, id, name) =>
          if !roleSent {
            frames := [RoleFrame];
            roleSent := true;
          }
          frames := frames + [ToolStartFrame(index, id, name)];
        case ToolCallArgsDelta(index, arguments) => frames := [ArgumentsFrame(index, arguments)];
        case ToolCallCompleted(_) => {}
        case Finish(reason) => frames := [FinishFrame(reason)];
        case FinalUsage(usage) =>
          if includeUsage {
            frames := [UsageFrame(usage)];
          }
        case Error(code) => frames, stop := [ErrorFrame(code)], true;
      }
      assert frames == Encoded(e, old(roleSent), includeUsage);
      OneMore(encoded, e);
      encoded := encoded + [e];
      sent := sent + frames;
    }
  }

  lemma OneMore(events: seq<Event>, e: Event)
    ensures forall usage :: Frames(events + [e], usage) == Frames(events, usage) + Encoded(e, AnyOpens(events), usage)
    ensures AnyOpens(events + [e]) <==> AnyOpens(events) || Opens(e)
  {
    var all := events + [e];
    assert all[..|events|] == events;
    if AnyOpens(events) {
      var i :| 0 <= i < |events| && Opens(events[i]);
      assert all[i] == events[i];
    }
    assert all[|events|] == e;
  }

  // ---------------------------------------------------------------------------------------------
  // The stream as a whole

  predicate NeedsRole(f: Frame) { f.ContentFrame? || f.ToolStartFrame? }

  lemma OpensIs(events: seq<Event>)
    ensures AnyOpens(events) <==> exists i :: 0 <= i < |events| && (events[i].ContentDelta? || events[i].ToolCallStart?)
  {
    if AnyOpens(events) {
      var i :| 0 <= i < |events| && Opens(events[i]);
      assert events[i].ContentDelta? || events[i].ToolCallStart?;
    }
    if i :| 0 <= i < |events| && (events[i].ContentDelta? || events[i].ToolCallStart?) {
      assert Opens(events[i]);
    }
  }

  /** The role frame is sent iff something needs it, once, and before everything that needs it. */
  ghost predicate RoleFirst(frames: seq<Frame>, needed: bool) {
    && (needed <==> exists i :: 0 <= i < |frames| && frames[i] == RoleFrame)
    && (forall i, k | 0 <= i < |frames| && 0 <= k < |frames| && frames[i] == RoleFrame && frames[k] == RoleFrame :: i == k)
    && (forall i, k | 0 <= i < |frames| && 0 <= k < |frames| && NeedsRole(frames[i]) && frames[k] == RoleFrame :: k < i)
    && (forall i | 0 <= i < |frames| && NeedsRole(frames[i]) :: needed)
  }

  lemma AppendFrame(frames: seq<Frame>, needed: bool, f: Frame)
    requires RoleFirst(frames, needed) && (f == RoleFrame ==> !needed) && (NeedsRole(f) ==> needed)
    ensures RoleFirst(frames + [f], needed || f == RoleFrame)
  {
    var all := frames + [f];
    assert all[|frames|] == f;
    if needed {
      var i :| 0 <= i < |frames| && frames[i] == RoleFrame;
      assert all[i] == RoleFrame;
    }
  }

  lemma AppendEncoded(frames: seq<Frame>, needed: bool, e: Event, includeUsage: bool)
    requires RoleFirst(frames, needed)
    ensures RoleFirst(frames + Encoded(e, needed, includeUsage), needed || Opens(e))
  {
    hide RoleFirst;
    var body := Body(e, includeUsage);
    if body == [] {
      assert frames + Encoded(e, needed, includeUsage) == frames;
    } else {
      assert body == [body[0]];
      if Opens(e) && !needed {
        AppendFrame(frames, false, RoleFrame);
        AppendFrame(frames + [RoleFrame], true, body[0]);
        assert frames + [RoleFrame] + [body[0]] == frames + Encoded(e, needed, includeUsage);
      } else {
        AppendFrame(frames, needed, body[0]);
      }
    }
  }

  lemma {:induction false} RoleIsSentOnceAndFirst(events: seq<Event>, includeUsage: bool)
    ensures RoleFirst(Frames(events, includeUsage), AnyOpens(events))
    ensures AnyOpens(events) <==> exists i :: 0 <= i < |events| && (events[i].ContentDelta? || events[i].ToolCallStart?)
  {
    OpensIs(events);
    hide RoleFirst, Encoded;
    if events == [] {
      NothingIsFirst();
    } else {
      var n := |events| - 1;
      RoleIsSentOnceAndFirst(events[..n], includeUsage);
      assert events == events[..n] + [events[n]];
      OneMore(events[..n], events[n]);
      AppendEncoded(Frames(events[..n], includeUsage), AnyOpens(events[..n]), events[n], includeUsage);
    }
  }

  lemma NothingIsFirst()
    ensures RoleFirst([], false)
  {
  }

  /** The frame an event is sent as. */
  ghost predicate Carries(f: Frame, e: Event) {
    match e
    case ContentDelta(text) => f == ContentFrame(text)
    case ToolCallStart(index, id, name) => f == ToolStartFrame(index, id, name)
    case ToolCallArgsDelta(index, arguments) => f == ArgumentsFrame(index, arguments)
    case Finish(reason) => f == FinishFrame(reason)
    case FinalUsage(usage) => f == UsageFrame(usage)
    case Error(code) => f == ErrorFrame(code)
    case _ => false
  }

  /** The events a client is told about. */
  function Shown(events: seq<Event>, includeUsage: bool): seq<Event> {
    if events == [] then []
    else
      var e := events[|events| - 1];
      Shown(events[..|events| - 1], includeUsage)
      + if e.Created? || e.ToolCallCompleted? || (e.FinalUsage? && !includeUsage) then [] else [e]
  }

  function WithoutRole(frames: seq<Frame>): seq<Frame> {
    if frames == [] then []
    else
      var f := frames[|frames| - 1];
      WithoutRole(frames[..|frames| - 1]) + if f.RoleFrame? then [] else [f]
  }

  lemma WithoutRoleOneMore(frames: seq<Frame>, f: Frame)
    ensures WithoutRole(frames + [f]) == WithoutRole(frames) + if f.RoleFrame? then [] else [f]
  {
    assert (frames + [f])[..|frames|] == frames;
  }

  lemma EncodedShows(frames: seq<Frame>, e: Event, roleSent: bool, includeUsage: bool)
    ensures var all := WithoutRole(frames + Encoded(e, roleSent, includeUsage));
            if e.Created? || e.ToolCallCompleted? || (e.FinalUsage? && !includeUsage)
            then all == WithoutRole(frames)
            else |all| == |WithoutRole(frames)| + 1 && all[..|all| - 1] == WithoutRole(frames) && Carries(all[|all| - 1], e)
  {
    hide WithoutRole;
    var body := Body(e, includeUsage);
    if body == [] {
      assert frames + Encoded(e, roleSent, includeUsage) == frames;
    } else {
      assert body == [body[0]];
      if Opens(e) && !roleSent {
        WithoutRoleOneMore(frames, RoleFrame);
        WithoutRoleOneMore(frames + [RoleFrame], body[0]);
        assert frames + [RoleFrame] + [body[0]] == frames + Encoded(e, roleSent, includeUsage);
      } else {
        WithoutRoleOneMore(frames, body[0]);
      }
    }
  }

  /** Apart from the role frame, the frames are those of the events a client is told about, one each, in order. */
  lemma {:induction false} FramesShowEvents(events: seq<Event>, includeUsage: bool)
    ensures var frames := WithoutRole(Frames(events, includeUsage));
            var shown := Shown(events, includeUsage);
            |frames| == |shown| && forall i | 0 <= i < |shown| :: Carries(frames[i], shown[i])
  {
    hide Encoded, Carries;
    if events != [] {
      var n := |events| - 1;
      FramesShowEvents(events[..n], includeUsage);
      EncodedShows(Frames(events[..n], includeUsage), events[n], AnyOpens(events[..n]), includeUsage);
      var frames := WithoutRole(Frames(events, includeUsage));
      var before := WithoutRole(Frames(events[..n], includeUsage));
      var shown := Shown(events, includeUsage);
      if |shown| > |Shown(events[..n], includeUsage)| {
        forall i | 0 <= i < |shown| ensures Carries(frames[i], shown[i]) {
          assert i < |before| ==> frames[i] == frames[..|frames| - 1][i] == before[i];
        }
      }
    }
  }

  function FrameText(f: Frame): string { if f.ContentFrame? then f.text else "" }

  function FrameArguments(f: Frame, index: int): string {
    if f.ArgumentsFrame? && f.index == index then f.arguments else ""
  }

  /** What a client concatenates. */
  function ReadContent(frames: seq<Frame>): string {
    if frames == [] then "" else ReadContent(frames[..|frames| - 1]) + FrameText(frames[|frames| - 1])
  }

  function ReadArguments(frames: seq<Frame>, index: int): string {
    if frames == [] then ""
    else ReadArguments(frames[..|frames| - 1], index) + FrameArguments(frames[|frames| - 1], index)
  }

  lemma ReadOneMore(frames: seq<Frame>, f: Frame, index: int)
    ensures ReadContent(frames + [f]) == ReadContent(frames) + FrameText(f)
    ensures ReadArguments(frames + [f], index) == ReadArguments(frames, index) + FrameArguments(f, index)
  {
    assert (frames + [f])[..|frames|] == frames;
  }

  lemma ReadEncoded(frames: seq<Frame>, e: Event, roleSent: bool, includeUsage: bool, index: int)
    ensures ReadContent(frames + Encoded(e, roleSent, includeUsage)) == ReadContent(frames) + TextOf(e)
    ensures ReadArguments(frames + Encoded(e, roleSent, includeUsage), index)
            == ReadArguments(frames, index) + ArgumentsFor(e, index)
  {
    hide ReadContent, ReadArguments;
    var body := Body(e, includeUsage);
    if body == [] {
      assert frames + Encoded(e, roleSent, includeUsage) == frames;
    } else {
      assert body == [body[0]];
      if Opens(e) && !roleSent {
        ReadOneMore(frames, RoleFrame, index);
        ReadOneMore(frames + [RoleFrame], body[0], index);
        assert frames + [RoleFrame] + [body[0]] == frames + Encoded(e, roleSent, includeUsage);
      } else {
        ReadOneMore(frames, body[0], index);
      }
    }
  }

  /** A client that concatenates the frames gets exactly the text and the arguments that were emitted. */
  lemma {:induction false} ClientReadsWhatWasEmitted(events: seq<Event>, includeUsage: bool, index: int)
    ensures ReadContent(Frames(events, includeUsage)) == Content(events)
    ensures ReadArguments(Frames(events, includeUsage), index) == Arguments(events, index)
  {
    hide Encoded;
    if events != [] {
      var n := |events| - 1;
      ClientReadsWhatWasEmitted(events[..n], includeUsage, index);
      ReadEncoded(Frames(events[..n], includeUsage), events[n], AnyOpens(events[..n]), includeUsage, index);
    }
  }

  /** The client's view of an accepted OpenAI stream is the message that is stored and returned, tool calls or not. */
  lemma ClientReadsTheMessage(
      m: Message, events: seq<Event>, deltas: seq<OpenAIStream.ToolDelta>, order: seq<int>, includeUsage: bool)
    requires OpenAIStream.AgreesWith(m, events, deltas, order)
    ensures ReadContent(Frames(events, includeUsage)) == m.content
    ensures |m.toolCalls| == |order|
    ensures forall i | 0 <= i < |order| :: ReadArguments(Frames(events, includeUsage), order[i]) == m.toolCalls[i].arguments
  {
    hide Frames, ReadContent, ReadArguments;
    ClientReadsWhatWasEmitted(events, includeUsage, 0);
    forall i | 0 <= i < |order|
      ensures ReadArguments(Frames(events, includeUsage), order[i]) == m.toolCalls[i].arguments
    {
      ClientReadsWhatWasEmitted(events, includeUsage, order[i]);
    }
  }
}
