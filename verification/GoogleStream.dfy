/** The text part of the Google stream reader (provider/google.go): chunks repeat the text so far or add to it. */
module GoogleStream {
  import opened StreamEvents

  /** The text after one chunk: a chunk that extends the text replaces it, one already contained adds nothing. */
  function Extended(text: string, chunk: string): string {
    if text <= chunk then chunk else if chunk <= text then text else text + chunk
  }

  function Final(chunks: seq<string>): string {
    if chunks == [] then "" else Extended(Final(chunks[..|chunks| - 1]), chunks[|chunks| - 1])
  }

  lemma TextEmitted(events: seq<Event>, delta: string)
    ensures Content(events + [ContentDelta(delta)]) == Content(events) + delta
    ensures AnyPublic(events + [ContentDelta(delta)])
  {
    Emitted(events, ContentDelta(delta));
  }

  lemma FinalOfNothing()
    ensures Final([]) == ""
  {
  }

  lemma FinalOneMore(chunks: seq<string>, i: nat)
    requires i < |chunks|
    ensures Final(chunks[..i + 1]) == Extended(Final(chunks[..i]), chunks[i])
  {
    assert chunks[..i + 1][..i] == chunks[..i];
  }

  /** Emits what each chunk adds; the concatenated deltas are the final text. */
  method ReadStreamText(chunks: seq<string>) returns (content: string, events: seq<Event>, publicBegan: bool)
    ensures content == Content(events) == Final(chunks)
    ensures publicBegan <==> AnyPublic(events)
    ensures publicBegan <==> content != ""
  {
    content, events, publicBegan := "", [Created], false;
    Emitted([], Created);
    assert [] + [Created] == events;
    hide Content, AnyPublic, Final;
    FinalOfNothing();
    for i := 0 to |chunks|
      invariant content == Content(events) == Final(chunks[..i])
      invariant publicBegan <==> AnyPublic(events)
      invariant publicBegan <==> content != ""
    {
      FinalOneMore(chunks, i);
      var chunk := chunks[i];
      if chunk != "" {
        if content <= chunk {
          var delta := chunk[|content|..];
          assert content + delta == chunk;
          TextEmitted(events, delta);
          content := chunk;
          if delta != "" {
            events := events + [ContentDelta(delta)];
            publicBegan := true;
          }
        } else if !(chunk <= content) {
          TextEmitted(events, chunk);
          content := content + chunk;
          events := events + [ContentDelta(chunk)];
          publicBegan := true;
        }
      }
    }
    assert chunks[..|chunks|] == chunks;
  }

  /** When every chunk repeats the text so far, the final text is the last chunk. */
  lemma {:induction false} CumulativeIsLast(chunks: seq<string>)
    requires |chunks| > 0 && forall i | 0 < i < |chunks| :: chunks[i - 1] <= chunks[i]
    ensures Final(chunks) == chunks[|chunks| - 1]
  {
    var n := |chunks| - 1;
    if n > 0 {
      CumulativeIsLast(chunks[..n]);
    }
  }

  function Joined(chunks: seq<string>): string {
    if chunks == [] then "" else Joined(chunks[..|chunks| - 1]) + chunks[|chunks| - 1]
  }

  /** No chunk extends, or is a beginning of, the text joined before it. */
  ghost predicate OnlyAdd(chunks: seq<string>) {
    forall i | 0 < i < |chunks| :: !(Joined(chunks[..i]) <= chunks[i]) && !(chunks[i] <= Joined(chunks[..i]))
  }

  lemma {:induction false} FinalIsShorter(chunks: seq<string>)
    requires forall i | 0 <= i < |chunks| :: chunks[i] != ""
    ensures |Final(chunks)| <= |Joined(chunks)| && (chunks != [] ==> Final(chunks) != "")
  {
    if chunks != [] {
      FinalIsShorter(chunks[..|chunks| - 1]);
    }
  }

  lemma ExtendedIsJoinedIff(text: string, joined: string, chunk: string)
    requires 0 < |text| <= |joined| && chunk != ""
    ensures Extended(text, chunk) == joined + chunk <==> text == joined && !(joined <= chunk) && !(chunk <= joined)
  {
    if text + chunk == joined + chunk {
      assert |text| == |joined|;
      assert (text + chunk)[..|text|] == text && (joined + chunk)[..|text|] == joined;
    }
  }

  lemma OnlyAddOneMore(chunks: seq<string>)
    requires |chunks| > 1
    ensures var n := |chunks| - 1;
            OnlyAdd(chunks) <==> OnlyAdd(chunks[..n]) && !(Joined(chunks[..n]) <= chunks[n]) && !(chunks[n] <= Joined(chunks[..n]))
  {
    var n := |chunks| - 1;
    forall i | 0 < i < n ensures chunks[..n][..i] == chunks[..i] {
    }
  }

  /** Non-empty chunks come out concatenated exactly when each only adds to the text before it. */
  lemma {:induction false} JoinedIff(chunks: seq<string>)
    requires forall i | 0 <= i < |chunks| :: chunks[i] != ""
    ensures Final(chunks) == Joined(chunks) <==> OnlyAdd(chunks)
  {
    if |chunks| > 1 {
      var n := |chunks| - 1;
      JoinedIff(chunks[..n]);
      FinalIsShorter(chunks[..n]);
      OnlyAddOneMore(chunks);
      ExtendedIsJoinedIff(Final(chunks[..n]), Joined(chunks[..n]), chunks[n]);
    } else if |chunks| == 1 {
      assert Final(chunks[..0]) == "" && Joined(chunks[..0]) == "";
    }
  }
}
