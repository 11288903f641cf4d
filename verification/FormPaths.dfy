/** Bracket form fields such as root[a][b][] (llmadapter/images_edits.go): parsing and printing. */
module FormPaths {
  import opened Options

  /** `arrayLeaf` is a trailing [] on the segment. */
  datatype Segment = Segment(key: string, arrayLeaf: bool)

  datatype Field = Unsupported | Plain | Nested(root: string, segments: seq<Segment>)

  function IndexOf(s: string, c: char): (n: nat)
    ensures n <= |s| && (n < |s| ==> s[n] == c) && forall i | 0 <= i < n :: s[i] != c
  {
    if s == "" || s[0] == c then 0
    else
      var rest := IndexOf(s[1..], c);
      assert forall i | 0 < i < 1 + rest :: s[i] == s[1..][i - 1];
      1 + rest
  }

  /** The segments read so far and then those of the rest of the text. */
  function ParseSegments(rest: string, segments: seq<Segment>): Option<seq<Segment>>
    decreases |rest|
  {
    if rest == "" then Some(segments)
    else if rest[0] != '[' then None
    else
      var close := IndexOf(rest, ']');
      if close == |rest| then None
      else
        var inner := rest[1..close];
        var tail := rest[close + 1..];
        if inner != "" then ParseSegments(tail, segments + [Segment(inner, false)])
        else if tail != "" || segments == [] then None
        else
          var n := |segments| - 1;
          Some(segments[n := segments[n].(arrayLeaf := true)])
  }

  function Parse(field: string): Field {
    var open := IndexOf(field, '[');
    if open == |field| then Plain
    else if open == 0 then Unsupported
    else
      match ParseSegments(field[open..], [])
      case None => Unsupported
      case Some(segments) => if segments == [] then Unsupported else Nested(field[..open], segments)
  }

  /** The loop of the source: consumes one bracket pair at a time and marks the last segment on a trailing []. */
  method ParseMultipartBracketField(field: string) returns (r: Field)
    ensures r == Parse(field)
  {
    var open := IndexOf(field, '[');
    if open == |field| {
      return Plain;
    }
    if open == 0 {
      return Unsupported;
    }
    var rest := field[open..];
    var segments: seq<Segment> := [];
    while |rest| > 0
      invariant ParseSegments(rest, segments) == ParseSegments(field[open..], [])
      decreases |rest|
    {
      if rest[0] != '[' {
        return Unsupported;
      }
      var close := IndexOf(rest, ']');
      if close == |rest| {
        return Unsupported;
      }
      var inner := rest[1..close];
      rest := rest[close + 1..];
      if inner == "" {
        if |rest| != 0 || |segments| == 0 {
          return Unsupported;
        }
        segments := segments[|segments| - 1 := segments[|segments| - 1].(arrayLeaf := true)];
      } else {
        segments := segments + [Segment(inner, false)];
      }
    }
    if segments == [] {
      return Unsupported;
    }
    return Nested(field[..open], segments);
  }

  function Print(segments: seq<Segment>): string {
    if segments == [] then ""
    else "[" + segments[0].key + "]" + (if segments[0].arrayLeaf then "[]" else "") + Print(segments[1..])
  }

  function PrintField(root: string, segments: seq<Segment>): string { root + Print(segments) }

  predicate PlainSegments(segments: seq<Segment>) {
    forall i | 0 <= i < |segments| :: segments[i].key != "" && ']' !in segments[i].key && !segments[i].arrayLeaf
  }

  /** Keys are not empty and have no closing bracket, and only the last segment may be an array. */
  predicate ValidSegments(segments: seq<Segment>) {
    && |segments| > 0
    && PlainSegments(segments[..|segments| - 1])
    && segments[|segments| - 1].key != "" && ']' !in segments[|segments| - 1].key
  }

  predicate ValidPath(root: string, segments: seq<Segment>) {
    root != "" && '[' !in root && ValidSegments(segments)
  }

  lemma IndexOfIs(s: string, c: char, n: nat)
    requires n < |s| && s[n] == c && forall i | 0 <= i < n :: s[i] != c
    ensures IndexOf(s, c) == n
  {
  }

  lemma OneSegmentParses(key: string, tail: string, before: seq<Segment>)
    requires key != "" && ']' !in key
    ensures ParseSegments("[" + key + "]" + tail, before) == ParseSegments(tail, before + [Segment(key, false)])
  {
    var s := "[" + key + "]" + tail;
    var close := |key| + 1;
    forall i | 0 <= i < close ensures s[i] != ']' {
      if i > 0 {
        assert s[i] == key[i - 1];
      }
    }
    IndexOfIs(s, ']', close);
    assert s[1..close] == key && s[close + 1..] == tail;
  }

  lemma LastSegmentParses(last: Segment, before: seq<Segment>)
    requires last.key != "" && ']' !in last.key
    ensures ParseSegments(Print([last]), before) == Some(before + [last])
  {
    var read := before + [Segment(last.key, false)];
    PrintOne(last.key, last.arrayLeaf);
    if last.arrayLeaf {
      OneSegmentParses(last.key, "[]", before);
      ArrayMarkParses(read);
      assert read[|before| := last] == before + [last];
    } else {
      OneSegmentParses(last.key, "", before);
      assert "[" + last.key + "]" + "" == Print([last]);
      EndParses(read);
    }
  }

  lemma EndParses(segments: seq<Segment>)
    ensures ParseSegments("", segments) == Some(segments)
  {
  }

  lemma {:induction false} PrintedSegmentsParse(segments: seq<Segment>, before: seq<Segment>)
    requires ValidSegments(segments)
    ensures ParseSegments(Print(segments), before) == Some(before + segments)
    decreases |segments|
  {
    hide ParseSegments;
    var first := segments[0];
    if |segments| == 1 {
      assert segments == [first];
      LastSegmentParses(first, before);
    } else {
      assert segments[..|segments| - 1][0] == first;
      var more := segments[1..];
      assert Print(segments) == "[" + first.key + "]" + Print(more);
      OneSegmentParses(first.key, Print(more), before);
      assert Segment(first.key, false) == first;
      assert more[..|more| - 1] == segments[..|segments| - 1][1..];
      PrintedSegmentsParse(more, before + [first]);
      assert before + [first] + more == before + segments;
    }
  }

  lemma ArrayMarkParses(segments: seq<Segment>)
    requires segments != []
    ensures ParseSegments("[]", segments) == Some(segments[|segments| - 1 := segments[|segments| - 1].(arrayLeaf := true)])
  {
    IndexOfIs("[]", ']', 1);
  }

  /** Printing a path in bracket form and parsing it returns the path. */
  lemma PrintedPathParses(root: string, segments: seq<Segment>)
    requires ValidPath(root, segments)
    ensures Parse(PrintField(root, segments)) == Nested(root, segments)
  {
    var field := PrintField(root, segments);
    IndexOfIs(field, '[', |root|);
    assert field[|root|..] == Print(segments) && field[..|root|] == root;
    PrintedSegmentsParse(segments, []);
    assert [] + segments == segments;
  }

  lemma {:induction false} PrintAppends(segments: seq<Segment>, last: Segment)
    ensures Print(segments + [last]) == Print(segments) + Print([last])
  {
    if segments == [] {
      assert [] + [last] == [last];
    } else {
      assert (segments + [last])[1..] == segments[1..] + [last];
      PrintAppends(segments[1..], last);
    }
  }

  lemma PrintOne(key: string, arrayLeaf: bool)
    ensures Print([Segment(key, arrayLeaf)]) == "[" + key + "]" + if arrayLeaf then "[]" else ""
  {
  }

  lemma MarkedPrints(before: seq<Segment>)
    requires PlainSegments(before) && before != []
    ensures var n := |before| - 1;
            var marked := before[n := before[n].(arrayLeaf := true)];
            ValidSegments(marked) && Print(marked) == Print(before) + "[]"
  {
    var n := |before| - 1;
    var last := before[n].(arrayLeaf := true);
    assert before == before[..n] + [before[n]] && before[n := last] == before[..n] + [last];
    PrintAppends(before[..n], before[n]);
    PrintAppends(before[..n], last);
    PrintOne(before[n].key, false);
    PrintOne(before[n].key, true);
  }

  lemma OneMorePrints(before: seq<Segment>, key: string, tail: string)
    requires PlainSegments(before) && key != "" && ']' !in key
    ensures PlainSegments(before + [Segment(key, false)])
    ensures Print(before + [Segment(key, false)]) + tail == Print(before) + ("[" + key + "]" + tail)
  {
    PrintAppends(before, Segment(key, false));
    PrintOne(key, false);
  }

  lemma {:induction false} ParsedSegmentsPrint(rest: string, before: seq<Segment>)
    requires PlainSegments(before) && ParseSegments(rest, before).Some? && (rest != "" || before != [])
    ensures var segments := ParseSegments(rest, before).value;
            ValidSegments(segments) && Print(segments) == Print(before) + rest
    decreases |rest|
  {
    hide Print;
    if rest == "" {
      assert PlainSegments(before[..|before| - 1]);
      assert Print(before) + "" == Print(before);
    } else {
      var close := IndexOf(rest, ']');
      var inner := rest[1..close];
      var tail := rest[close + 1..];
      assert rest == "[" + inner + "]" + tail;
      if inner != "" {
        OneMorePrints(before, inner, tail);
        ParsedSegmentsPrint(tail, before + [Segment(inner, false)]);
      } else {
        assert rest == "[]";
        MarkedPrints(before);
      }
    }
  }

  /** A parsed path is valid and prints back to the field, so different fields are different paths. */
  lemma ParsedPathPrints(field: string)
    requires Parse(field).Nested?
    ensures var path := Parse(field);
            ValidPath(path.root, path.segments) && PrintField(path.root, path.segments) == field
  {
    var open := IndexOf(field, '[');
    ParsedSegmentsPrint(field[open..], []);
    assert field == field[..open] + field[open..];
  }
}
