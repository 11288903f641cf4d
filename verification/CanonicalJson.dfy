/**
 The canonical JSON printer used for cache keys (models/canonical_json.go). A tree is what the decoder yields:
 objects are finite maps and numbers keep their literal text. Texts are sequences of Unicode scalar values.
 */
module CanonicalJson {
  import opened Texts

  datatype Json =
    | Null | Bool(value: bool) | Number(text: string) | Str(chars: string)
    | Arr(items: seq<Json>) | Obj(members: map<string, Json>)

  const BACKSPACE: char := 8 as char
  const FORM_FEED: char := 12 as char

  function HexDigit(n: nat): char
    requires n < 16
  {
    if n < 10 then '0' + n as char else 'a' + (n - 10) as char
  }

  function Escape(c: char): (s: string)
    ensures |s| > 0
  {
    if c == '"' then "\\\""
    else if c == '\\' then "\\\\"
    else if c == '\n' then "\\n"
    else if c == '\r' then "\\r"
    else if c == '\t' then "\\t"
    else if c == BACKSPACE then "\\b"
    else if c == FORM_FEED then "\\f"
    else if c < ' ' then "\\u00" + [HexDigit(c as int / 16), HexDigit(c as int % 16)]
    else [c]
  }

  /** A character stands for itself unless it is a quote, a backslash or a control character. */
  lemma EscapeIs(c: char)
    ensures Escape(c) == [c] <==> c != '"' && c != '\\' && c as int >= 32
    ensures c == '"' || c == '\\' ==> Escape(c) == ['\\', c]
    ensures c as int == 8 ==> Escape(c) == "\\b"
    ensures c as int == 9 ==> Escape(c) == "\\t"
    ensures c as int == 10 ==> Escape(c) == "\\n"
    ensures c as int == 12 ==> Escape(c) == "\\f"
    ensures c as int == 13 ==> Escape(c) == "\\r"
    ensures c as int < 32 && c as int !in {8, 9, 10, 12, 13} ==>
              && |Escape(c)| == 6 && Escape(c)[..5] == (if c as int < 16 then "\\u000" else "\\u001")
              && Escape(c)[5] in "0123456789abcdef" && "0123456789abcdef"[c as int % 16] == Escape(c)[5]
  {
  }

  function EscapeAll(s: string): string {
    if s == "" then "" else Escape(s[0]) + EscapeAll(s[1..])
  }

  function Quote(s: string): string { "\"" + EscapeAll(s) + "\"" }

  function Commas(parts: seq<string>): string {
    if |parts| == 0 then "" else if |parts| == 1 then parts[0] else parts[0] + "," + Commas(parts[1..])
  }

  function MemberTexts(values: map<string, string>, keys: seq<string>): (parts: seq<string>)
    requires forall k | k in keys :: k in values
    ensures |parts| == |keys| && forall i | 0 <= i < |keys| :: parts[i] == Quote(keys[i]) + ":" + values[keys[i]]
  {
    seq(|keys|, i requires 0 <= i < |keys| => Quote(keys[i]) + ":" + values[keys[i]])
  }

  function PrintBool(b: bool): string { if b then "true" else "false" }


  /** The canonical text: members in ascending key order, no white space. */
  ghost function Print(v: Json): string
    decreases v, 0
  {
    match v
    case Null => "null"
    case Bool(b) => PrintBool(b)
    case Number(text) => text
    case Str(s) => Quote(s)
    case Arr(items) => "[" + Commas(seq(|items|, i requires 0 <= i < |items| => Print(items[i]))) + "]"
    case Obj(m) =>
      var values := map k | k in m :: Print(m[k]);
      "{" + Commas(MemberTexts(values, SortedKeys(m.Keys))) + "}"
  }

  // ---------------------------------------------------------------------------------------------
  // The writer

  lemma {:induction false} EscapeAllAppend(s: string, c: char)
    ensures EscapeAll(s + [c]) == EscapeAll(s) + Escape(c)
  {
    if s == "" {
      assert (s + [c])[1..] == "";
    } else {
      assert (s + [c])[1..] == s[1..] + [c];
      EscapeAllAppend(s[1..], c);
    }
  }

  lemma {:induction false} CommasAppend(parts: seq<string>, last: string)
    ensures Commas(parts + [last]) == Commas(parts) + (if parts == [] then "" else ",") + last
  {
    if |parts| > 1 {
      assert (parts + [last])[1..] == parts[1..] + [last];
      CommasAppend(parts[1..], last);
    }
  }

  class Buffer {
    var contents: string

    constructor ()
      ensures contents == ""
    {
      contents := "";
    }

    method Write(s: string)
      modifies this
      ensures contents == old(contents) + s
    {
      contents := contents + s;
    }
  }

  lemma EscapeNothing(s: string)
    requires s == ""
    ensures EscapeAll(s) == ""
  {
  }

  method WriteCanonicalString(buf: Buffer, s: string)
    modifies buf
    ensures buf.contents == old(buf.contents) + Quote(s)
  {
    hide Escape, EscapeAll;
    buf.Write("\"");
    ghost var start := buf.contents;
    EscapeNothing(s[..0]);
    for i := 0 to |s|
      invariant buf.contents == start + EscapeAll(s[..i])
    {
      assert s[..i + 1] == s[..i] + [s[i]];
      EscapeAllAppend(s[..i], s[i]);
      buf.Write(Escape(s[i]));
    }
    assert s[..|s|] == s;
    buf.Write("\"");
  }

  ghost function ItemTexts(items: seq<Json>): (parts: seq<string>) {
    seq(|items|, i requires 0 <= i < |items| => Print(items[i]))
  }

  method WriteItems(buf: Buffer, v: Json)
    requires v.Arr?
    modifies buf
    ensures buf.contents == old(buf.contents) + Commas(ItemTexts(v.items))
    decreases v, 0
  {
    hide Print, Commas;
    ghost var parts := ItemTexts(v.items);
    NoCommas(parts[..0]);
    for i := 0 to |v.items|
      invariant buf.contents == old(buf.contents) + Commas(parts[..i])
    {
      assert parts[..i + 1] == parts[..i] + [parts[i]];
      CommasAppend(parts[..i], parts[i]);
      if i > 0 {
        buf.Write(",");
      }
      WriteCanonicalValue(buf, v.items[i]);
    }
    assert parts[..|v.items|] == parts;
  }

  lemma NoCommas(parts: seq<string>)
    requires parts == []
    ensures Commas(parts) == ""
  {
  }

  /** The keys in whatever order the map yields them. */
  method CollectKeys(m: map<string, Json>) returns (keys: seq<string>)
    ensures (set k | k in keys) == m.Keys
    ensures forall i, k | 0 <= i < k < |keys| :: keys[i] != keys[k]
  {
    keys := [];
    var left := m.Keys;
    while left != {}
      invariant left + (set k | k in keys) == m.Keys && forall k | k in keys :: k !in left
      invariant forall i, k | 0 <= i < k < |keys| :: keys[i] != keys[k]
      decreases left
    {
      var key :| key in left;
      keys := keys + [key];
      left := left - {key};
    }
  }

  ghost function ValueTexts(m: map<string, Json>): (values: map<string, string>)
  {
    map k | k in m :: Print(m[k])
  }

  method WriteMember(buf: Buffer, v: Json, key: string)
    requires v.Obj? && key in v.members
    modifies buf
    ensures buf.contents == old(buf.contents) + (Quote(key) + ":" + Print(v.members[key]))
    decreases v, 0
  {
    hide Print, Quote;
    WriteCanonicalString(buf, key);
    buf.Write(":");
    WriteCanonicalValue(buf, v.members[key]);
  }

  method WriteMembers(buf: Buffer, v: Json)
    requires v.Obj?
    modifies buf
    ensures buf.contents == old(buf.contents) + Commas(MemberTexts(ValueTexts(v.members), SortedKeys(v.members.Keys)))
    decreases v, 1
  {
    hide Print, Commas, Quote, SortedKeys, MemberTexts;
    var keys := CollectKeys(v.members);
    var sorted := SortStrings(keys);
    ghost var parts := MemberTexts(ValueTexts(v.members), sorted);
    assert sorted == SortedKeys(v.members.Keys);
    hide ValueTexts;
    NoCommas(parts[..0]);
    for i := 0 to |sorted|
      invariant buf.contents == old(buf.contents) + Commas(parts[..i])
    {
      assert sorted[i] in sorted;
      ghost var before := buf.contents;
      if i > 0 {
        buf.Write(",");
      }
      WriteMember(buf, v, sorted[i]);
      OneMorePart(old(buf.contents), parts, i, before, buf.contents);
    }
    assert parts[..|sorted|] == parts;
  }

  /** The text after one more part and the comma before it. */
  lemma OneMorePart(start: string, parts: seq<string>, i: nat, before: string, after: string)
    requires i < |parts| && before == start + Commas(parts[..i])
    requires after == if i > 0 then before + "," + parts[i] else before + parts[i]
    ensures after == start + Commas(parts[..i + 1])
  {
    hide Commas;
    assert parts[..i + 1] == parts[..i] + [parts[i]];
    CommasAppend(parts[..i], parts[i]);
    NoCommas([]);
  }

  lemma PrintArr(v: Json)
    requires v.Arr?
    ensures Print(v) == "[" + Commas(ItemTexts(v.items)) + "]"
  {
    hide Commas;
    assert ItemTexts(v.items) == seq(|v.items|, i requires 0 <= i < |v.items| => Print(v.items[i]));
  }

  lemma PrintObj(v: Json)
    requires v.Obj?
    ensures Print(v) == "{" + Commas(MemberTexts(ValueTexts(v.members), SortedKeys(v.members.Keys))) + "}"
  {
    hide Commas, MemberTexts, SortedKeys;
    assert ValueTexts(v.members) == map k | k in v.members :: Print(v.members[k]);
  }

  method WriteScalar(buf: Buffer, v: Json)
    requires !v.Arr? && !v.Obj?
    modifies buf
    ensures buf.contents == old(buf.contents) + Print(v)
  {
    hide Commas, EscapeAll, SortedKeys, MemberTexts;
    match v
    case Null => buf.Write("null");
    case Bool(b) => buf.Write(PrintBool(b));
    case Number(text) => buf.Write(text);
    case Str(s) => WriteCanonicalString(buf, s);
  }

  /** Object keys are visited in any order, collected and sorted; the text does not depend on that order. */
  method WriteCanonicalValue(buf: Buffer, v: Json)
    modifies buf
    ensures buf.contents == old(buf.contents) + Print(v)
    decreases v, 2
  {
    hide Print, Commas, Quote, SortedKeys, MemberTexts;
    if v.Arr? {
      PrintArr(v);
      buf.Write("[");
      WriteItems(buf, v);
      buf.Write("]");
    } else if v.Obj? {
      PrintObj(v);
      buf.Write("{");
      WriteMembers(buf, v);
      buf.Write("}");
    } else {
      WriteScalar(buf, v);
    }
  }
}
