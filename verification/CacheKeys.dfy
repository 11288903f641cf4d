/** Cache keys made of canonical JSON: equal exactly when the configurations are (models/canonical_json.go). */
module CacheKeys {
  import opened CanonicalJson
  import opened JsonParser
  import opened JsonPrefixes
  import opened Options
  import opened Texts

  method CanonicalJSON(v: Json) returns (text: string)
    ensures text == Print(v)
  {
    var buf := new Buffer();
    WriteCanonicalValue(buf, v);
    return buf.contents;
  }

  /** Different trees never share a canonical text. */
  lemma PrintIsInjective(v: Json, w: Json)
    requires WellFormed(v) && WellFormed(w)
    ensures Print(v) == Print(w) <==> v == w
  {
    PrintParses(v);
    PrintParses(w);
    assert Stops("");
    assert Print(v) + "" == Print(v) && Print(w) + "" == Print(w);
  }

  // ---------------------------------------------------------------------------------------------
  // What the parser returns is well formed

  lemma {:induction false} DigitsCut(s: string, k: nat)
    requires k <= |s|
    ensures Digits(s[..k]) == if k < Digits(s) then k else Digits(s)
  {
    if k > 0 && IsDigit(s[0]) {
      assert s[..k][1..] == s[1..][..k - 1];
      DigitsCut(s[1..], k - 1);
    }
  }

  lemma {:induction false} DigitsAreDigits(s: string)
    ensures forall i | 0 <= i < Digits(s) :: IsDigit(s[i])
  {
    if s != "" && IsDigit(s[0]) {
      DigitsAreDigits(s[1..]);
      assert forall i | 0 < i < Digits(s) :: s[i] == s[1..][i - 1];
    }
  }

  lemma IntCut(s: string, k: nat)
    requires IntLength(s).Some? && IntLength(s).value <= k <= |s|
    ensures IntLength(s[..k]) == IntLength(s)
  {
    var sign := if s[0] == '-' then 1 else 0;
    assert s[..k][sign..] == s[sign..][..k - sign];
    DigitsCut(s[sign..], k - sign);
  }

  lemma FracCut(s: string, k: nat)
    requires FracLength(s).Some? && FracLength(s).value <= k <= |s|
    ensures FracLength(s[..k]) == FracLength(s)
  {
    if s != "" && s[0] == '.' {
      assert s[..k][1..] == s[1..][..k - 1];
      DigitsCut(s[1..], k - 1);
    }
  }

  lemma ExpCut(s: string, k: nat)
    requires ExpLength(s) == Some(k)
    ensures ExpLength(s[..k]) == Some(k)
  {
    if s != "" && (s[0] == 'e' || s[0] == 'E') {
      var mark := if |s| > 1 && IsSign(s[1]) then 2 else 1;
      assert s[..k][mark..] == s[mark..][..k - mark];
      DigitsCut(s[mark..], k - mark);
    }
  }

  /** The number read off the front of a text is itself a number. */
  lemma NumberCut(s: string)
    requires NumberLength(s).Some?
    ensures ValidNumber(s[..NumberLength(s).value])
  {
    hide IntLength, FracLength, ExpLength;
    var n := NumberLength(s).value;
    var i := IntLength(s).value;
    IntCut(s, n);
    assert s[..n][i..] == s[i..][..n - i];
    FracCut(s[i..], n - i);
    var f := FracLength(s[i..]).value;
    assert s[..n][i + f..] == s[i + f..][..n - i - f];
    ExpCut(s[i + f..], n - i - f);
  }

  lemma {:induction false} ParsedIsWellFormed(s: string)
    requires ParseValue(s).Some?
    ensures WellFormed(ParseValue(s).value.0)
    decreases |s|, 0
  {
    hide ParseChars, NumberLength, ParseItems, ParseMembers;
    var v := ParseValue(s).value.0;
    match v
    case Number(_) => NumberCut(s);
    case Arr(items) =>
      if items != [] {
        ItemsAreWellFormed(SkipSpace(s[1..]));
      }
    case Obj(m) =>
      if m != map[] {
        MembersAreWellFormed(SkipSpace(s[1..]));
      }
    case _ =>
  }

  lemma {:induction false} ItemsAreWellFormed(s: string)
    requires ParseItems(s).Some?
    ensures WellFormed(Arr(ParseItems(s).value.0))
    decreases |s|, 1
  {
    hide ParseValue;
    ParsedIsWellFormed(s);
    var next := SkipSpace(ParseValue(s).value.1);
    if next[0] == ',' {
      ItemsAreWellFormed(SkipSpace(next[1..]));
    }
  }

  lemma {:induction false} MembersAreWellFormed(s: string)
    requires ParseMembers(s).Some?
    ensures WellFormed(Obj(ParseMembers(s).value.0))
    decreases |s|, 2
  {
    hide ParseMember;
    MemberIsWellFormed(s);
    var next := SkipSpace(ParseMember(s).value.1);
    if next[0] == ',' {
      MembersAreWellFormed(SkipSpace(next[1..]));
    }
  }

  lemma {:induction false} MemberIsWellFormed(s: string)
    requires ParseMember(s).Some?
    ensures WellFormed(ParseMember(s).value.0.1)
    decreases |s|, 1
  {
    hide ParseValue, ParseChars;
    var after := ParseChars(s[1..]).value.1;
    ParsedIsWellFormed(SkipSpace(SkipSpace(after)[1..]));
  }

  // ---------------------------------------------------------------------------------------------
  // Quantization configurations

  /** No value, raw text, or a tree that was already decoded. */
  datatype Config = Absent | RawText(text: string) | Tree(value: Json)

  predicate IsUnicodeSpace(c: char) {
    var n := c as int;
    0x9 <= n <= 0xD || n == 0x20 || n == 0x85 || n == 0xA0 || n == 0x1680 || 0x2000 <= n <= 0x200A
    || n == 0x2028 || n == 0x2029 || n == 0x202F || n == 0x205F || n == 0x3000
  }

  function TrimLeft(s: string): string {
    if s != "" && IsUnicodeSpace(s[0]) then TrimLeft(s[1..]) else s
  }

  function TrimRight(s: string): string {
    if s != "" && IsUnicodeSpace(s[|s| - 1]) then TrimRight(s[..|s| - 1]) else s
  }

  function TrimSpace(s: string): string { TrimRight(TrimLeft(s)) }

  /** The code points of the Unicode property White_Space. */
  const WHITE: seq<int> := [
    0x9, 0xA, 0xB, 0xC, 0xD, 0x20, 0x85, 0xA0, 0x1680, 0x2000, 0x2001, 0x2002, 0x2003, 0x2004, 0x2005, 0x2006, 0x2007,
    0x2008, 0x2009, 0x200A, 0x2028, 0x2029, 0x202F, 0x205F, 0x3000]

  lemma SpaceIsWhite(c: char)
    ensures IsUnicodeSpace(c) <==> c as int in WHITE
  {
    var n := c as int;
    if 0x9 <= n <= 0xD {
      assert WHITE[n - 0x9] == n;
    } else if 0x2000 <= n <= 0x200A {
      assert WHITE[n - 0x2000 + 9] == n;
    } else {
      assert WHITE[5] == 0x20 && WHITE[6] == 0x85 && WHITE[7] == 0xA0 && WHITE[8] == 0x1680;
      assert WHITE[20] == 0x2028 && WHITE[21] == 0x2029 && WHITE[22] == 0x202F && WHITE[23] == 0x205F && WHITE[24] == 0x3000;
    }
  }

  /** t is s from i to k, with white space cut off and none left at the ends. */
  ghost predicate IsTrimmed(s: string, t: string, i: nat, k: nat) {
    && i <= k <= |s| && t == s[i..k]
    && (forall x | 0 <= x < i || k <= x < |s| :: s[x] as int in WHITE)
    && (t != "" ==> t[0] as int !in WHITE && t[|t| - 1] as int !in WHITE)
  }

  lemma {:induction false} TrimLeftIs(s: string) returns (i: nat)
    ensures i <= |s| && TrimLeft(s) == s[i..] && (forall x | 0 <= x < i :: IsUnicodeSpace(s[x]))
    ensures TrimLeft(s) != "" ==> !IsUnicodeSpace(TrimLeft(s)[0])
  {
    i := 0;
    if s != "" && IsUnicodeSpace(s[0]) {
      var k := TrimLeftIs(s[1..]);
      i := k + 1;
      assert forall x | 0 < x < i :: s[x] == s[1..][x - 1];
    }
  }

  lemma {:induction false} TrimRightIs(s: string) returns (k: nat)
    ensures k <= |s| && TrimRight(s) == s[..k] && (forall x | k <= x < |s| :: IsUnicodeSpace(s[x]))
    ensures TrimRight(s) != "" ==> !IsUnicodeSpace(TrimRight(s)[k - 1])
  {
    k := |s|;
    if s != "" && IsUnicodeSpace(s[|s| - 1]) {
      k := TrimRightIs(s[..|s| - 1]);
      assert s[..|s| - 1][..k] == s[..k];
    } else {
      assert s[..k] == s;
    }
  }

  /** Trimming cuts off the white space at both ends and nothing else. */
  lemma TrimSpaceIs(s: string) returns (i: nat, k: nat)
    ensures IsTrimmed(s, TrimSpace(s), i, k)
  {
    hide IsUnicodeSpace;
    i := TrimLeftIs(s);
    var n := TrimRightIs(s[i..]);
    k := i + n;
    var t := TrimSpace(s);
    assert t == s[i..k];
    assert forall x | k <= x < |s| :: s[x] == s[i..][x - i];
    forall c: char ensures IsUnicodeSpace(c) <==> c as int in WHITE {
      SpaceIsWhite(c);
    }
    if t != "" {
      assert t[0] == s[i..][0] && t[0] == TrimLeft(s)[0];
    }
  }

  /** The tree a configuration stands for: of raw text, its first value; None when that cannot be read. */
  function Meaning(c: Config): Option<Json> {
    match c
    case Absent => Some(Null)
    case Tree(v) => Some(v)
    case RawText(text) =>
      var trimmed := TrimSpace(text);
      if trimmed == "" then Some(Null)
      else
        match ParseValue(SkipSpace(trimmed))
        case None => None
        case Some((v, _)) => Some(v)
  }

  ghost predicate Decoded(c: Config) {
    c.Tree? ==> WellFormed(c.value)
  }

  method QuantizationConfigKey(c: Config) returns (key: Option<string>)
    requires Decoded(c)
    ensures key == match Meaning(c) case None => None case Some(v) => Some(Print(v))
  {
    match c
    case Absent => key := Some("null");
    case Tree(v) =>
      var text := CanonicalJSON(v);
      key := Some(text);
    case RawText(text) =>
      var trimmed := TrimSpace(text);
      if trimmed == "" {
        return Some("null");
      }
      if trimmed == "null" {
        NullParses();
        return Some("null");
      }
      match ParseValue(SkipSpace(trimmed)) {
        case None => key := None;
        case Some((v, _)) =>
          var canonical := CanonicalJSON(v);
          key := Some(canonical);
      }
  }

  lemma NullParses()
    ensures ParseValue(SkipSpace("null")) == Some((Null, ""))
  {
  }

  /** Two readable configurations share a key exactly when they stand for the same tree. */
  lemma KeysAgreeIff(a: Config, b: Config)
    requires Decoded(a) && Decoded(b) && Meaning(a).Some? && Meaning(b).Some?
    ensures Print(Meaning(a).value) == Print(Meaning(b).value) <==> Meaning(a) == Meaning(b)
  {
    MeaningIsWellFormed(a);
    MeaningIsWellFormed(b);
    PrintIsInjective(Meaning(a).value, Meaning(b).value);
  }

  lemma MeaningIsWellFormed(c: Config)
    requires Decoded(c) && Meaning(c).Some?
    ensures WellFormed(Meaning(c).value)
  {
    hide ParseValue;
    if c.RawText? && TrimSpace(c.text) != "" {
      ParsedIsWellFormed(SkipSpace(TrimSpace(c.text)));
    }
  }

  lemma {:induction false} DigitRunEnds(s: string, first: nat)
    requires first <= |s| && Digits(s[first..]) == |s| - first > 0
    ensures IsDigit(s[|s| - 1])
  {
    DigitsAreDigits(s[first..]);
    assert s[first..][|s| - first - 1] == s[|s| - 1];
  }

  lemma IntEnds(s: string)
    requires IntLength(s) == Some(|s|)
    ensures IsDigit(s[|s| - 1])
  {
    var sign := if s[0] == '-' then 1 else 0;
    if s[sign] != '0' {
      DigitRunEnds(s, sign);
    }
  }

  lemma FracEnds(s: string)
    requires FracLength(s) == Some(|s|) && |s| > 0
    ensures IsDigit(s[|s| - 1])
  {
    DigitRunEnds(s, 1);
  }

  lemma ExpEnds(s: string)
    requires ExpLength(s) == Some(|s|) && |s| > 0
    ensures IsDigit(s[|s| - 1])
  {
    DigitRunEnds(s, if |s| > 1 && IsSign(s[1]) then 2 else 1);
  }

  lemma NumberEnds(t: string)
    requires ValidNumber(t)
    ensures t != "" && IsDigit(t[|t| - 1])
  {
    hide IntLength, FracLength, ExpLength, IsDigit;
    var i := IntLength(t).value;
    var frac := t[i..];
    var exp := t[i + FracLength(frac).value..];
    assert ExpLength(exp) == Some(|exp|);
    if |exp| > 0 {
      ExpEnds(exp);
      assert exp[|exp| - 1] == t[|t| - 1];
    } else if |frac| > 0 {
      FracEnds(frac);
      assert frac[|frac| - 1] == t[|t| - 1];
    } else {
      IntEnds(t);
    }
  }

  predicate Trimmed(s: string) {
    s != "" && !IsUnicodeSpace(s[0]) && !IsUnicodeSpace(s[|s| - 1])
  }

  lemma BracketsAreTrimmed(open: char, inner: string, close: char)
    requires !IsUnicodeSpace(open) && !IsUnicodeSpace(close)
    ensures Trimmed([open] + inner + [close])
  {
  }

  lemma NumberIsTrimmed(t: string)
    requires ValidNumber(t)
    ensures Trimmed(t)
  {
    NumberStarts(t);
    NumberEnds(t);
  }

  lemma ScalarIsTrimmed(v: Json)
    requires WellFormed(v) && !v.Arr? && !v.Obj?
    ensures Trimmed(Print(v))
  {
    hide SortedKeys, MemberTexts, Commas, EscapeAll, ValidNumber;
    match v
    case Number(t) => NumberIsTrimmed(t);
    case Str(x) => BracketsAreTrimmed('"', EscapeAll(x), '"');
    case _ =>
  }

  lemma PrintIsTrimmed(v: Json)
    requires WellFormed(v)
    ensures Trimmed(Print(v))
  {
    hide Print, SortedKeys, MemberTexts, Commas, Trimmed;
    if v.Arr? {
      PrintArr(v);
      BracketsAreTrimmed('[', Commas(ItemTexts(v.items)), ']');
    } else if v.Obj? {
      PrintObj(v);
      BracketsAreTrimmed('{', Commas(MemberTexts(ValueTexts(v.members), SortedKeys(v.members.Keys))), '}');
    } else {
      ScalarIsTrimmed(v);
    }
  }

  /** Canonical text has no white space at either end. */
  lemma PrintNeedsNoTrim(v: Json)
    requires WellFormed(v)
    ensures TrimSpace(Print(v)) == Print(v) && SkipSpace(Print(v)) == Print(v)
  {
    PrintIsTrimmed(v);
  }

  /** Canonical text stands for the tree it was printed from, so taking the key of a key changes nothing. */
  lemma KeyIsIdempotent(v: Json)
    requires WellFormed(v)
    ensures Meaning(RawText(Print(v))) == Some(v)
  {
    PrintNeedsNoTrim(v);
    PrintParses(v);
    assert Stops("");
    assert Print(v) + "" == Print(v);
  }

  lemma {:induction false} TrimLeftExtends(s: string, rest: string)
    requires TrimLeft(s) != ""
    ensures TrimLeft(s + rest) == TrimLeft(s) + rest
  {
    if IsUnicodeSpace(s[0]) {
      assert (s + rest)[1..] == s[1..] + rest;
      TrimLeftExtends(s[1..], rest);
    }
  }

  /** Trimming cuts back no further than the last character that is not white space. */
  lemma {:induction false} TrimRightExtends(s: string, rest: string) returns (kept: string)
    requires s != "" && !IsUnicodeSpace(s[|s| - 1])
    ensures TrimRight(s + rest) == s + kept && kept <= rest
  {
    if rest != "" && IsUnicodeSpace(rest[|rest| - 1]) {
      assert (s + rest)[..|s + rest| - 1] == s + rest[..|rest| - 1];
      kept := TrimRightExtends(s, rest[..|rest| - 1]);
    } else {
      kept := rest;
      assert rest == "" ==> s + rest == s;
    }
  }

  lemma {:induction false} TrimRightSplits(s: string) returns (spaces: string)
    ensures s == TrimRight(s) + spaces && forall i | 0 <= i < |spaces| :: IsUnicodeSpace(spaces[i])
    ensures TrimRight(s) == "" || !IsUnicodeSpace(TrimRight(s)[|TrimRight(s)| - 1])
  {
    if s != "" && IsUnicodeSpace(s[|s| - 1]) {
      spaces := TrimRightSplits(s[..|s| - 1]);
      spaces := spaces + [s[|s| - 1]];
    } else {
      spaces := "";
    }
  }

  lemma {:induction false} TrimLeftStarts(s: string)
    ensures TrimLeft(s) == "" || !IsUnicodeSpace(TrimLeft(s)[0])
  {
    if s != "" && IsUnicodeSpace(s[0]) {
      TrimLeftStarts(s[1..]);
    }
  }

  /** Appending to a text that is not blank appends to its trimmed text, white space it ended in first. */
  lemma TrimExtends(text: string, rest: string) returns (kept: string)
    requires TrimSpace(text) != ""
    ensures TrimSpace(text + rest) == TrimSpace(text) + kept && SkipSpace(TrimSpace(text)) == TrimSpace(text)
    ensures Stops(rest) ==> Stops(kept)
  {
    var left := TrimLeft(text);
    var spaces := TrimRightSplits(left);
    TrimLeftStarts(text);
    TrimLeftExtends(text, rest);
    var trimmed := TrimRight(left);
    assert left + rest == trimmed + (spaces + rest);
    kept := TrimRightExtends(trimmed, spaces + rest);
    assert kept != "" ==> kept[0] == (spaces + rest)[0];
    assert left[0] == trimmed[0];
  }

  /**
   Text appended to a readable configuration never changes what it stands for, white space or not, unless it
   could continue a number.
   */
  lemma TrailingTextIsIgnored(text: string, rest: string)
    requires TrimSpace(text) != "" && Meaning(RawText(text)).Some?
    requires Meaning(RawText(text)).value.Number? ==> Stops(rest)
    ensures Meaning(RawText(text + rest)) == Meaning(RawText(text))
  {
    hide ParseValue, TrimSpace, Stops;
    var kept := TrimExtends(text, rest);
    var trimmed := TrimSpace(text);
    ValueExtends(trimmed, kept);
    NoSpaceBefore(trimmed, kept);
  }

  lemma NoSpaceBefore(s: string, rest: string)
    requires s != "" && SkipSpace(s) == s
    ensures SkipSpace(s + rest) == s + rest
  {
  }

  /** In particular a canonical text keeps its meaning whatever follows it. */
  lemma TextAfterPrintIsIgnored(v: Json, rest: string)
    requires WellFormed(v) && (v.Number? ==> Stops(rest))
    ensures Meaning(RawText(Print(v) + rest)) == Some(v)
  {
    PrintNeedsNoTrim(v);
    PrintIsTrimmed(v);
    KeyIsIdempotent(v);
    TrailingTextIsIgnored(Print(v), rest);
  }
}
