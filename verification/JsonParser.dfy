/**
 A parser for the grammar of sections 2 to 7 of RFC 8259, reading one value and leaving the rest of the text, as
 the decoder behind models/canonical_json.go does; and the proof that it undoes the canonical printer.
 */
module JsonParser {
  import opened CanonicalJson
  import opened Options
  import opened Texts

  /** A value and the text after it. */
  type Parsed<T> = Option<(T, string)>

  predicate IsSpace(c: char) { c == ' ' || c == '\t' || c == '\n' || c == '\r' }

  function SkipSpace(s: string): (r: string)
    ensures |r| <= |s| && (r == "" || !IsSpace(r[0]))
  {
    if s != "" && IsSpace(s[0]) then SkipSpace(s[1..]) else s
  }

  // ---------------------------------------------------------------------------------------------
  // Strings (section 7)

  function HexValue(c: char): (r: Option<nat>)
    ensures r.Some? ==> r.value < 16
  {
    if '0' <= c <= '9' then Some((c - '0') as nat)
    else if 'a' <= c <= 'f' then Some((c - 'a') as nat + 10)
    else if 'A' <= c <= 'F' then Some((c - 'A') as nat + 10)
    else None
  }

  function Hex4(s: string): (r: Option<nat>)
    ensures r.Some? ==> |s| >= 4 && r.value < 0x10000
  {
    if |s| < 4 then None
    else
      var (a, b, c, d) := (HexValue(s[0]), HexValue(s[1]), HexValue(s[2]), HexValue(s[3]));
      if a.None? || b.None? || c.None? || d.None? then None
      else Some(a.value * 0x1000 + b.value * 0x100 + c.value * 0x10 + d.value)
  }

  const REPLACEMENT: char := 0xFFFD as char

  /** After `\u`: a scalar value, a surrogate pair, or the replacement character for a lone surrogate. */
  function ParseUnicode(s: string): (r: Parsed<char>)
    ensures r.Some? ==> |r.value.1| < |s|
  {
    var code := Hex4(s);
    if code.None? then None
    else if code.value < 0xD800 || code.value >= 0xE000 then Some((code.value as char, s[4..]))
    else
      var second := if |s| >= 6 && s[4..6] == "\\u" then Hex4(s[6..]) else None;
      if code.value < 0xDC00 && second.Some? && 0xDC00 <= second.value < 0xE000
      then Some(((0x10000 + (code.value - 0xD800) * 0x400 + (second.value - 0xDC00)) as char, s[10..]))
      else Some((REPLACEMENT, s[4..]))
  }

  /** After a backslash. */
  function ParseEscape(s: string): (r: Parsed<char>)
    ensures r.Some? ==> |r.value.1| < |s|
  {
    if s == "" then None
    else
      var rest := s[1..];
      match s[0]
      case '"' => Some(('"', rest))
      case '\\' => Some(('\\', rest))
      case '/' => Some(('/', rest))
      case 'b' => Some((BACKSPACE, rest))
      case 'f' => Some((FORM_FEED, rest))
      case 'n' => Some(('\n', rest))
      case 'r' => Some(('\r', rest))
      case 't' => Some(('\t', rest))
      case 'u' => ParseUnicode(rest)
      case _ => None
  }

  function ParseChar(s: string): (r: Parsed<char>)
    requires s != ""
    ensures r.Some? ==> |r.value.1| < |s|
  {
    if s[0] == '\\' then ParseEscape(s[1..]) else if s[0] < ' ' then None else Some((s[0], s[1..]))
  }

  /** After the opening quote. */
  function ParseChars(s: string): (r: Parsed<string>)
    ensures r.Some? ==> |r.value.1| < |s|
    decreases |s|
  {
    if s == "" then None
    else if s[0] == '"' then Some(("", s[1..]))
    else
      match ParseChar(s)
      case None => None
      case Some((c, rest)) =>
        match ParseChars(rest)
        case None => None
        case Some((more, end)) => Some(([c] + more, end))
  }

  // ---------------------------------------------------------------------------------------------
  // Numbers (section 6)

  predicate IsDigit(c: char) { '0' <= c <= '9' }

  function Digits(s: string): (n: nat)
    ensures n <= |s| && (n < |s| ==> !IsDigit(s[n]))
  {
    if s != "" && IsDigit(s[0]) then 1 + Digits(s[1..]) else 0
  }

  /** Length of `[ minus ] int`. */
  function IntLength(s: string): (r: Option<nat>)
    ensures r.Some? ==> 0 < r.value <= |s|
  {
    var sign := if s != "" && s[0] == '-' then 1 else 0;
    var n := Digits(s[sign..]);
    if n == 0 then None else if s[sign] == '0' then Some(sign + 1) else Some(sign + n)
  }

  /** Length of `[ frac ]` at the start of the text. */
  function FracLength(s: string): (r: Option<nat>)
    ensures r.Some? ==> r.value <= |s|
  {
    if s == "" || s[0] != '.' then Some(0)
    else
      var n := Digits(s[1..]);
      if n == 0 then None else Some(1 + n)
  }

  predicate IsSign(c: char) { c == '+' || c == '-' }

  /** Length of `[ exp ]` at the start of the text. */
  function ExpLength(s: string): (r: Option<nat>)
    ensures r.Some? ==> r.value <= |s|
  {
    if s == "" || (s[0] != 'e' && s[0] != 'E') then Some(0)
    else
      var mark := if |s| > 1 && IsSign(s[1]) then 2 else 1;
      var n := Digits(s[mark..]);
      if n == 0 then None else Some(mark + n)
  }

  function NumberLength(s: string): (r: Option<nat>)
    ensures r.Some? ==> 0 < r.value <= |s|
  {
    var whole := IntLength(s);
    if whole.None? then None
    else
      var frac := FracLength(s[whole.value..]);
      if frac.None? then None
      else
        var exp := ExpLength(s[whole.value + frac.value..]);
        if exp.None? then None else Some(whole.value + frac.value + exp.value)
  }

  // ---------------------------------------------------------------------------------------------
  // Values (sections 3 to 5)

  function Expect(s: string, c: char): (r: Option<string>)
    ensures r.Some? ==> |s| > 0 && s[0] == c && r.value == s[1..]
  {
    if s != "" && s[0] == c then Some(s[1..]) else None
  }

  function ParseValue(s: string): (r: Parsed<Json>)
    ensures r.Some? ==> |r.value.1| < |s|
    decreases |s|, 0
  {
    if s == "" then None
    else if "null" <= s then Some((Null, s[4..]))
    else if "true" <= s then Some((Bool(true), s[4..]))
    else if "false" <= s then Some((Bool(false), s[5..]))
    else if s[0] == '"' then
      match ParseChars(s[1..])
      case None => None
      case Some((chars, rest)) => Some((Str(chars), rest))
    else if s[0] == '[' then
      var inner := SkipSpace(s[1..]);
      if inner != "" && inner[0] == ']' then Some((Arr([]), inner[1..]))
      else
        match ParseItems(inner)
        case None => None
        case Some((items, rest)) => Some((Arr(items), rest))
    else if s[0] == '{' then
      var inner := SkipSpace(s[1..]);
      if inner != "" && inner[0] == '}' then Some((Obj(map[]), inner[1..]))
      else
        match ParseMembers(inner)
        case None => None
        case Some((members, rest)) => Some((Obj(members), rest))
    else
      match NumberLength(s)
      case None => None
      case Some(n) => Some((Number(s[..n]), s[n..]))
  }

  /** One or more items and the closing bracket. */
  function ParseItems(s: string): (r: Parsed<seq<Json>>)
    ensures r.Some? ==> |r.value.1| < |s|
    decreases |s|, 1
  {
    match ParseValue(s)
    case None => None
    case Some((item, after)) =>
      var next := SkipSpace(after);
      if next == "" then None
      else if next[0] == ']' then Some(([item], next[1..]))
      else if next[0] != ',' then None
      else
        match ParseItems(SkipSpace(next[1..]))
        case None => None
        case Some((items, rest)) => Some(([item] + items, rest))
  }

  /** A quoted name, a colon and a value. */
  function ParseMember(s: string): (r: Parsed<(string, Json)>)
    ensures r.Some? ==> |r.value.1| < |s|
    decreases |s|, 1
  {
    if s == "" || s[0] != '"' then None
    else
      match ParseChars(s[1..])
      case None => None
      case Some((key, after)) =>
        var next := SkipSpace(after);
        if next == "" || next[0] != ':' then None
        else
          match ParseValue(SkipSpace(next[1..]))
          case None => None
          case Some((value, rest)) => Some(((key, value), rest))
  }

  /** One or more members and the closing brace; of two members with one name the later wins. */
  function ParseMembers(s: string): (r: Parsed<map<string, Json>>)
    ensures r.Some? ==> |r.value.1| < |s|
    decreases |s|, 2
  {
    match ParseMember(s)
    case None => None
    case Some(((key, value), after)) =>
      var next := SkipSpace(after);
      if next == "" then None
      else if next[0] == '}' then Some((map[key := value], next[1..]))
      else if next[0] != ',' then None
      else
        match ParseMembers(SkipSpace(next[1..]))
        case None => None
        case Some((members, rest)) => Some((map[key := value] + members, rest))
  }

  // ---------------------------------------------------------------------------------------------
  // What the printer never writes, but a configuration may contain

  /** White space is spaces, tabs, line feeds and carriage returns (section 2), and all of it is skipped. */
  lemma {:induction false} SkipSpaceIs(s: string) returns (n: nat)
    ensures n <= |s| && SkipSpace(s) == s[n..] && forall i | 0 <= i < n :: s[i] as int in {0x20, 0x09, 0x0A, 0x0D}
    ensures n < |s| ==> s[n] as int !in {0x20, 0x09, 0x0A, 0x0D}
  {
    n := 0;
    if s != "" && IsSpace(s[0]) {
      var k := SkipSpaceIs(s[1..]);
      n := k + 1;
      assert forall i | 0 < i < n :: s[i] == s[1..][i - 1];
    }
  }

  /** The escapes of section 7 other than by code point; anything else after a backslash is refused. */
  lemma EscapedIsRead(mark: char, rest: string)
    requires mark != 'u'
    ensures var r := ParseChar(['\\', mark] + rest);
            && (r.Some? <==> mark in "\"\\/bfnrt")
            && (r.Some? ==> r.value.1 == rest)
            && (mark in "\"\\/" ==> r.value.0 == mark)
            && (mark == 'b' ==> r.value.0 as int == 8) && (mark == 'f' ==> r.value.0 as int == 12)
            && (mark == 'n' ==> r.value.0 as int == 10) && (mark == 'r' ==> r.value.0 as int == 13)
            && (mark == 't' ==> r.value.0 as int == 9)
  {
    var s := ['\\', mark] + rest;
    assert s[1..] == [mark] + rest && ([mark] + rest)[1..] == rest;
  }

  /** Control characters have to be escaped; every other character but the backslash stands for itself. */
  lemma PlainIsRead(c: char, rest: string)
    requires c != '\\'
    ensures ParseChar([c] + rest) == if c as int < 32 then None else Some((c, rest))
  {
    assert ([c] + rest)[1..] == rest;
  }

  const LOWER_HEX: string := "0123456789abcdef"
  const UPPER_HEX: string := "0123456789ABCDEF"

  /** Hexadecimal digits are read in either case. */
  lemma HexIsRead(n: nat)
    requires n < 16
    ensures HexValue(LOWER_HEX[n]) == HexValue(UPPER_HEX[n]) == Some(n)
  {
  }

  lemma OnlyHexIsRead(c: char)
    ensures HexValue(c).Some? <==> c in LOWER_HEX || c in UPPER_HEX
  {
    if HexValue(c).Some? {
      var n := HexValue(c).value;
      assert c == LOWER_HEX[n] || c == UPPER_HEX[n];
    }
  }

  /** Four digits of a code point outside the surrogates are that character. */
  lemma CodeIsRead(c: char, a: string, rest: string)
    requires |a| == 4 && Hex4(a) == Some(c as nat)
    ensures ParseUnicode(a + rest) == Some((c, rest))
  {
    assert (a + rest)[4..] == rest;
  }

  /** Only the first four characters matter. */
  lemma Hex4Reads(a: string, rest: string)
    requires |a| == 4
    ensures Hex4(a + rest) == Hex4(a) && (a + rest)[4..] == rest
  {
    hide HexValue;
  }

  /** A character beyond the first plane is read from its surrogate pair (section 7). */
  lemma PairIsRead(c: char, high: nat, low: nat, a: string, b: string, rest: string)
    requires high < 0x400 && low < 0x400 && c as int == 0x10000 + high * 0x400 + low
    requires |a| == 4 && |b| == 4 && Hex4(a) == Some(0xD800 + high) && Hex4(b) == Some(0xDC00 + low)
    ensures ParseUnicode(a + ("\\u" + (b + rest))) == Some((c, rest))
  {
    hide Hex4;
    var tail := "\\u" + (b + rest);
    var s := a + tail;
    Hex4Reads(a, tail);
    Hex4Reads(b, rest);
    assert s[4..6] == "\\u" && s[6..] == b + rest && s[10..] == rest;
  }

  /** A surrogate without its partner is read as U+FFFD. */
  lemma LoneIsReplaced(a: string, rest: string)
    requires |a| == 4 && Hex4(a).Some? && 0xD800 <= Hex4(a).value < 0xE000
    requires !("\\u" <= rest) || Hex4(rest[2..]).None? || !(0xDC00 <= Hex4(rest[2..]).value < 0xE000)
             || Hex4(a).value >= 0xDC00
    ensures ParseUnicode(a + rest) == Some((0xFFFD as char, rest))
  {
    var s := a + rest;
    assert s[4..] == rest && Hex4(s) == Hex4(a);
    if |s| >= 6 {
      assert s[4..6] == rest[..2] && s[6..] == rest[2..];
    }
  }

  ghost predicate AllDigits(s: string) {
    forall i | 0 <= i < |s| :: '0' <= s[i] <= '9'
  }

  ghost predicate IsWhole(s: string) {
    s == "0" || (s != "" && AllDigits(s) && s[0] != '0')
  }

  ghost predicate IsFraction(s: string) {
    s == "" || (|s| > 1 && s[0] == '.' && AllDigits(s[1..]))
  }

  ghost predicate IsExponent(s: string) {
    s == "" || (|s| > 1 && (s[0] == 'e' || s[0] == 'E')
                && (AllDigits(s[1..]) || (|s| > 2 && (s[1] == '+' || s[1] == '-') && AllDigits(s[2..]))))
  }

  /** A number as in section 6: an optional minus, a whole part without leading zeros, a fraction and an exponent. */
  ghost predicate IsNumber(t: string, minus: string, whole: string, fraction: string, exponent: string) {
    && t == minus + whole + fraction + exponent
    && (minus == "" || minus == "-") && IsWhole(whole) && IsFraction(fraction) && IsExponent(exponent)
  }

  lemma {:induction false} DigitsAre(s: string)
    ensures AllDigits(s[..Digits(s)])
  {
    if s != "" && IsDigit(s[0]) {
      DigitsAre(s[1..]);
      assert s[..Digits(s)] == [s[0]] + s[1..][..Digits(s[1..])];
    }
  }

  /** A run of digits ends where the next character is none. */
  lemma {:induction false} DigitsStop(s: string, rest: string)
    requires AllDigits(s) && (rest == "" || !IsDigit(rest[0]))
    ensures Digits(s + rest) == |s|
  {
    if s != "" {
      assert (s + rest)[1..] == s[1..] + rest;
      DigitsStop(s[1..], rest);
    } else {
      assert s + rest == rest;
    }
  }

  /** What the parser takes as a number is one. */
  lemma NumberIsRead(t: string) returns (minus: string, whole: string, fraction: string, exponent: string)
    requires ValidNumber(t)
    ensures IsNumber(t, minus, whole, fraction, exponent)
  {
    hide IntLength, FracLength, ExpLength, IsWhole, IsFraction, IsExponent;
    var w := IntLength(t).value;
    var f := FracLength(t[w..]).value;
    CutInThree(t, w, f);
    minus, whole := WholeIsRead(t);
    fraction, exponent := t[w..][..f], t[w + f..];
    FractionIsRead(t[w..]);
    ExponentIsRead(exponent);
  }

  lemma CutInThree(t: string, w: nat, f: nat)
    requires w + f <= |t|
    ensures t == t[..w] + t[w..][..f] + t[w + f..]
  {
  }

  lemma WholeIsRead(t: string) returns (minus: string, whole: string)
    requires IntLength(t).Some?
    ensures (minus == "" || minus == "-") && IsWhole(whole) && t[..IntLength(t).value] == minus + whole
  {
    var w := IntLength(t).value;
    var sign := if t[0] == '-' then 1 else 0;
    minus, whole := t[..sign], t[sign..w];
    DigitsAre(t[sign..]);
    assert t[sign..][..Digits(t[sign..])] == t[sign..sign + Digits(t[sign..])];
  }

  lemma FractionIsRead(s: string)
    requires FracLength(s).Some?
    ensures IsFraction(s[..FracLength(s).value])
  {
    if s != "" && s[0] == '.' {
      DigitsAre(s[1..]);
      var f := s[..FracLength(s).value];
      assert f[1..] == s[1..][..Digits(s[1..])];
    }
  }

  lemma ExponentIsRead(s: string)
    requires ExpLength(s) == Some(|s|)
    ensures IsExponent(s)
  {
    if s != "" {
      var mark := if |s| > 1 && IsSign(s[1]) then 2 else 1;
      DigitsAre(s[mark..]);
      assert s[mark..][..|s| - mark] == s[mark..];
    }
  }

  /** And every number is taken. */
  lemma NumberIsTaken(t: string, minus: string, whole: string, fraction: string, exponent: string)
    requires IsNumber(t, minus, whole, fraction, exponent)
    ensures ValidNumber(t)
  {
    FractionIsTaken(fraction, exponent);
    ExponentIsTaken(exponent);
    WholeIsTaken(minus, whole, fraction + exponent);
    var first := minus + whole;
    Associates(first, fraction, exponent);
    hide *;
    LengthsAdd(t, first, fraction, exponent);
  }

  lemma Associates(a: string, b: string, c: string)
    ensures a + b + c == a + (b + c)
  {
  }

  lemma LengthsAdd(t: string, first: string, fraction: string, exponent: string)
    requires t == first + (fraction + exponent) && IntLength(t) == Some(|first|)
    requires FracLength(fraction + exponent) == Some(|fraction|) && ExpLength(exponent) == Some(|exponent|)
    ensures NumberLength(t) == Some(|t|)
  {
    hide IntLength, FracLength, ExpLength;
    assert t[|first|..] == fraction + exponent && t[|first| + |fraction|..] == exponent;
  }

  lemma WholeIsTaken(minus: string, whole: string, rest: string)
    requires (minus == "" || minus == "-") && IsWhole(whole) && (rest == "" || !IsDigit(rest[0]))
    ensures IntLength(minus + whole + rest) == Some(|minus + whole|)
  {
    var t := minus + whole + rest;
    assert t[|minus|..] == whole + rest && t[0] == (minus + whole)[0] && t[|minus|] == whole[0];
    assert minus == "" ==> t[0] == whole[0] != '-';
    DigitsStop(whole, rest);
    hide Digits;
  }

  lemma FractionIsTaken(fraction: string, exponent: string)
    requires IsFraction(fraction) && IsExponent(exponent)
    ensures FracLength(fraction + exponent) == Some(|fraction|)
    ensures fraction + exponent == "" || !IsDigit((fraction + exponent)[0])
  {
    if fraction != "" {
      assert (fraction + exponent)[1..] == fraction[1..] + exponent;
      DigitsStop(fraction[1..], exponent);
    }
  }

  lemma ExponentIsTaken(exponent: string)
    requires IsExponent(exponent)
    ensures ExpLength(exponent) == Some(|exponent|)
  {
    if exponent != "" {
      var mark := if IsSign(exponent[1]) then 2 else 1;
      assert AllDigits(exponent[1..]) ==> !IsSign(exponent[1]) by {
        assert exponent[1..][0] == exponent[1];
      }
      assert exponent[mark..] + "" == exponent[mark..];
      DigitsStop(exponent[mark..], "");
    }
  }

  /** Of two members with one name the later one counts. */
  lemma LaterMemberCounts(s: string, key: string, value: Json, after: string, members: map<string, Json>, rest: string)
    requires ParseMember(s) == Some(((key, value), "," + after))
    requires ParseMembers(SkipSpace(after)) == Some((members, rest))
    ensures ParseMembers(s).Some? && ParseMembers(s).value.1 == rest
    ensures var all := ParseMembers(s).value.0;
            all.Keys == members.Keys + {key} && all[key] == (if key in members then members[key] else value)
            && forall k | k in members :: all[k] == members[k]
  {
    var tail := "," + after;
    assert tail[1..] == after && SkipSpace(tail) == tail;
    hide ParseMember, ParseValue, SkipSpace;
  }

  // ---------------------------------------------------------------------------------------------
  // Printed trees parse back

  predicate ValidNumber(t: string) { NumberLength(t) == Some(|t|) }

  /** Number texts in the tree are numbers of the grammar. */
  ghost predicate WellFormed(v: Json) {
    match v
    case Number(t) => ValidNumber(t)
    case Arr(items) => forall i | 0 <= i < |items| :: WellFormed(items[i])
    case Obj(m) => forall k | k in m :: WellFormed(m[k])
    case _ => true
  }

  /** Text that cannot continue a number. */
  predicate Stops(rest: string) {
    rest == "" || (!IsDigit(rest[0]) && rest[0] != '.' && rest[0] != 'e' && rest[0] != 'E')
  }

  lemma EscapeParses(c: char, rest: string)
    ensures Escape(c)[0] != '"'
    ensures ParseChar(Escape(c) + rest) == Some((c, rest))
  {
    var s := Escape(c) + rest;
    assert s[1..] == Escape(c)[1..] + rest;
    if |Escape(c)| == 2 {
      assert s[1..][1..] == rest;
    } else if |Escape(c)| == 6 {
      var code := "00" + [HexDigit(c as int / 16), HexDigit(c as int % 16)];
      assert s[1..][0] == 'u' && s[1..][1..] == code + rest;
      ControlCodeParses(c, rest);
    }
  }

  lemma ControlCodeParses(c: char, rest: string)
    requires c < ' '
    ensures ParseUnicode("00" + [HexDigit(c as int / 16), HexDigit(c as int % 16)] + rest) == Some((c, rest))
  {
    var high, low := HexDigit(c as int / 16), HexDigit(c as int % 16);
    var s := "00" + [high, low] + rest;
    assert s[0] == '0' && s[1] == '0' && s[2] == high && s[3] == low && s[4..] == rest;
    assert HexValue(high) == Some(c as int / 16) && HexValue(low) == Some(c as int % 16);
    assert Hex4(s) == Some(c as int);
  }

  lemma {:induction false} CharsParse(x: string, rest: string)
    ensures ParseChars(EscapeAll(x) + "\"" + rest) == Some((x, rest))
  {
    hide Escape, ParseChar;
    var s := EscapeAll(x) + "\"" + rest;
    if x == "" {
      assert s == "\"" + rest;
    } else {
      var tail := EscapeAll(x[1..]) + "\"" + rest;
      assert s == Escape(x[0]) + tail;
      EscapeParses(x[0], tail);
      CharsParse(x[1..], rest);
      assert x == [x[0]] + x[1..];
    }
  }

  lemma {:induction false} DigitsExtend(s: string, rest: string)
    requires rest == "" || !IsDigit(rest[0])
    ensures Digits(s + rest) == Digits(s)
  {
    if s == "" {
      assert s + rest == rest;
    } else {
      assert (s + rest)[1..] == s[1..] + rest;
      DigitsExtend(s[1..], rest);
    }
  }

  /** A number followed by text that cannot continue it is read to its end. */
  lemma NumberExtends(t: string, rest: string)
    requires ValidNumber(t) && Stops(rest)
    ensures NumberLength(t + rest) == Some(|t|)
  {
    hide IntLength, FracLength, ExpLength;
    var s := t + rest;
    var i := IntLength(t).value;
    IntExtends(t, rest);
    assert s[i..] == t[i..] + rest;
    FracExtends(t[i..], rest);
    var f := FracLength(t[i..]).value;
    assert s[i + f..] == t[i + f..] + rest;
    ExpExtends(t[i + f..], rest);
  }

  lemma IntExtends(t: string, rest: string)
    requires IntLength(t).Some? && Stops(rest)
    ensures IntLength(t + rest) == IntLength(t)
  {
    var sign := if t[0] == '-' then 1 else 0;
    assert (t + rest)[sign..] == t[sign..] + rest;
    DigitsExtend(t[sign..], rest);
  }

  lemma FracExtends(t: string, rest: string)
    requires FracLength(t).Some? && Stops(rest)
    ensures FracLength(t + rest) == FracLength(t)
  {
    if t == "" {
      assert t + rest == rest;
    } else if t[0] == '.' {
      assert (t + rest)[1..] == t[1..] + rest;
      DigitsExtend(t[1..], rest);
    }
  }

  lemma ExpExtends(t: string, rest: string)
    requires ExpLength(t).Some? && Stops(rest)
    ensures ExpLength(t + rest) == ExpLength(t)
  {
    if t == "" {
      assert t + rest == rest;
    } else if t[0] == 'e' || t[0] == 'E' {
      assert |t| > 1;
      var mark := if IsSign(t[1]) then 2 else 1;
      assert (t + rest)[mark..] == t[mark..] + rest;
      DigitsExtend(t[mark..], rest);
    }
  }

  /** Where a value may start: never at white space or at punctuation that ends or separates values. */
  predicate StartsValue(s: string) {
    s != "" && !IsSpace(s[0]) && s[0] != ']' && s[0] != '}' && s[0] != ',' && s[0] != ':'
  }

  lemma NumberStarts(t: string)
    requires ValidNumber(t)
    ensures t != "" && (t[0] == '-' || IsDigit(t[0]))
  {
  }

  lemma PrintStarts(v: Json)
    requires WellFormed(v)
    ensures StartsValue(Print(v))
  {
    match v
    case Number(t) => NumberStarts(t);
    case Arr(_) => PrintArr(v);
    case Obj(_) => PrintObj(v);
    case _ =>
  }

  /** The text of a value, followed by anything that cannot continue it, reads back as the value. */
  ghost predicate ParsesBack(v: Json) {
    && StartsValue(Print(v))
    && forall rest | Stops(rest) :: ParseValue(Print(v) + rest) == Some((v, rest))
  }

  lemma {:induction false} ItemsParse(items: seq<Json>, rest: string)
    requires |items| > 0 && forall i | 0 <= i < |items| :: ParsesBack(items[i])
    ensures StartsValue(Commas(ItemTexts(items)))
    ensures ParseItems(Commas(ItemTexts(items)) + "]" + rest) == Some((items, rest))
  {
    hide Print, ParseValue;
    var s := Commas(ItemTexts(items)) + "]" + rest;
    if |items| == 1 {
      assert s == Print(items[0]) + ("]" + rest);
      assert Stops("]" + rest) && ("]" + rest)[1..] == rest;
      assert items == [items[0]];
    } else {
      var more := items[1..];
      assert ItemTexts(items)[1..] == ItemTexts(more);
      var tail := Commas(ItemTexts(more)) + "]" + rest;
      assert s == Print(items[0]) + ("," + tail);
      assert Stops("," + tail) && ("," + tail)[1..] == tail;
      ItemsParse(more, rest);
      assert SkipSpace(tail) == tail;
      assert items == [items[0]] + more;
    }
  }

  lemma MemberParses(key: string, v: Json, rest: string)
    requires ParsesBack(v) && Stops(rest)
    ensures ParseMember(Quote(key) + ":" + Print(v) + rest) == Some(((key, v), rest))
  {
    hide Print, ParseValue, ParseChars, EscapeAll;
    var s := Quote(key) + ":" + Print(v) + rest;
    var after := ":" + (Print(v) + rest);
    assert s[1..] == EscapeAll(key) + "\"" + after;
    CharsParse(key, after);
    assert after[1..] == Print(v) + rest;
  }

  function MemberText(key: string, text: string): string { Quote(key) + ":" + text }

  lemma NoSkip(s: string)
    requires s != "" && !IsSpace(s[0])
    ensures SkipSpace(s) == s
  {
  }

  lemma LastMemberParses(key: string, v: Json, rest: string)
    requires ParsesBack(v)
    ensures ParseMembers(MemberText(key, Print(v)) + "}" + rest) == Some((map[key := v], rest))
  {
    MemberParses(key, v, "}" + rest);
    NoSkip("}" + rest);
    hide Print, Quote, ParseMember, SkipSpace, ParsesBack;
    assert MemberText(key, Print(v)) + "}" + rest == Quote(key) + ":" + Print(v) + ("}" + rest);
    assert ("}" + rest)[1..] == rest;
  }

  lemma NextMemberParses(key: string, v: Json, tail: string, members: map<string, Json>, rest: string)
    requires ParsesBack(v) && StartsValue(tail) && ParseMembers(tail) == Some((members, rest))
    ensures ParseMembers(MemberText(key, Print(v)) + "," + tail) == Some((map[key := v] + members, rest))
  {
    MemberParses(key, v, "," + tail);
    NoSkip("," + tail);
    NoSkip(tail);
    hide Print, Quote, ParseMember, SkipSpace, ParsesBack;
    assert MemberText(key, Print(v)) + "," + tail == Quote(key) + ":" + Print(v) + ("," + tail);
    assert ("," + tail)[1..] == tail;
  }

  ghost function Restrict(m: map<string, Json>, keys: seq<string>): map<string, Json> {
    map k | k in keys && k in m :: m[k]
  }

  lemma RestrictFirst(m: map<string, Json>, keys: seq<string>)
    requires |keys| > 0 && forall k | k in keys :: k in m
    requires forall i, k | 0 <= i < k < |keys| :: keys[i] != keys[k]
    ensures Restrict(m, keys) == map[keys[0] := m[keys[0]]] + Restrict(m, keys[1..])
  {
    assert keys == [keys[0]] + keys[1..];
    assert forall k :: k in keys <==> k == keys[0] || k in keys[1..];
  }

  lemma {:induction false} MembersParse(m: map<string, Json>, keys: seq<string>, rest: string)
    requires |keys| > 0 && forall k | k in keys :: k in m && ParsesBack(m[k])
    requires forall i, k | 0 <= i < k < |keys| :: keys[i] != keys[k]
    ensures StartsValue(Commas(MemberTexts(ValueTexts(m), keys)))
    ensures ParseMembers(Commas(MemberTexts(ValueTexts(m), keys)) + "}" + rest) == Some((Restrict(m, keys), rest))
  {
    hide Print, Quote, MemberTexts, ParseMembers, Restrict, ParsesBack;
    var parts := MemberTexts(ValueTexts(m), keys);
    var key := keys[0];
    assert key in keys;
    MemberTextsSplit(m, keys);
    RestrictFirst(m, keys);
    if |keys| == 1 {
      LastMemberParses(key, m[key], rest);
      RestrictNothing(m, keys[1..]);
      assert map[key := m[key]] + map[] == map[key := m[key]];
    } else {
      var more := keys[1..];
      assert forall k | k in more :: k in keys;
      MembersParse(m, more, rest);
      var tail := Commas(parts[1..]) + "}" + rest;
      NextMemberParses(key, m[key], tail, Restrict(m, more), rest);
      assert Commas(parts) + "}" + rest == parts[0] + "," + tail;
    }
  }

  lemma MemberTextsSplit(m: map<string, Json>, keys: seq<string>)
    requires |keys| > 0 && forall k | k in keys :: k in m
    ensures var parts := MemberTexts(ValueTexts(m), keys);
            && parts[0] == MemberText(keys[0], Print(m[keys[0]]))
            && StartsValue(parts[0])
            && (forall k | k in keys[1..] :: k in keys)
            && parts[1..] == MemberTexts(ValueTexts(m), keys[1..])
  {
    hide Print, EscapeAll;
    assert keys[0] in keys;
  }

  lemma RestrictNothing(m: map<string, Json>, keys: seq<string>)
    requires keys == []
    ensures Restrict(m, keys) == map[]
  {
  }

  /** Printing then parsing is the identity, with any following text that cannot continue the value left over. */
  lemma {:induction false} PrintParses(v: Json)
    requires WellFormed(v)
    ensures ParsesBack(v)
    decreases v, 1
  {
    PrintStarts(v);
    forall rest | Stops(rest) ensures ParseValue(Print(v) + rest) == Some((v, rest)) {
      match v
      case Arr(items) => ArrayParses(v, rest);
      case Obj(m) => ObjectParses(v, rest);
      case _ => ScalarParses(v, rest);
    }
  }

  lemma StringParses(x: string, rest: string)
    ensures ParseValue(Quote(x) + rest) == Some((Str(x), rest))
  {
    hide ParseItems, ParseMembers, ParseChars, EscapeAll, NumberLength;
    var s := Quote(x) + rest;
    assert s[0] == '"' && s[1..] == EscapeAll(x) + "\"" + rest;
    CharsParse(x, rest);
  }

  lemma NumberParses(t: string, rest: string)
    requires ValidNumber(t) && Stops(rest)
    ensures ParseValue(t + rest) == Some((Number(t), rest))
  {
    hide ParseItems, ParseMembers, ParseChars, NumberLength, SkipSpace;
    NumberStarts(t);
    NumberExtends(t, rest);
    var s := t + rest;
    assert s[0] == t[0] && s[..|t|] == t && s[|t|..] == rest;
  }

  lemma ScalarParses(v: Json, rest: string)
    requires WellFormed(v) && !v.Arr? && !v.Obj? && Stops(rest)
    ensures ParseValue(Print(v) + rest) == Some((v, rest))
  {
    hide SkipSpace, ParseItems, ParseMembers, SortedKeys, MemberTexts, Commas;
    var s := Print(v) + rest;
    match v
    case Str(x) => StringParses(x, rest);
    case Number(t) => NumberParses(t, rest);
    case Bool(b) => assert s[0] == PrintBool(b)[0] && s[|PrintBool(b)|..] == rest;
    case Null => assert s[4..] == rest;
  }

  lemma ArrayParses(v: Json, rest: string)
    requires WellFormed(v) && v.Arr?
    ensures ParseValue(Print(v) + rest) == Some((v, rest))
    decreases v, 0
  {
    forall i | 0 <= i < |v.items| ensures ParsesBack(v.items[i]) {
      PrintParses(v.items[i]);
    }
    PrintArr(v);
    hide Print, WellFormed, ParsesBack;
    ArrayTextParses(v.items, rest);
  }

  lemma ArrayTextParses(items: seq<Json>, rest: string)
    requires forall i | 0 <= i < |items| :: ParsesBack(items[i])
    ensures ParseValue("[" + Commas(ItemTexts(items)) + "]" + rest) == Some((Arr(items), rest))
  {
    hide Print, ParsesBack, ParseItems, ParseMembers, ParseChars, Commas;
    var s := "[" + Commas(ItemTexts(items)) + "]" + rest;
    var inner := Commas(ItemTexts(items)) + "]" + rest;
    assert s[0] == '[' && s[1..] == inner;
    if items == [] {
      NoCommas(ItemTexts(items));
      assert inner[0] == ']' && inner[1..] == rest;
    } else {
      ItemsParse(items, rest);
      assert SkipSpace(inner) == inner;
    }
  }

  lemma ObjectParses(v: Json, rest: string)
    requires WellFormed(v) && v.Obj?
    ensures ParseValue(Print(v) + rest) == Some((v, rest))
    decreases v, 0
  {
    forall k | k in v.members ensures ParsesBack(v.members[k]) {
      PrintParses(v.members[k]);
    }
    PrintObj(v);
    hide Print, WellFormed, ParsesBack;
    ObjectTextParses(v.members, rest);
  }

  /** An object with at least one member. */
  lemma OpenedObjectParses(inner: string, members: map<string, Json>, rest: string)
    requires inner != "" && inner[0] != '}' && SkipSpace(inner) == inner && ParseMembers(inner) == Some((members, rest))
    ensures ParseValue("{" + inner) == Some((Obj(members), rest))
  {
    hide ParseMembers, ParseItems, ParseChars, NumberLength, SkipSpace;
    assert ("{" + inner)[1..] == inner;
  }

  lemma EmptyObjectParses(rest: string)
    ensures ParseValue("{" + ("}" + rest)) == Some((Obj(map[]), rest))
  {
    hide ParseMembers, ParseItems, ParseChars, NumberLength;
    var inner := "}" + rest;
    assert ("{" + inner)[1..] == inner && inner[1..] == rest && inner[0] == '}';
    assert SkipSpace(inner) == inner;
    hide SkipSpace;
  }

  lemma ObjectTextParses(m: map<string, Json>, rest: string)
    requires forall k | k in m :: ParsesBack(m[k])
    ensures ParseValue("{" + Commas(MemberTexts(ValueTexts(m), SortedKeys(m.Keys))) + "}" + rest) == Some((Obj(m), rest))
  {
    hide Print, ParsesBack, ParseMembers, SortedKeys, MemberTexts, ParseValue;
    var keys := SortedKeys(m.Keys);
    var parts := MemberTexts(ValueTexts(m), keys);
    var inner := Commas(parts) + "}" + rest;
    assert "{" + Commas(parts) + "}" + rest == "{" + inner;
    if keys == [] {
      NoCommas(parts);
      EmptyMap(m);
      assert inner == "}" + rest;
      EmptyObjectParses(rest);
    } else {
      SortedAreDistinct(keys);
      MembersParse(m, keys, rest);
      assert SkipSpace(inner) == inner;
      assert Restrict(m, keys) == m;
      hide Commas, Restrict;
      OpenedObjectParses(inner, m, rest);
    }
  }

  lemma EmptyMap(m: map<string, Json>)
    requires SortedKeys(m.Keys) == []
    ensures m == map[]
  {
    assert forall k :: k in SortedKeys(m.Keys) <==> k in m;
  }

  lemma SortedAreDistinct(keys: seq<string>)
    requires Sorted(keys)
    ensures forall i, k | 0 <= i < k < |keys| :: keys[i] != keys[k]
  {
    forall i, k | 0 <= i < k < |keys| ensures keys[i] != keys[k] {
      LessIsAsymmetric(keys[i], keys[k]);
    }
  }
}
