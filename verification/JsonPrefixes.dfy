/** Reading one value never depends on the text after it: what a text parses to, it still parses to when text is appended. */
module JsonPrefixes {
  import opened CanonicalJson
  import opened JsonParser
  import opened Options

  lemma {:induction false} SkipExtends(s: string, more: string)
    requires SkipSpace(s) != ""
    ensures SkipSpace(s + more) == SkipSpace(s) + more
  {
    if IsSpace(s[0]) {
      assert (s + more)[1..] == s[1..] + more;
      SkipExtends(s[1..], more);
    }
  }

  /** The text behind the first character, with more text appended. */
  lemma TailExtends(s: string, more: string)
    requires s != ""
    ensures s + more != "" && (s + more)[0] == s[0] && (s + more)[1..] == s[1..] + more
  {
  }

  // ---------------------------------------------------------------------------------------------
  // Strings

  lemma Hex4Extends(s: string, more: string)
    requires |s| >= 4
    ensures Hex4(s + more) == Hex4(s) && (s + more)[4..] == s[4..] + more
  {
  }

  /** A lone surrogate at the end of what is known could still pair up, but such a text has no closing quote yet. */
  lemma HalfPairIsUnfinished(s: string)
    requires s == "" || s == "\\" || (2 <= |s| < 6 && s[..2] == "\\u")
    ensures ParseChars(s).None?
  {
    if |s| >= 2 {
      assert s[1..][0] == 'u' && |s[1..][1..]| < 4;
      assert ParseEscape(s[1..]).None?;
    } else if s == "\\" {
      assert s[1..] == "";
    }
  }

  lemma UnicodeExtends(s: string, more: string)
    requires ParseUnicode(s).Some? && ParseChars(ParseUnicode(s).value.1).Some?
    ensures ParseUnicode(s + more) == Some((ParseUnicode(s).value.0, ParseUnicode(s).value.1 + more))
  {
    hide ParseChars, Hex4;
    Hex4Extends(s, more);
    if |s| >= 10 {
      assert (s + more)[4..6] == s[4..6];
      assert (s + more)[6..] == s[6..] + more;
      Hex4Extends(s[6..], more);
      assert (s + more)[10..] == s[10..] + more;
    } else if |s| >= 6 && s[4..6] == "\\u" {
      assert |s[6..]| < 4;
      assert ParseUnicode(s).value.1 == s[4..];
      assert s[4..][..2] == s[4..6];
      HalfPairIsUnfinished(s[4..]);
    } else {
      assert ParseUnicode(s).value.1 == s[4..];
      HalfPairIsUnfinished("");
      HalfPairIsUnfinished("\\");
      if |s| == 5 {
        assert s[4..] == [s[4]];
        assert |s + more| >= 6 ==> (s + more)[4..6][0] == s[4];
      } else {
        assert (s + more)[4..6] == s[4..6];
      }
    }
  }

  lemma CharExtends(s: string, more: string)
    requires s != "" && s[0] != '"' && ParseChar(s).Some? && ParseChars(ParseChar(s).value.1).Some?
    ensures ParseChar(s + more) == Some((ParseChar(s).value.0, ParseChar(s).value.1 + more))
  {
    hide ParseChars, ParseUnicode;
    TailExtends(s, more);
    if s[0] == '\\' {
      TailExtends(s[1..], more);
      if s[1..][0] == 'u' {
        UnicodeExtends(s[1..][1..], more);
      }
    }
  }

  lemma {:induction false} CharsExtend(s: string, more: string)
    requires ParseChars(s).Some?
    ensures ParseChars(s + more) == Some((ParseChars(s).value.0, ParseChars(s).value.1 + more))
    decreases |s|
  {
    hide ParseChar;
    TailExtends(s, more);
    if s[0] != '"' {
      CharExtends(s, more);
      CharsExtend(ParseChar(s).value.1, more);
    }
  }

  // ---------------------------------------------------------------------------------------------
  // Numbers

  lemma {:induction false} DigitsStay(s: string, more: string)
    requires Digits(s) < |s|
    ensures Digits(s + more) == Digits(s)
  {
    TailExtends(s, more);
    if IsDigit(s[0]) {
      DigitsStay(s[1..], more);
    }
  }

  lemma {:induction false} DigitsNeverShrink(s: string, more: string)
    ensures Digits(s + more) >= Digits(s)
  {
    if s != "" && IsDigit(s[0]) {
      TailExtends(s, more);
      DigitsNeverShrink(s[1..], more);
    }
  }

  lemma IntStays(s: string, more: string)
    requires IntLength(s).Some? && IntLength(s).value < |s|
    ensures IntLength(s + more) == IntLength(s)
  {
    var sign := if s[0] == '-' then 1 else 0;
    assert (s + more)[sign..] == s[sign..] + more;
    if s[sign] == '0' {
      DigitsNeverShrink(s[sign..], more);
    } else {
      DigitsStay(s[sign..], more);
    }
  }

  lemma FracStays(s: string, more: string)
    requires FracLength(s).Some? && FracLength(s).value < |s|
    ensures FracLength(s + more) == FracLength(s)
  {
    TailExtends(s, more);
    if s[0] == '.' {
      DigitsStay(s[1..], more);
    }
  }

  lemma ExpStays(s: string, more: string)
    requires ExpLength(s).Some? && ExpLength(s).value < |s|
    ensures ExpLength(s + more) == ExpLength(s)
  {
    if s[0] == 'e' || s[0] == 'E' {
      assert |s| > 1;
      var mark := if IsSign(s[1]) then 2 else 1;
      assert (s + more)[mark..] == s[mark..] + more;
      DigitsStay(s[mark..], more);
    }
  }

  /** A number that ends inside the text ends at the same place in a longer one. */
  lemma NumberStays(s: string, more: string)
    requires NumberLength(s).Some? && NumberLength(s).value < |s|
    ensures NumberLength(s + more) == NumberLength(s)
  {
    hide IntLength, FracLength, ExpLength;
    var i := IntLength(s).value;
    IntStays(s, more);
    assert (s + more)[i..] == s[i..] + more;
    var f := FracLength(s[i..]).value;
    FracStays(s[i..], more);
    assert (s + more)[i + f..] == s[i + f..] + more;
    ExpStays(s[i + f..], more);
  }

  lemma NumberValueExtends(s: string, more: string)
    requires NumberLength(s).Some? && (NumberLength(s).value == |s| ==> Stops(more))
    ensures NumberLength(s + more) == NumberLength(s)
  {
    if NumberLength(s).value == |s| {
      NumberExtends(s, more);
    } else {
      NumberStays(s, more);
    }
  }

  // ---------------------------------------------------------------------------------------------
  // Values

  /** The appended text must not continue a number that the text ends in. */
  predicate Separate(v: Json, rest: string, more: string) {
    v.Number? && rest == "" ==> Stops(more)
  }

  lemma {:induction false} ValueExtends(s: string, more: string)
    requires ParseValue(s).Some? && Separate(ParseValue(s).value.0, ParseValue(s).value.1, more)
    ensures ParseValue(s + more) == Some((ParseValue(s).value.0, ParseValue(s).value.1 + more))
    decreases |s|, 0
  {
    hide ParseChars, ParseItems, ParseMembers, NumberLength, Stops;
    var t := s + more;
    TailExtends(s, more);
    if "null" <= s || "true" <= s {
      assert t[..4] == s[..4] && t[4..] == s[4..] + more;
    } else if "false" <= s {
      assert t[..5] == s[..5] && t[5..] == s[5..] + more;
    } else if s[0] == '"' {
      CharsExtend(s[1..], more);
    } else if s[0] == '[' {
      ArrayExtends(s, more);
    } else if s[0] == '{' {
      ObjectExtends(s, more);
    } else {
      NumberValueExtends(s, more);
      NumberHead(s);
      var n := NumberLength(s).value;
      assert t[..n] == s[..n] && t[n..] == s[n..] + more;
    }
  }

  lemma NumberHead(s: string)
    requires NumberLength(s).Some?
    ensures s[0] == '-' || IsDigit(s[0])
  {
  }

  lemma ArrayExtends(s: string, more: string)
    requires s != "" && s[0] == '[' && ParseValue(s).Some?
    ensures ParseValue(s + more) == Some((ParseValue(s).value.0, ParseValue(s).value.1 + more))
    decreases |s|, 0, 0
  {
    hide ParseItems, ParseMembers, ParseChars, NumberLength;
    TailExtends(s, more);
    var inner := SkipSpace(s[1..]);
    NoItems(inner);
    SkipExtends(s[1..], more);
    TailExtends(inner, more);
    if inner[0] != ']' {
      ItemsExtend(inner, more);
    }
  }

  lemma NoItems(s: string)
    ensures s == "" ==> ParseItems(s).None? && ParseMembers(s).None?
  {
  }

  lemma ObjectExtends(s: string, more: string)
    requires s != "" && s[0] == '{' && ParseValue(s).Some?
    ensures ParseValue(s + more) == Some((ParseValue(s).value.0, ParseValue(s).value.1 + more))
    decreases |s|, 0, 0
  {
    hide ParseItems, ParseMembers, ParseChars, NumberLength;
    TailExtends(s, more);
    var inner := SkipSpace(s[1..]);
    NoItems(inner);
    SkipExtends(s[1..], more);
    TailExtends(inner, more);
    if inner[0] != '}' {
      MembersExtend(inner, more);
    }
  }

  lemma {:induction false} ItemsExtend(s: string, more: string)
    requires ParseItems(s).Some?
    ensures ParseItems(s + more) == Some((ParseItems(s).value.0, ParseItems(s).value.1 + more))
    decreases |s|, 1
  {
    hide ParseValue;
    var after := ParseValue(s).value.1;
    ValueExtends(s, more);
    SkipExtends(after, more);
    var next := SkipSpace(after);
    TailExtends(next, more);
    if next[0] == ',' {
      var following := SkipSpace(next[1..]);
      NoItems(following);
      SkipExtends(next[1..], more);
      ItemsExtend(following, more);
    }
  }

  lemma {:induction false} MemberExtends(s: string, more: string)
    requires ParseMember(s).Some? && Separate(ParseMember(s).value.0.1, ParseMember(s).value.1, more)
    ensures ParseMember(s + more) == Some((ParseMember(s).value.0, ParseMember(s).value.1 + more))
    decreases |s|, 1
  {
    hide ParseValue, ParseChars;
    TailExtends(s, more);
    CharsExtend(s[1..], more);
    var after := ParseChars(s[1..]).value.1;
    SkipExtends(after, more);
    var next := SkipSpace(after);
    TailExtends(next, more);
    NoValue();
    SkipExtends(next[1..], more);
    ValueExtends(SkipSpace(next[1..]), more);
  }

  lemma NoValue()
    ensures ParseValue("").None?
  {
  }

  lemma {:induction false} MembersExtend(s: string, more: string)
    requires ParseMembers(s).Some?
    ensures ParseMembers(s + more) == Some((ParseMembers(s).value.0, ParseMembers(s).value.1 + more))
    decreases |s|, 2
  {
    hide ParseMember;
    var after := ParseMember(s).value.1;
    MemberExtends(s, more);
    SkipExtends(after, more);
    var next := SkipSpace(after);
    TailExtends(next, more);
    if next[0] == ',' {
      var following := SkipSpace(next[1..]);
      NoItems(following);
      SkipExtends(next[1..], more);
      MembersExtend(following, more);
    }
  }
}
