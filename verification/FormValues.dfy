/** Nested objects built from form fields in any order (llmadapter/images_edits.go). */
module FormValues {
  import CacheKeys
  import opened FormPaths
  import opened Options

  /** A decoded object, list or scalar; a scalar is kept as its text, of which its decoded value is a function. */
  datatype Value = Scalar(text: string) | List(items: seq<string>) | Object(members: Members)

  type Members = map<string, Value>

  /** Inserts a leaf along a path, creating missing objects; None is the source's error. */
  function Insert(members: Members, path: seq<Segment>, values: seq<string>): Option<Members>
    decreases |path|
  {
    if path == [] then None
    else
      var key := path[0].key;
      if |path| == 1 then
        if path[0].arrayLeaf then
          if key !in members then Some(members[key := List(values)])
          else if !members[key].List? then None
          else Some(members[key := List(members[key].items + values)])
        else if |values| != 1 || key in members then None
        else Some(members[key := Scalar(values[0])])
      else if path[0].arrayLeaf then None
      else if key in members && !members[key].Object? then None
      else
        match Insert(if key in members then members[key].members else map[], path[1..], values)
        case None => None
        case Some(child) => Some(members[key := Object(child)])
  }

  function InsertBoth(members: Members, p: seq<Segment>, vs: seq<string>, q: seq<Segment>, ws: seq<string>): Option<Members> {
    match Insert(members, p, vs)
    case None => None
    case Some(next) => Insert(next, q, ws)
  }

  /** Insertions at different paths commute, errors included. */
  lemma {:induction false} InsertionsCommute(members: Members, p: seq<Segment>, vs: seq<string>, q: seq<Segment>, ws: seq<string>)
    requires p != q
    ensures InsertBoth(members, p, vs, q, ws) == InsertBoth(members, q, ws, p, vs)
    decreases |p|, 1
  {
    if p != [] && q != [] {
      if p[0].key != q[0].key {
        DifferentKeysCommute(members, p, vs, q, ws);
      } else if |p| > 1 && |q| > 1 {
        SameObjectCommutes(members, p, vs, q, ws);
      } else if |p| == 1 && |q| == 1 {
        assert p == [p[0]] && q == [q[0]];
      }
    }
  }

  lemma DifferentKeysCommute(members: Members, p: seq<Segment>, vs: seq<string>, q: seq<Segment>, ws: seq<string>)
    requires p != [] && q != [] && p[0].key != q[0].key
    ensures InsertBoth(members, p, vs, q, ws) == InsertBoth(members, q, ws, p, vs)
  {
    var a, b := Insert(members, p, vs), Insert(members, q, ws);
    if a.Some? {
      InsertIsLocal(members, p, vs, q[0].key);
      SameKeySameResult(members, a.value, q, ws);
    }
    if b.Some? {
      InsertIsLocal(members, q, ws, p[0].key);
      SameKeySameResult(members, b.value, p, vs);
    }
    if a.Some? && b.Some? {
      assert Insert(a.value, q, ws).value == Insert(b.value, p, vs).value;
    }
  }

  /** An insertion changes only the member it starts at. */
  lemma InsertIsLocal(members: Members, p: seq<Segment>, vs: seq<string>, other: string)
    requires p != [] && p[0].key != other && Insert(members, p, vs).Some?
    ensures var out := Insert(members, p, vs).value;
            (other in out <==> other in members) && (other in members ==> out[other] == members[other])
  {
  }

  /** Whether and what an insertion puts at its first key depends on that member alone. */
  lemma SameKeySameResult(members: Members, other: Members, p: seq<Segment>, vs: seq<string>)
    requires p != [] && (p[0].key in members <==> p[0].key in other)
    requires p[0].key in members ==> members[p[0].key] == other[p[0].key]
    ensures Insert(members, p, vs).Some? <==> Insert(other, p, vs).Some?
    ensures Insert(members, p, vs).Some? ==>
              var key := p[0].key;
              && Insert(members, p, vs).value == members[key := Insert(members, p, vs).value[key]]
              && Insert(other, p, vs).value == other[key := Insert(members, p, vs).value[key]]
  {
  }

  lemma InsertBothDescends(members: Members, p: seq<Segment>, vs: seq<string>, q: seq<Segment>, ws: seq<string>)
    requires |p| > 1 && |q| > 1 && p[0].key == q[0].key && !p[0].arrayLeaf && !q[0].arrayLeaf
    requires p[0].key in members ==> members[p[0].key].Object?
    ensures var key := p[0].key;
            var child := if key in members then members[key].members else map[];
            InsertBoth(members, p, vs, q, ws) == match InsertBoth(child, p[1..], vs, q[1..], ws)
                                                 case None => None
                                                 case Some(c) => Some(members[key := Object(c)])
  {
    var key := p[0].key;
    var child := if key in members then members[key].members else map[];
    var a := Insert(child, p[1..], vs);
    if a.Some? {
      var next := members[key := Object(a.value)];
      assert Insert(members, p, vs) == Some(next);
      var b := Insert(a.value, q[1..], ws);
      if b.Some? {
        assert next[key := Object(b.value)] == members[key := Object(b.value)];
      }
    }
  }

  lemma SameObjectCommutes(members: Members, p: seq<Segment>, vs: seq<string>, q: seq<Segment>, ws: seq<string>)
    requires |p| > 1 && |q| > 1 && p[0].key == q[0].key && p != q
    ensures InsertBoth(members, p, vs, q, ws) == InsertBoth(members, q, ws, p, vs)
    decreases |p|, 0
  {
    var key := p[0].key;
    if !p[0].arrayLeaf && !q[0].arrayLeaf && (key in members ==> members[key].Object?) {
      assert p == [p[0]] + p[1..] && q == [q[0]] + q[1..];
      var child := if key in members then members[key].members else map[];
      InsertionsCommute(child, p[1..], vs, q[1..], ws);
      InsertBothDescends(members, p, vs, q, ws);
      InsertBothDescends(members, q, ws, p, vs);
    }
  }

  // ---------------------------------------------------------------------------------------------
  // What an insertion puts where

  function Keys(path: seq<Segment>): (keys: seq<string>)
    ensures |keys| == |path| && forall i | 0 <= i < |path| :: keys[i] == path[i].key
  {
    seq(|path|, i requires 0 <= i < |path| => path[i].key)
  }

  /** The value at the end of a sequence of keys. */
  function Lookup(members: Members, keys: seq<string>): Option<Value>
    decreases |keys|
  {
    if keys == [] || keys[0] !in members then None
    else if |keys| == 1 then Some(members[keys[0]])
    else if members[keys[0]].Object? then Lookup(members[keys[0]].members, keys[1..])
    else None
  }

  predicate IsLeaf(v: Option<Value>) { v.Some? && !v.value.Object? }

  /** What a leaf becomes: a new scalar, or a list grown by the values. */
  function Leaf(before: Option<Value>, path: seq<Segment>, values: seq<string>): Option<Value>
    requires path != []
  {
    if !path[|path| - 1].arrayLeaf then if |values| == 1 && before.None? then Some(Scalar(values[0])) else None
    else if before.None? then Some(List(values))
    else if before.value.List? then Some(List(before.value.items + values))
    else None
  }

  /** A successful insertion is found at its path: nothing was overwritten and a list only grew. */
  lemma {:induction false} InsertedIsFound(members: Members, path: seq<Segment>, values: seq<string>)
    requires Insert(members, path, values).Some?
    ensures Leaf(Lookup(members, Keys(path)), path, values).Some?
    ensures Lookup(Insert(members, path, values).value, Keys(path)) == Leaf(Lookup(members, Keys(path)), path, values)
    decreases |path|
  {
    if |path| > 1 {
      var key := path[0].key;
      var child := if key in members then members[key].members else map[];
      InsertedIsFound(child, path[1..], values);
      assert Keys(path)[1..] == Keys(path[1..]);
      assert Lookup(map[], Keys(path[1..])) == None;
    }
  }

  /** An insertion leaves every leaf at another place as it was. */
  lemma {:induction false} InsertKeepsLeaves(members: Members, path: seq<Segment>, values: seq<string>, keys: seq<string>)
    requires Insert(members, path, values).Some? && IsLeaf(Lookup(members, keys)) && keys != Keys(path)
    ensures Lookup(Insert(members, path, values).value, keys) == Lookup(members, keys)
    decreases |path|
  {
    assert |path| == 1 && |keys| == 1 && keys[0] == path[0].key ==> keys == Keys(path);
    if keys[0] == path[0].key {
      if |path| > 1 && |keys| > 1 {
        assert Keys(path) == [path[0].key] + Keys(path[1..]) && keys == [keys[0]] + keys[1..];
        InsertKeepsLeaves(members[keys[0]].members, path[1..], values, keys[1..]);
      }
    }
  }

  // ---------------------------------------------------------------------------------------------
  // What can be encoded

  function LowerCase(c: char): char { if 'A' <= c <= 'Z' then c - 'A' + 'a' else c }

  function Lower(s: string): string { seq(|s|, i requires 0 <= i < |s| => LowerCase(s[i])) }

  /** Texts that are coerced to a number JSON cannot carry. */
  predicate NonFinite(text: string) {
    Lower(CacheKeys.TrimSpace(text)) in {"nan", "inf", "+inf", "-inf", "infinity", "+infinity", "-infinity"}
  }

  /** The text is the word in any mix of lower and upper case. */
  ghost predicate Spells(text: string, word: string) {
    |text| == |word| && forall i | 0 <= i < |word| ::
      text[i] == word[i] || ('a' <= word[i] <= 'z' && text[i] as int + 32 == word[i] as int)
  }

  lemma LowerSpells(text: string, word: string)
    requires forall i | 0 <= i < |word| :: !('A' <= word[i] <= 'Z')
    ensures Lower(text) == word <==> Spells(text, word)
  {
    if Lower(text) == word {
      forall i | 0 <= i < |word| ensures text[i] == word[i] || ('a' <= word[i] <= 'z' && text[i] as int + 32 == word[i] as int) {
        assert Lower(text)[i] == LowerCase(text[i]);
      }
    }
    if Spells(text, word) {
      forall i | 0 <= i < |word| ensures Lower(text)[i] == word[i] {
      }
    }
  }

  /** NaN without a sign, or an infinity, in short or in full, with or without one. */
  lemma NonFiniteIs(text: string)
    ensures var t := CacheKeys.TrimSpace(text);
            NonFinite(text)
            <==> Spells(t, "nan")
                 || exists sign, word :: sign in {"", "+", "-"} && word in {"inf", "infinity"} && Spells(t, sign + word)
  {
    hide CacheKeys.TrimSpace, Spells, Lower;
    var t := CacheKeys.TrimSpace(text);
    LowerSpells(t, "nan");
    forall sign, word | sign in {"", "+", "-"} && word in {"inf", "infinity"}
      ensures Lower(t) == sign + word <==> Spells(t, sign + word)
      ensures sign + word in INFINITIES
    {
      LowerSpells(t, sign + word);
      Infinities(sign, word);
    }
    if Lower(t) in INFINITIES {
      var sign, word := SignAndWord(Lower(t));
      assert Lower(t) == sign + word;
    }
  }

  const INFINITIES: set<string> := {"inf", "+inf", "-inf", "infinity", "+infinity", "-infinity"}

  lemma Infinities(sign: string, word: string)
    requires sign in {"", "+", "-"} && word in {"inf", "infinity"}
    ensures sign + word in INFINITIES
  {
    if sign == "" {
      assert sign + word == word;
    } else if word == "inf" {
      assert sign + word == [sign[0], 'i', 'n', 'f'];
    } else {
      assert sign + word == [sign[0], 'i', 'n', 'f', 'i', 'n', 'i', 't', 'y'];
    }
  }

  lemma SignAndWord(text: string) returns (sign: string, word: string)
    requires text in INFINITIES
    ensures sign in {"", "+", "-"} && word in {"inf", "infinity"} && text == sign + word
  {
    sign := if text[0] == '+' then "+" else if text[0] == '-' then "-" else "";
    word := text[|sign|..];
    if text[0] == 'i' {
      assert word == text;
    } else {
      assert text == sign + word;
    }
  }

  predicate AllFinite(values: seq<string>) {
    forall i | 0 <= i < |values| :: !NonFinite(values[i])
  }

  predicate Encodable(members: Members) {
    forall k | k in members :: EncodableValue(members[k])
  }

  predicate EncodableValue(v: Value) {
    match v
    case Scalar(text) => !NonFinite(text)
    case List(items) => AllFinite(items)
    case Object(members) => forall k | k in members :: EncodableValue(members[k])
  }

  lemma EncodableUpdate(members: Members, key: string, v: Value)
    requires key in members ==> (EncodableValue(v) ==> EncodableValue(members[key]))
    ensures Encodable(members[key := v]) <==> Encodable(members) && EncodableValue(v)
  {
    var next := members[key := v];
    assert next[key] == v;
    assert forall k | k in members && k != key :: next[k] == members[k];
    if Encodable(next) {
      forall k | k in members ensures EncodableValue(members[k]) {
        assert EncodableValue(next[k]);
      }
    }
    if Encodable(members) && EncodableValue(v) {
      forall k | k in next ensures EncodableValue(next[k]) {
      }
    }
  }

  /** An insertion leaves an encodable object exactly when it was one and every new value is finite. */
  lemma {:induction false} InsertEncodes(members: Members, path: seq<Segment>, values: seq<string>)
    requires Insert(members, path, values).Some?
    ensures Encodable(Insert(members, path, values).value) <==> Encodable(members) && AllFinite(values)
    decreases |path|
  {
    hide NonFinite, Encodable, AllFinite, EncodableValue;
    var key := path[0].key;
    if key in members {
      EncodesByCase(members[key]);
    }
    if |path| > 1 {
      var child := if key in members then members[key].members else map[];
      InsertEncodes(child, path[1..], values);
      EncodesByCase(Object(Insert(child, path[1..], values).value));
      NothingEncodes();
      EncodableUpdate(members, key, Object(Insert(child, path[1..], values).value));
      if key in members && Encodable(members) {
        MemberEncodes(members, key);
      }
    } else if path[0].arrayLeaf && key in members {
      AllFiniteAppend(members[key].items, values);
      EncodesByCase(List(members[key].items + values));
      EncodableUpdate(members, key, List(members[key].items + values));
      if Encodable(members) {
        MemberEncodes(members, key);
      }
    } else if path[0].arrayLeaf {
      EncodesByCase(List(values));
      EncodableUpdate(members, key, List(values));
    } else {
      OneFinite(values);
      EncodesByCase(Scalar(values[0]));
      EncodableUpdate(members, key, Scalar(values[0]));
    }
  }

  lemma EncodesByCase(v: Value)
    ensures EncodableValue(v)
            <==> match v case Scalar(text) => !NonFinite(text) case List(items) => AllFinite(items) case Object(m) => Encodable(m)
  {
  }

  lemma OneFinite(values: seq<string>)
    requires |values| == 1
    ensures AllFinite(values) <==> !NonFinite(values[0])
  {
    hide NonFinite;
  }

  lemma NothingEncodes()
    ensures Encodable(map[])
  {
  }

  lemma MemberEncodes(members: Members, key: string)
    requires Encodable(members) && key in members
    ensures EncodableValue(members[key])
  {
  }

  lemma AllFiniteAppend(a: seq<string>, b: seq<string>)
    ensures AllFinite(a + b) <==> AllFinite(a) && AllFinite(b)
  {
    hide NonFinite;
    if AllFinite(a + b) {
      forall i | 0 <= i < |a| ensures !NonFinite(a[i]) {
        assert (a + b)[i] == a[i];
      }
      forall i | 0 <= i < |b| ensures !NonFinite(b[i]) {
        assert (a + b)[|a| + i] == b[i];
      }
    }
  }
}
