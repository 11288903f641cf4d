/** The form values of an images-edits request as a raw JSON object (llmadapter/images_edits.go). */
module MultipartForm {
  import opened CacheKeys
  import opened FormPaths
  import opened FormValues
  import opened JsonParser
  import opened Options
  import opened Texts

  predicate Allowed(field: string) {
    IsLiteral(field) || IsObject(field) || field in {
      "prompt", "model", "size", "quality", "response_format", "output_format", "background", "moderation",
      "safety_identifier", "user", "queue_timeout", "images", "image", "mask", "input_fidelity", "strength", "steps",
      "negative_prompt", "dtype", "lora"}
  }

  /** Fields whose text is taken as a JSON literal. */
  predicate IsLiteral(field: string) {
    field in {"n", "vram_limit", "stream", "partial_images", "output_compression"}
  }

  /** Fields that may come as one JSON object or as bracket fields. */
  predicate IsObject(field: string) {
    field in {"quantization_config", "components"}
  }

  /** A member of the raw object: text taken as JSON, text to be quoted, or an object built from bracket fields. */
  datatype RawValue = Verbatim(text: string) | Quoted(text: string) | Built(members: Members)

  /** `used` says of an object field whether it came as one JSON text (true) or as bracket fields (false). */
  datatype State = State(raw: map<string, RawValue>, nested: map<string, Members>, used: map<string, bool>)

  const EMPTY: State := State(map[], map[], map[])

  predicate IsJson(s: string) {
    match ParseValue(SkipSpace(s))
    case None => false
    case Some((_, rest)) => SkipSpace(rest) == ""
  }

  /** What one field asks for, whatever came before it. */
  datatype Effect = Skip | Refuse | SetText(value: RawValue) | SetJson(text: string) | Nest(root: string, segments: seq<Segment>)

  function EffectOf(field: string, values: seq<string>): Effect {
    if values == [] then Skip
    else
      match Parse(field)
      case Unsupported => Refuse
      case Nested(root, segments) => if Allowed(root) && IsObject(root) then Nest(root, segments) else Refuse
      case Plain =>
        var value := values[|values| - 1];
        var trimmed := TrimSpace(value);
        if !Allowed(field) then Refuse
        else if IsLiteral(field) then if trimmed == "" then Skip else SetText(Verbatim(trimmed))
        else if IsObject(field) then
          if trimmed == "" then Skip else if !IsJson(trimmed) then Refuse else SetJson(trimmed)
        else SetText(Quoted(value))
  }

  function Perform(s: State, field: string, effect: Effect, values: seq<string>): Option<State> {
    match effect
    case Skip => Some(s)
    case Refuse => None
    case SetText(value) => Some(s.(raw := s.raw[field := value]))
    case SetJson(text) =>
      if field in s.used then None
      else Some(s.(raw := s.raw[field := Verbatim(text)], used := s.used[field := true]))
    case Nest(root, segments) =>
      if root in s.used && s.used[root] then None
      else
        match Insert(if root in s.nested then s.nested[root] else map[], segments, values)
        case None => None
        case Some(members) => Some(s.(nested := s.nested[root := members], used := s.used[root := false]))
  }

  function Step(s: State, field: string, values: seq<string>): Option<State> {
    Perform(s, field, EffectOf(field, values), values)
  }

  /** One field, in the order of the source's checks. */
  method AddField(s: State, field: string, values: seq<string>) returns (r: Option<State>)
    ensures r == Step(s, field, values)
  {
    hide Allowed, IsLiteral, IsObject, Parse, Insert, TrimSpace, IsJson;
    if |values| == 0 {
      return Some(s);
    }
    var path := ParseMultipartBracketField(field);
    match path {
      case Unsupported => return None;
      case Plain =>
        if !Allowed(field) {
          return None;
        }
        var value := values[|values| - 1];
        var trimmed := TrimSpace(value);
        if IsLiteral(field) {
          if trimmed == "" {
            return Some(s);
          }
          return Some(s.(raw := s.raw[field := Verbatim(trimmed)]));
        }
        if IsObject(field) {
          if trimmed == "" {
            return Some(s);
          }
          if !IsJson(trimmed) || field in s.used {
            return None;
          }
          return Some(s.(raw := s.raw[field := Verbatim(trimmed)], used := s.used[field := true]));
        }
        return Some(s.(raw := s.raw[field := Quoted(value)]));
      case Nested(root, segments) =>
        if !Allowed(root) || !IsObject(root) {
          return None;
        }
        if root in s.used && s.used[root] {
          return None;
        }
        var members := Insert(if root in s.nested then s.nested[root] else map[], segments, values);
        if members.None? {
          return None;
        }
        return Some(s.(nested := s.nested[root := members.value], used := s.used[root := false]));
    }
  }

  // ---------------------------------------------------------------------------------------------
  // Any two fields commute

  function PerformBoth(s: State, f: string, e: Effect, vs: seq<string>, g: string, d: Effect, ws: seq<string>): Option<State> {
    match Perform(s, f, e, vs)
    case None => None
    case Some(next) => Perform(next, g, d, ws)
  }

  /** Two nestings under one root. */
  lemma NestingsCommute(s: State, f: string, e: Effect, vs: seq<string>, g: string, d: Effect, ws: seq<string>)
    requires e.Nest? && d.Nest? && e.root == d.root && e.segments != d.segments
    ensures PerformBoth(s, f, e, vs, g, d, ws) == PerformBoth(s, g, d, ws, f, e, vs)
  {
    var root := e.root;
    if !(root in s.used && s.used[root]) {
      NestBothIsInsertBoth(s, f, e, vs, g, d, ws);
      NestBothIsInsertBoth(s, g, d, ws, f, e, vs);
      InsertionsCommute(if root in s.nested then s.nested[root] else map[], e.segments, vs, d.segments, ws);
    }
  }

  lemma NestBothIsInsertBoth(s: State, f: string, e: Effect, vs: seq<string>, g: string, d: Effect, ws: seq<string>)
    requires e.Nest? && d.Nest? && e.root == d.root && !(e.root in s.used && s.used[e.root])
    ensures var root := e.root;
            var members := if root in s.nested then s.nested[root] else map[];
            PerformBoth(s, f, e, vs, g, d, ws)
            == match InsertBoth(members, e.segments, vs, d.segments, ws)
               case None => None
               case Some(out) => Some(s.(nested := s.nested[root := out], used := s.used[root := false]))
  {
    hide Insert;
    var root := e.root;
    var first := Insert(if root in s.nested then s.nested[root] else map[], e.segments, vs);
    if first.Some? {
      var next := s.(nested := s.nested[root := first.value], used := s.used[root := false]);
      assert Perform(s, f, e, vs) == Some(next);
      var second := Insert(first.value, d.segments, ws);
      if second.Some? {
        assert next.nested[root := second.value] == s.nested[root := second.value];
        assert next.used[root := false] == s.used[root := false];
      }
    }
  }

  function Rank(e: Effect): nat {
    match e
    case Skip => 0
    case Refuse => 1
    case SetText(_) => 2
    case SetJson(_) => 3
    case Nest(_, _) => 4
  }

  lemma TextsCommute(s: State, f: string, e: Effect, vs: seq<string>, g: string, d: Effect, ws: seq<string>)
    requires f != g && e.SetText? && !d.Nest?
    ensures PerformBoth(s, f, e, vs, g, d, ws) == PerformBoth(s, g, d, ws, f, e, vs)
  {
    if d.SetText? {
      assert s.raw[f := e.value][g := d.value] == s.raw[g := d.value][f := e.value];
    } else if d.SetJson? {
      assert s.raw[f := e.value][g := Verbatim(d.text)] == s.raw[g := Verbatim(d.text)][f := e.value];
    }
  }

  lemma JsonsCommute(s: State, f: string, e: Effect, vs: seq<string>, g: string, d: Effect, ws: seq<string>)
    requires f != g && e.SetJson? && d.SetJson?
    ensures PerformBoth(s, f, e, vs, g, d, ws) == PerformBoth(s, g, d, ws, f, e, vs)
  {
    assert s.raw[f := Verbatim(e.text)][g := Verbatim(d.text)] == s.raw[g := Verbatim(d.text)][f := Verbatim(e.text)];
    assert s.used[f := true][g := true] == s.used[g := true][f := true];
  }

  lemma NestCommutesWithPlain(s: State, f: string, e: Effect, vs: seq<string>, g: string, d: Effect, ws: seq<string>)
    requires (e.SetText? || e.SetJson?) && d.Nest?
    ensures PerformBoth(s, f, e, vs, g, d, ws) == PerformBoth(s, g, d, ws, f, e, vs)
  {
    hide Insert;
    if e.SetJson? && f != d.root {
      assert s.used[f := true][d.root := false] == s.used[d.root := false][f := true];
    }
  }

  /** Two objects under different roots. */
  function BothRoots(s: State, p: string, x: Option<Members>, q: string, y: Option<Members>): Option<State> {
    if (p in s.used && s.used[p]) || (q in s.used && s.used[q]) || x.None? || y.None? then None
    else Some(s.(nested := s.nested[p := x.value][q := y.value], used := s.used[p := false][q := false]))
  }

  lemma BothRootsCommute(s: State, p: string, x: Option<Members>, q: string, y: Option<Members>)
    requires p != q
    ensures BothRoots(s, p, x, q, y) == BothRoots(s, q, y, p, x)
  {
    if x.Some? && y.Some? {
      assert s.nested[p := x.value][q := y.value] == s.nested[q := y.value][p := x.value];
      assert s.used[p := false][q := false] == s.used[q := false][p := false];
    }
  }

  function InsertUnder(s: State, e: Effect, vs: seq<string>): Option<Members>
    requires e.Nest?
  {
    Insert(if e.root in s.nested then s.nested[e.root] else map[], e.segments, vs)
  }

  lemma NestNest(s: State, f: string, e: Effect, vs: seq<string>, g: string, d: Effect, ws: seq<string>)
    requires e.Nest? && d.Nest? && e.root != d.root
    ensures PerformBoth(s, f, e, vs, g, d, ws) == BothRoots(s, e.root, InsertUnder(s, e, vs), d.root, InsertUnder(s, d, ws))
  {
    hide Insert;
  }

  lemma RootsCommute(s: State, f: string, e: Effect, vs: seq<string>, g: string, d: Effect, ws: seq<string>)
    requires e.Nest? && d.Nest? && e.root != d.root
    ensures PerformBoth(s, f, e, vs, g, d, ws) == PerformBoth(s, g, d, ws, f, e, vs)
  {
    hide InsertUnder, PerformBoth, BothRoots;
    NestNest(s, f, e, vs, g, d, ws);
    NestNest(s, g, d, ws, f, e, vs);
    BothRootsCommute(s, e.root, InsertUnder(s, e, vs), d.root, InsertUnder(s, d, ws));
  }

  lemma RankedEffectsCommute(s: State, f: string, e: Effect, vs: seq<string>, g: string, d: Effect, ws: seq<string>)
    requires f != g && Rank(e) <= Rank(d)
    requires e.Nest? && d.Nest? && e.root == d.root ==> e.segments != d.segments
    ensures PerformBoth(s, f, e, vs, g, d, ws) == PerformBoth(s, g, d, ws, f, e, vs)
  {
    if e.Skip? || e.Refuse? {
      hide Insert;
    } else {
      hide PerformBoth;
      if d.Nest? {
        if !e.Nest? {
          NestCommutesWithPlain(s, f, e, vs, g, d, ws);
        } else if e.root == d.root {
          NestingsCommute(s, f, e, vs, g, d, ws);
        } else {
          RootsCommute(s, f, e, vs, g, d, ws);
        }
      } else if e.SetText? {
        TextsCommute(s, f, e, vs, g, d, ws);
      } else {
        JsonsCommute(s, f, e, vs, g, d, ws);
      }
    }
  }

  lemma EffectsCommute(s: State, f: string, e: Effect, vs: seq<string>, g: string, d: Effect, ws: seq<string>)
    requires f != g && (e.Nest? && d.Nest? && e.root == d.root ==> e.segments != d.segments)
    ensures PerformBoth(s, f, e, vs, g, d, ws) == PerformBoth(s, g, d, ws, f, e, vs)
  {
    hide PerformBoth;
    if Rank(e) <= Rank(d) {
      RankedEffectsCommute(s, f, e, vs, g, d, ws);
    } else {
      RankedEffectsCommute(s, g, d, ws, f, e, vs);
    }
  }

  function StepBoth(s: State, f: string, g: string, values: map<string, seq<string>>): Option<State>
    requires f in values && g in values
  {
    PerformBoth(s, f, EffectOf(f, values[f]), values[f], g, EffectOf(g, values[g]), values[g])
  }

  lemma StepsCommute(s: State, f: string, g: string, values: map<string, seq<string>>)
    requires f in values && g in values && f != g
    ensures StepBoth(s, f, g, values) == StepBoth(s, g, f, values)
  {
    if Parse(f).Nested? && Parse(g).Nested? {
      ParsedPathPrints(f);
      ParsedPathPrints(g);
    }
    EffectsCommute(s, f, EffectOf(f, values[f]), values[f], g, EffectOf(g, values[g]), values[g]);
  }

  // ---------------------------------------------------------------------------------------------
  // Every order of the fields gives the same result

  function Fold(s: State, order: seq<string>, values: map<string, seq<string>>): Option<State>
    requires forall f | f in order :: f in values
    decreases |order|
  {
    if order == [] then Some(s)
    else
      assert order[0] in order;
      match Step(s, order[0], values[order[0]])
      case None => None
      case Some(next) => Fold(next, order[1..], values)
  }

  ghost predicate Distinct(order: seq<string>) {
    forall i, k | 0 <= i < k < |order| :: order[i] != order[k]
  }

  lemma AroundSplits(order: seq<string>, i: nat)
    requires 0 < i < |order|
    ensures order[..i] == [order[0]] + order[1..][..i - 1]
    ensures order[i + 1..] == order[1..][i..]
  {
  }

  /** Any field can be taken first. */
  lemma {:induction false} FieldFirst(s: State, order: seq<string>, i: nat, values: map<string, seq<string>>)
    requires Distinct(order) && i < |order| && forall f | f in order :: f in values
    ensures (forall f | f in [order[i]] + order[..i] + order[i + 1..] :: f in values)
            && Fold(s, order, values) == Fold(s, [order[i]] + order[..i] + order[i + 1..], values)
    decreases i
  {
    hide Step;
    var (x, y) := (order[i], order[0]);
    var moved := [x] + order[..i] + order[i + 1..];
    assert y in order && x in order;
    assert forall f :: f in moved ==> f in order;
    if i == 0 {
      assert moved == order;
    } else {
      var rest := order[1..];
      var without := rest[..i - 1] + rest[i..];
      AroundSplits(order, i);
      assert order[..i] + order[i + 1..] == [y] + without;
      assert moved == [x] + ([y] + without);
      assert [x] + rest[..i - 1] + rest[i..] == [x] + without;
      var next := Step(s, y, values[y]);
      if next.Some? {
        FieldFirst(next.value, rest, i - 1, values);
      }
      SwapFirst(s, y, x, without, values);
      assert ([y] + ([x] + without))[1..] == [x] + without;
    }
  }

  lemma SwapFirst(s: State, y: string, x: string, without: seq<string>, values: map<string, seq<string>>)
    requires x != y && x in values && y in values && forall f | f in without :: f in values
    ensures (forall f | f in [y] + ([x] + without) :: f in values) && (forall f | f in [x] + ([y] + without) :: f in values)
    ensures Fold(s, [y] + ([x] + without), values) == Fold(s, [x] + ([y] + without), values)
  {
    StepsCommute(s, x, y, values);
    FoldTwo(s, x, y, without, values);
    FoldTwo(s, y, x, without, values);
  }

  lemma FoldTwo(s: State, x: string, y: string, without: seq<string>, values: map<string, seq<string>>)
    requires x in values && y in values && forall f | f in without :: f in values
    ensures (forall f | f in [x] + ([y] + without) :: f in values)
    ensures Fold(s, [x] + ([y] + without), values)
            == match StepBoth(s, x, y, values) case None => None case Some(n) => Fold(n, without, values)
  {
    hide Perform, EffectOf;
    var tail := [y] + without;
    assert ([x] + tail)[1..] == tail && tail[1..] == without;
  }

  lemma FoldOne(s: State, x: string, rest: seq<string>, values: map<string, seq<string>>)
    requires x in values && forall f | f in rest :: f in values
    ensures (forall f | f in [x] + rest :: f in values)
            && Fold(s, [x] + rest, values)
               == match Step(s, x, values[x]) case None => None case Some(n) => Fold(n, rest, values)
  {
    hide Step;
    assert ([x] + rest)[1..] == rest;
  }

  lemma FieldTaken(s: State, order: seq<string>, i: nat, x: string, rest: seq<string>, values: map<string, seq<string>>)
    requires Distinct(order) && i < |order| && order[i] == x && rest == order[..i] + order[i + 1..]
    requires forall f | f in order :: f in values
    ensures x in values && (forall f | f in rest :: f in values)
    ensures Fold(s, order, values) == match Step(s, x, values[x]) case None => None case Some(n) => Fold(n, rest, values)
  {
    hide Step, Fold, Distinct;
    assert x in order && forall f | f in rest :: f in order;
    FieldFirst(s, order, i, values);
    assert [x] + order[..i] + order[i + 1..] == [x] + rest;
    FoldOne(s, x, rest, values);
  }

  lemma {:induction false} OrderDoesNotMatter(s: State, a: seq<string>, b: seq<string>, values: map<string, seq<string>>)
    requires Distinct(a) && Distinct(b) && (forall f :: f in a <==> f in b) && forall f | f in a :: f in values
    ensures Fold(s, a, values) == Fold(s, b, values)
    decreases |a|
  {
    assert |b| > 0 ==> b[0] in b;
    if |a| > 0 {
      hide Step, Fold, Distinct;
      var x := a[0];
      assert x in a;
      var i :| 0 <= i < |b| && b[i] == x;
      var rest := b[..i] + b[i + 1..];
      assert a[1..] == a[..0] + a[1..];
      FieldTaken(s, a, 0, x, a[1..], values);
      FieldTaken(s, b, i, x, rest, values);
      SameRest(a, b, i);
      var next := Step(s, x, values[x]);
      if next.Some? {
        OrderDoesNotMatter(next.value, a[1..], rest, values);
      }
    }
  }

  lemma SameRest(a: seq<string>, b: seq<string>, i: nat)
    requires Distinct(a) && Distinct(b) && (forall f :: f in a <==> f in b) && |a| > 0 && i < |b| && b[i] == a[0]
    ensures Distinct(a[1..]) && Distinct(b[..i] + b[i + 1..])
    ensures forall f :: f in a[1..] <==> f in b[..i] + b[i + 1..]
  {
    var rest := b[..i] + b[i + 1..];
    forall f ensures f in a[1..] <==> f in rest {
      assert a == [a[0]] + a[1..] && b == b[..i] + [b[i]] + b[i + 1..];
      if f in a[1..] {
        var k :| 0 <= k < |a[1..]| && a[1..][k] == f;
        assert a[k + 1] == f && f in b;
        var m :| 0 <= m < |b| && b[m] == f;
        assert rest[if m < i then m else m - 1] == f;
      }
      if f in rest {
        var k :| 0 <= k < |rest| && rest[k] == f;
        assert f in b && f != b[i];
      }
    }
  }

  /** An order in which the fields of a form may be visited. */
  ghost predicate Visits(order: seq<string>, values: map<string, seq<string>>) {
    Distinct(order) && forall f :: f in order <==> f in values
  }

  /** Every object built from bracket fields can be encoded. */
  predicate AllEncodable(s: State) {
    forall root | root in s.nested :: Encodable(s.nested[root])
  }

  /** The objects built from bracket fields join the other members, unless one cannot be encoded. */
  function Finish(s: State): Option<map<string, RawValue>> {
    if AllEncodable(s) then Some(s.raw + map root | root in s.nested :: Built(s.nested[root])) else None
  }

  ghost function Result(values: map<string, seq<string>>, order: seq<string>): Option<map<string, RawValue>>
    requires Visits(order, values)
  {
    match Fold(EMPTY, order, values)
    case None => None
    case Some(s) => Finish(s)
  }

  lemma AllOrdersAgree(values: map<string, seq<string>>, order: seq<string>)
    requires Visits(order, values)
    ensures forall other | Visits(other, values) :: Result(values, other) == Result(values, order)
  {
    forall other | Visits(other, values) ensures Result(values, other) == Result(values, order) {
      OrderDoesNotMatter(EMPTY, other, order, values);
    }
  }

  lemma {:induction false} FoldAppend(s: State, order: seq<string>, field: string, values: map<string, seq<string>>)
    requires field in values && forall f | f in order :: f in values
    ensures (forall f | f in order + [field] :: f in values)
            && Fold(s, order + [field], values)
               == match Fold(s, order, values) case None => None case Some(n) => Step(n, field, values[field])
    decreases |order|
  {
    hide Step;
    var all := order + [field];
    if order == [] {
      assert all[0] == field && all[1..] == [];
    } else {
      assert order[0] in order;
      assert all[0] == order[0] && all[1..] == order[1..] + [field];
      forall n: State ensures Fold(n, all[1..], values)
                              == match Fold(n, order[1..], values) case None => None case Some(m) => Step(m, field, values[field]) {
        FoldAppend(n, order[1..], field, values);
      }
    }
  }

  lemma {:induction false} FoldFailsEarly(s: State, order: seq<string>, more: seq<string>, values: map<string, seq<string>>)
    requires (forall f | f in order :: f in values) && (forall f | f in more :: f in values)
    requires Fold(s, order, values).None?
    ensures (forall f | f in order + more :: f in values) && Fold(s, order + more, values).None?
    decreases |order|
  {
    hide Step;
    assert order[0] in order;
    var all := order + more;
    assert all[0] == order[0] && all[1..] == order[1..] + more;
    var next := Step(s, order[0], values[order[0]]);
    if next.Some? {
      FoldFailsEarly(next.value, order[1..], more, values);
    }
  }

  lemma RefusedInEveryOrder(values: map<string, seq<string>>, visited: seq<string>, field: string, left: set<string>)
    requires Distinct(visited) && field in values && field !in visited && field !in left
    requires forall f :: f in values <==> f in left || f in visited || f == field
    requires forall f | f in visited :: f !in left
    requires Fold(EMPTY, visited + [field], values).None?
    ensures forall order | Visits(order, values) :: Result(values, order) == None
  {
    hide Fold;
    var rest := SortedKeys(left);
    SortedAreDistinct(rest);
    var order := visited + [field] + rest;
    FoldFailsEarly(EMPTY, visited + [field], rest, values);
    assert forall i | 0 <= i < |rest| :: rest[i] in rest;
    assert forall i | 0 <= i < |visited| :: visited[i] in visited;
    assert Distinct(order);
    AllOrdersAgree(values, order);
  }

  /** Walks the fields in whatever order the map yields them; every order fails, or every order gives this result. */
  method MultipartFormValuesToRaw(values: map<string, seq<string>>) returns (r: Option<map<string, RawValue>>)
    ensures forall order | Visits(order, values) :: Result(values, order) == r
  {
    hide Step, Fold, Finish;
    ghost var visited: seq<string> := [];
    var left := values.Keys;
    var s := EMPTY;
    FoldNothing(s, values);
    while left != {}
      invariant Distinct(visited) && forall f :: f in values <==> f in left || f in visited
      invariant left <= values.Keys && forall f | f in visited :: f !in left
      invariant Fold(EMPTY, visited, values) == Some(s)
      decreases left
    {
      var field :| field in left;
      left := left - {field};
      FoldAppend(EMPTY, visited, field, values);
      var next := AddField(s, field, values[field]);
      if next.None? {
        RefusedInEveryOrder(values, visited, field, left);
        return None;
      }
      s := next.value;
      assert forall i | 0 <= i < |visited| :: visited[i] in visited;
      visited := visited + [field];
    }
    AllOrdersAgree(values, visited);
    r := EncodeNested(s);
  }

  /** Encodes the nested objects in whatever order the map yields them. */
  method EncodeNested(s: State) returns (r: Option<map<string, RawValue>>)
    ensures r == Finish(s)
  {
    hide Encodable;
    var raw := s.raw;
    var left := s.nested.Keys;
    while left != {}
      invariant left <= s.nested.Keys
      invariant forall root | root in s.nested && root !in left :: Encodable(s.nested[root])
      invariant raw == s.raw + map root | root in s.nested && root !in left :: Built(s.nested[root])
      decreases left
    {
      var root :| root in left;
      if !Encodable(s.nested[root]) {
        return None;
      }
      left := left - {root};
      raw := raw[root := Built(s.nested[root])];
    }
    assert (map root | root in s.nested && root !in left :: Built(s.nested[root]))
           == map root | root in s.nested :: Built(s.nested[root]);
    return Some(raw);
  }

  lemma FoldNothing(s: State, values: map<string, seq<string>>)
    ensures Fold(s, [], values) == Some(s)
  {
  }

  // ---------------------------------------------------------------------------------------------
  // Numbers that cannot be encoded

  /** Not a bracket field, or one whose values can be encoded. */
  predicate FiniteField(field: string, values: seq<string>) {
    EffectOf(field, values).Nest? ==> AllFinite(values)
  }

  lemma StepEncodes(s: State, field: string, values: seq<string>)
    requires Step(s, field, values).Some?
    ensures AllEncodable(Step(s, field, values).value) <==> AllEncodable(s) && FiniteField(field, values)
  {
    hide EffectOf, Insert, AllFinite, Encodable;
    var effect := EffectOf(field, values);
    if effect.Nest? {
      var root := effect.root;
      var before := if root in s.nested then s.nested[root] else map[];
      InsertEncodes(before, effect.segments, values);
      NothingEncodes();
      OneObjectChanges(s, Step(s, field, values).value, root, before);
    }
  }

  lemma OneObjectChanges(s: State, next: State, root: string, before: Members)
    requires root in next.nested && next.nested == s.nested[root := next.nested[root]]
    requires if root in s.nested then before == s.nested[root] else Encodable(before)
    requires Encodable(next.nested[root]) ==> Encodable(before)
    ensures AllEncodable(next) <==> Encodable(next.nested[root]) && forall k | k in s.nested && k != root :: Encodable(s.nested[k])
    ensures AllEncodable(s) <==> Encodable(before) && forall k | k in s.nested && k != root :: Encodable(s.nested[k])
  {
    hide Encodable;
    assert forall k | k in s.nested && k != root :: next.nested[k] == s.nested[k];
  }

  lemma {:induction false} FoldEncodes(s: State, order: seq<string>, values: map<string, seq<string>>)
    requires (forall f | f in order :: f in values) && Fold(s, order, values).Some?
    ensures AllEncodable(Fold(s, order, values).value)
            <==> AllEncodable(s) && forall f | f in order :: FiniteField(f, values[f])
    decreases |order|
  {
    hide Step, AllEncodable, FiniteField;
    if order != [] {
      var f := order[0];
      assert f in order && order == [f] + order[1..];
      StepEncodes(s, f, values[f]);
      FoldEncodes(Step(s, f, values[f]).value, order[1..], values);
    }
  }

  /** A form whose fields all fit together is refused exactly for a bracket field with NaN or an infinity. */
  lemma EncodesIff(values: map<string, seq<string>>, order: seq<string>)
    requires Visits(order, values) && Fold(EMPTY, order, values).Some?
    ensures Result(values, order).Some? <==> forall field | field in values :: FiniteField(field, values[field])
  {
    hide FiniteField;
    FoldEncodes(EMPTY, order, values);
  }

  // ---------------------------------------------------------------------------------------------
  // A root given both ways

  lemma TwoThenRest(values: map<string, seq<string>>, x: string, y: string) returns (rest: seq<string>)
    requires x in values && y in values && x != y
    ensures Visits([x] + ([y] + rest), values) && forall f | f in rest :: f in values
  {
    rest := SortedKeys(values.Keys - {x, y});
    SortedAreDistinct(rest);
    var all := [x] + ([y] + rest);
    assert forall i | 0 <= i < |rest| :: rest[i] in rest;
    assert forall i | 2 <= i < |all| :: all[i] == rest[i - 2];
  }

  lemma JsonThenBracket(s: State, root: string, e: Effect, vs: seq<string>, field: string, d: Effect, ws: seq<string>)
    requires e.SetJson? && d.Nest? && d.root == root
    ensures PerformBoth(s, root, e, vs, field, d, ws) == None
  {
  }

  /** An object field given as JSON text and as a bracket field is refused, whichever comes first. */
  lemma MixedFormIsRefused(values: map<string, seq<string>>, root: string, field: string, order: seq<string>)
    requires Visits(order, values) && root in values && field in values
    requires EffectOf(root, values[root]).SetJson?
    requires EffectOf(field, values[field]).Nest? && EffectOf(field, values[field]).root == root
    ensures Result(values, order) == None
  {
    hide EffectOf, PerformBoth, Fold, Visits;
    var rest := TwoThenRest(values, root, field);
    JsonThenBracket(EMPTY, root, EffectOf(root, values[root]), values[root], field, EffectOf(field, values[field]), values[field]);
    FoldTwo(EMPTY, root, field, rest, values);
    AllOrdersAgree(values, [root] + ([field] + rest));
  }
}
