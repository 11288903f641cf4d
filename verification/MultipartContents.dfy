/** What an accepted images-edits form turns into, member by member (llmadapter/images_edits.go). */
module MultipartContents {
  import opened CacheKeys
  import opened FormPaths
  import opened FormValues
  import opened MultipartForm
  import opened Options

  type Form = map<string, seq<string>>

  /** The bracket field of a path. */
  predicate IsPath(field: string, root: string, segments: seq<Segment>) {
    ValidPath(root, segments) && field == PrintField(root, segments)
  }

  // ---------------------------------------------------------------------------------------------
  // What the members have to be

  /** A plain field in an accepted form, by the member it leaves; a blank literal or object leaves none. */
  ghost predicate PlainHolds(field: string, values: seq<string>, raw: map<string, RawValue>)
    requires values != []
  {
    var value := values[|values| - 1];
    var trimmed := TrimSpace(value);
    match field
    case "n" | "vram_limit" | "stream" | "partial_images" | "output_compression" =>
      if trimmed == "" then field !in raw else field in raw && raw[field] == Verbatim(trimmed)
    case "quantization_config" | "components" =>
      if trimmed == "" then field in raw ==> raw[field].Built?
      else IsJson(trimmed) && field in raw && raw[field] == Verbatim(trimmed)
    case "prompt" | "model" | "size" | "quality" | "response_format" | "output_format" | "background" | "moderation"
      | "safety_identifier" | "user" | "queue_timeout" | "images" | "image" | "mask" | "input_fidelity" | "strength"
      | "steps" | "negative_prompt" | "dtype" | "lora" =>
      field in raw && raw[field] == Quoted(value)
    case _ => false
  }

  /** A bracket field leaves its values at its path: all of them in a list, or the only one. */
  ghost predicate LeafHolds(segments: seq<Segment>, values: seq<string>, members: Members)
    requires segments != []
  {
    if segments[|segments| - 1].arrayLeaf then Lookup(members, Keys(segments)) == Some(List(values))
    else |values| == 1 && Lookup(members, Keys(segments)) == Some(Scalar(values[0]))
  }

  ghost predicate BracketHolds(root: string, segments: seq<Segment>, values: seq<string>, nested: map<string, Members>) {
    && (root == "quantization_config" || root == "components")
    && root in nested && segments != [] && LeafHolds(segments, values, nested[root])
  }

  /** Some field of the form puts a leaf under these keys. */
  ghost predicate FromField(form: Form, visited: set<string>, root: string, keys: seq<string>) {
    exists field, segments ::
      IsPath(field, root, segments) && field in visited && field in form && form[field] != [] && Keys(segments) == keys
  }

  // ---------------------------------------------------------------------------------------------
  // The invariant of the walk

  ghost predicate PlainsOk(form: Form, visited: set<string>, s: State) {
    forall f | f in visited && f in form && form[f] != [] && '[' !in f :: PlainHolds(f, form[f], s.raw)
  }

  ghost predicate BracketsOk(form: Form, visited: set<string>, s: State) {
    && (forall f | f in visited && f in form && form[f] != [] && '[' in f :: Parse(f).Nested?)
    && (forall f, root, segments | IsPath(f, root, segments) && f in visited && f in form && form[f] != [] ::
          BracketHolds(root, segments, form[f], s.nested))
  }

  ghost predicate RawOk(form: Form, visited: set<string>, s: State) {
    forall k | k in s.raw ::
      && k in visited && k in form && form[k] != [] && '[' !in k && !s.raw[k].Built?
      && (k == "quantization_config" || k == "components" ==> k in s.used && s.used[k])
  }

  ghost predicate NestedOk(form: Form, visited: set<string>, s: State) {
    && (forall root | root in s.nested :: root in s.used && !s.used[root] && exists keys :: FromField(form, visited, root, keys))
    && (forall root, keys | root in s.nested && IsLeaf(Lookup(s.nested[root], keys)) :: FromField(form, visited, root, keys))
  }

  ghost predicate Contents(form: Form, visited: set<string>, s: State) {
    PlainsOk(form, visited, s) && BracketsOk(form, visited, s) && RawOk(form, visited, s) && NestedOk(form, visited, s)
  }

  lemma PlainIff(field: string)
    ensures Parse(field).Plain? <==> '[' !in field
    ensures Parse(field).Nested? ==> '[' in field
  {
    var open := IndexOf(field, '[');
    if '[' in field {
      assert open < |field|;
    }
  }

  /** A field is the bracket field of one path only, and is read as that path. */
  lemma PathIsParsed(field: string, root: string, segments: seq<Segment>)
    requires IsPath(field, root, segments)
    ensures Parse(field) == Nested(root, segments) && '[' in field && segments != []
  {
    PrintedPathParses(root, segments);
    PlainIff(field);
  }

  lemma ParsedIsPath(field: string)
    requires Parse(field).Nested?
    ensures IsPath(field, Parse(field).root, Parse(field).segments)
  {
    ParsedPathPrints(field);
  }

  lemma FromMore(form: Form, visited: set<string>, field: string, root: string, keys: seq<string>)
    requires FromField(form, visited, root, keys)
    ensures FromField(form, visited + {field}, root, keys)
  {
    var f, segments :| IsPath(f, root, segments) && f in visited && f in form && form[f] != [] && Keys(segments) == keys;
    assert f in visited + {field};
  }

  /** A step that leaves the nested objects alone. */
  lemma NestedStays(form: Form, visited: set<string>, s: State, next: State, field: string)
    requires NestedOk(form, visited, s) && next.nested == s.nested
    requires forall root | root in s.nested :: root in next.used && next.used[root] == s.used[root]
    ensures NestedOk(form, visited + {field}, next)
  {
    hide FromField, Lookup;
    forall root | root in next.nested ensures exists keys :: FromField(form, visited + {field}, root, keys) {
      var keys :| FromField(form, visited, root, keys);
      FromMore(form, visited, field, root, keys);
    }
    forall root, keys | root in next.nested && IsLeaf(Lookup(next.nested[root], keys))
      ensures FromField(form, visited + {field}, root, keys)
    {
      FromMore(form, visited, field, root, keys);
    }
  }

  lemma BracketsStay(form: Form, visited: set<string>, s: State, next: State, field: string)
    requires BracketsOk(form, visited, s) && next.nested == s.nested
    requires field in form && (form[field] == [] || '[' !in field)
    ensures BracketsOk(form, visited + {field}, next)
  {
    hide BracketHolds, IsPath;
    forall f, root, segments | IsPath(f, root, segments) && f in visited + {field} && f in form && form[f] != []
      ensures BracketHolds(root, segments, form[f], next.nested)
    {
      PathIsParsed(f, root, segments);
    }
  }

  /** Members other than the ones a step sets stay as they were. */
  lemma SameMember(f: string, values: seq<string>, raw: map<string, RawValue>, next: map<string, RawValue>)
    requires values != [] && PlainHolds(f, values, raw)
    requires (f in next <==> f in raw) && (f in raw ==> next[f] == raw[f])
    ensures PlainHolds(f, values, next)
  {
  }

  /** What a plain field can ask for. */
  lemma PlainEffect(field: string, values: seq<string>)
    requires values == [] || Parse(field).Plain?
    ensures var e := EffectOf(field, values);
            && !e.Nest?
            && (e.SetText? ==> values != [] && !e.value.Built? && field != "quantization_config" && field != "components")
            && (e.SetJson? ==> values != [])
  {
    hide IsJson, TrimSpace, Parse;
  }

  /** What the step of a plain field may change. */
  lemma PlainMoves(s: State, field: string, values: seq<string>)
    requires Step(s, field, values).Some? && (values == [] || Parse(field).Plain?)
    ensures var next := Step(s, field, values).value;
            && next.nested == s.nested
            && (next.raw == s.raw
                || (values != [] && field in next.raw && next.raw == s.raw[field := next.raw[field]] && !next.raw[field].Built?))
            && (next.used == s.used || (field !in s.used && next.used == s.used[field := true]))
            && ((field == "quantization_config" || field == "components") && next.raw != s.raw ==> next.used == s.used[field := true])
  {
    PlainEffect(field, values);
    hide EffectOf, Parse;
  }

  lemma PlainFieldHolds(s: State, field: string, values: seq<string>)
    requires Step(s, field, values).Some? && values != [] && Parse(field).Plain? && field !in s.raw
    ensures PlainHolds(field, values, Step(s, field, values).value.raw)
  {
    hide IsJson, TrimSpace, Parse;
  }

  /** The plain fields after one more of them. */
  lemma PlainsStay(form: Form, visited: set<string>, s: State, next: State, field: string)
    requires PlainsOk(form, visited, s) && field in form
    requires next.raw == s.raw || (field in next.raw && next.raw == s.raw[field := next.raw[field]])
    requires form[field] != [] ==> PlainHolds(field, form[field], next.raw)
    ensures PlainsOk(form, visited + {field}, next)
  {
    hide PlainHolds;
    forall f | f in visited + {field} && f in form && form[f] != [] && '[' !in f ensures PlainHolds(f, form[f], next.raw) {
      if f != field {
        SameMember(f, form[f], s.raw, next.raw);
      }
    }
  }

  /** A plain field sets its own member of the raw object, or nothing. */
  lemma PlainStep(form: Form, visited: set<string>, s: State, field: string)
    requires Contents(form, visited, s) && field in form && field !in visited && Step(s, field, form[field]).Some?
    requires form[field] == [] || Parse(field).Plain?
    ensures Contents(form, visited + {field}, Step(s, field, form[field]).value)
  {
    hide Step, PlainHolds, PlainsOk, BracketsOk, NestedOk, Parse;
    var next := Step(s, field, form[field]).value;
    PlainMoves(s, field, form[field]);
    if form[field] != [] {
      PlainIff(field);
      PlainFieldHolds(s, field, form[field]);
    }
    NestedUsed(form, visited, s);
    PlainsStay(form, visited, s, next, field);
    NestedStays(form, visited, s, next, field);
    BracketsStay(form, visited, s, next, field);
  }

  lemma NestedUsed(form: Form, visited: set<string>, s: State)
    requires NestedOk(form, visited, s)
    ensures forall root | root in s.nested :: root in s.used
  {
  }

  // ---------------------------------------------------------------------------------------------
  // Bracket fields

  /** Two fields with one key sequence under one root differ in the list mark, and do not both fit. */
  lemma NoLeafYet(form: Form, visited: set<string>, s: State, field: string, root: string, segments: seq<Segment>)
    requires BracketsOk(form, visited, s) && NestedOk(form, visited, s)
    requires field in form && field !in visited && IsPath(field, root, segments) && root in s.nested
    requires Insert(s.nested[root], segments, form[field]).Some?
    ensures Lookup(s.nested[root], Keys(segments)) == None
  {
    hide Insert;
    var members := s.nested[root];
    InsertedIsFound(members, segments, form[field]);
    if Lookup(members, Keys(segments)).Some? {
      var f, path :| IsPath(f, root, path) && f in visited && f in form && form[f] != [] && Keys(path) == Keys(segments);
      assert BracketHolds(root, path, form[f], s.nested);
      SamePath(path, segments);
      assert false;
    }
  }

  /** Paths that are alike in keys and list mark are equal. */
  lemma SamePath(p: seq<Segment>, q: seq<Segment>)
    requires ValidSegments(p) && ValidSegments(q) && Keys(p) == Keys(q) && p[|p| - 1].arrayLeaf == q[|q| - 1].arrayLeaf
    ensures p == q
  {
    var n := |p| - 1;
    assert |p| == |Keys(p)| == |q|;
    forall i | 0 <= i < |p| ensures p[i] == q[i] {
      assert Keys(p)[i] == Keys(q)[i];
      if i < n {
        assert p[..n][i] == p[i] && q[..n][i] == q[i];
      }
    }
  }

  /** The members under a root before a field is inserted. */
  function Under(s: State, root: string): Members { if root in s.nested then s.nested[root] else map[] }

  /** What the step of a bracket field does. */
  lemma BracketMoves(s: State, field: string, values: seq<string>)
    requires Step(s, field, values).Some? && values != [] && !Parse(field).Plain?
    ensures Parse(field).Nested?
    ensures var path, next := Parse(field), Step(s, field, values).value;
            && (path.root == "quantization_config" || path.root == "components")
            && (path.root in s.used ==> !s.used[path.root])
            && Insert(Under(s, path.root), path.segments, values).Some?
            && next == s.(nested := s.nested[path.root := Insert(Under(s, path.root), path.segments, values).value],
                          used := s.used[path.root := false])
  {
    hide Insert, Parse, IsJson, TrimSpace;
  }

  /** The new leaf is there, and every leaf there was. */
  lemma BracketLeaves(form: Form, visited: set<string>, s: State, field: string, root: string, segments: seq<Segment>, out: Members)
    requires BracketsOk(form, visited, s) && NestedOk(form, visited, s) && IsPath(field, root, segments)
    requires field in form && field !in visited && Insert(Under(s, root), segments, form[field]) == Some(out)
    ensures LeafHolds(segments, form[field], out)
    ensures forall keys | IsLeaf(Lookup(Under(s, root), keys)) :: Lookup(out, keys) == Lookup(Under(s, root), keys)
  {
    if root in s.nested {
      NoLeafYet(form, visited, s, field, root, segments);
    }
    hide Insert, BracketsOk, NestedOk;
    InsertedIsFound(Under(s, root), segments, form[field]);
    forall keys | IsLeaf(Lookup(Under(s, root), keys)) ensures Lookup(out, keys) == Lookup(Under(s, root), keys) {
      assert keys != Keys(segments);
      InsertKeepsLeaves(Under(s, root), segments, form[field], keys);
    }
  }

  /** An insertion adds no leaf but its own. */
  lemma {:induction false} InsertAddsOneLeaf(members: Members, path: seq<Segment>, values: seq<string>, keys: seq<string>)
    requires Insert(members, path, values).Some? && IsLeaf(Lookup(Insert(members, path, values).value, keys))
    ensures keys == Keys(path) || Lookup(members, keys) == Lookup(Insert(members, path, values).value, keys)
    decreases |path|
  {
    assert |path| == 1 && |keys| == 1 && keys[0] == path[0].key ==> keys == Keys(path);
    if keys[0] == path[0].key && |path| > 1 && |keys| > 1 {
      var child := if keys[0] in members then members[keys[0]].members else map[];
      assert Keys(path) == [path[0].key] + Keys(path[1..]) && keys == [keys[0]] + keys[1..];
      InsertAddsOneLeaf(child, path[1..], values, keys[1..]);
    }
  }

  /** A bracket field leaves the raw object alone. */
  lemma BracketStepPlains(form: Form, visited: set<string>, s: State, next: State, field: string, root: string)
    requires PlainsOk(form, visited, s) && RawOk(form, visited, s) && '[' in field
    requires next.raw == s.raw && (root in s.used ==> !s.used[root]) && next.used == s.used[root := false]
    ensures PlainsOk(form, visited + {field}, next) && RawOk(form, visited + {field}, next)
  {
    hide PlainHolds;
  }

  lemma BracketStep(form: Form, visited: set<string>, s: State, field: string)
    requires Contents(form, visited, s) && field in form && field !in visited && Step(s, field, form[field]).Some?
    requires form[field] != [] && !Parse(field).Plain?
    ensures Contents(form, visited + {field}, Step(s, field, form[field]).value)
  {
    hide Step, Insert, Parse, PlainsOk, RawOk, BracketsOk, NestedOk, LeafHolds, IsPath, Lookup;
    var next := Step(s, field, form[field]).value;
    BracketMoves(s, field, form[field]);
    ParsedIsPath(field);
    var root, segments := Parse(field).root, Parse(field).segments;
    PlainIff(field);
    BracketStepPlains(form, visited, s, next, field, root);
    BracketLeaves(form, visited, s, field, root, segments, next.nested[root]);
    BracketStepBrackets(form, visited, s, next, field, root, segments);
    BracketStepNested(form, visited, s, next, field, root, segments);
  }

  lemma BracketStepBrackets(
      form: Form, visited: set<string>, s: State, next: State, field: string, root: string, segments: seq<Segment>)
    requires BracketsOk(form, visited, s) && field in form && Parse(field) == Nested(root, segments)
    requires root == "quantization_config" || root == "components"
    requires root in next.nested && next.nested == s.nested[root := next.nested[root]]
    requires IsPath(field, root, segments) && LeafHolds(segments, form[field], next.nested[root])
    requires forall keys | IsLeaf(Lookup(Under(s, root), keys)) :: Lookup(next.nested[root], keys) == Lookup(Under(s, root), keys)
    ensures BracketsOk(form, visited + {field}, next)
  {
    hide IsPath, Lookup, Parse, LeafHolds;
    forall f, r, path | IsPath(f, r, path) && f in visited + {field} && f in form && form[f] != []
      ensures BracketHolds(r, path, form[f], next.nested)
    {
      PathIsParsed(f, r, path);
      PathIsParsed(field, root, segments);
      if f in visited {
        assert BracketHolds(r, path, form[f], s.nested);
        LeafIsLeaf(path, form[f], s.nested[r]);
        if r == root {
          LeafStays(path, form[f], s.nested[r], next.nested[r]);
        }
      }
    }
  }

  lemma LeafIsLeaf(segments: seq<Segment>, values: seq<string>, members: Members)
    requires segments != [] && LeafHolds(segments, values, members)
    ensures IsLeaf(Lookup(members, Keys(segments)))
  {
  }

  lemma LeafStays(segments: seq<Segment>, values: seq<string>, members: Members, next: Members)
    requires segments != [] && LeafHolds(segments, values, members)
    requires Lookup(next, Keys(segments)) == Lookup(members, Keys(segments))
    ensures LeafHolds(segments, values, next)
  {
  }

  lemma BracketStepNested(
      form: Form, visited: set<string>, s: State, next: State, field: string, root: string, segments: seq<Segment>)
    requires NestedOk(form, visited, s) && field in form && form[field] != [] && IsPath(field, root, segments)
    requires Insert(Under(s, root), segments, form[field]).Some?
    requires next.nested == s.nested[root := Insert(Under(s, root), segments, form[field]).value]
    requires next.used == s.used[root := false]
    ensures NestedOk(form, visited + {field}, next)
  {
    hide IsPath, Lookup, Insert;
    assert FromField(form, visited + {field}, root, Keys(segments));
    forall r | r in next.nested ensures exists keys :: FromField(form, visited + {field}, r, keys) {
      if r != root {
        var keys :| FromField(form, visited, r, keys);
        FromMore(form, visited, field, r, keys);
      }
    }
    forall r, keys | r in next.nested && IsLeaf(Lookup(next.nested[r], keys)) ensures FromField(form, visited + {field}, r, keys) {
      if r == root {
        InsertAddsOneLeaf(Under(s, root), segments, form[field], keys);
        if keys != Keys(segments) {
          NoLeafOfNothing(s, root, keys);
          FromMore(form, visited, field, r, keys);
        }
      } else {
        FromMore(form, visited, field, r, keys);
      }
    }
  }

  lemma NoLeafOfNothing(s: State, root: string, keys: seq<string>)
    requires IsLeaf(Lookup(Under(s, root), keys))
    ensures root in s.nested
  {
  }

  // ---------------------------------------------------------------------------------------------
  // The whole form

  function Seen(order: seq<string>): set<string> { set f | f in order }

  lemma {:induction false} FoldHolds(form: Form, order: seq<string>)
    requires Distinct(order) && (forall f | f in order :: f in form) && Fold(EMPTY, order, form).Some?
    ensures Contents(form, Seen(order), Fold(EMPTY, order, form).value)
    decreases |order|
  {
    if order != [] {
      var n := |order| - 1;
      var before, field := order[..n], order[n];
      assert order == before + [field];
      assert forall f | f in before :: f in order;
      FoldAppend(EMPTY, before, field, form);
      FoldHolds(form, before);
      assert Seen(order) == Seen(before) + {field};
      assert field !in Seen(before);
      var s := Fold(EMPTY, before, form).value;
      hide Contents, Step, Fold;
      if form[field] == [] || Parse(field).Plain? {
        PlainStep(form, Seen(before), s, field);
      } else {
        BracketStep(form, Seen(before), s, field);
      }
    }
  }

  /** A built member has exactly the leaves of the bracket fields under its root. */
  ghost predicate IsBuiltFrom(form: Form, root: string, members: Members) {
    && (exists keys :: FromField(form, form.Keys, root, keys))
    && (forall keys | IsLeaf(Lookup(members, keys)) :: FromField(form, form.Keys, root, keys))
    && (forall field, segments | IsPath(field, root, segments) && field in form && form[field] != [] ::
          LeafHolds(segments, form[field], members))
  }

  /** The bracket field of a path into a built member. */
  ghost predicate LeavesBuilt(field: string, r: map<string, RawValue>) {
    exists root, segments ::
      IsPath(field, root, segments) && (root == "quantization_config" || root == "components") && root in r && r[root].Built?
  }

  /**
   An accepted form is taken in full and nothing is added: every field that has values is a plain field with its
   member, or the bracket field of a path with its leaf; every member comes from such a field, and every leaf too.
   */
  ghost predicate IsRequestOf(form: Form, r: map<string, RawValue>) {
    && (forall field | field in form && form[field] != [] && '[' !in field :: PlainHolds(field, form[field], r))
    && (forall field | field in form && form[field] != [] && '[' in field :: LeavesBuilt(field, r))
    && (forall k | k in r ::
          if r[k].Built? then IsBuiltFrom(form, k, r[k].members) else k in form && form[k] != [] && '[' !in k)
  }

  lemma AcceptedFormHolds(form: Form, order: seq<string>)
    requires Visits(order, form) && Result(form, order).Some?
    ensures IsRequestOf(form, Result(form, order).value)
  {
    var s := Fold(EMPTY, order, form).value;
    FoldHolds(form, order);
    assert Seen(order) == form.Keys;
    var r := Result(form, order).value;
    assert r == s.raw + map root | root in s.nested :: Built(s.nested[root]);
    hide Fold, Result, Visits;
    RequestOf(form, s, r);
  }

  /** A root with bracket fields is an object field that did not come as text. */
  lemma NestedRoot(form: Form, s: State, root: string)
    requires Contents(form, form.Keys, s) && root in s.nested
    ensures (root == "quantization_config" || root == "components") && root !in s.raw
  {
    hide IsPath, Lookup, LeafHolds;
    var keys :| FromField(form, form.Keys, root, keys);
    var field, segments :| IsPath(field, root, segments) && field in form && form[field] != [] && Keys(segments) == keys;
    assert BracketHolds(root, segments, form[field], s.nested);
  }

  /** A blank object field leaves its member to the bracket fields. */
  lemma BlankThenBuilt(field: string, values: seq<string>, raw: map<string, RawValue>, next: map<string, RawValue>)
    requires values != [] && PlainHolds(field, values, raw) && field !in raw
    requires field == "quantization_config" || field == "components"
    requires field in next && next[field].Built?
    ensures PlainHolds(field, values, next)
  {
  }

  lemma PlainsOfRequest(form: Form, s: State, r: map<string, RawValue>)
    requires Contents(form, form.Keys, s)
    requires r == s.raw + map root | root in s.nested :: Built(s.nested[root])
    ensures forall field | field in form && form[field] != [] && '[' !in field :: PlainHolds(field, form[field], r)
  {
    hide BracketsOk, NestedOk, RawOk, PlainHolds;
    forall field | field in form && form[field] != [] && '[' !in field ensures PlainHolds(field, form[field], r) {
      if field in s.nested {
        NestedRoot(form, s, field);
        BlankThenBuilt(field, form[field], s.raw, r);
      } else {
        SameMember(field, form[field], s.raw, r);
      }
    }
  }

  lemma BracketsOfRequest(form: Form, s: State, field: string) returns (root: string, segments: seq<Segment>)
    requires BracketsOk(form, form.Keys, s) && field in form && form[field] != [] && '[' in field
    ensures IsPath(field, root, segments) && BracketHolds(root, segments, form[field], s.nested)
  {
    ParsedIsPath(field);
    root, segments := Parse(field).root, Parse(field).segments;
  }

  lemma BuiltOfRequest(form: Form, s: State, root: string)
    requires BracketsOk(form, form.Keys, s) && NestedOk(form, form.Keys, s) && root in s.nested
    ensures IsBuiltFrom(form, root, s.nested[root])
  {
    hide IsPath, Lookup, FromField, Parse, LeafHolds;
    forall field, segments | IsPath(field, root, segments) && field in form && form[field] != []
      ensures LeafHolds(segments, form[field], s.nested[root])
    {
      assert BracketHolds(root, segments, form[field], s.nested);
    }
  }

  lemma MembersOfRequest(form: Form, s: State, r: map<string, RawValue>, k: string)
    requires Contents(form, form.Keys, s) && k in r
    requires r == s.raw + map root | root in s.nested :: Built(s.nested[root])
    ensures if r[k].Built? then IsBuiltFrom(form, k, r[k].members) else k in form && form[k] != [] && '[' !in k
  {
    hide PlainsOk, IsBuiltFrom, BracketsOk, NestedOk;
    if k in s.nested {
      BuiltOfRequest(form, s, k);
    } else {
      assert r[k] == s.raw[k];
    }
  }

  lemma BracketOfRequest(form: Form, s: State, r: map<string, RawValue>, field: string)
    requires BracketsOk(form, form.Keys, s) && field in form && form[field] != [] && '[' in field
    requires r == s.raw + map root | root in s.nested :: Built(s.nested[root])
    ensures LeavesBuilt(field, r)
  {
    hide IsPath, LeafHolds, BracketsOk;
    var root, segments := BracketsOfRequest(form, s, field);
    assert r[root] == Built(s.nested[root]);
  }

  lemma RequestOf(form: Form, s: State, r: map<string, RawValue>)
    requires Contents(form, form.Keys, s)
    requires r == s.raw + map root | root in s.nested :: Built(s.nested[root])
    ensures IsRequestOf(form, r)
  {
    hide PlainsOk, RawOk, PlainHolds, IsBuiltFrom, BracketsOk, NestedOk, LeavesBuilt;
    PlainsOfRequest(form, s, r);
    forall field | field in form && form[field] != [] && '[' in field ensures LeavesBuilt(field, r) {
      BracketOfRequest(form, s, r, field);
    }
    forall k | k in r ensures if r[k].Built? then IsBuiltFrom(form, k, r[k].members) else k in form && form[k] != [] && '[' !in k {
      MembersOfRequest(form, s, r, k);
    }
  }
}
