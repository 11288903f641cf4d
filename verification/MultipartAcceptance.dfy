/** Which images-edits forms are accepted (llmadapter/images_edits.go): exactly those whose fields fit together. */
module MultipartAcceptance {
  import opened CacheKeys
  import opened FormPaths
  import opened FormValues
  import opened MultipartContents
  import opened MultipartForm
  import opened Options

  // ---------------------------------------------------------------------------------------------
  // The condition

  /** A supported plain field; an object field has to be blank or JSON. */
  ghost predicate PlainFits(field: string, values: seq<string>)
    requires values != []
  {
    var trimmed := TrimSpace(values[|values| - 1]);
    match field
    case "n" | "vram_limit" | "stream" | "partial_images" | "output_compression" => true
    case "quantization_config" | "components" => trimmed == "" || IsJson(trimmed)
    case "prompt" | "model" | "size" | "quality" | "response_format" | "output_format" | "background" | "moderation"
      | "safety_identifier" | "user" | "queue_timeout" | "images" | "image" | "mask" | "input_fidelity" | "strength"
      | "steps" | "negative_prompt" | "dtype" | "lora" => true
    case _ => false
  }

  /** A path into an object field, with one value unless it ends in a list. */
  ghost predicate PathFits(root: string, segments: seq<Segment>, values: seq<string>) {
    && (root == "quantization_config" || root == "components")
    && segments != [] && (segments[|segments| - 1].arrayLeaf || |values| == 1)
  }

  ghost predicate BracketFits(field: string, values: seq<string>) {
    exists root, segments :: IsPath(field, root, segments) && PathFits(root, segments, values)
  }

  /** Two bracket fields, neither at nor above the place of the other. */
  ghost predicate Apart(form: Form) {
    forall f, g, root, p, q | IsPath(f, root, p) && IsPath(g, root, q) && f in form && g in form && f != g
                              && form[f] != [] && form[g] != [] :: !(Keys(p) <= Keys(q))
  }

  /** No object comes both as text and as bracket fields. */
  ghost predicate NotMixed(form: Form) {
    forall f, root, p | IsPath(f, root, p) && f in form && form[f] != [] && root in form && form[root] != [] ::
      TrimSpace(form[root][|form[root]| - 1]) == ""
  }

  ghost predicate FitsTogether(form: Form) {
    && (forall f | f in form && form[f] != [] && '[' !in f :: PlainFits(f, form[f]))
    && (forall f | f in form && form[f] != [] && '[' in f :: BracketFits(f, form[f]))
    && Apart(form) && NotMixed(form)
  }

  // ---------------------------------------------------------------------------------------------
  // Looking up along a path

  /** What has something below it is an object. */
  lemma {:induction false} AboveIsObject(members: Members, keys: seq<string>, longer: seq<string>)
    requires keys != [] && keys < longer && Lookup(members, longer).Some?
    ensures Lookup(members, keys).Some? && Lookup(members, keys).value.Object?
    decreases |keys|
  {
    if |keys| > 1 {
      AboveIsObject(members[keys[0]].members, keys[1..], longer[1..]);
    }
  }

  /** When an insertion goes through: nothing above its place but objects, and at its place nothing, or a list to grow. */
  ghost predicate HasPlace(members: Members, path: seq<Segment>, values: seq<string>) {
    && path != [] && (forall i | 0 <= i < |path| - 1 :: !path[i].arrayLeaf)
    && (forall n | 0 < n < |path| :: !IsLeaf(Lookup(members, Keys(path)[..n])))
    && Leaf(Lookup(members, Keys(path)), path, values).Some?
  }

  lemma {:induction false} InsertHasPlace(members: Members, path: seq<Segment>, values: seq<string>)
    requires HasPlace(members, path, values)
    ensures Insert(members, path, values).Some?
    decreases |path|
  {
    if |path| > 1 {
      var key := path[0].key;
      ChildHasPlace(members, path, values);
      var child := if key in members then members[key].members else map[];
      InsertHasPlace(child, path[1..], values);
      hide HasPlace;
    }
  }

  /** The step into the first key of a longer path. */
  lemma LookupBelow(members: Members, key: string, keys: seq<string>)
    requires keys != [] && (key in members ==> members[key].Object?)
    ensures Lookup(members, [key] + keys) == Lookup(if key in members then members[key].members else map[], keys)
  {
    assert ([key] + keys)[1..] == keys;
  }

  lemma ChildHasPlace(members: Members, path: seq<Segment>, values: seq<string>)
    requires HasPlace(members, path, values) && |path| > 1
    ensures var key := path[0].key;
            && !path[0].arrayLeaf && (key in members ==> members[key].Object?)
            && HasPlace(if key in members then members[key].members else map[], path[1..], values)
  {
    var key := path[0].key;
    assert Keys(path)[..1] == [key] && !path[0].arrayLeaf;
    assert !IsLeaf(Lookup(members, [key]));
    var child := if key in members then members[key].members else map[];
    var below := Keys(path[1..]);
    assert Keys(path) == [key] + below;
    LookupBelow(members, key, below);
    hide Lookup;
    forall n | 0 < n < |path[1..]| ensures !IsLeaf(Lookup(child, below[..n])) {
      assert Keys(path)[..n + 1] == [key] + below[..n];
      LookupBelow(members, key, below[..n]);
    }
  }

  /** The objects after an insertion are those before and those above its place. */
  lemma {:induction false} InsertAddsObjects(members: Members, path: seq<Segment>, values: seq<string>, keys: seq<string>)
    requires Insert(members, path, values).Some?
    requires Lookup(Insert(members, path, values).value, keys).Some? && Lookup(Insert(members, path, values).value, keys).value.Object?
    ensures keys < Keys(path) || (Lookup(members, keys).Some? && Lookup(members, keys).value.Object?)
    decreases |path|
  {
    if keys[0] == path[0].key && |path| > 1 {
      assert Keys(path) == [path[0].key] + Keys(path[1..]) && keys == [keys[0]] + keys[1..];
      if |keys| > 1 {
        var child := if keys[0] in members then members[keys[0]].members else map[];
        InsertAddsObjects(child, path[1..], values, keys[1..]);
      }
    }
  }

  // ---------------------------------------------------------------------------------------------
  // An accepted form fits together

  lemma PlainHoldsFits(field: string, values: seq<string>, raw: map<string, RawValue>)
    requires values != [] && PlainHolds(field, values, raw)
    ensures PlainFits(field, values)
  {
    hide TrimSpace, IsJson;
  }

  lemma ContentsApart(form: Form, s: State)
    requires BracketsOk(form, form.Keys, s)
    ensures Apart(form)
  {
    forall f, g, root, p, q | IsPath(f, root, p) && IsPath(g, root, q) && f in form && g in form && f != g
                              && form[f] != [] && form[g] != [] ensures !(Keys(p) <= Keys(q)) {
      if Keys(p) <= Keys(q) {
        assert BracketHolds(root, p, form[f], s.nested) && BracketHolds(root, q, form[g], s.nested);
        LeavesApart(s.nested[root], p, form[f], q, form[g]);
        SamePath(p, q);
        assert false;
      }
    }
  }

  /** Two leaves that are there at places one at or above the other are one leaf. */
  lemma LeavesApart(members: Members, p: seq<Segment>, vs: seq<string>, q: seq<Segment>, ws: seq<string>)
    requires p != [] && q != [] && LeafHolds(p, vs, members) && LeafHolds(q, ws, members) && Keys(p) <= Keys(q)
    ensures Keys(p) == Keys(q) && p[|p| - 1].arrayLeaf == q[|q| - 1].arrayLeaf
  {
    if Keys(p) != Keys(q) {
      AboveIsObject(members, Keys(p), Keys(q));
    }
  }

  lemma ContentsNotMixed(form: Form, s: State)
    requires Contents(form, form.Keys, s)
    ensures NotMixed(form)
  {
    forall f, root, p | IsPath(f, root, p) && f in form && form[f] != [] && root in form && form[root] != []
      ensures TrimSpace(form[root][|form[root]| - 1]) == ""
    {
      assert BracketHolds(root, p, form[f], s.nested);
      NestedRoot(form, s, root);
      assert PlainHolds(root, form[root], s.raw);
    }
  }

  lemma ContentsFit(form: Form, s: State)
    requires Contents(form, form.Keys, s)
    ensures FitsTogether(form)
  {
    ContentsApart(form, s);
    ContentsNotMixed(form, s);
    hide PlainHolds, BracketHolds, NestedOk, RawOk, Apart, NotMixed;
    forall f | f in form && form[f] != [] && '[' !in f ensures PlainFits(f, form[f]) {
      PlainHoldsFits(f, form[f], s.raw);
    }
    forall f | f in form && form[f] != [] && '[' in f ensures BracketFits(f, form[f]) {
      var root, segments := BracketsOfRequest(form, s, f);
      BracketHoldsFits(root, segments, form[f], s.nested);
    }
  }

  lemma BracketHoldsFits(root: string, segments: seq<Segment>, values: seq<string>, nested: map<string, Members>)
    requires BracketHolds(root, segments, values, nested)
    ensures PathFits(root, segments, values)
  {
  }

  // ---------------------------------------------------------------------------------------------
  // A form that fits together is accepted

  /** Some visited bracket field lies below these keys. */
  ghost predicate Below(form: Form, visited: set<string>, root: string, keys: seq<string>) {
    exists f, p :: IsPath(f, root, p) && f in visited && f in form && form[f] != [] && keys < Keys(p)
  }

  ghost predicate ObjectsOk(form: Form, visited: set<string>, s: State) {
    forall root, keys | root in s.nested && Lookup(s.nested[root], keys).Some? && Lookup(s.nested[root], keys).value.Object? ::
      Below(form, visited, root, keys)
  }

  ghost predicate UsedOk(form: Form, visited: set<string>, s: State) {
    forall k | k in s.used ::
      if s.used[k] then k in visited && k in form && form[k] != [] && TrimSpace(form[k][|form[k]| - 1]) != ""
      else exists keys :: FromField(form, visited, k, keys)
  }

  ghost predicate Ready(form: Form, visited: set<string>, s: State) {
    Contents(form, visited, s) && ObjectsOk(form, visited, s) && UsedOk(form, visited, s)
  }

  /** A bracket field of a form that fits together has its place. */
  lemma PlaceIsFree(form: Form, visited: set<string>, s: State, field: string, root: string, path: seq<Segment>)
    requires NestedOk(form, visited, s) && ObjectsOk(form, visited, s) && Apart(form)
    requires field in form && form[field] != [] && field !in visited && IsPath(field, root, path) && PathFits(root, path, form[field])
    ensures HasPlace(Under(s, root), path, form[field])
  {
    hide Lookup;
    var members := Under(s, root);
    assert forall i | 0 <= i < |path| - 1 :: path[..|path| - 1][i] == path[i];
    forall n | 0 < n < |path| ensures !IsLeaf(Lookup(members, Keys(path)[..n])) {
      if IsLeaf(Lookup(members, Keys(path)[..n])) {
        LeafIsVisited(form, visited, s, field, root, path, n);
      }
    }
    if Lookup(members, Keys(path)).Some? {
      if Lookup(members, Keys(path)).value.Object? {
        ObjectIsVisited(form, visited, s, field, root, path);
      } else {
        assert Keys(path)[..|path|] == Keys(path);
        LeafIsVisited(form, visited, s, field, root, path, |path|);
      }
    }
  }

  lemma LeafIsVisited(form: Form, visited: set<string>, s: State, field: string, root: string, path: seq<Segment>, n: nat)
    requires NestedOk(form, visited, s) && field in form && form[field] != [] && field !in visited && IsPath(field, root, path)
    requires 0 < n <= |path| && IsLeaf(Lookup(Under(s, root), Keys(path)[..n]))
    ensures !Apart(form)
  {
    NoLeafOfNothing(s, root, Keys(path)[..n]);
    var f, p :| IsPath(f, root, p) && f in visited && f in form && form[f] != [] && Keys(p) == Keys(path)[..n];
    assert Keys(p) <= Keys(path);
  }

  lemma ObjectIsVisited(form: Form, visited: set<string>, s: State, field: string, root: string, path: seq<Segment>)
    requires ObjectsOk(form, visited, s) && field in form && form[field] != [] && field !in visited && IsPath(field, root, path)
    requires path != [] && Lookup(Under(s, root), Keys(path)).Some? && Lookup(Under(s, root), Keys(path)).value.Object?
    ensures !Apart(form)
  {
    assert root in s.nested;
    var f, p :| IsPath(f, root, p) && f in visited && f in form && form[f] != [] && Keys(path) < Keys(p);
    assert Keys(path) <= Keys(p);
  }

  /** The object field of a bracket field did not come as text. */
  lemma NotUsedAsText(form: Form, visited: set<string>, s: State, field: string, root: string, path: seq<Segment>)
    requires UsedOk(form, visited, s) && NotMixed(form)
    requires field in form && form[field] != [] && IsPath(field, root, path)
    ensures root in s.used ==> !s.used[root]
  {
    hide TrimSpace;
  }

  lemma BracketStepFits(form: Form, visited: set<string>, s: State, field: string)
    requires Ready(form, visited, s) && FitsTogether(form)
    requires field in form && field !in visited && form[field] != [] && '[' in field
    ensures Step(s, field, form[field]).Some?
  {
    var root, path :| IsPath(field, root, path) && PathFits(root, path, form[field]);
    PathIsParsed(field, root, path);
    NotUsedAsText(form, visited, s, field, root, path);
    PlaceIsFree(form, visited, s, field, root, path);
    InsertHasPlace(Under(s, root), path, form[field]);
    hide *;
    StepInserts(s, field, form[field], root, path);
  }

  lemma StepInserts(s: State, field: string, values: seq<string>, root: string, path: seq<Segment>)
    requires values != [] && Parse(field) == Nested(root, path) && PathFits(root, path, values)
    requires (root in s.used ==> !s.used[root]) && Insert(Under(s, root), path, values).Some?
    ensures Step(s, field, values).Some?
  {
    hide Insert, Parse, TrimSpace, IsJson;
  }

  /** An object field that comes as text was not used before. */
  lemma NotUsedYet(form: Form, visited: set<string>, s: State, field: string)
    requires UsedOk(form, visited, s) && NotMixed(form) && field in form && field !in visited && form[field] != []
    requires TrimSpace(form[field][|form[field]| - 1]) != ""
    ensures field !in s.used
  {
    hide TrimSpace;
  }

  lemma PlainStepFits(form: Form, visited: set<string>, s: State, field: string)
    requires Ready(form, visited, s) && FitsTogether(form)
    requires field in form && field !in visited && form[field] != [] && '[' !in field
    ensures Step(s, field, form[field]).Some?
  {
    assert PlainFits(field, form[field]);
    PlainIff(field);
    if TrimSpace(form[field][|form[field]| - 1]) != "" {
      NotUsedYet(form, visited, s, field);
    }
    hide *;
    StepSets(s, field, form[field]);
  }

  lemma StepSets(s: State, field: string, values: seq<string>)
    requires values != [] && Parse(field).Plain? && PlainFits(field, values)
    requires TrimSpace(values[|values| - 1]) != "" ==> field !in s.used
    ensures Step(s, field, values).Some?
  {
    hide Parse, TrimSpace, IsJson;
  }

  lemma BelowMore(form: Form, visited: set<string>, field: string, root: string, keys: seq<string>)
    requires Below(form, visited, root, keys)
    ensures Below(form, visited + {field}, root, keys)
  {
    var f, p :| IsPath(f, root, p) && f in visited && f in form && form[f] != [] && keys < Keys(p);
    assert f in visited + {field};
  }

  lemma PlainStepReady(form: Form, visited: set<string>, s: State, field: string)
    requires Ready(form, visited, s) && field in form && field !in visited && Step(s, field, form[field]).Some?
    requires form[field] == [] || Parse(field).Plain?
    ensures Ready(form, visited + {field}, Step(s, field, form[field]).value)
  {
    var next := Step(s, field, form[field]).value;
    PlainStep(form, visited, s, field);
    PlainMoves(s, field, form[field]);
    TextIsUsed(s, field, form[field]);
    hide Step, Contents, Lookup, Below, FromField, Parse, TrimSpace;
    forall root, keys | root in next.nested && Lookup(next.nested[root], keys).Some? && Lookup(next.nested[root], keys).value.Object?
      ensures Below(form, visited + {field}, root, keys)
    {
      BelowMore(form, visited, field, root, keys);
    }
    UsedStays(form, visited, s, next, field);
  }

  lemma TextIsUsed(s: State, field: string, values: seq<string>)
    requires Step(s, field, values).Some? && (values == [] || Parse(field).Plain?)
    ensures Step(s, field, values).value.used != s.used ==> values != [] && TrimSpace(values[|values| - 1]) != ""
  {
    hide TrimSpace, IsJson, Parse;
  }

  lemma UsedStays(form: Form, visited: set<string>, s: State, next: State, field: string)
    requires UsedOk(form, visited, s) && field in form
    requires next.used == s.used
             || (next.used == s.used[field := true] && form[field] != [] && TrimSpace(form[field][|form[field]| - 1]) != "")
    ensures UsedOk(form, visited + {field}, next)
  {
    hide FromField, TrimSpace;
    forall k | k in next.used && !next.used[k] ensures exists keys :: FromField(form, visited + {field}, k, keys) {
      var keys :| FromField(form, visited, k, keys);
      FromMore(form, visited, field, k, keys);
    }
  }

  lemma BracketStepReady(form: Form, visited: set<string>, s: State, field: string)
    requires Ready(form, visited, s) && field in form && field !in visited && Step(s, field, form[field]).Some?
    requires form[field] != [] && !Parse(field).Plain?
    ensures Ready(form, visited + {field}, Step(s, field, form[field]).value)
  {
    var next := Step(s, field, form[field]).value;
    BracketStep(form, visited, s, field);
    BracketMoves(s, field, form[field]);
    ParsedIsPath(field);
    var root, path := Parse(field).root, Parse(field).segments;
    hide Step, Contents, Parse, Insert;
    BracketStepObjects(form, visited, s, next, field, root, path);
    BracketStepUsed(form, visited, s, next, field, root, path);
  }

  lemma BracketStepUsed(form: Form, visited: set<string>, s: State, next: State, field: string, root: string, path: seq<Segment>)
    requires UsedOk(form, visited, s) && field in form && form[field] != [] && IsPath(field, root, path)
    requires next.used == s.used[root := false]
    ensures UsedOk(form, visited + {field}, next)
  {
    hide TrimSpace, IsPath;
    assert FromField(form, visited + {field}, root, Keys(path));
    hide FromField;
    forall k | k in next.used && !next.used[k] ensures exists keys :: FromField(form, visited + {field}, k, keys) {
      if k != root {
        var keys :| FromField(form, visited, k, keys);
        FromMore(form, visited, field, k, keys);
      }
    }
  }

  lemma BracketStepObjects(form: Form, visited: set<string>, s: State, next: State, field: string, root: string, path: seq<Segment>)
    requires ObjectsOk(form, visited, s) && field in form && form[field] != [] && IsPath(field, root, path)
    requires Insert(Under(s, root), path, form[field]).Some?
    requires next.nested == s.nested[root := Insert(Under(s, root), path, form[field]).value]
    ensures ObjectsOk(form, visited + {field}, next)
  {
    hide IsPath, Lookup, Insert;
    forall r, keys | r in next.nested && Lookup(next.nested[r], keys).Some? && Lookup(next.nested[r], keys).value.Object?
      ensures Below(form, visited + {field}, r, keys)
    {
      if r == root {
        InsertAddsObjects(Under(s, root), path, form[field], keys);
        if keys < Keys(path) {
          assert field in visited + {field};
        } else {
          NothingBelowNothing(s, root, keys);
          BelowMore(form, visited, field, r, keys);
        }
      } else {
        BelowMore(form, visited, field, r, keys);
      }
    }
  }

  lemma NothingBelowNothing(s: State, root: string, keys: seq<string>)
    requires Lookup(Under(s, root), keys).Some?
    ensures root in s.nested
  {
  }

  lemma OneMoreFits(form: Form, visited: set<string>, s: State, field: string)
    requires Ready(form, visited, s) && FitsTogether(form) && field in form && field !in visited
    ensures Step(s, field, form[field]).Some? && Ready(form, visited + {field}, Step(s, field, form[field]).value)
  {
    hide Ready, Step, FitsTogether, Parse;
    PlainIff(field);
    if form[field] != [] && '[' in field {
      BracketStepFits(form, visited, s, field);
      BracketStepReady(form, visited, s, field);
    } else {
      if form[field] != [] {
        PlainStepFits(form, visited, s, field);
      } else {
        EmptySkips(s, field);
      }
      PlainStepReady(form, visited, s, field);
    }
  }

  lemma {:induction false} FittingFolds(form: Form, order: seq<string>)
    requires FitsTogether(form) && Distinct(order) && forall f | f in order :: f in form
    ensures Fold(EMPTY, order, form).Some? && Ready(form, Seen(order), Fold(EMPTY, order, form).value)
    decreases |order|
  {
    hide FitsTogether;
    if order != [] {
      var n := |order| - 1;
      var before, field := order[..n], order[n];
      assert order == before + [field];
      assert forall f | f in before :: f in order;
      FoldAppend(EMPTY, before, field, form);
      FittingFolds(form, before);
      assert Seen(order) == Seen(before) + {field};
      assert field !in Seen(before);
      hide Ready, Step, Fold;
      OneMoreFits(form, Seen(before), Fold(EMPTY, before, form).value, field);
    }
  }

  lemma EmptySkips(s: State, field: string)
    ensures Step(s, field, []) == Some(s)
  {
  }

  // ---------------------------------------------------------------------------------------------
  // Acceptance

  /** The text becomes a number JSON cannot carry. */
  ghost predicate NotCarried(text: string) {
    var t := TrimSpace(text);
    Spells(t, "nan") || exists sign, word :: sign in {"", "+", "-"} && word in {"inf", "infinity"} && Spells(t, sign + word)
  }

  ghost predicate HasNonFinite(values: seq<string>) {
    exists i :: 0 <= i < |values| && NotCarried(values[i])
  }

  lemma CarriedIff(text: string)
    ensures NonFinite(text) <==> NotCarried(text)
  {
    hide NonFinite, Spells, TrimSpace;
    NonFiniteIs(text);
  }

  lemma NonFiniteValues(values: seq<string>)
    ensures AllFinite(values) <==> !HasNonFinite(values)
  {
    hide NonFinite, NotCarried;
    forall i | 0 <= i < |values| ensures NonFinite(values[i]) <==> NotCarried(values[i]) {
      CarriedIff(values[i]);
    }
  }

  /** A form is accepted exactly when its fields fit together and no bracket field has NaN or an infinity. */
  lemma AcceptedIff(form: Form, order: seq<string>)
    requires Visits(order, form)
    ensures Result(form, order).Some?
            <==> FitsTogether(form) && forall field | field in form && form[field] != [] && '[' in field :: !HasNonFinite(form[field])
  {
    assert Seen(order) == form.Keys;
    if FitsTogether(form) {
      FittingFolds(form, order);
    }
    if Fold(EMPTY, order, form).Some? {
      FoldHolds(form, order);
      ContentsFit(form, Fold(EMPTY, order, form).value);
      EncodesIff(form, order);
      hide FitsTogether, Contents, Fold, HasNonFinite, Visits;
      FiniteFields(form);
    }
  }

  lemma FiniteFields(form: Form)
    requires FitsTogether(form)
    ensures (forall f | f in form :: FiniteField(f, form[f]))
            <==> forall f | f in form && form[f] != [] && '[' in f :: !HasNonFinite(form[f])
  {
    forall f | f in form ensures FiniteField(f, form[f]) <==> (form[f] != [] && '[' in f ==> !HasNonFinite(form[f])) {
      assert form[f] != [] && '[' in f ==> BracketFits(f, form[f]);
      hide *;
      FiniteIff(f, form[f]);
    }
  }

  /** A field of a form that fits together is inserted exactly when it is a bracket field with values. */
  lemma NestsIff(field: string, values: seq<string>)
    requires values != [] && '[' in field ==> BracketFits(field, values)
    ensures EffectOf(field, values).Nest? <==> values != [] && '[' in field
  {
    PlainIff(field);
    if values != [] && '[' in field {
      var root, path :| IsPath(field, root, path) && PathFits(root, path, values);
      PathIsParsed(field, root, path);
      hide BracketFits, Parse, IsPath, TrimSpace, IsJson;
    } else {
      NeverNests(field, values);
    }
  }

  lemma NeverNests(field: string, values: seq<string>)
    requires values == [] || !Parse(field).Nested?
    ensures !EffectOf(field, values).Nest?
  {
    hide Parse, TrimSpace, IsJson, Allowed, IsLiteral, IsObject;
  }

  lemma FiniteIff(field: string, values: seq<string>)
    requires values != [] && '[' in field ==> BracketFits(field, values)
    ensures FiniteField(field, values) <==> (values != [] && '[' in field ==> !HasNonFinite(values))
  {
    NonFiniteValues(values);
    NestsIff(field, values);
    hide BracketFits, AllFinite, HasNonFinite, EffectOf;
  }
}
