/**
 An imported module accepts what the schema allows if none of its parts has lost its meaning;
 `UsageExactness` has the converse.
 */
module UsageFidelity {
  import opened Wrappers
  import opened UsageSchema
  import opened UsageMeaning
  import opened UsagePython
  import opened UsageEvaluation
  import opened UsageExpressions
  import opened UsageNodes
  import opened UsageLeaves

  // ----- where a definition stands -------------------------------------------------------------------

  /** The reader of the schema refuses a repeated key. */
  predicate Distinct(definitions: seq<Member>) {
    forall i, j | 0 <= i < j < |definitions| :: definitions[i].key != definitions[j].key
  }

  /** What the names of the schema are bound to after importing the module. */
  predicate Placed(lang: Language, definitions: seq<Member>, globals: Bindings) {
    && DefineAll(lang, definitions).Some? && Distinct(definitions) && |globals| == |definitions|
    && forall k | 0 <= k < |globals| :: globals[k].0 == definitions[k].key
  }

  /** Inside definition `i`, which is a class of the given name or an alias without one. */
  function At(lang: Language, globals: Bindings, i: nat, own: string): World
    requires i <= |globals|
  {
    World(lang, globals, Scope(globals[..i], own))
  }

  predicate Owns(definitions: seq<Member>, i: nat, own: string) {
    own == "" || (i < |definitions| && own == definitions[i].key)
  }

  /** The generated definition accepts exactly what the schema definition allows. */
  predicate SameMeaning(lang: Language, definitions: seq<Member>, globals: Bindings, i: nat, v: Node)
    requires i < |definitions| && i < |globals|
  {
    Accepts(lang, globals, globals[i].1, v) <==> Conforms(lang, definitions, i, definitions[i].value, v)
  }

  ghost predicate AllSame(lang: Language, definitions: seq<Member>, globals: Bindings, n: nat)
    requires n <= |definitions| && n <= |globals|
  {
    forall i, v | 0 <= i < n :: SameMeaning(lang, definitions, globals, i, v)
  }

  lemma {:induction false} LookupAt(names: Bindings, k: nat)
    requires k < |names| && forall i, j | 0 <= i < j < |names| :: names[i].0 != names[j].0
    ensures Lookup(names, names[k].0) == Some(names[k].1)
  {
    if k < |names| - 1 {
      LookupAt(names[..|names| - 1], k);
    }
  }

  /** A reference stands for the value of the definition it names. */
  lemma ReferenceBound(lang: Language, definitions: seq<Member>, globals: Bindings, i: nat, own: string, name: string)
    requires Placed(lang, definitions, globals) && i <= |definitions| && Owns(definitions, i, own)
    requires name in Names(definitions[..i])
    ensures var j := IndexOf(Keys(definitions[..i]), name);
      j.Some? && EvalName(Scope(globals[..i], own), name) == Some(globals[j.value].1)
  {
    NameFound(definitions[..i], name);
    var j := IndexOf(Keys(definitions[..i]), name).value;
    assert Keys(definitions[..i])[j] == definitions[..i][j].key == definitions[j].key;
    assert own != "" ==> own != name;
    assert globals[..i][j].0 == name;
    LookupAt(globals[..i], j);
  }

  // ----- what keeps its meaning ----------------------------------------------------------------------

  /** Every part of the annotation accepts what its node allows; see `PartsExact`. */
  ghost predicate Kept(w: World, node: Node)
    decreases Size(node), 0
  {
    node.Dict? && !Has(node, "$ref") ==>
      if Has(node, "anyOf") then Get(node, "anyOf").value.Items? ==> AllKept(w, Get(node, "anyOf").value.items)
      else if IsText(Get(node, "type"), "null") then true
      else if IsText(Get(node, "type"), "boolean") then BoolKept(w)
      else if IsText(Get(node, "type"), "array") then Has(node, "items") ==> Kept(w, Get(node, "items").value)
      else if Has(node, "const") then Get(node, "const").value.Str? ==> NoAstral(Get(node, "const").value.text)
      else if Has(node, "enum") then
        var e := Get(node, "enum").value;
        e.Items? && DistinctTexts(e.items) ==> AllNoAstral(e.items)
      else TextKept(w, node)
  }

  ghost predicate AllKept(w: World, nodes: seq<Node>)
    decreases SizeOfItems(nodes), 1
  {
    nodes != [] ==> Kept(w, nodes[0]) && AllKept(w, nodes[1..])
  }

  ghost predicate DefinitionKept(lang: Language, definitions: seq<Member>, globals: Bindings, i: nat)
    requires i < |definitions| && i <= |globals|
  {
    var nodes := Annotated(definitions[i]);
    forall k | 0 <= k < |nodes| :: Kept(At(lang, globals, i, OwnOf(definitions[i])), nodes[k])
  }

  // ----- lists ---------------------------------------------------------------------------------------

  /** No value of the generated module accepts a number. */
  lemma {:induction false} NoNumber(lang: Language, globals: Bindings, t: Value, n: int)
    ensures !Accepts(lang, globals, t, Number(n))
    decreases t
  {
    match t
    case AnnotatedType(inner, _) => NoNumber(lang, globals, inner, n);
    case UnionType(left, right) =>
      NoNumber(lang, globals, left, n);
      NoNumber(lang, globals, right, n);
    case _ =>
  }

  /** So `Field`, when taken, cannot be called with a bound on the length. */
  lemma {:induction false} NoLengthCall(lang: Language, globals: Bindings, t: Value, n: nat)
    ensures !Creates(lang, globals, t, Last(Bound("max_length", n)))
    decreases t
  {
    match t
    case AnnotatedType(inner, _) => NoLengthCall(lang, globals, inner, n);
    case ClassType(_, fields) => NoLengthFields(lang, globals, fields, n);
    case _ =>
  }

  lemma NoLengthFields(lang: Language, globals: Bindings, fields: seq<(string, Value)>, n: nat)
    ensures !AcceptsFields(lang, globals, fields, Dict(Keywords(Last(Bound("max_length", n)))))
  {
    DecimalBack(n);
    var v := Dict(Keywords(Last(Bound("max_length", n))));
    var members := [Member("max_length", Number(n))];
    assert v.members == members && members[0].key == "max_length";
    assert GetMember(members, "max_length") == Some(Number(n));
    if AcceptsFields(lang, globals, fields, v) {
      assert HasField(fields, v.members[0].key);
      var i :| 0 <= i < |fields| && fields[i].0 == "max_length";
      assert Get(v, fields[i].0) == Some(Number(n));
      NoNumber(lang, globals, fields[i].1, n);
    }
  }

  lemma ListEvaluates(lang: Language, scope: Scope, item: Union)
    ensures EvaluableUnion(lang, scope, One(Index("list", Last(item)))) <==> Find(scope, "list").None? && EvaluableUnion(lang, scope, item)
  {
    var list := One(Index("list", Last(item)));
    assert EvaluableUnion(lang, scope, list) <==> EvaluableItem(lang, scope, list.item);
    assert "list" != "Literal" && "list" != "Annotated";
  }

  lemma ListAllows(w: World, item: Union, maximum: nat, v: Node)
    requires EvaluableItems(w.lang, w.scope, ListOf(item, maximum))
    ensures EvaluableUnion(w.lang, w.scope, item)
    ensures AllowsUnion(w, ListOf(item, maximum), v) <==>
      v.Items? && |v.items| <= maximum && forall k | 0 <= k < |v.items| :: AllowsUnion(w, item, v.items[k])
  {
    var bound := Bound("max_length", maximum);
    var field := One(Call("Field", Last(bound)));
    assert EvaluableItem(w.lang, w.scope, ListOf(item, maximum).item);
    assert EvalMeta(w.lang, w.scope, [], field).Some?;
    if Find(w.scope, "Field").Some? {
      NoLengthCall(w.lang, w.scope.bound, Find(w.scope, "Field").value, maximum);
    }
    assert ArgsOf([bound]) == Last(bound);
    BoundReads(w.lang, "max_length", maximum, v);
    assert MetasAllow(w, Last(field), v) <==> ConstraintHolds(w.lang, bound, v);
    assert EvaluableUnion(w.lang, w.scope, One(Index("list", Last(item))));
    ListEvaluates(w.lang, w.scope, item);
    assert AllowsItem(w, Index("list", Last(item)), v) <==>
      v.Items? && forall k | 0 <= k < |v.items| :: AllowsUnion(w, item, v.items[k]);
    assert AllowsUnion(w, One(Index("list", Last(item))), v) <==>
      v.Items? && forall k | 0 <= k < |v.items| :: AllowsUnion(w, item, v.items[k]);
  }

  // ----- unions --------------------------------------------------------------------------------------

  lemma {:induction false} ChainAllows(w: World, first: Union, second: Union, v: Node)
    ensures AllowsUnion(w, Chain(first, second), v) <==> AllowsUnion(w, first, v) || AllowsUnion(w, second, v)
    ensures EvaluableItems(w.lang, w.scope, Chain(first, second)) <==>
      EvaluableItems(w.lang, w.scope, first) && EvaluableItems(w.lang, w.scope, second)
    decreases first
  {
    if first.More? {
      ChainAllows(w, first.rest, second, v);
    }
  }

  // ----- strings -------------------------------------------------------------------------------------

  lemma StringFaithful(w: World, definitions: seq<Member>, i: nat, node: Node, v: Node)
    requires i <= |definitions| && node.Dict? && IsText(Get(node, "type"), "string") && StringAnnotation(w.lang, node).Some?
    requires !Has(node, "$ref") && !Has(node, "anyOf") && Kept(w, node) && EvaluableItems(w.lang, w.scope, StringUnion(node))
    ensures AllowsUnion(w, StringUnion(node), v) <==> Conforms(w.lang, definitions, i, node, v)
  {
    if Has(node, "const") {
      ConstConforms(w.lang, definitions, i, node, v);
      LiteralsFaithful(w, [Get(node, "const").value]);
    } else if Has(node, "enum") {
      EnumConforms(w.lang, definitions, i, node, v);
      LiteralsFaithful(w, Get(node, "enum").value.items);
    } else {
      StringConforms(w.lang, definitions, i, node, v);
      TextReads(w, node, v);
    }
  }

  // ----- the induction over the schema -----------------------------------------------------------------

  /** An annotation accepts what its node allows. */
  lemma {:induction false} NodeFaithful(lang: Language, definitions: seq<Member>, globals: Bindings, i: nat, own: string, node: Node, v: Node)
    requires Placed(lang, definitions, globals) && i <= |definitions| && Owns(definitions, i, own) && AllSame(lang, definitions, globals, i)
    requires node.Dict? && Annotation(lang, node, Names(definitions[..i])).Some?
    requires Kept(At(lang, globals, i, own), node) && EvaluableItems(lang, Scope(globals[..i], own), UnionOf(node))
    ensures AllowsUnion(At(lang, globals, i, own), UnionOf(node), v) <==> Conforms(lang, definitions, i, node, v)
    decreases Size(node), 1
  {
    var w := At(lang, globals, i, own);
    if Has(node, "$ref") {
      ReferenceFaithful(lang, definitions, globals, i, own, node, v);
    } else if Has(node, "anyOf") {
      UnionConforms(lang, definitions, i, node, v);
      BranchesFaithful(lang, definitions, globals, i, own, Get(node, "anyOf").value.items, v);
    } else if IsText(Get(node, "type"), "null") {
      TypeConforms(lang, definitions, i, node, v);
      NullUntaken(lang, definitions, globals, i, own);
    } else if IsText(Get(node, "type"), "boolean") {
      TypeConforms(lang, definitions, i, node, v);
      assert AllowsName(w, "bool", v) <==> v.Flag?;
    } else if IsText(Get(node, "type"), "array") {
      ArrayFaithful(lang, definitions, globals, i, own, node, v);
    } else {
      StringFaithful(w, definitions, i, node, v);
    }
  }

  /** `None` is a keyword, so no definition takes it. */
  lemma NullUntaken(lang: Language, definitions: seq<Member>, globals: Bindings, i: nat, own: string)
    requires Placed(lang, definitions, globals) && i <= |definitions| && Owns(definitions, i, own)
    ensures EvalName(Scope(globals[..i], own), "None") == Some(NoneType)
  {
    forall k | 0 <= k < |definitions| ensures definitions[k].key != "None" {
      DefinedAt(lang, definitions, k);
    }
  }

  lemma ReferenceFaithful(lang: Language, definitions: seq<Member>, globals: Bindings, i: nat, own: string, node: Node, v: Node)
    requires Placed(lang, definitions, globals) && i <= |definitions| && Owns(definitions, i, own) && AllSame(lang, definitions, globals, i)
    requires node.Dict? && Has(node, "$ref") && Annotation(lang, node, Names(definitions[..i])).Some?
    ensures AllowsUnion(At(lang, globals, i, own), UnionOf(node), v) <==> Conforms(lang, definitions, i, node, v)
  {
    ReferenceConforms(lang, definitions, i, node, v);
    var name := Referred(Get(node, "$ref").value).value;
    ReferenceBound(lang, definitions, globals, i, own, name);
    assert SameMeaning(lang, definitions, globals, IndexOf(Keys(definitions[..i]), name).value, v);
  }

  lemma {:induction false} ArrayFaithful(lang: Language, definitions: seq<Member>, globals: Bindings, i: nat, own: string, node: Node, v: Node)
    requires Placed(lang, definitions, globals) && i <= |definitions| && Owns(definitions, i, own) && AllSame(lang, definitions, globals, i)
    requires node.Dict? && Annotation(lang, node, Names(definitions[..i])).Some?
    requires !Has(node, "$ref") && !Has(node, "anyOf") && IsText(Get(node, "type"), "array")
    requires Kept(At(lang, globals, i, own), node) && EvaluableItems(lang, Scope(globals[..i], own), UnionOf(node))
    ensures AllowsUnion(At(lang, globals, i, own), UnionOf(node), v) <==> Conforms(lang, definitions, i, node, v)
    decreases Size(node), 0
  {
    var w, item := At(lang, globals, i, own), Get(node, "items").value;
    ListConforms(lang, definitions, i, node, v);
    ListAllows(w, UnionOf(item), NumberAt(node, "maxItems"), v);
    if v.Items? {
      forall k | 0 <= k < |v.items|
        ensures AllowsUnion(w, UnionOf(item), v.items[k]) <==> Conforms(lang, definitions, i, item, v.items[k])
      {
        NodeFaithful(lang, definitions, globals, i, own, item, v.items[k]);
      }
    }
  }

  lemma {:induction false} BranchesFaithful(lang: Language, definitions: seq<Member>, globals: Bindings, i: nat, own: string, branches: seq<Node>, v: Node)
    requires Placed(lang, definitions, globals) && i <= |definitions| && Owns(definitions, i, own) && AllSame(lang, definitions, globals, i)
    requires branches != [] && Annotations(lang, branches, Names(definitions[..i])).Some?
    requires AllKept(At(lang, globals, i, own), branches) && EvaluableItems(lang, Scope(globals[..i], own), UnionOfAll(branches))
    ensures AllowsUnion(At(lang, globals, i, own), UnionOfAll(branches), v) <==> AnyConforms(lang, definitions, i, branches, v)
    decreases SizeOfItems(branches), 0
  {
    if |branches| > 1 {
      ChainAllows(At(lang, globals, i, own), UnionOf(branches[0]), UnionOfAll(branches[1..]), v);
      BranchesFaithful(lang, definitions, globals, i, own, branches[1..], v);
    }
    NodeFaithful(lang, definitions, globals, i, own, branches[0], v);
  }

  // ----- definitions -----------------------------------------------------------------------------------

  /** The value of a definition, as importing the module leaves it. */
  predicate Imported(lang: Language, definitions: seq<Member>, globals: Bindings) {
    Placed(lang, definitions, globals) && Load(lang, DefinitionsOf(definitions)) == Some(globals)
  }

  lemma ImportedIsPlaced(lang: Language, definitions: seq<Member>)
    requires DefineAll(lang, definitions).Some? && Distinct(definitions) && Load(lang, DefinitionsOf(definitions)).Some?
    ensures Imported(lang, definitions, Load(lang, DefinitionsOf(definitions)).value)
  {
  }

  lemma AliasValue(lang: Language, definitions: seq<Member>, globals: Bindings, i: nat, v: Node)
    requires Imported(lang, definitions, globals) && i < |definitions| && !IsObject(definitions[i].value)
    ensures var (w, union) := (At(lang, globals, i, ""), UnionOf(definitions[i].value));
      && EvaluableUnion(lang, w.scope, union)
      && (Accepts(lang, globals, globals[i].1, v) <==> AllowsUnion(w, union, v))
  {
    var w := At(lang, globals, i, "");
    LoadedAt(lang, DefinitionsOf(definitions), i);
    UnionEvaluates(lang, w.scope, [i], UnionOf(definitions[i].value));
    UnionAccepts(w, [i], UnionOf(definitions[i].value), v);
  }

  lemma FieldValue(lang: Language, definitions: seq<Member>, globals: Bindings, i: nat, k: nat, v: Node)
    requires Imported(lang, definitions, globals) && i < |definitions| && IsObject(definitions[i].value)
    requires Define(lang, definitions[i], Names(definitions[..i])).Some?
    requires k < |Get(definitions[i].value, "properties").value.members|
    ensures globals[i].1.ClassType? && |globals[i].1.fields| == |Get(definitions[i].value, "properties").value.members|
    ensures var (w, property) := (At(lang, globals, i, definitions[i].key), Get(definitions[i].value, "properties").value.members[k]);
      && globals[i].1.fields[k].0 == property.key && EvaluableUnion(lang, w.scope, UnionOf(property.value))
      && (Accepts(lang, globals, globals[i].1.fields[k].1, v) <==> AllowsUnion(w, UnionOf(property.value), v))
  {
    var w := At(lang, globals, i, definitions[i].key);
    var fields := FieldsOf(Get(definitions[i].value, "properties").value.members);
    LoadedAt(lang, DefinitionsOf(definitions), i);
    assert DefinitionsOf(definitions)[i] == ClassOf(definitions[i].key, fields);
    FieldsEvaluate(lang, w.scope, [i], fields);
    UnionEvaluates(lang, w.scope, [i] + [k], fields[k].1);
    UnionAccepts(w, [i] + [k], fields[k].1, v);
  }

  predicate MemberAccepted(lang: Language, globals: Bindings, field: (string, Value), v: Node)
    requires v.Dict?
  {
    Has(v, field.0) && Accepts(lang, globals, field.1, Get(v, field.0).value)
  }

  predicate AllAccepted(lang: Language, globals: Bindings, fields: seq<(string, Value)>, v: Node)
    requires v.Dict?
  {
    forall k | 0 <= k < |fields| :: MemberAccepted(lang, globals, fields[k], v)
  }

  lemma FieldsAccept(lang: Language, globals: Bindings, fields: seq<(string, Value)>, properties: seq<Member>, v: Node)
    requires v.Dict? && |fields| == |properties| && forall k | 0 <= k < |fields| :: fields[k].0 == properties[k].key
    ensures AcceptsFields(lang, globals, fields, v) <==>
      NoOthers(properties, v) && AllAccepted(lang, globals, fields, v)
  {
    forall name: string ensures HasField(fields, name) <==> HasKey(properties, name) {
      if HasField(fields, name) {
        var k :| 0 <= k < |fields| && fields[k].0 == name;
        assert properties[k].key == name;
      }
      if HasKey(properties, name) {
        var k :| 0 <= k < |properties| && properties[k].key == name;
        assert fields[k].0 == name;
      }
    }
  }

  lemma MemberFaithful(lang: Language, definitions: seq<Member>, globals: Bindings, i: nat, k: nat, v: Node)
    requires Imported(lang, definitions, globals) && i < |definitions| && IsObject(definitions[i].value) && v.Dict?
    requires AllSame(lang, definitions, globals, i) && DefinitionKept(lang, definitions, globals, i)
    requires Define(lang, definitions[i], Names(definitions[..i])).Some?
    requires k < |Get(definitions[i].value, "properties").value.members|
    ensures var property := Get(definitions[i].value, "properties").value.members[k];
      && globals[i].1.ClassType? && k < |globals[i].1.fields|
      && (MemberAccepted(lang, globals, globals[i].1.fields[k], v) <==> MemberConforms(lang, definitions, i, property, v))
  {
    var properties := Get(definitions[i].value, "properties").value.members;
    var own := definitions[i].key;
    ObjectParts(lang, definitions[i], Names(definitions[..i]));
    assert Kept(At(lang, globals, i, own), Annotated(definitions[i])[k]);
    FieldAnnotated(lang, properties, Names(definitions[..i]), k);
    FieldValue(lang, definitions, globals, i, k, Null);
    if Has(v, properties[k].key) {
      FieldValue(lang, definitions, globals, i, k, Get(v, properties[k].key).value);
      NodeFaithful(lang, definitions, globals, i, own, properties[k].value, Get(v, properties[k].key).value);
    }
  }

  lemma ClassValue(lang: Language, definitions: seq<Member>, globals: Bindings, i: nat)
    requires Imported(lang, definitions, globals) && i < |definitions| && IsObject(definitions[i].value)
    requires Define(lang, definitions[i], Names(definitions[..i])).Some?
    ensures var properties := Get(definitions[i].value, "properties").value.members;
      && globals[i].1.ClassType? && |globals[i].1.fields| == |properties|
      && forall k | 0 <= k < |properties| :: globals[i].1.fields[k].0 == properties[k].key
  {
    var properties := Get(definitions[i].value, "properties").value.members;
    FieldValue(lang, definitions, globals, i, 0, Null);
    forall k | 0 <= k < |properties| ensures globals[i].1.fields[k].0 == properties[k].key {
      FieldValue(lang, definitions, globals, i, k, Null);
    }
  }

  lemma ClassAccepts(lang: Language, globals: Bindings, t: Value, properties: seq<Member>, v: Node)
    requires t.ClassType? && |t.fields| == |properties| && forall k | 0 <= k < |properties| :: t.fields[k].0 == properties[k].key
    ensures Accepts(lang, globals, t, v) <==> v.Dict? && NoOthers(properties, v) && AllAccepted(lang, globals, t.fields, v)
  {
    if v.Dict? {
      FieldsAccept(lang, globals, t.fields, properties, v);
    }
  }

  lemma ClassFaithful(lang: Language, definitions: seq<Member>, globals: Bindings, i: nat, v: Node)
    requires Imported(lang, definitions, globals) && i < |definitions| && IsObject(definitions[i].value)
    requires AllSame(lang, definitions, globals, i) && DefinitionKept(lang, definitions, globals, i)
    requires Define(lang, definitions[i], Names(definitions[..i])).Some?
    ensures SameMeaning(lang, definitions, globals, i, v)
  {
    var properties := Get(definitions[i].value, "properties").value.members;
    ObjectConforms(lang, definitions, i, definitions[i].value, v);
    ClassValue(lang, definitions, globals, i);
    ClassAccepts(lang, globals, globals[i].1, properties, v);
    if v.Dict? {
      MembersFaithful(lang, definitions, globals, i, v);
    }
  }

  lemma MembersFaithful(lang: Language, definitions: seq<Member>, globals: Bindings, i: nat, v: Node)
    requires Imported(lang, definitions, globals) && i < |definitions| && IsObject(definitions[i].value) && v.Dict?
    requires AllSame(lang, definitions, globals, i) && DefinitionKept(lang, definitions, globals, i)
    requires Define(lang, definitions[i], Names(definitions[..i])).Some?
    ensures var properties := Get(definitions[i].value, "properties").value.members;
      && globals[i].1.ClassType?
      && (AllAccepted(lang, globals, globals[i].1.fields, v) <==>
          forall k | 0 <= k < |properties| :: MemberConforms(lang, definitions, i, properties[k], v))
  {
    var properties := Get(definitions[i].value, "properties").value.members;
    ClassValue(lang, definitions, globals, i);
    forall k | 0 <= k < |properties|
      ensures MemberAccepted(lang, globals, globals[i].1.fields[k], v) <==> MemberConforms(lang, definitions, i, properties[k], v)
    {
      MemberFaithful(lang, definitions, globals, i, k, v);
    }
  }

  /** A generated definition accepts what its schema definition allows, if its parts keep their meaning. */
  lemma DefinitionFaithful(lang: Language, definitions: seq<Member>, globals: Bindings, i: nat, v: Node)
    requires Imported(lang, definitions, globals) && i < |definitions|
    requires AllSame(lang, definitions, globals, i) && DefinitionKept(lang, definitions, globals, i)
    ensures SameMeaning(lang, definitions, globals, i, v)
  {
    DefinedAt(lang, definitions, i);
    if IsObject(definitions[i].value) {
      ClassFaithful(lang, definitions, globals, i, v);
    } else {
      AliasValue(lang, definitions, globals, i, v);
      AliasParts(definitions[i]);
      assert Kept(At(lang, globals, i, ""), Annotated(definitions[i])[0]);
      NodeFaithful(lang, definitions, globals, i, "", definitions[i].value, v);
    }
  }

  ghost predicate Same(lang: Language, definitions: seq<Member>, globals: Bindings, i: nat)
    requires i < |definitions| && i < |globals|
  {
    forall v :: SameMeaning(lang, definitions, globals, i, v)
  }

  lemma OneFaithful(lang: Language, definitions: seq<Member>, globals: Bindings, i: nat)
    requires Imported(lang, definitions, globals) && i < |definitions|
    requires AllSame(lang, definitions, globals, i) && DefinitionKept(lang, definitions, globals, i)
    ensures Same(lang, definitions, globals, i)
  {
    forall v ensures SameMeaning(lang, definitions, globals, i, v) {
      DefinitionFaithful(lang, definitions, globals, i, v);
    }
  }

  lemma OneMore(lang: Language, definitions: seq<Member>, globals: Bindings, i: nat)
    requires i < |definitions| && i < |globals| && AllSame(lang, definitions, globals, i) && Same(lang, definitions, globals, i)
    ensures AllSame(lang, definitions, globals, i + 1)
  {
    forall j, v | 0 <= j < i + 1 ensures SameMeaning(lang, definitions, globals, j, v) {
    }
  }

  lemma {:induction false} AllFaithful(lang: Language, definitions: seq<Member>, globals: Bindings, n: nat)
    requires Imported(lang, definitions, globals) && n <= |definitions|
    requires forall i | 0 <= i < n :: DefinitionKept(lang, definitions, globals, i)
    ensures AllSame(lang, definitions, globals, n)
  {
    if n > 0 {
      var i := n - 1;
      AllFaithful(lang, definitions, globals, i);
      OneFaithful(lang, definitions, globals, i);
      OneMore(lang, definitions, globals, i);
    }
  }
}
