/**
 Names that the generated annotations use. If none is used after a definition took it, the
 compiled module means what the schema means; if one is, importing fails or a meaning changes.
 */
module UsageNames {
  import opened Wrappers
  import opened PythonText
  import opened UsageSchema
  import opened UsageMeaning
  import opened UsagePython
  import opened UsageEvaluation
  import opened UsageExpressions
  import opened UsageNodes
  import opened UsageLeaves
  import opened UsageCompilation
  import opened UsageFidelity
  import opened UsageExactness
  import opened UsageConditions

  // ----- the names a node uses -----------------------------------------------------------------------

  /** Names that the annotation of the node looks up when it is evaluated, apart from references. */
  function UsesOf(node: Node): set<string>
    decreases Size(node), 0
  {
    if !node.Dict? || Has(node, "$ref") then {}
    else if Has(node, "anyOf") then (if Get(node, "anyOf").value.Items? then UsesOfAll(Get(node, "anyOf").value.items) else {})
    else if IsText(Get(node, "type"), "null") then {}
    else if IsText(Get(node, "type"), "boolean") then {"bool"}
    else if IsText(Get(node, "type"), "array") then
      {"list", "Annotated", "Field"} + if Has(node, "items") then UsesOf(Get(node, "items").value) else {}
    else if Has(node, "const") || Has(node, "enum") then {"Literal"}
    else
      {"str"} + (if ConstraintsOf(node) == [] then {} else {"Annotated", "Field"})
        + if ValidatorsOf(node) == [] then {} else {"Annotated", "AfterValidator"}
  }

  function UsesOfAll(nodes: seq<Node>): set<string>
    decreases SizeOfItems(nodes), 1
  {
    if nodes == [] then {} else UsesOf(nodes[0]) + UsesOfAll(nodes[1..])
  }

  /** Names that the validators of the node look up when they run. */
  function ChecksOf(node: Node): set<string>
    decreases Size(node), 0
  {
    if !node.Dict? || Has(node, "$ref") then {}
    else if Has(node, "anyOf") then (if Get(node, "anyOf").value.Items? then ChecksOfAll(Get(node, "anyOf").value.items) else {})
    else if IsText(Get(node, "type"), "array") then (if Has(node, "items") then ChecksOf(Get(node, "items").value) else {})
    else
      (if Has(node, "x-utf8-max-bytes") then {"len"} else {}) + (if Has(node, "x-max-decimal") then {"int"} else {})
        + if Has(node, "x-calendar-valid") then {"re", "datetime"} else {}
  }

  function ChecksOfAll(nodes: seq<Node>): set<string>
    decreases SizeOfItems(nodes), 1
  {
    if nodes == [] then {} else ChecksOf(nodes[0]) + ChecksOfAll(nodes[1..])
  }

  /** No annotation of the definition uses a name taken before it, or its own, and no check one taken anywhere. */
  predicate Untaken(definitions: seq<Member>, i: nat)
    requires i < |definitions|
  {
    var nodes := Annotated(definitions[i]);
    forall k | 0 <= k < |nodes| ::
      && UsesOf(nodes[k]) !! Names(definitions[..i]) && OwnOf(definitions[i]) !in UsesOf(nodes[k])
      && ChecksOf(nodes[k]) !! Names(definitions)
  }

  predicate NoTakenUse(definitions: seq<Member>) {
    forall i | 0 <= i < |definitions| :: Untaken(definitions, i)
  }

  // ----- untaken names are usable --------------------------------------------------------------------

  predicate Free(scope: Scope, names: set<string>) {
    forall name | name in names :: Find(scope, name).None?
  }

  lemma {:induction false} ChainUsable(lang: Language, scope: Scope, first: Union, second: Union)
    ensures UsableUnion(lang, scope, Chain(first, second)) <==> UsableUnion(lang, scope, first) && UsableUnion(lang, scope, second)
    decreases first
  {
    if first.More? {
      ChainUsable(lang, scope, first.rest, second);
    }
  }

  predicate Known(scope: Scope, defined: set<string>) {
    forall name | name in defined :: EvalName(scope, name).Some?
  }

  lemma ListUsable(lang: Language, scope: Scope, item: Union, maximum: nat)
    ensures UsableUnion(lang, scope, ListOf(item, maximum)) <==>
      && UsableUnion(lang, scope, item) && Find(scope, "list").None? && Find(scope, "Annotated").None? && Find(scope, "Field").None?
  {
    var field := One(Call("Field", Last(Bound("max_length", maximum))));
    var list := One(Index("list", Last(item)));
    if Find(scope, "Field").Some? {
      NoLengthCall(lang, scope.bound, Find(scope, "Field").value, maximum);
    }
    assert EvaluableMetas(lang, scope, Last(field)) <==> Find(scope, "Field").None?;
    assert UsableItem(lang, scope, list.item) <==> Find(scope, "list").None? && UsableUnion(lang, scope, item);
    assert UsableUnion(lang, scope, list) <==> UsableItem(lang, scope, list.item);
    assert UsableUnion(lang, scope, ListOf(item, maximum)) <==> UsableItem(lang, scope, ListOf(item, maximum).item);
  }

  lemma MetadataUsable(lang: Language, scope: Scope, node: Node)
    requires node.Dict? && Metadata(node) != []
    requires ConstraintsOf(node) != [] ==> Find(scope, "Field").None?
    requires ValidatorsOf(node) != [] ==> Find(scope, "AfterValidator").None?
    ensures EvaluableMetas(lang, scope, ArgsOf(Metadata(node)))
  {
    var metadata := Metadata(node);
    forall k | 0 <= k < |metadata| ensures EvalMeta(lang, scope, [], metadata[k]).Some? {
      if ConstraintsOf(node) == [] {
        assert metadata[k] == ValidatorsOf(node)[k];
      } else if k > 0 {
        assert metadata[k] == ValidatorsOf(node)[k - 1];
      }
    }
    MetadataMeans(World(lang, [], scope), metadata, Null);
  }

  lemma StringUsable(lang: Language, scope: Scope, node: Node)
    requires node.Dict? && IsText(Get(node, "type"), "string") && StringAnnotation(lang, node).Some?
    requires !Has(node, "$ref") && !Has(node, "anyOf") && Free(scope, UsesOf(node))
    ensures UsableUnion(lang, scope, StringUnion(node))
  {
    if Has(node, "const") || Has(node, "enum") {
      assert "Literal" in UsesOf(node);
    } else {
      assert "str" in UsesOf(node);
      TextUsable(lang, scope, node);
    }
  }

  lemma TextUsable(lang: Language, scope: Scope, node: Node)
    requires IsPlainText(node) && IsText(Get(node, "type"), "string") && !Has(node, "$ref") && !Has(node, "anyOf") && Free(scope, UsesOf(node))
    ensures UsableUnion(lang, scope, StringUnion(node))
  {
    assert UsableUnion(lang, scope, One(Name("str")));
    if Metadata(node) != [] {
      assert "Annotated" in UsesOf(node);
      MetadataUsable(lang, scope, node);
      assert UsableItem(lang, scope, StringUnion(node).item);
    }
  }

  /** With the names it uses free, an annotation is usable. */
  lemma {:induction false} UsableNode(lang: Language, scope: Scope, node: Node, defined: set<string>)
    requires node.Dict? && Annotation(lang, node, defined).Some? && Known(scope, defined) && Free(scope, UsesOf(node))
    ensures UsableUnion(lang, scope, UnionOf(node))
    decreases Size(node), 1
  {
    if Has(node, "$ref") {
    } else if Has(node, "anyOf") {
      UsableBranches(lang, scope, Get(node, "anyOf").value.items, defined);
    } else if IsText(Get(node, "type"), "null") {
      assert EvalName(scope, "None").Some?;
    } else if IsText(Get(node, "type"), "boolean") {
      assert "bool" in UsesOf(node);
    } else if IsText(Get(node, "type"), "array") {
      var item := Get(node, "items").value;
      assert "list" in UsesOf(node) && "Annotated" in UsesOf(node) && "Field" in UsesOf(node) && UsesOf(item) <= UsesOf(node);
      UsableNode(lang, scope, item, defined);
      ListUsable(lang, scope, UnionOf(item), NumberAt(node, "maxItems"));
    } else {
      StringUsable(lang, scope, node);
    }
  }

  lemma {:induction false} UsableBranches(lang: Language, scope: Scope, branches: seq<Node>, defined: set<string>)
    requires branches != [] && Annotations(lang, branches, defined).Some? && Known(scope, defined) && Free(scope, UsesOfAll(branches))
    ensures UsableUnion(lang, scope, UnionOfAll(branches))
    decreases SizeOfItems(branches), 0
  {
    UsableNode(lang, scope, branches[0], defined);
    if |branches| > 1 {
      UsableBranches(lang, scope, branches[1..], defined);
      ChainUsable(lang, scope, UnionOf(branches[0]), UnionOfAll(branches[1..]));
    }
  }

  // ----- untaken names keep their meaning --------------------------------------------------------------

  predicate Unbounded(globals: Bindings, names: set<string>) {
    forall name | name in names :: Lookup(globals, name).None?
  }

  lemma TextUntaken(w: World, node: Node, v: Node)
    requires IsPlainText(node) && !Has(node, "$ref") && !Has(node, "anyOf") && IsText(Get(node, "type"), "string")
    requires Constraints(w.lang, node).Some? && Validators(node).Some? && Basic(node)
    requires Free(w.scope, UsesOf(node)) && Unbounded(w.globals, ChecksOf(node))
    ensures TextRead(w, node, v) <==> v.Str? && TextHolds(w.lang, node, v)
  {
    assert "str" in UsesOf(node);
    assert AllowsName(w, "str", v) <==> v.Str?;
    if v.Str? {
      FieldUntaken(w, node, v);
      ChecksUntaken(w, node, v);
      TextParts(w.lang, node, v);
    }
  }

  lemma NoConstraints(node: Node)
    requires node.Dict? && ConstraintsOf(node) == []
    ensures PatternOf(node) == [] && !Has(node, "minLength") && !Has(node, "maxLength")
  {
    assert |ConstraintsOf(node)| ==
      |PatternOf(node)| + |BoundOf(node, "minLength", "min_length")| + |BoundOf(node, "maxLength", "max_length")|;
  }

  lemma FieldUntaken(w: World, node: Node, v: Node)
    requires IsPlainText(node) && !Has(node, "$ref") && !Has(node, "anyOf") && IsText(Get(node, "type"), "string")
    requires Constraints(w.lang, node).Some? && Basic(node) && Free(w.scope, UsesOf(node)) && v.Str?
    ensures (Find(w.scope, "Field").None? ==> PatternRead(w.lang, node, v) && LengthRead(node, v)) <==> ConstraintsAllow(w.lang, node, v.text)
  {
    if ConstraintsOf(node) == [] {
      NoConstraints(node);
    } else {
      assert "Field" in UsesOf(node);
      if Has(node, "pattern") {
        UnitsLength(Get(node, "pattern").value.text);
      }
    }
  }

  predicate ConstraintsAllow(lang: Language, node: Node, t: Text)
    requires node.Dict?
  {
    && (var p := Get(node, "pattern"); p.Some? && p.value.Str? ==> lang.matches(p.value.text, t))
    && (Has(node, "minLength") ==> NumberAt(node, "minLength") <= |t|)
    && (Has(node, "maxLength") ==> |t| <= NumberAt(node, "maxLength"))
  }

  predicate ChecksAllow(lang: Language, node: Node, t: Text)
    requires node.Dict?
  {
    && (Has(node, "x-utf8-max-bytes") ==> IsUnicode(t) && |Utf8(t)| <= NumberAt(node, "x-utf8-max-bytes"))
    && (Has(node, "x-max-decimal") ==> lang.decimal(t)) && (Has(node, "x-calendar-valid") ==> lang.calendar(t))
  }

  lemma ChecksUntaken(w: World, node: Node, v: Node)
    requires IsPlainText(node) && !Has(node, "$ref") && !Has(node, "anyOf") && IsText(Get(node, "type"), "string")
    requires Free(w.scope, UsesOf(node)) && Unbounded(w.globals, ChecksOf(node)) && v.Str?
    ensures (Find(w.scope, "AfterValidator").None? ==> ChecksRead(w.lang, w.globals, node, v)) <==> ChecksAllow(w.lang, node, v.text)
  {
    assert Has(node, "x-utf8-max-bytes") ==> "len" in ChecksOf(node) && LimitOf(node) != [];
    assert Has(node, "x-max-decimal") ==> "int" in ChecksOf(node);
    assert Has(node, "x-calendar-valid") ==> "re" in ChecksOf(node) && "datetime" in ChecksOf(node);
    if ValidatorsOf(node) != [] {
      assert "AfterValidator" in UsesOf(node);
    }
  }

  lemma TextParts(lang: Language, node: Node, v: Node)
    requires node.Dict? && v.Str? && Constraints(lang, node).Some? && Validators(node).Some?
    ensures TextHolds(lang, node, v) <==> ConstraintsAllow(lang, node, v.text) && ChecksAllow(lang, node, v.text)
  {
  }

  /** With the names it uses free and its characters in the basic plane, an annotation keeps its meaning. */
  lemma {:induction false} UntakenKept(w: World, node: Node, defined: set<string>)
    requires node.Dict? && Annotation(w.lang, node, defined).Some? && Basic(node)
    requires Free(w.scope, UsesOf(node)) && Unbounded(w.globals, ChecksOf(node))
    ensures Kept(w, node)
    decreases Size(node), 1
  {
    if Has(node, "$ref") {
    } else if Has(node, "anyOf") {
      UntakenBranches(w, Get(node, "anyOf").value.items, defined);
    } else if IsText(Get(node, "type"), "null") {
    } else if IsText(Get(node, "type"), "boolean") {
      assert "bool" in UsesOf(node);
    } else if IsText(Get(node, "type"), "array") {
      assert UsesOf(Get(node, "items").value) <= UsesOf(node);
      UntakenKept(w, Get(node, "items").value, defined);
    } else if Has(node, "const") || Has(node, "enum") {
      assert Kept(w, node);
    } else {
      forall v ensures TextRead(w, node, v) <==> v.Str? && TextHolds(w.lang, node, v) {
        TextUntaken(w, node, v);
      }
    }
  }

  lemma {:induction false} UntakenBranches(w: World, branches: seq<Node>, defined: set<string>)
    requires Annotations(w.lang, branches, defined).Some? && AllBasic(branches)
    requires Free(w.scope, UsesOfAll(branches)) && Unbounded(w.globals, ChecksOfAll(branches))
    ensures AllKept(w, branches)
    decreases SizeOfItems(branches), 0
  {
    if branches != [] {
      UntakenKept(w, branches[0], defined);
      UntakenBranches(w, branches[1..], defined);
    }
  }

  // ----- the schema --------------------------------------------------------------------------------------

  lemma KnownBefore(lang: Language, definitions: seq<Member>, i: nat, bound: Bindings, own: string)
    requires ImportedTo(lang, definitions, i, bound)
    ensures Known(Scope(bound, own), Names(definitions[..i]))
  {
    forall name | name in Names(definitions[..i]) ensures EvalName(Scope(bound, own), name).Some? {
      var j :| 0 <= j < i && definitions[..i][j].key == name;
      BoundAt(lang, definitions, i, bound, j);
    }
  }

  lemma FreeBefore(lang: Language, definitions: seq<Member>, i: nat, bound: Bindings, own: string, names: set<string>)
    requires ImportedTo(lang, definitions, i, bound) && names !! Names(definitions[..i]) && (own == "" || own !in names)
    ensures Free(Scope(bound, own), names)
  {
    forall name | name in names ensures Find(Scope(bound, own), name).None? {
      Unbound(lang, definitions, i, bound, name);
    }
  }

  lemma AnnotatedAt(lang: Language, definitions: seq<Member>, i: nat, k: nat)
    requires DefineAll(lang, definitions).Some? && i < |definitions| && k < |Annotated(definitions[i])|
    ensures var node := Annotated(definitions[i])[k]; node.Dict? && Annotation(lang, node, Names(definitions[..i])).Some?
  {
    DefinedAt(lang, definitions, i);
    if IsObject(definitions[i].value) {
      ObjectParts(lang, definitions[i], Names(definitions[..i]));
      FieldAnnotated(lang, Get(definitions[i].value, "properties").value.members, Names(definitions[..i]), k);
    } else {
      AliasParts(definitions[i]);
    }
  }

  lemma UntakenUsable(lang: Language, definitions: seq<Member>, i: nat, bound: Bindings)
    requires ImportedTo(lang, definitions, i, bound) && i < |definitions| && Untaken(definitions, i)
    ensures UsableDefinition(lang, bound, definitions[i])
  {
    var nodes := Annotated(definitions[i]);
    var own := OwnOf(definitions[i]);
    KnownBefore(lang, definitions, i, bound, own);
    forall k | 0 <= k < |nodes| ensures UsableUnion(lang, Scope(bound, own), UnionOf(nodes[k])) {
      AnnotatedAt(lang, definitions, i, k);
      FreeBefore(lang, definitions, i, bound, own, UsesOf(nodes[k]));
      UsableNode(lang, Scope(bound, own), nodes[k], Names(definitions[..i]));
    }
  }

  /**
   If no name is used after it was taken, the module can be imported exactly when no union starts
   with two nulls.
   */
  lemma ImportsExactly(lang: Language, definitions: seq<Member>)
    requires DefineAll(lang, definitions).Some? && Distinct(definitions) && NoTakenUse(definitions)
    ensures Load(lang, DefinitionsOf(definitions)).Some? <==> PairFreeSchema(definitions)
  {
    var ds := DefinitionsOf(definitions);
    LoadsExactly(lang, ds);
    forall i | 0 <= i < |definitions| && Load(lang, ds[..i]).Some?
      ensures EvaluableDefinition(lang, Load(lang, ds[..i]).value, ds[i]) <==> PairFreeDefinition(definitions, i)
    {
      var bound := Load(lang, ds[..i]).value;
      DefinitionSplit(lang, definitions, i, bound);
      UntakenUsable(lang, definitions, i, bound);
    }
    if Load(lang, ds).Some? {
      forall i | 0 <= i < |definitions| ensures Load(lang, ds[..i]).Some? {
        LoadedAt(lang, ds, i);
      }
    }
  }

  lemma UntakenDefinitionKept(lang: Language, definitions: seq<Member>, globals: Bindings, i: nat)
    requires Imported(lang, definitions, globals) && i < |definitions| && Untaken(definitions, i) && Basic(definitions[i].value)
    ensures DefinitionKept(lang, definitions, globals, i)
  {
    var nodes, own := Annotated(definitions[i]), OwnOf(definitions[i]);
    LoadedAt(lang, DefinitionsOf(definitions), i);
    DefinedAt(lang, definitions, i);
    forall k | 0 <= k < |nodes| ensures Kept(At(lang, globals, i, own), nodes[k]) {
      AnnotatedAt(lang, definitions, i, k);
      FreeBefore(lang, definitions, i, globals[..i], own, UsesOf(nodes[k]));
      UnboundedAll(lang, definitions, globals, ChecksOf(nodes[k]));
      PartBasic(definitions[i], Names(definitions[..i]), lang, k);
      UntakenKept(At(lang, globals, i, own), nodes[k], Names(definitions[..i]));
    }
  }

  lemma UnboundedAll(lang: Language, definitions: seq<Member>, globals: Bindings, names: set<string>)
    requires Imported(lang, definitions, globals) && names !! Names(definitions)
    ensures Unbounded(globals, names)
  {
    assert DefinitionsOf(definitions)[..|definitions|] == DefinitionsOf(definitions) && definitions[..|definitions|] == definitions;
    forall name | name in names ensures Lookup(globals, name).None? {
      Unbound(lang, definitions, |definitions|, globals, name);
    }
  }

  lemma PartBasic(definition: Member, defined: set<string>, lang: Language, k: nat)
    requires Define(lang, definition, defined).Some? && Basic(definition.value) && k < |Annotated(definition)|
    ensures Basic(Annotated(definition)[k])
  {
    if IsObject(definition.value) {
      ObjectParts(lang, definition, defined);
      MemberBasic(Get(definition.value, "properties").value.members, k);
    } else {
      AliasParts(definition);
    }
  }

  /**
   What the compiler writes reads back as Python definitions, importing them succeeds, and each
   accepts exactly the values that its schema definition allows.
   */
  lemma GeneratedAcceptsWhatConforms(lang: Language, definitions: seq<Member>)
    requires DefineAll(lang, definitions).Some? && Distinct(definitions)
    requires NarrowSchema(definitions) && BasicSchema(definitions) && PairFreeSchema(definitions) && NoTakenUse(definitions)
    ensures ReadAll(DefineAll(lang, definitions).value) == Some(DefinitionsOf(definitions))
    ensures Load(lang, DefinitionsOf(definitions)).Some?
    ensures forall i, v | 0 <= i < |definitions| :: SameMeaning(lang, definitions, Load(lang, DefinitionsOf(definitions)).value, i, v)
    ensures FaithfulThroughout(lang, definitions)
  {
    ImportsExactly(lang, definitions);
    ImportedIsPlaced(lang, definitions);
    var globals := Load(lang, DefinitionsOf(definitions)).value;
    forall i | 0 <= i < |definitions| ensures DefinitionKept(lang, definitions, globals, i) {
      UntakenDefinitionKept(lang, definitions, globals, i);
    }
    FaithfulExactly(lang, definitions);
    assert AllSame(lang, definitions, globals, |definitions|);
  }
}
