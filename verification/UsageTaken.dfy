/**
 What a taken name does, name by name, in every schema: it makes importing fail, or a part keeps
 its meaning exactly when the new definition happens to allow the same.
 */
module UsageTaken {
  import opened Wrappers
  import opened PythonText
  import opened UsageSchema
  import opened UsageMeaning
  import opened UsagePython
  import opened UsageEvaluation
  import opened UsageExpressions
  import opened UsageNodes
  import opened UsageLeaves
  import opened UsageFidelity
  import opened UsageExactness
  import opened UsageConditions
  import opened UsageNames

  // ----- list, Literal and Annotated ---------------------------------------------------------------

  /** Names that the annotation subscripts, and `Field` where it bounds a list. */
  function Subscripted(node: Node): set<string>
    decreases Size(node), 0
  {
    if !node.Dict? || Has(node, "$ref") then {}
    else if Has(node, "anyOf") then (if Get(node, "anyOf").value.Items? then SubscriptedAll(Get(node, "anyOf").value.items) else {})
    else if IsText(Get(node, "type"), "null") || IsText(Get(node, "type"), "boolean") then {}
    else if IsText(Get(node, "type"), "array") then
      {"list", "Annotated", "Field"} + if Has(node, "items") then Subscripted(Get(node, "items").value) else {}
    else if Has(node, "const") || Has(node, "enum") then {"Literal"}
    else if Metadata(node) == [] then {} else {"Annotated"}
  }

  function SubscriptedAll(nodes: seq<Node>): set<string>
    decreases SizeOfItems(nodes), 1
  {
    if nodes == [] then {} else Subscripted(nodes[0]) + SubscriptedAll(nodes[1..])
  }

  lemma {:induction false} SubscriptedFree(lang: Language, scope: Scope, node: Node, defined: set<string>)
    requires node.Dict? && Annotation(lang, node, defined).Some? && UsableUnion(lang, scope, UnionOf(node))
    ensures Free(scope, Subscripted(node))
    decreases Size(node), 1
  {
    if Has(node, "$ref") {
    } else if Has(node, "anyOf") {
      BranchesFree(lang, scope, Get(node, "anyOf").value.items, defined);
    } else if IsText(Get(node, "type"), "null") || IsText(Get(node, "type"), "boolean") {
    } else if IsText(Get(node, "type"), "array") {
      ListUsable(lang, scope, UnionOf(Get(node, "items").value), NumberAt(node, "maxItems"));
      SubscriptedFree(lang, scope, Get(node, "items").value, defined);
    } else {
      StringFree(lang, scope, node);
    }
  }

  lemma StringFree(lang: Language, scope: Scope, node: Node)
    requires node.Dict? && StringAnnotation(lang, node).Some? && UsableUnion(lang, scope, StringUnion(node))
    ensures Has(node, "const") || Has(node, "enum") ==> Find(scope, "Literal").None?
    ensures !Has(node, "const") && !Has(node, "enum") && Metadata(node) != [] ==> Find(scope, "Annotated").None?
  {
    assert UsableItem(lang, scope, StringUnion(node).item);
  }

  lemma {:induction false} BranchesFree(lang: Language, scope: Scope, branches: seq<Node>, defined: set<string>)
    requires branches != [] && Annotations(lang, branches, defined).Some? && UsableUnion(lang, scope, UnionOfAll(branches))
    ensures Free(scope, SubscriptedAll(branches))
    decreases SizeOfItems(branches), 0
  {
    if |branches| > 1 {
      ChainUsable(lang, scope, UnionOf(branches[0]), UnionOfAll(branches[1..]));
      BranchesFree(lang, scope, branches[1..], defined);
    }
    SubscriptedFree(lang, scope, branches[0], defined);
  }

  /** A name is taken where definition `i` stands: by one before it, or by itself if it is a class. */
  predicate TakenAt(definitions: seq<Member>, i: nat, name: string)
    requires i < |definitions|
  {
    name in Names(definitions[..i]) || (name != "" && OwnOf(definitions[i]) == name)
  }

  lemma TakenIsFound(lang: Language, definitions: seq<Member>, i: nat, bound: Bindings, name: string)
    requires ImportedTo(lang, definitions, i, bound) && i < |definitions| && TakenAt(definitions, i, name)
    ensures Find(Scope(bound, OwnOf(definitions[i])), name).Some?
  {
    if name in Names(definitions[..i]) {
      var j :| 0 <= j < i && definitions[..i][j].key == name;
      BoundAt(lang, definitions, i, bound, j);
    }
  }

  /** Subscripting a taken `list`, `Literal` or `Annotated`, or bounding a list with a taken `Field`, makes importing fail. */
  lemma TakenRaises(lang: Language, definitions: seq<Member>, i: nat, k: nat, name: string)
    requires DefineAll(lang, definitions).Some? && Distinct(definitions) && i < |definitions| && k < |Annotated(definitions[i])|
    requires name in Subscripted(Annotated(definitions[i])[k]) && TakenAt(definitions, i, name)
    ensures Load(lang, DefinitionsOf(definitions)).None?
  {
    if Load(lang, DefinitionsOf(definitions)).Some? {
      var node, bound := Annotated(definitions[i])[k], Load(lang, DefinitionsOf(definitions)).value[..i];
      ImportedIsPlaced(lang, definitions);
      LoadedAt(lang, DefinitionsOf(definitions), i);
      PartEvaluable(lang, definitions, Load(lang, DefinitionsOf(definitions)).value, i, k);
      KnownNulls(lang, definitions, i, bound, OwnOf(definitions[i]));
      UnionSplit(lang, definitions, i, Scope(bound, OwnOf(definitions[i])), UnionOf(node));
      SubscriptedFree(lang, Scope(bound, OwnOf(definitions[i])), node, Names(definitions[..i]));
      TakenIsFound(lang, definitions, i, bound, name);
    }
  }

  // ----- bool and str ------------------------------------------------------------------------------

  /** The definition that took a name. */
  predicate TookName(definitions: seq<Member>, i: nat, j: nat, name: string) {
    j < i < |definitions| && definitions[j].key == name && OwnOf(definitions[i]) != name
  }

  lemma NameMeans(lang: Language, definitions: seq<Member>, globals: Bindings, i: nat, j: nat, name: string, v: Node)
    requires Imported(lang, definitions, globals) && TookName(definitions, i, j, name) && SameMeaning(lang, definitions, globals, j, v)
    ensures AllowsName(At(lang, globals, i, OwnOf(definitions[i])), name, v) <==> Conforms(lang, definitions, j, definitions[j].value, v)
  {
    LoadedAt(lang, DefinitionsOf(definitions), i);
    BoundAt(lang, definitions, i, globals[..i], j);
  }

  /** A boolean part keeps its meaning exactly when the definition that took `bool` allows the booleans and nothing else. */
  lemma TakenBool(lang: Language, definitions: seq<Member>, globals: Bindings, i: nat, j: nat)
    requires Imported(lang, definitions, globals) && TookName(definitions, i, j, "bool") && AllSame(lang, definitions, globals, i)
    ensures BoolKept(At(lang, globals, i, OwnOf(definitions[i]))) <==>
      forall v :: Conforms(lang, definitions, j, definitions[j].value, v) <==> v.Flag?
  {
    forall v
      ensures AllowsName(At(lang, globals, i, OwnOf(definitions[i])), "bool", v) <==> Conforms(lang, definitions, j, definitions[j].value, v)
    {
      assert SameMeaning(lang, definitions, globals, j, v);
      NameMeans(lang, definitions, globals, i, j, "bool", v);
    }
  }

  /** What a string part demands besides being a string. */
  predicate OtherwiseRead(w: World, node: Node, v: Node)
    requires node.Dict?
  {
    && (Find(w.scope, "Field").None? ==> PatternRead(w.lang, node, v) && LengthRead(node, v))
    && (Find(w.scope, "AfterValidator").None? ==> ChecksRead(w.lang, w.globals, node, v))
  }

  /** With `str` taken, a string part accepts what the new definition allows and its constraints admit. */
  lemma TakenStr(lang: Language, definitions: seq<Member>, globals: Bindings, i: nat, j: nat, node: Node)
    requires Imported(lang, definitions, globals) && TookName(definitions, i, j, "str") && AllSame(lang, definitions, globals, i)
    requires IsPlainText(node)
    ensures var w := At(lang, globals, i, OwnOf(definitions[i]));
      TextKept(w, node) <==> forall v ::
        Conforms(lang, definitions, j, definitions[j].value, v) && OtherwiseRead(w, node, v) <==> v.Str? && TextHolds(lang, node, v)
  {
    var w := At(lang, globals, i, OwnOf(definitions[i]));
    forall v
      ensures TextRead(w, node, v) <==> Conforms(lang, definitions, j, definitions[j].value, v) && OtherwiseRead(w, node, v)
    {
      assert SameMeaning(lang, definitions, globals, j, v);
      NameMeans(lang, definitions, globals, i, j, "str", v);
    }
  }

  lemma SelfMeans(lang: Language, globals: Bindings, name: string, v: Node)
    ensures Accepts(lang, globals, SelfType(name), v) ==> v.Dict?
  {
    if Accepts(lang, globals, SelfType(name), v) {
      assert AcceptsFields(lang, globals, Lookup(globals, name).value.fields, v);
    }
  }

  lemma OwnNameMeans(lang: Language, globals: Bindings, i: nat, name: string, v: Node)
    requires i <= |globals| && name != ""
    ensures AllowsName(At(lang, globals, i, name), name, v) ==> v.Dict?
  {
    SelfMeans(lang, globals, name, v);
    assert EvalName(Scope(globals[..i], name), name) == Some(SelfType(name));
  }

  /** Inside a class of that name, a boolean part, or a string part that allows some text, has lost its meaning. */
  lemma OwnNameLost(lang: Language, globals: Bindings, i: nat, node: Node, t: Text)
    requires i <= |globals| && IsPlainText(node) && TextHolds(lang, node, Str(t))
    ensures !BoolKept(At(lang, globals, i, "bool")) && !TextKept(At(lang, globals, i, "str"), node)
  {
    OwnNameMeans(lang, globals, i, "bool", Flag(true));
    assert !AllowsName(At(lang, globals, i, "bool"), "bool", Flag(true));
    OwnNameMeans(lang, globals, i, "str", Str(t));
    assert !TextRead(At(lang, globals, i, "str"), node, Str(t));
  }

  // ----- Field and AfterValidator --------------------------------------------------------------------

  /** A text node, compiled. */
  predicate CompiledText(lang: Language, node: Node) {
    IsPlainText(node) && Constraints(lang, node).Some? && Validators(node).Some?
  }

  lemma ConstraintsReadText(lang: Language, node: Node, t: Text)
    requires CompiledText(lang, node) && Basic(node)
    ensures PatternRead(lang, node, Str(t)) && LengthRead(node, Str(t)) <==> ConstraintsAllow(lang, node, t)
  {
    var p := Get(node, "pattern");
    if p.Some? && p.value.Str? {
      UnitsLength(p.value.text);
    }
  }

  lemma ChecksReadText(lang: Language, globals: Bindings, node: Node, t: Text)
    requires node.Dict? && Unbounded(globals, {"len", "int", "re", "datetime"})
    ensures ChecksRead(lang, globals, node, Str(t)) <==> ChecksAllow(lang, node, t)
  {
    assert Lookup(globals, "len").None? && Lookup(globals, "int").None? && Lookup(globals, "re").None? && Lookup(globals, "datetime").None?;
  }

  lemma StringNames(w: World, v: Node)
    requires Find(w.scope, "str").None?
    ensures AllowsName(w, "str", v) <==> v.Str?
  {
  }

  /** With `AfterValidator` taken and importing possible, the checks are lost: a part keeps its meaning if they refuse nothing. */
  lemma TakenAfterValidator(w: World, node: Node)
    requires CompiledText(w.lang, node) && Basic(node)
    requires Find(w.scope, "str").None? && Find(w.scope, "Field").None? && Find(w.scope, "AfterValidator").Some?
    ensures TextKept(w, node) <==> forall t :: ConstraintsAllow(w.lang, node, t) ==> ChecksAllow(w.lang, node, t)
  {
    forall v
      ensures TextRead(w, node, v) <==> v.Str? && ConstraintsAllow(w.lang, node, v.text)
      ensures v.Str? ==> (TextHolds(w.lang, node, v) <==> ConstraintsAllow(w.lang, node, v.text) && ChecksAllow(w.lang, node, v.text))
    {
      StringNames(w, v);
      if v.Str? {
        ConstraintsReadText(w.lang, node, v.text);
        TextParts(w.lang, node, v);
      }
    }
    if TextKept(w, node) {
      forall t | ConstraintsAllow(w.lang, node, t) ensures ChecksAllow(w.lang, node, t) {
        assert TextRead(w, node, Str(t));
      }
    }
  }

  /** With `Field` taken and importing possible, the constraints are lost. */
  lemma TakenField(w: World, node: Node)
    requires CompiledText(w.lang, node) && Unbounded(w.globals, {"len", "int", "re", "datetime"})
    requires Find(w.scope, "str").None? && Find(w.scope, "Field").Some? && Find(w.scope, "AfterValidator").None?
    ensures TextKept(w, node) <==> forall t :: ChecksAllow(w.lang, node, t) ==> ConstraintsAllow(w.lang, node, t)
  {
    forall v
      ensures TextRead(w, node, v) <==> v.Str? && ChecksAllow(w.lang, node, v.text)
      ensures v.Str? ==> (TextHolds(w.lang, node, v) <==> ConstraintsAllow(w.lang, node, v.text) && ChecksAllow(w.lang, node, v.text))
    {
      StringNames(w, v);
      if v.Str? {
        ChecksReadText(w.lang, w.globals, node, v.text);
        TextParts(w.lang, node, v);
      }
    }
    if TextKept(w, node) {
      forall t | ChecksAllow(w.lang, node, t) ensures ConstraintsAllow(w.lang, node, t) {
        assert TextRead(w, node, Str(t));
      }
    }
  }

  // ----- len, int, re and datetime ---------------------------------------------------------------------

  /** A check that uses a taken name refuses everything, unless the name calls `bool`. */
  predicate Refuses(globals: Bindings, node: Node)
    requires node.Dict?
  {
    || (Has(node, "x-utf8-max-bytes") && Lookup(globals, "len").Some? && !CallsBool(Lookup(globals, "len").value))
    || (Has(node, "x-max-decimal") && Lookup(globals, "int").Some? && !CallsBool(Lookup(globals, "int").value))
    || (Has(node, "x-calendar-valid") && (Lookup(globals, "re").Some? || Lookup(globals, "datetime").Some?))
  }

  /** A check that refuses everything keeps the meaning of a part exactly when the part allows nothing anyway. */
  lemma TakenCheckRefuses(w: World, node: Node)
    requires CompiledText(w.lang, node) && Find(w.scope, "AfterValidator").None? && Refuses(w.globals, node)
    ensures forall v :: !TextRead(w, node, v)
    ensures TextKept(w, node) <==> forall t :: !TextHolds(w.lang, node, Str(t))
  {
    forall v: Node ensures !TextRead(w, node, v) {
      assert !ChecksRead(w.lang, w.globals, node, v);
    }
    if forall t :: !TextHolds(w.lang, node, Str(t)) {
      forall v: Node ensures !(v.Str? && TextHolds(w.lang, node, v)) {
        if v.Str? {
          assert v == Str(v.text);
        }
      }
    }
  }

  /** The checks that are left when `len` or `int` calls `bool`: texts still have to be encoded. */
  predicate ChecksLeft(lang: Language, globals: Bindings, node: Node, t: Text)
    requires node.Dict?
  {
    && (Has(node, "x-utf8-max-bytes") ==> IsUnicode(t) && (Lookup(globals, "len").None? ==> |Utf8(t)| <= NumberAt(node, "x-utf8-max-bytes")))
    && (Has(node, "x-max-decimal") && Lookup(globals, "int").None? ==> lang.decimal(t))
    && (Has(node, "x-calendar-valid") ==> lang.calendar(t))
  }

  /** A check that passes everything keeps the meaning exactly when the rest already implies it. */
  lemma TakenCheckPasses(w: World, node: Node)
    requires CompiledText(w.lang, node) && Basic(node) && !Refuses(w.globals, node)
    requires Find(w.scope, "str").None? && Find(w.scope, "Field").None? && Find(w.scope, "AfterValidator").None?
    ensures TextKept(w, node) <==>
      forall t :: ConstraintsAllow(w.lang, node, t) && ChecksLeft(w.lang, w.globals, node, t) ==> ChecksAllow(w.lang, node, t)
  {
    forall v
      ensures TextRead(w, node, v) <==> v.Str? && ConstraintsAllow(w.lang, node, v.text) && ChecksLeft(w.lang, w.globals, node, v.text)
      ensures v.Str? ==> (TextHolds(w.lang, node, v) <==> ConstraintsAllow(w.lang, node, v.text) && ChecksAllow(w.lang, node, v.text))
    {
      StringNames(w, v);
      if v.Str? {
        ConstraintsReadText(w.lang, node, v.text);
        assert ChecksRead(w.lang, w.globals, node, v) <==> ChecksLeft(w.lang, w.globals, node, v.text);
        TextParts(w.lang, node, v);
      }
    }
    if TextKept(w, node) {
      forall t | ConstraintsAllow(w.lang, node, t) && ChecksLeft(w.lang, w.globals, node, t) ensures ChecksAllow(w.lang, node, t) {
        assert TextRead(w, node, Str(t));
      }
    }
    if forall t :: ConstraintsAllow(w.lang, node, t) && ChecksLeft(w.lang, w.globals, node, t) ==> ChecksAllow(w.lang, node, t) {
      forall v ensures TextRead(w, node, v) <==> v.Str? && TextHolds(w.lang, node, v) {
        if v.Str? && ChecksAllow(w.lang, node, v.text) {
          assert ChecksLeft(w.lang, w.globals, node, v.text);
        }
      }
    }
  }
}
