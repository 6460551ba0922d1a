/**
 Exactly which schemas the compiled module is faithful to, and a condition on the schema alone
 under which it is: no annotation too wide, no astral constant, no union that starts with two
 nulls, and no name used after it was taken.
 */
module UsageExactness {
  import opened Wrappers
  import opened UsageSchema
  import opened UsageMeaning
  import opened UsagePython
  import opened UsageEvaluation
  import opened UsageExpressions
  import opened UsageNodes
  import opened UsageLeaves
  import opened UsageCompilation
  import opened UsageFidelity

  // ----- part by part ------------------------------------------------------------------------------

  ghost predicate AnnotationSame(w: World, definitions: seq<Member>, i: nat, node: Node)
    requires i <= |definitions|
  {
    forall v :: AllowsUnion(w, UnionOf(node), v) <==> Conforms(w.lang, definitions, i, node, v)
  }

  /**
   Each part that is no reference, union or list accepts exactly what it allows; otherwise one
   branch of a union may make up for another.
   */
  ghost predicate PartsExact(w: World, definitions: seq<Member>, i: nat, node: Node)
    requires i <= |definitions|
    decreases Size(node), 0
  {
    node.Dict? && !Has(node, "$ref") ==>
      if Has(node, "anyOf") then Get(node, "anyOf").value.Items? ==> AllPartsExact(w, definitions, i, Get(node, "anyOf").value.items)
      else if IsText(Get(node, "type"), "null") then true
      else if IsText(Get(node, "type"), "array") then Has(node, "items") ==> PartsExact(w, definitions, i, Get(node, "items").value)
      else AnnotationSame(w, definitions, i, node)
  }

  ghost predicate AllPartsExact(w: World, definitions: seq<Member>, i: nat, nodes: seq<Node>)
    requires i <= |definitions|
    decreases SizeOfItems(nodes), 1
  {
    nodes != [] ==> PartsExact(w, definitions, i, nodes[0]) && AllPartsExact(w, definitions, i, nodes[1..])
  }

  lemma BooleanExact(w: World, definitions: seq<Member>, i: nat, node: Node)
    requires i <= |definitions| && node.Dict? && OnlyKeys(node, {"type"}) && IsText(Get(node, "type"), "boolean")
    ensures AnnotationSame(w, definitions, i, node) <==> BoolKept(w)
  {
    Silent(node, {"type"});
    assert Get(node, "$ref").None? && Get(node, "anyOf").None? && !IsText(Get(node, "type"), "null");
    forall v
      ensures AllowsUnion(w, UnionOf(node), v) <==> AllowsName(w, "bool", v)
      ensures Conforms(w.lang, definitions, i, node, v) <==> v.Flag?
    {
      TypeConforms(w.lang, definitions, i, node, v);
      assert UnionOf(node) == One(Name("bool"));
    }
  }

  lemma StringExact(w: World, definitions: seq<Member>, i: nat, node: Node)
    requires i <= |definitions| && node.Dict? && IsText(Get(node, "type"), "string") && StringAnnotation(w.lang, node).Some?
    requires !Has(node, "$ref") && !Has(node, "anyOf") && EvaluableItems(w.lang, w.scope, StringUnion(node))
    ensures AnnotationSame(w, definitions, i, node) <==> Kept(w, node)
  {
    assert UnionOf(node) == StringUnion(node);
    if Has(node, "const") {
      LiteralExact(w, definitions, i, node, [Get(node, "const").value]);
    } else if Has(node, "enum") {
      LiteralExact(w, definitions, i, node, Get(node, "enum").value.items);
    } else {
      forall v
        ensures AllowsUnion(w, StringUnion(node), v) <==> TextRead(w, node, v)
        ensures Conforms(w.lang, definitions, i, node, v) <==> v.Str? && TextHolds(w.lang, node, v)
      {
        StringConforms(w.lang, definitions, i, node, v);
        TextReads(w, node, v);
      }
      assert Kept(w, node) <==> TextKept(w, node);
    }
  }

  lemma LiteralExact(w: World, definitions: seq<Member>, i: nat, node: Node, values: seq<Node>)
    requires i <= |definitions| && node.Dict? && IsText(Get(node, "type"), "string") && StringAnnotation(w.lang, node).Some?
    requires UnionOf(node) == StringUnion(node) && EvaluableItems(w.lang, w.scope, StringUnion(node))
    requires (Has(node, "const") && values == [Get(node, "const").value]) || (!Has(node, "const") && Has(node, "enum") && values == Get(node, "enum").value.items)
    ensures values != [] && DistinctTexts(values)
    ensures AnnotationSame(w, definitions, i, node) <==> AllNoAstral(values)
  {
    LiteralsFaithful(w, values);
    forall v ensures Conforms(w.lang, definitions, i, node, v) <==> v in values {
      if Has(node, "const") {
        ConstConforms(w.lang, definitions, i, node, v);
      } else {
        EnumConforms(w.lang, definitions, i, node, v);
      }
    }
    assert UnionOf(node) == LiteralUnion(values);
  }

  /** Part by part, an annotation is exact exactly when it keeps its meaning. */
  lemma {:induction false} ExactIsKept(w: World, definitions: seq<Member>, i: nat, node: Node)
    requires i <= |definitions| && node.Dict? && Annotation(w.lang, node, Names(definitions[..i])).Some?
    requires EvaluableItems(w.lang, w.scope, UnionOf(node))
    ensures PartsExact(w, definitions, i, node) <==> Kept(w, node)
    decreases Size(node), 1
  {
    if Has(node, "$ref") {
    } else if Has(node, "anyOf") {
      AllExactIsKept(w, definitions, i, Get(node, "anyOf").value.items);
    } else if IsText(Get(node, "type"), "null") {
    } else if IsText(Get(node, "type"), "boolean") {
      BooleanExact(w, definitions, i, node);
    } else if IsText(Get(node, "type"), "array") {
      var item := Get(node, "items").value;
      ListAllows(w, UnionOf(item), NumberAt(node, "maxItems"), Null);
      ExactIsKept(w, definitions, i, item);
    } else {
      StringExact(w, definitions, i, node);
    }
  }

  lemma {:induction false} AllExactIsKept(w: World, definitions: seq<Member>, i: nat, branches: seq<Node>)
    requires i <= |definitions| && branches != [] && Annotations(w.lang, branches, Names(definitions[..i])).Some?
    requires EvaluableItems(w.lang, w.scope, UnionOfAll(branches))
    ensures AllPartsExact(w, definitions, i, branches) <==> AllKept(w, branches)
    decreases SizeOfItems(branches), 0
  {
    if |branches| > 1 {
      ChainAllows(w, UnionOf(branches[0]), UnionOfAll(branches[1..]), Null);
      AllExactIsKept(w, definitions, i, branches[1..]);
    }
    ExactIsKept(w, definitions, i, branches[0]);
  }

  // ----- the whole module ----------------------------------------------------------------------------

  ghost predicate DefinitionExact(lang: Language, definitions: seq<Member>, globals: Bindings, i: nat)
    requires i < |definitions| && i <= |globals|
  {
    var nodes := Annotated(definitions[i]);
    forall k | 0 <= k < |nodes| :: PartsExact(At(lang, globals, i, OwnOf(definitions[i])), definitions, i, nodes[k])
  }

  lemma DefinitionExactIsKept(lang: Language, definitions: seq<Member>, globals: Bindings, i: nat)
    requires Imported(lang, definitions, globals) && i < |definitions|
    ensures DefinitionExact(lang, definitions, globals, i) <==> DefinitionKept(lang, definitions, globals, i)
  {
    var nodes, w := Annotated(definitions[i]), At(lang, globals, i, OwnOf(definitions[i]));
    DefinedAt(lang, definitions, i);
    forall k | 0 <= k < |nodes| ensures PartsExact(w, definitions, i, nodes[k]) <==> Kept(w, nodes[k]) {
      PartEvaluable(lang, definitions, globals, i, k);
      ExactIsKept(w, definitions, i, nodes[k]);
    }
  }

  lemma PartEvaluable(lang: Language, definitions: seq<Member>, globals: Bindings, i: nat, k: nat)
    requires Imported(lang, definitions, globals) && i < |definitions| && k < |Annotated(definitions[i])|
    ensures var (w, node) := (At(lang, globals, i, OwnOf(definitions[i])), Annotated(definitions[i])[k]);
      && node.Dict? && Annotation(lang, node, Names(definitions[..i])).Some? && EvaluableUnion(lang, w.scope, UnionOf(node))
  {
    DefinedAt(lang, definitions, i);
    if IsObject(definitions[i].value) {
      ObjectParts(lang, definitions[i], Names(definitions[..i]));
      FieldAnnotated(lang, Get(definitions[i].value, "properties").value.members, Names(definitions[..i]), k);
      FieldValue(lang, definitions, globals, i, k, Null);
    } else {
      AliasParts(definitions[i]);
      AliasValue(lang, definitions, globals, i, Null);
    }
  }

  /**
   The lines can be read, the module can be imported, each definition accepts exactly what the
   schema definition allows, and so does each part of it.
   */
  ghost predicate FaithfulThroughout(lang: Language, definitions: seq<Member>)
    requires DefineAll(lang, definitions).Some?
  {
    var read := ReadAll(DefineAll(lang, definitions).value);
    read == Some(DefinitionsOf(definitions)) &&
      var globals := Load(lang, read.value);
      globals.Some? && AllSame(lang, definitions, globals.value, |definitions|)
      && forall i | 0 <= i < |definitions| :: DefinitionExact(lang, definitions, globals.value, i)
  }

  ghost predicate AllDefinitionsKept(lang: Language, definitions: seq<Member>, globals: Bindings)
    requires |definitions| <= |globals|
  {
    forall i | 0 <= i < |definitions| :: DefinitionKept(lang, definitions, globals, i)
  }

  /** The module is faithful throughout exactly when it is narrow, evaluates, and each part keeps its meaning. */
  lemma FaithfulExactly(lang: Language, definitions: seq<Member>)
    requires DefineAll(lang, definitions).Some? && Distinct(definitions)
    ensures FaithfulThroughout(lang, definitions) <==>
      && NarrowSchema(definitions) && Load(lang, DefinitionsOf(definitions)).Some?
      && AllDefinitionsKept(lang, definitions, Load(lang, DefinitionsOf(definitions)).value)
  {
    NarrowSchemaReadsBack(lang, definitions);
    if Load(lang, DefinitionsOf(definitions)).Some? {
      var globals := Load(lang, DefinitionsOf(definitions)).value;
      ImportedIsPlaced(lang, definitions);
      forall i | 0 <= i < |definitions|
        ensures DefinitionExact(lang, definitions, globals, i) <==> DefinitionKept(lang, definitions, globals, i)
      {
        DefinitionExactIsKept(lang, definitions, globals, i);
      }
      if AllDefinitionsKept(lang, definitions, globals) {
        AllFaithful(lang, definitions, globals, |definitions|);
      }
    }
  }
}
