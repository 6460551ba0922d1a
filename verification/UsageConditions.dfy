/**
 Conditions on the schema: which unions start with two nulls, and which names are used after a
 definition took them. Without the latter, importing fails exactly for the former.
 */
module UsageConditions {
  import opened Wrappers
  import opened UsageSchema
  import opened UsageMeaning
  import opened UsagePython
  import opened UsageEvaluation
  import opened UsageExpressions
  import opened UsageNodes
  import opened UsageFidelity

  // ----- null --------------------------------------------------------------------------------------

  /** The name stands for null: it is `None`, or a chain of aliases leads from it to `None`. */
  predicate MeansNull(definitions: seq<Member>, i: nat, name: string)
    requires i <= |definitions|
    decreases i
  {
    name == "None" ||
      var j := IndexOf(Keys(definitions[..i]), name);
      j.Some? && !IsObject(definitions[j.value].value) &&
        var union := UnionOf(definitions[j.value].value);
        union.One? && union.item.Name? && MeansNull(definitions, j.value, union.item.name)
  }

  lemma {:induction false} RestNotNull(lang: Language, scope: Scope, site: seq<nat>, so: Value, union: Union)
    ensures EvalRest(lang, scope, site, so, union) != Some(NoneType)
    decreases union
  {
    var next := EvalItem(lang, scope, site + [0], union.item);
    if next.Some? && union.More? && Or(so, next.value).Some? {
      RestNotNull(lang, scope, site + [1], Or(so, next.value).value, union.rest);
    }
  }

  /** The definitions before `i`, imported. */
  predicate ImportedTo(lang: Language, definitions: seq<Member>, i: nat, bound: Bindings) {
    && DefineAll(lang, definitions).Some? && Distinct(definitions) && i <= |definitions|
    && Load(lang, DefinitionsOf(definitions)[..i]) == Some(bound)
  }

  lemma BoundAt(lang: Language, definitions: seq<Member>, i: nat, bound: Bindings, j: nat)
    requires ImportedTo(lang, definitions, i, bound) && j < i
    ensures ImportedTo(lang, definitions, j, bound[..j])
    ensures EvalDefinition(lang, bound[..j], j, DefinitionOf(definitions[j])) == Some(bound[j].1)
    ensures Lookup(bound, definitions[j].key) == Some(bound[j].1)
  {
    var ds := DefinitionsOf(definitions)[..i];
    LoadedAt(lang, ds, j);
    assert ds[..j] == DefinitionsOf(definitions)[..j];
    BoundKeys(lang, definitions, i, bound);
    LookupAt(bound, j);
  }

  lemma BoundKeys(lang: Language, definitions: seq<Member>, i: nat, bound: Bindings)
    requires ImportedTo(lang, definitions, i, bound)
    ensures |bound| == i && forall k | 0 <= k < i :: bound[k].0 == definitions[k].key
  {
    var ds := DefinitionsOf(definitions)[..i];
    forall k | 0 <= k < i ensures bound[k].0 == definitions[k].key {
      assert ds[k] == DefinitionOf(definitions[k]);
    }
  }

  lemma Unbound(lang: Language, definitions: seq<Member>, i: nat, bound: Bindings, name: string)
    requires ImportedTo(lang, definitions, i, bound) && name !in Names(definitions[..i])
    ensures Lookup(bound, name).None?
  {
    forall k | 0 <= k < i ensures bound[k].0 != name {
      assert DefinitionsOf(definitions)[..i][k] == DefinitionOf(definitions[k]);
      assert definitions[..i][k].key == definitions[k].key;
    }
  }

  lemma NoneUnbound(lang: Language, definitions: seq<Member>, i: nat)
    requires DefineAll(lang, definitions).Some? && i <= |definitions|
    ensures "None" !in Names(definitions[..i]) && "" !in Names(definitions[..i])
  {
    forall k | 0 <= k < i ensures definitions[k].key != "None" && definitions[k].key != "" {
      DefinedAt(lang, definitions, k);
    }
  }

  lemma {:induction false} NullExactly(lang: Language, definitions: seq<Member>, i: nat, bound: Bindings, name: string)
    requires ImportedTo(lang, definitions, i, bound)
    ensures EvalName(Scope(bound, ""), name) == Some(NoneType) <==> MeansNull(definitions, i, name)
    decreases i, 0
  {
    NoneUnbound(lang, definitions, i);
    var j := IndexOf(Keys(definitions[..i]), name);
    if j.None? {
      if name in Names(definitions[..i]) {
        NameFound(definitions[..i], name);
      }
      Unbound(lang, definitions, i, bound, name);
    } else {
      assert definitions[..i][j.value].key == name;
      BoundAt(lang, definitions, i, bound, j.value);
      ValueNull(lang, definitions, j.value, bound[..j.value], bound[j.value].1);
    }
  }

  lemma AliasNull(lang: Language, scope: Scope, site: seq<nat>, union: Union)
    ensures EvalUnion(lang, scope, site, union) == Some(NoneType) <==> union.One? && NullItem(scope, union.item)
  {
    ItemEvaluates(lang, scope, site + [0], union.item);
    var first := EvalItem(lang, scope, site + [0], union.item);
    if first.Some? && union.More? {
      RestNotNull(lang, scope, site + [1], first.value, union.rest);
    }
  }

  /** The value of a definition is null exactly when it is an alias for a name that stands for null. */
  lemma {:induction false} ValueNull(lang: Language, definitions: seq<Member>, j: nat, bound: Bindings, value: Value)
    requires ImportedTo(lang, definitions, j, bound) && j < |definitions|
    requires EvalDefinition(lang, bound, j, DefinitionOf(definitions[j])) == Some(value)
    ensures var union := UnionOf(definitions[j].value);
      value.NoneType? <==> !IsObject(definitions[j].value) && union.One? && union.item.Name? && MeansNull(definitions, j, union.item.name)
    decreases j, 1
  {
    DefinedAt(lang, definitions, j);
    if !IsObject(definitions[j].value) {
      var union := UnionOf(definitions[j].value);
      AliasNull(lang, Scope(bound, ""), [j], union);
      if union.item.Name? {
        NullExactly(lang, definitions, j, bound, union.item.name);
      }
    }
  }

  // ----- pairs of nulls ------------------------------------------------------------------------------

  /** An operand that is null; the class being created is not. */
  predicate NullOperand(definitions: seq<Member>, i: nat, own: string, item: Item)
    requires i <= |definitions|
  {
    item.Name? && item.name != own && MeansNull(definitions, i, item.name)
  }

  predicate PairFreeItem(definitions: seq<Member>, i: nat, own: string, item: Item)
    requires i <= |definitions|
    decreases item
  {
    item.Index? && item.head != "Literal" ==> PairFree(definitions, i, own, item.args.union)
  }

  predicate PairFreeItems(definitions: seq<Member>, i: nat, own: string, union: Union)
    requires i <= |definitions|
    decreases union, 0
  {
    PairFreeItem(definitions, i, own, union.item) && (union.More? ==> PairFreeItems(definitions, i, own, union.rest))
  }

  /** No union in the expression starts with two nulls. */
  predicate PairFree(definitions: seq<Member>, i: nat, own: string, union: Union)
    requires i <= |definitions|
    decreases union, 1
  {
    && PairFreeItems(definitions, i, own, union)
    && !(union.More? && NullOperand(definitions, i, own, union.item) && NullOperand(definitions, i, own, union.rest.item))
  }

  predicate PairFreeDefinition(definitions: seq<Member>, i: nat)
    requires i < |definitions|
  {
    var nodes := Annotated(definitions[i]);
    forall k | 0 <= k < |nodes| :: PairFree(definitions, i, OwnOf(definitions[i]), UnionOf(nodes[k]))
  }

  predicate PairFreeSchema(definitions: seq<Member>) {
    forall i | 0 <= i < |definitions| :: PairFreeDefinition(definitions, i)
  }

  // ----- evaluation, apart from pairs of nulls ---------------------------------------------------------

  /** Its names are bound, what it subscripts is not taken, and its calls return. */
  predicate UsableItem(lang: Language, scope: Scope, item: Item)
    decreases item
  {
    match item
    case Name(name) => EvalName(scope, name).Some?
    case Index(head, args) =>
      && Find(scope, head).None?
      && (|| head == "Literal"
          || (head == "list" && args.Last? && UsableUnion(lang, scope, args.union))
          || (head == "Annotated" && args.Comma? && UsableUnion(lang, scope, args.union) && EvaluableMetas(lang, scope, args.others)))
    case _ => false
  }

  predicate UsableUnion(lang: Language, scope: Scope, union: Union)
    decreases union
  {
    UsableItem(lang, scope, union.item) && (union.More? ==> UsableUnion(lang, scope, union.rest))
  }

  /** The names that stand for null are known. */
  ghost predicate NullsKnown(definitions: seq<Member>, i: nat, scope: Scope)
    requires i <= |definitions|
  {
    forall name :: EvalName(scope, name) == Some(NoneType) <==> (name != scope.own && MeansNull(definitions, i, name))
  }

  lemma {:induction false} ItemSplit(lang: Language, definitions: seq<Member>, i: nat, scope: Scope, item: Item)
    requires i <= |definitions| && NullsKnown(definitions, i, scope)
    ensures EvaluableItem(lang, scope, item) <==> UsableItem(lang, scope, item) && PairFreeItem(definitions, i, scope.own, item)
    decreases item
  {
    if item.Index? {
      UnionSplit(lang, definitions, i, scope, item.args.union);
    }
  }

  lemma {:induction false} ItemsSplit(lang: Language, definitions: seq<Member>, i: nat, scope: Scope, union: Union)
    requires i <= |definitions| && NullsKnown(definitions, i, scope)
    ensures EvaluableItems(lang, scope, union) <==> UsableUnion(lang, scope, union) && PairFreeItems(definitions, i, scope.own, union)
    decreases union, 0
  {
    ItemSplit(lang, definitions, i, scope, union.item);
    if union.More? {
      ItemsSplit(lang, definitions, i, scope, union.rest);
    }
  }

  /** An annotation evaluates exactly when its names are usable and no union in it starts with two nulls. */
  lemma {:induction false} UnionSplit(lang: Language, definitions: seq<Member>, i: nat, scope: Scope, union: Union)
    requires i <= |definitions| && NullsKnown(definitions, i, scope)
    ensures EvaluableUnion(lang, scope, union) <==> UsableUnion(lang, scope, union) && PairFree(definitions, i, scope.own, union)
    decreases union, 1
  {
    ItemsSplit(lang, definitions, i, scope, union);
    assert NullItem(scope, union.item) <==> NullOperand(definitions, i, scope.own, union.item);
    if union.More? {
      assert NullItem(scope, union.rest.item) <==> NullOperand(definitions, i, scope.own, union.rest.item);
    }
  }

  lemma KnownNulls(lang: Language, definitions: seq<Member>, i: nat, bound: Bindings, own: string)
    requires ImportedTo(lang, definitions, i, bound) && Owns(definitions, i, own)
    ensures NullsKnown(definitions, i, Scope(bound, own))
  {
    NoneUnbound(lang, definitions, i);
    forall name
      ensures EvalName(Scope(bound, own), name) == Some(NoneType) <==> (name != own && MeansNull(definitions, i, name))
    {
      NullExactly(lang, definitions, i, bound, name);
      Unbound(lang, definitions, i, bound, "");
    }
  }

  predicate UsableDefinition(lang: Language, bound: Bindings, definition: Member) {
    var nodes := Annotated(definition);
    forall k | 0 <= k < |nodes| :: UsableUnion(lang, Scope(bound, OwnOf(definition)), UnionOf(nodes[k]))
  }

  lemma PartsEvaluate(lang: Language, bound: Bindings, definition: Member, defined: set<string>)
    requires Define(lang, definition, defined).Some?
    ensures var nodes := Annotated(definition);
      EvaluableDefinition(lang, bound, DefinitionOf(definition)) <==>
        forall k | 0 <= k < |nodes| :: EvaluableUnion(lang, Scope(bound, OwnOf(definition)), UnionOf(nodes[k]))
  {
    var evaluable := (union: Union) => EvaluableUnion(lang, Scope(bound, OwnOf(definition)), union);
    if IsObject(definition.value) {
      ObjectParts(lang, definition, defined);
      FieldByField(Get(definition.value, "properties").value.members, Annotated(definition), evaluable);
    } else {
      AliasParts(definition);
      OneByOne(definition.value, evaluable);
    }
  }

  /** A property of all annotations of a class, field by field or node by node. */
  lemma FieldByField(properties: seq<Member>, nodes: seq<Node>, p: Union -> bool)
    requires |nodes| == |properties| && forall k | 0 <= k < |properties| :: nodes[k] == properties[k].value
    ensures (forall k | 0 <= k < |FieldsOf(properties)| :: p(FieldsOf(properties)[k].1)) <==> forall k | 0 <= k < |nodes| :: p(UnionOf(nodes[k]))
  {
    assert forall k | 0 <= k < |nodes| :: FieldsOf(properties)[k].1 == UnionOf(nodes[k]);
  }

  lemma OneByOne(node: Node, p: Union -> bool)
    ensures p(UnionOf(node)) <==> forall k | 0 <= k < |[node]| :: p(UnionOf([node][k]))
  {
    assert [node][0] == node;
  }

  lemma DefinitionSplit(lang: Language, definitions: seq<Member>, i: nat, bound: Bindings)
    requires ImportedTo(lang, definitions, i, bound) && i < |definitions|
    ensures EvaluableDefinition(lang, bound, DefinitionOf(definitions[i])) <==>
      UsableDefinition(lang, bound, definitions[i]) && PairFreeDefinition(definitions, i)
  {
    var nodes, own := Annotated(definitions[i]), OwnOf(definitions[i]);
    DefinedAt(lang, definitions, i);
    KnownNulls(lang, definitions, i, bound, own);
    PartsEvaluate(lang, bound, definitions[i], Names(definitions[..i]));
    forall k | 0 <= k < |nodes|
      ensures EvaluableUnion(lang, Scope(bound, own), UnionOf(nodes[k])) <==>
        UsableUnion(lang, Scope(bound, own), UnionOf(nodes[k])) && PairFree(definitions, i, own, UnionOf(nodes[k]))
    {
      UnionSplit(lang, definitions, i, Scope(bound, own), UnionOf(nodes[k]));
    }
  }
}
