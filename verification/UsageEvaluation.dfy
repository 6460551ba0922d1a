/**
 When an annotation evaluates, and what its value accepts, read off the expression. Importing
 raises exactly for taken names and for unions that start with two nulls.
 */
module UsageEvaluation {
  import opened Wrappers
  import opened UsageSchema
  import opened UsageMeaning
  import opened UsagePython

  // ----- when it evaluates -------------------------------------------------------------------------

  predicate NullItem(scope: Scope, item: Item) {
    item.Name? && EvalName(scope, item.name) == Some(NoneType)
  }

  predicate EvaluableMetas(lang: Language, scope: Scope, args: Args)
    decreases args
  {
    EvalMeta(lang, scope, [], args.union).Some? && (args.Comma? ==> EvaluableMetas(lang, scope, args.others))
  }

  predicate EvaluableItem(lang: Language, scope: Scope, item: Item)
    decreases item
  {
    match item
    case Name(name) => EvalName(scope, name).Some?
    case Index(head, args) =>
      && Find(scope, head).None?
      && (|| head == "Literal"
          || (head == "list" && args.Last? && EvaluableUnion(lang, scope, args.union))
          || (head == "Annotated" && args.Comma? && EvaluableUnion(lang, scope, args.union) && EvaluableMetas(lang, scope, args.others)))
    case _ => false
  }

  predicate EvaluableItems(lang: Language, scope: Scope, union: Union)
    decreases union, 0
  {
    EvaluableItem(lang, scope, union.item) && (union.More? ==> EvaluableItems(lang, scope, union.rest))
  }

  /** Its operands evaluate, and the first two are not both null. */
  predicate EvaluableUnion(lang: Language, scope: Scope, union: Union)
    decreases union, 1
  {
    EvaluableItems(lang, scope, union) && !(union.More? && NullItem(scope, union.item) && NullItem(scope, union.rest.item))
  }

  lemma SiteFree(lang: Language, globals: Bindings, scope: Scope, site: seq<nat>, union: Union, v: Node)
    ensures EvalMeta(lang, scope, site, union).Some? <==> EvalMeta(lang, scope, [], union).Some?
    ensures EvalMeta(lang, scope, [], union).Some? ==>
      (MetaHolds(lang, globals, EvalMeta(lang, scope, site, union).value, v) <==>
       MetaHolds(lang, globals, EvalMeta(lang, scope, [], union).value, v))
  {
  }

  lemma {:induction false} MetasEvaluate(lang: Language, scope: Scope, site: seq<nat>, args: Args)
    ensures EvalMetas(lang, scope, site, args).Some? <==> EvaluableMetas(lang, scope, args)
    decreases args
  {
    SiteFree(lang, [], scope, site + [0], args.union, Null);
    if args.Comma? {
      MetasEvaluate(lang, scope, site + [1], args.others);
    }
  }

  lemma {:induction false} ItemEvaluates(lang: Language, scope: Scope, site: seq<nat>, item: Item)
    ensures EvalItem(lang, scope, site, item).Some? <==> EvaluableItem(lang, scope, item)
    ensures EvalItem(lang, scope, site, item) == Some(NoneType) <==> NullItem(scope, item)
    decreases item
  {
    if item.Index? {
      UnionEvaluates(lang, scope, site + [0], item.args.union);
      if item.args.Comma? {
        MetasEvaluate(lang, scope, site + [1], item.args.others);
      }
    }
  }

  lemma {:induction false} RestEvaluates(lang: Language, scope: Scope, site: seq<nat>, so: Value, union: Union)
    ensures EvalRest(lang, scope, site, so, union).Some? <==>
      EvaluableItems(lang, scope, union) && !(so.NoneType? && NullItem(scope, union.item))
    decreases union, 0
  {
    ItemEvaluates(lang, scope, site + [0], union.item);
    var next := EvalItem(lang, scope, site + [0], union.item);
    if next.Some? && union.More? && Or(so, next.value).Some? {
      RestEvaluates(lang, scope, site + [1], Or(so, next.value).value, union.rest);
    }
  }

  /** A union evaluates exactly when its operands do and the first two are not both null. */
  lemma {:induction false} UnionEvaluates(lang: Language, scope: Scope, site: seq<nat>, union: Union)
    ensures EvalUnion(lang, scope, site, union).Some? <==> EvaluableUnion(lang, scope, union)
    decreases union, 1
  {
    ItemEvaluates(lang, scope, site + [0], union.item);
    var first := EvalItem(lang, scope, site + [0], union.item);
    if first.Some? && union.More? {
      RestEvaluates(lang, scope, site + [1], first.value, union.rest);
    }
  }

  // ----- what it accepts -----------------------------------------------------------------------------

  /** Where an annotation stands: the names bound before it, and those bound in the end. */
  datatype World = World(lang: Language, globals: Bindings, scope: Scope)

  predicate AllowsName(w: World, name: string, v: Node) {
    var t := EvalName(w.scope, name);
    t.Some? && Accepts(w.lang, w.globals, t.value, v)
  }

  predicate MetaAllows(w: World, union: Union, v: Node) {
    var meta := EvalMeta(w.lang, w.scope, [], union);
    meta.Some? && MetaHolds(w.lang, w.globals, meta.value, v)
  }

  predicate MetasAllow(w: World, args: Args, v: Node)
    decreases args
  {
    MetaAllows(w, args.union, v) && (args.Comma? ==> MetasAllow(w, args.others, v))
  }

  predicate AllowsItem(w: World, item: Item, v: Node)
    decreases item
  {
    match item
    case Name(name) => AllowsName(w, name, v)
    case Index(head, args) =>
      && Find(w.scope, head).None?
      && if head == "Literal" then v.Str? && LiteralHolds(args, v.text)
         else if head == "list" then args.Last? && v.Items? && forall k | 0 <= k < |v.items| :: AllowsUnion(w, args.union, v.items[k])
         else head == "Annotated" && args.Comma? && AllowsUnion(w, args.union, v) && MetasAllow(w, args.others, v)
    case _ => false
  }

  predicate AllowsUnion(w: World, union: Union, v: Node)
    decreases union
  {
    AllowsItem(w, union.item, v) || (union.More? && AllowsUnion(w, union.rest, v))
  }

  predicate AllHold(w: World, metadata: seq<Meta>, v: Node) {
    forall k | 0 <= k < |metadata| :: MetaHolds(w.lang, w.globals, metadata[k], v)
  }

  lemma {:induction false} MetasAccept(w: World, site: seq<nat>, args: Args, v: Node)
    requires EvalMetas(w.lang, w.scope, site, args).Some?
    ensures AllHold(w, EvalMetas(w.lang, w.scope, site, args).value, v) <==> MetasAllow(w, args, v)
    decreases args
  {
    SiteFree(w.lang, w.globals, w.scope, site + [0], args.union, v);
    var metadata := EvalMetas(w.lang, w.scope, site, args).value;
    if args.Comma? {
      MetasAccept(w, site + [1], args.others, v);
      var others := EvalMetas(w.lang, w.scope, site + [1], args.others).value;
      assert metadata == [metadata[0]] + others;
      assert AllHold(w, metadata, v) <==> MetaHolds(w.lang, w.globals, metadata[0], v) && AllHold(w, others, v) by {
        assert forall k | 0 <= k < |others| :: others[k] == metadata[k + 1];
      }
    } else {
      assert AllHold(w, metadata, v) <==> MetaHolds(w.lang, w.globals, metadata[0], v);
    }
  }

  lemma ListAccepts(w: World, inner: Value, v: Node)
    requires v.Items?
    ensures Accepts(w.lang, w.globals, ListType(inner), v) <==> forall k | 0 <= k < |v.items| :: Accepts(w.lang, w.globals, inner, v.items[k])
  {
    forall k | 0 <= k < |v.items| ensures Size(v.items[k]) < Size(v) {
      ItemSize(v.items, k);
    }
  }

  lemma {:induction false} ItemAccepts(w: World, site: seq<nat>, item: Item, v: Node)
    requires EvalItem(w.lang, w.scope, site, item).Some?
    ensures Accepts(w.lang, w.globals, EvalItem(w.lang, w.scope, site, item).value, v) <==> AllowsItem(w, item, v)
    decreases item
  {
    if item.Index? && item.head == "list" {
      var inner := EvalItem(w.lang, w.scope, site, item).value.item;
      if v.Items? {
        forall k | 0 <= k < |v.items|
          ensures Accepts(w.lang, w.globals, inner, v.items[k]) <==> AllowsUnion(w, item.args.union, v.items[k])
        {
          UnionAccepts(w, site + [0], item.args.union, v.items[k]);
        }
        ListAccepts(w, inner, v);
      }
    } else if item.Index? && item.head == "Annotated" {
      UnionAccepts(w, site + [0], item.args.union, v);
      MetasAccept(w, site + [1], item.args.others, v);
    }
  }

  lemma OrAccepts(w: World, a: Value, b: Value, v: Node)
    requires Or(a, b).Some?
    ensures Accepts(w.lang, w.globals, Or(a, b).value, v) <==> Accepts(w.lang, w.globals, a, v) || Accepts(w.lang, w.globals, b, v)
  {
  }

  lemma {:induction false} RestAccepts(w: World, site: seq<nat>, so: Value, union: Union, v: Node)
    requires EvalRest(w.lang, w.scope, site, so, union).Some?
    ensures Accepts(w.lang, w.globals, EvalRest(w.lang, w.scope, site, so, union).value, v) <==>
      Accepts(w.lang, w.globals, so, v) || AllowsUnion(w, union, v)
    decreases union, 0
  {
    ItemAccepts(w, site + [0], union.item, v);
    var next := EvalItem(w.lang, w.scope, site + [0], union.item).value;
    OrAccepts(w, so, next, v);
    if union.More? {
      RestAccepts(w, site + [1], Or(so, next).value, union.rest, v);
    }
  }

  /** The value of an annotation accepts what one of its operands allows. */
  lemma {:induction false} UnionAccepts(w: World, site: seq<nat>, union: Union, v: Node)
    requires EvalUnion(w.lang, w.scope, site, union).Some?
    ensures Accepts(w.lang, w.globals, EvalUnion(w.lang, w.scope, site, union).value, v) <==> AllowsUnion(w, union, v)
    decreases union, 1
  {
    ItemAccepts(w, site + [0], union.item, v);
    if union.More? {
      RestAccepts(w, site + [1], EvalItem(w.lang, w.scope, site + [0], union.item).value, union.rest, v);
    }
  }

  // ----- importing -----------------------------------------------------------------------------------

  predicate EvaluableFields(lang: Language, scope: Scope, fields: seq<(string, Union)>) {
    forall k | 0 <= k < |fields| :: EvaluableUnion(lang, scope, fields[k].1)
  }

  /** Every annotation of the statement evaluates. */
  predicate EvaluableDefinition(lang: Language, bound: Bindings, definition: Definition) {
    match definition
    case AliasOf(_, alias) => EvaluableUnion(lang, Scope(bound, ""), alias)
    case ClassOf(name, fields) => EvaluableFields(lang, Scope(bound, name), fields)
  }

  lemma {:induction false} FieldsEvaluate(lang: Language, scope: Scope, site: seq<nat>, fields: seq<(string, Union)>)
    ensures EvalFields(lang, scope, site, fields).Some? <==> EvaluableFields(lang, scope, fields)
    ensures EvalFields(lang, scope, site, fields).Some? ==> forall k: nat | k < |fields| ::
      EvalUnion(lang, scope, site + [k], fields[k].1) == Some(EvalFields(lang, scope, site, fields).value[k].1)
  {
    if fields != [] {
      var n := |fields| - 1;
      FieldsEvaluate(lang, scope, site, fields[..n]);
      UnionEvaluates(lang, scope, site + [n], fields[n].1);
      assert EvaluableFields(lang, scope, fields) <==> EvaluableFields(lang, scope, fields[..n]) && EvaluableUnion(lang, scope, fields[n].1) by {
        assert forall k | 0 <= k < n :: fields[..n][k] == fields[k];
      }
    }
  }

  lemma DefinitionEvaluates(lang: Language, bound: Bindings, site: nat, definition: Definition)
    ensures EvalDefinition(lang, bound, site, definition).Some? <==> EvaluableDefinition(lang, bound, definition)
  {
    match definition
    case AliasOf(_, alias) => UnionEvaluates(lang, Scope(bound, ""), [site], alias);
    case ClassOf(name, fields) => FieldsEvaluate(lang, Scope(bound, name), [site], fields);
  }

  lemma {:induction false} LoadedAt(lang: Language, definitions: seq<Definition>, k: nat)
    requires Load(lang, definitions).Some? && k < |definitions|
    ensures Load(lang, definitions[..k]) == Some(Load(lang, definitions).value[..k])
    ensures EvalDefinition(lang, Load(lang, definitions).value[..k], k, definitions[k]) == Some(Load(lang, definitions).value[k].1)
  {
    var n := |definitions| - 1;
    var before := definitions[..n];
    assert Load(lang, before).Some?;
    assert Load(lang, definitions).value[..n] == Load(lang, before).value;
    if k < n {
      LoadedAt(lang, before, k);
      assert before[..k] == definitions[..k] && before[k] == definitions[k];
      assert Load(lang, before).value[..k] == Load(lang, definitions).value[..k];
    }
  }

  /** The module can be imported exactly when each statement evaluates after those before it. */
  lemma {:induction false} LoadsExactly(lang: Language, definitions: seq<Definition>)
    ensures Load(lang, definitions).Some? <==>
      forall k | 0 <= k < |definitions| && Load(lang, definitions[..k]).Some? ::
        EvaluableDefinition(lang, Load(lang, definitions[..k]).value, definitions[k])
  {
    if Load(lang, definitions).Some? {
      forall k | 0 <= k < |definitions| && Load(lang, definitions[..k]).Some?
        ensures EvaluableDefinition(lang, Load(lang, definitions[..k]).value, definitions[k])
      {
        LoadedAt(lang, definitions, k);
        DefinitionEvaluates(lang, Load(lang, definitions).value[..k], k, definitions[k]);
      }
    } else {
      var n := |definitions| - 1;
      var before := definitions[..n];
      LoadsExactly(lang, before);
      if Load(lang, before).Some? {
        DefinitionEvaluates(lang, Load(lang, before).value, n, definitions[n]);
      } else {
        var k :| 0 <= k < n && Load(lang, before[..k]).Some? && !EvaluableDefinition(lang, Load(lang, before[..k]).value, before[k]);
        assert before[..k] == definitions[..k] && before[k] == definitions[k];
      }
    }
  }
}
