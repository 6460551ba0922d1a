/** What a schema means, kind of node by kind of node, and what its compiled definitions stand for. */
module UsageNodes {
  import opened Wrappers
  import opened UsageSchema
  import opened UsageMeaning
  import opened UsageExpressions

  /** No literal or pattern of a node has a character outside the basic plane. */
  predicate Basic(node: Node)
    decreases Size(node), 0
  {
    node.Dict? ==>
      && (var c := Get(node, "const"); c.Some? && c.value.Str? ==> NoAstral(c.value.text))
      && (var p := Get(node, "pattern"); p.Some? && p.value.Str? ==> NoAstral(p.value.text))
      && (var e := Get(node, "enum"); e.Some? && e.value.Items? ==>
            forall i | 0 <= i < |e.value.items| :: e.value.items[i].Str? ==> NoAstral(e.value.items[i].text))
      && (var i := Get(node, "items"); i.Some? ==> Basic(i.value))
      && (var b := Get(node, "anyOf"); b.Some? && b.value.Items? ==> AllBasic(b.value.items))
      && (var p := Get(node, "properties"); p.Some? && p.value.Dict? ==> MembersBasic(p.value.members))
  }

  predicate AllBasic(nodes: seq<Node>)
    decreases SizeOfItems(nodes), 1
  {
    nodes != [] ==> Basic(nodes[0]) && AllBasic(nodes[1..])
  }

  predicate MembersBasic(members: seq<Member>)
    decreases SizeOfMembers(members), 1
  {
    members != [] ==> Basic(members[0].value) && MembersBasic(members[1..])
  }

  // ----- keywords -----------------------------------------------------------------------------------

  lemma Silent(node: Node, allowed: set<string>)
    requires node.Dict? && OnlyKeys(node, allowed)
    ensures forall key | key !in allowed :: Get(node, key).None?
  {
  }

  const TEXT_KEYS := ["pattern", "minLength", "maxLength", "x-utf8-max-bytes", "x-max-decimal", "x-calendar-valid"]

  const VALUE_KEYS := ["const", "enum", "maxItems", "required", "additionalProperties"]

  predicate NoneOf(node: Node, keys: seq<string>)
    requires node.Dict?
  {
    forall i | 0 <= i < |keys| :: Get(node, keys[i]).None?
  }

  lemma NoTextKeys(lang: Language, node: Node, v: Node)
    requires node.Dict? && NoneOf(node, TEXT_KEYS)
    ensures TextHolds(lang, node, v)
  {
    assert TEXT_KEYS[0] == "pattern" && TEXT_KEYS[1] == "minLength" && TEXT_KEYS[2] == "maxLength";
    assert TEXT_KEYS[3] == "x-utf8-max-bytes" && TEXT_KEYS[4] == "x-max-decimal" && TEXT_KEYS[5] == "x-calendar-valid";
  }

  lemma NoValueKeys(node: Node, v: Node)
    requires node.Dict? && NoneOf(node, VALUE_KEYS)
    ensures PlainHolds(node, v) <==> (Has(node, "type") ==> TypeHolds(Get(node, "type").value, v))
  {
    assert VALUE_KEYS[0] == "const" && VALUE_KEYS[1] == "enum" && VALUE_KEYS[2] == "maxItems";
    assert VALUE_KEYS[3] == "required" && VALUE_KEYS[4] == "additionalProperties";
  }

  /** A node with one keyword among these has no other keyword that constrains a value. */
  lemma OneKey(lang: Language, node: Node, key: string, v: Node)
    requires node.Dict? && OnlyKeys(node, {key}) && key in {"$ref", "anyOf", "type"}
    ensures TextHolds(lang, node, v) && (PlainHolds(node, v) <==> (Has(node, "type") ==> TypeHolds(Get(node, "type").value, v)))
    ensures Get(node, "items").None? && Get(node, "properties").None?
  {
    Silent(node, {key});
    NoTextKeys(lang, node, v);
    NoValueKeys(node, v);
  }

  lemma ReferenceConforms(lang: Language, definitions: seq<Member>, i: nat, node: Node, v: Node)
    requires i <= |definitions| && node.Dict? && OnlyKeys(node, {"$ref"}) && Has(node, "$ref")
    ensures Conforms(lang, definitions, i, node, v) <==> RefersTo(lang, definitions, i, Referred(Get(node, "$ref").value), v)
  {
    OneKey(lang, node, "$ref", v);
    assert Get(node, "type").None? && Get(node, "anyOf").None?;
  }

  lemma UnionConforms(lang: Language, definitions: seq<Member>, i: nat, node: Node, v: Node)
    requires i <= |definitions| && node.Dict? && OnlyKeys(node, {"anyOf"}) && Has(node, "anyOf") && Get(node, "anyOf").value.Items?
    ensures Conforms(lang, definitions, i, node, v) <==> AnyConforms(lang, definitions, i, Get(node, "anyOf").value.items, v)
  {
    OneKey(lang, node, "anyOf", v);
    assert Get(node, "type").None? && Get(node, "$ref").None?;
  }

  lemma TypeConforms(lang: Language, definitions: seq<Member>, i: nat, node: Node, v: Node)
    requires i <= |definitions| && node.Dict? && OnlyKeys(node, {"type"}) && Has(node, "type")
    ensures Conforms(lang, definitions, i, node, v) <==> TypeHolds(Get(node, "type").value, v)
  {
    OneKey(lang, node, "type", v);
    assert Get(node, "anyOf").None? && Get(node, "$ref").None?;
  }

  lemma ListConforms(lang: Language, definitions: seq<Member>, i: nat, node: Node, v: Node)
    requires i <= |definitions| && node.Dict? && OnlyKeys(node, {"type", "items", "maxItems"}) && IsText(Get(node, "type"), "array")
    requires Has(node, "items") && Has(node, "maxItems") && Get(node, "maxItems").value.Number?
    ensures Conforms(lang, definitions, i, node, v) <==>
      && v.Items? && |v.items| <= Get(node, "maxItems").value.number
      && forall k | 0 <= k < |v.items| :: Conforms(lang, definitions, i, Get(node, "items").value, v.items[k])
  {
    Silent(node, {"type", "items", "maxItems"});
  }

  lemma ConstConforms(lang: Language, definitions: seq<Member>, i: nat, node: Node, v: Node)
    requires i <= |definitions| && node.Dict? && OnlyKeys(node, {"type", "const"}) && IsText(Get(node, "type"), "string")
    requires Has(node, "const") && Get(node, "const").value.Str?
    ensures Conforms(lang, definitions, i, node, v) <==> v == Get(node, "const").value
  {
    Silent(node, {"type", "const"});
  }

  lemma EnumConforms(lang: Language, definitions: seq<Member>, i: nat, node: Node, v: Node)
    requires i <= |definitions| && node.Dict? && OnlyKeys(node, {"type", "enum"}) && IsText(Get(node, "type"), "string")
    requires Has(node, "enum") && Get(node, "enum").value.Items? && DistinctTexts(Get(node, "enum").value.items)
    ensures Conforms(lang, definitions, i, node, v) <==> v in Get(node, "enum").value.items
  {
    Silent(node, {"type", "enum"});
  }

  lemma StringConforms(lang: Language, definitions: seq<Member>, i: nat, node: Node, v: Node)
    requires i <= |definitions| && node.Dict? && OnlyKeys(node, STRING_KEYS) && IsText(Get(node, "type"), "string")
    requires !Has(node, "const") && !Has(node, "enum")
    ensures Conforms(lang, definitions, i, node, v) <==> v.Str? && TextHolds(lang, node, v)
  {
    Silent(node, STRING_KEYS);
  }

  // ----- objects ---------------------------------------------------------------------------------------

  predicate IsObject(node: Node) {
    node.Dict? && IsText(Get(node, "type"), "object")
  }

  /** The definition that the statement written for a schema definition stands for. */
  function DefinitionOf(definition: Member): Definition {
    if IsObject(definition.value) && Has(definition.value, "properties") && Get(definition.value, "properties").value.Dict? then
      ClassOf(definition.key, FieldsOf(Get(definition.value, "properties").value.members))
    else AliasOf(definition.key, UnionOf(definition.value))
  }

  function FieldsOf(properties: seq<Member>): seq<(string, Union)> {
    seq(|properties|, k requires 0 <= k < |properties| => (properties[k].key, UnionOf(properties[k].value)))
  }

  function DefinitionsOf(definitions: seq<Member>): seq<Definition> {
    seq(|definitions|, k requires 0 <= k < |definitions| => DefinitionOf(definitions[k]))
  }

  /** The annotations of a definition. */
  function Annotated(definition: Member): seq<Node> {
    if IsObject(definition.value) && Has(definition.value, "properties") && Get(definition.value, "properties").value.Dict? then
      var members := Get(definition.value, "properties").value.members;
      seq(|members|, k requires 0 <= k < |members| => members[k].value)
    else [definition.value]
  }

  /** The name of the class that a definition creates, if any. */
  function OwnOf(definition: Member): string {
    if IsObject(definition.value) then definition.key else ""
  }

  lemma ObjectParts(lang: Language, definition: Member, defined: set<string>)
    requires Define(lang, definition, defined).Some? && IsObject(definition.value)
    ensures var members := Get(definition.value, "properties").value.members;
      && |Annotated(definition)| == |members| && (forall k | 0 <= k < |members| :: Annotated(definition)[k] == members[k].value)
      && DefinitionOf(definition) == ClassOf(definition.key, FieldsOf(members))
  {
  }

  lemma AliasParts(definition: Member)
    requires !IsObject(definition.value)
    ensures Annotated(definition) == [definition.value] && DefinitionOf(definition) == AliasOf(definition.key, UnionOf(definition.value))
  {
  }

  predicate AllPresent(properties: seq<Member>, v: Node)
    requires v.Dict?
  {
    forall k | 0 <= k < |properties| :: Has(v, properties[k].key)
  }

  predicate NoOthers(properties: seq<Member>, v: Node)
    requires v.Dict?
  {
    forall k | 0 <= k < |v.members| :: HasKey(properties, v.members[k].key)
  }

  predicate MemberConforms(lang: Language, definitions: seq<Member>, i: nat, property: Member, v: Node)
    requires i <= |definitions| && v.Dict?
  {
    Has(v, property.key) && Conforms(lang, definitions, i, property.value, Get(v, property.key).value)
  }

  lemma RequiredMeans(node: Node, v: Node)
    requires node.Dict? && IsClosed(node) && v.Dict?
    ensures RequiredHolds(Get(node, "required"), v) <==> AllPresent(Get(node, "properties").value.members, v)
  {
    var properties, required := Get(node, "properties").value.members, Get(node, "required").value.items;
    forall k | 0 <= k < |properties|
      ensures required[k].Str? && Chars(required[k].text) == Some(properties[k].key)
    {
      assert IsText(Some(required[k]), properties[k].key);
    }
  }

  lemma ClosedMeans(node: Node, v: Node)
    requires node.Dict? && IsClosed(node) && v.Dict?
    ensures ClosedHolds(node, v) <==> NoOthers(Get(node, "properties").value.members, v)
  {
  }

  lemma ObjectSilent(node: Node)
    requires node.Dict? && OnlyKeys(node, OBJECT_KEYS)
    ensures NoneOf(node, TEXT_KEYS) && Get(node, "const").None? && Get(node, "enum").None? && Get(node, "maxItems").None?
    ensures Get(node, "$ref").None? && Get(node, "anyOf").None? && Get(node, "items").None?
  {
    Silent(node, OBJECT_KEYS);
  }

  lemma ObjectKeys(lang: Language, node: Node, v: Node)
    requires IsObject(node) && OnlyKeys(node, OBJECT_KEYS) && IsClosed(node)
    ensures TextHolds(lang, node, v) && Get(node, "$ref").None? && Get(node, "anyOf").None? && Get(node, "items").None?
    ensures PlainHolds(node, v) <==> v.Dict? && RequiredHolds(Get(node, "required"), v) && ClosedHolds(node, v)
  {
    ObjectSilent(node);
    NoTextKeys(lang, node, v);
    ObjectType(Get(node, "type").value, v);
  }

  lemma ObjectType(kind: Node, v: Node)
    requires IsText(Some(kind), "object")
    ensures TypeHolds(kind, v) <==> v.Dict?
  {
  }

  lemma ObjectConforms(lang: Language, definitions: seq<Member>, i: nat, node: Node, v: Node)
    requires i <= |definitions| && IsObject(node) && OnlyKeys(node, OBJECT_KEYS) && IsClosed(node)
    ensures var properties := Get(node, "properties").value.members;
      Conforms(lang, definitions, i, node, v) <==>
        v.Dict? && NoOthers(properties, v) && forall k | 0 <= k < |properties| :: MemberConforms(lang, definitions, i, properties[k], v)
  {
    ObjectKeys(lang, node, v);
    if v.Dict? {
      var properties := Get(node, "properties").value.members;
      RequiredMeans(node, v);
      ClosedMeans(node, v);
      if AllPresent(properties, v) {
        AllConformMeans(lang, definitions, i, properties, v);
      }
      assert Conforms(lang, definitions, i, node, v) <==>
        AllPresent(properties, v) && NoOthers(properties, v) && AllConform(lang, definitions, i, properties, v);
    }
  }

  lemma {:induction false} AllConformMeans(lang: Language, definitions: seq<Member>, i: nat, properties: seq<Member>, v: Node)
    requires i <= |definitions| && v.Dict? && AllPresent(properties, v)
    ensures AllConform(lang, definitions, i, properties, v) <==>
      forall k | 0 <= k < |properties| :: MemberConforms(lang, definitions, i, properties[k], v)
  {
    if properties != [] {
      var rest := properties[1..];
      assert forall k | 0 <= k < |properties| :: properties[k] == if k == 0 then properties[0] else rest[k - 1];
      forall k | 0 <= k < |rest| ensures Has(v, rest[k].key) {
        assert Has(v, properties[k + 1].key);
      }
      AllConformMeans(lang, definitions, i, rest, v);
      assert Has(v, properties[0].key);
      if forall k | 0 <= k < |properties| :: MemberConforms(lang, definitions, i, properties[k], v) {
        forall k | 0 <= k < |rest| ensures MemberConforms(lang, definitions, i, rest[k], v) {
          assert MemberConforms(lang, definitions, i, properties[k + 1], v);
        }
        assert MemberConforms(lang, definitions, i, properties[0], v);
      }
    }
  }

  lemma {:induction false} MemberBasic(members: seq<Member>, k: nat)
    requires MembersBasic(members) && k < |members|
    ensures Basic(members[k].value)
  {
    if k > 0 {
      MemberBasic(members[1..], k - 1);
    }
  }

  lemma {:induction false} MemberSize(members: seq<Member>, k: nat)
    requires k < |members|
    ensures Size(members[k].value) < SizeOfMembers(members)
  {
    if k > 0 {
      MemberSize(members[1..], k - 1);
    }
  }

  lemma FieldAnnotated(lang: Language, fields: seq<Member>, defined: set<string>, k: nat)
    requires Each(FieldWriter(lang, defined), fields).Some? && k < |fields|
    ensures FieldOk(lang, fields[k].key) && fields[k].value.Dict? && Annotation(lang, fields[k].value, defined).Some?
    ensures FieldLines(lang, fields[k], defined) == Some(Each(FieldWriter(lang, defined), fields).value[k])
  {
    EachPrefix(FieldWriter(lang, defined), fields, k);
  }

  // ----- schemas ---------------------------------------------------------------------------------------

  predicate BasicSchema(definitions: seq<Member>) {
    forall k | 0 <= k < |definitions| :: Basic(definitions[k].value)
  }

  lemma DefinedAt(lang: Language, definitions: seq<Member>, k: nat)
    requires DefineAll(lang, definitions).Some? && k < |definitions|
    ensures Define(lang, definitions[k], Names(definitions[..k])) == Some(DefineAll(lang, definitions).value[k])
    ensures NameOk(definitions[k].key)
  {
    EachPrefix(Definer(lang), definitions, k);
  }

  lemma NameFound(definitions: seq<Member>, name: string)
    requires name in Names(definitions)
    ensures IndexOf(Keys(definitions), name).Some?
  {
    var k :| 0 <= k < |definitions| && definitions[k].key == name;
    assert Keys(definitions)[k] == name;
  }
}
