/**
 Where the generated Python and the schema part. Each schema that the compiler accepts can be
 extended by one or two definitions so that it is still accepted, and the module fails.
 */
module UsageLimits {
  import opened Wrappers
  import opened PythonText
  import opened UsageLayout
  import opened UsageSchema
  import opened UsageMeaning
  import opened UsagePython
  import opened UsageEvaluation
  import opened UsageExpressions
  import opened UsageNodes
  import opened UsageLeaves
  import opened UsageWidth
  import opened UsageCompilation
  import opened UsageFidelity
  import opened UsageConditions
  import opened UsageNames
  import opened UsageTaken
  import opened UsageContract

  // ----- short definitions ---------------------------------------------------------------------

  lemma ShortLayout(prefix: string, text: string)
    requires |prefix| + |text| <= WIDTH
    ensures Layout(prefix, text, "") == Some([prefix + text + ""]) && Tidy(prefix, text, "")
  {
  }

  lemma NoteOk()
    ensures NameOk("Note") && |AliasPrefix("Note")| == 18
  {
    assert IsName("Note");
    assert "Note" !in KEYWORDS;
    assert "Note" !in {"UsageWireModel", "SOURCE_SHA256", "MAX_JSON_BYTES", "MAX_JSON_DEPTH"};
    assert |AliasPrefix("Note")| == 18;
  }

  /** A mapping with two members. */
  lemma TwoMembers(a: Member, b: Member)
    requires a.key != b.key
    ensures var node := Dict([a, b]);
      && Get(node, a.key) == Some(a.value) && Get(node, b.key) == Some(b.value)
      && OnlyKeys(node, {a.key, b.key}) && forall key | key !in {a.key, b.key} :: Get(node, key).None?
  {
    var node := Dict([a, b]);
    assert [a, b][1..] == [b];
    assert GetMember([b], b.key) == Some(b.value);
    assert GetMember([a, b], b.key) == Some(b.value) && GetMember([a, b], a.key) == Some(a.value);
    assert OnlyKeys(node, {a.key, b.key});
    Silent(node, {a.key, b.key});
  }

  /** A definition whose annotation fits on one line. */
  lemma ShortAlias(lang: Language, name: string, node: Node, defined: set<string>)
    requires NameOk(name) && node.Dict? && !IsObject(node) && Annotation(lang, node, defined).Some?
    requires |AliasPrefix(name)| + |Annotation(lang, node, defined).value| <= WIDTH
    ensures Define(lang, Member(name, node), defined).Some?
  {
    ShortLayout(AliasPrefix(name), Annotation(lang, node, defined).value);
  }

  /** The module can be read and imported, and each definition accepts what it allows. */
  ghost predicate Faithful(lang: Language, definitions: seq<Member>)
    requires DefineAll(lang, definitions).Some?
  {
    ReadAll(DefineAll(lang, definitions).value) == Some(DefinitionsOf(definitions)) &&
      var globals := Load(lang, DefinitionsOf(definitions));
      globals.Some? && AllSame(lang, definitions, globals.value, |definitions|)
  }

  /** If the module can be imported, its last definition refuses the value. */
  predicate LastRefuses(lang: Language, definitions: seq<Member>, v: Node)
    requires definitions != []
  {
    var globals := Load(lang, DefinitionsOf(definitions));
    globals.Some? ==> !Accepts(lang, globals.value, globals.value[|definitions| - 1].1, v)
  }

  /** A value that the last definition allows and refuses makes the module unfaithful. */
  lemma Unfaithful(lang: Language, definitions: seq<Member>, v: Node)
    requires DefineAll(lang, definitions).Some? && definitions != [] && LastRefuses(lang, definitions, v)
    requires Conforms(lang, definitions, |definitions| - 1, definitions[|definitions| - 1].value, v)
    ensures !Faithful(lang, definitions)
  {
    var i := |definitions| - 1;
    if Load(lang, DefinitionsOf(definitions)).Some? {
      assert !SameMeaning(lang, definitions, Load(lang, DefinitionsOf(definitions)).value, i, v);
    }
  }

  /** The last definition, an alias, refuses what its annotation does not allow. */
  lemma AliasRefuses(lang: Language, definitions: seq<Member>, v: Node)
    requires DefineAll(lang, definitions).Some? && Distinct(definitions) && definitions != []
    requires var (i, node) := (|definitions| - 1, definitions[|definitions| - 1].value);
      !IsObject(node) && forall globals | Imported(lang, definitions, globals) ::
        !AllowsUnion(At(lang, globals, i, ""), UnionOf(node), v) || !EvaluableUnion(lang, At(lang, globals, i, "").scope, UnionOf(node))
    ensures LastRefuses(lang, definitions, v)
  {
    if Load(lang, DefinitionsOf(definitions)).Some? {
      ImportedIsPlaced(lang, definitions);
      AliasValue(lang, definitions, Load(lang, DefinitionsOf(definitions)).value, |definitions| - 1, v);
    }
  }

  lemma DistinctAppend(definitions: seq<Member>, m: Member)
    requires Distinct(definitions) && m.key !in Names(definitions)
    ensures Distinct(definitions + [m])
  {
    forall i | 0 <= i < |definitions| ensures definitions[i].key != m.key {
    }
  }

  // ----- constants -----------------------------------------------------------------------------

  const FACE: Text := [0x1F600]

  const FACE_NOTE := Dict([Named("type", "string"), Member("const", Str(FACE))])

  lemma FaceLength()
    ensures |Dumps(FACE)| == 14
  {
    assert FACE[1..] == [];
  }

  lemma FaceShape()
    ensures FACE_NOTE.Dict? && OnlyKeys(FACE_NOTE, {"type", "const"}) && OnlyKeys(FACE_NOTE, STRING_KEYS)
    ensures IsText(Get(FACE_NOTE, "type"), "string") && Get(FACE_NOTE, "const") == Some(Str(FACE))
    ensures Get(FACE_NOTE, "$ref").None? && Get(FACE_NOTE, "anyOf").None? && !IsObject(FACE_NOTE)
  {
    PointsBack("string");
    TwoMembers(Named("type", "string"), Member("const", Str(FACE)));
  }

  lemma FaceAnnotation(lang: Language, defined: set<string>)
    ensures Annotation(lang, FACE_NOTE, defined) == Some("Literal[" + Dumps(FACE) + "]")
    ensures UnionOf(FACE_NOTE) == LiteralUnion([Str(FACE)])
  {
    FaceShape();
    var values := [Str(FACE)];
    assert seq(|values|, i requires 0 <= i < |values| => Dumps(values[i].text)) == [Dumps(FACE)];
    assert LiteralAnnotation(values) == Some("Literal[" + Dumps(FACE) + "]");
  }

  lemma FaceConforms(lang: Language, definitions: seq<Member>, i: nat)
    requires i <= |definitions|
    ensures Conforms(lang, definitions, i, FACE_NOTE, Str(FACE))
  {
    FaceShape();
    ConstConforms(lang, definitions, i, FACE_NOTE, Str(FACE));
  }

  lemma FaceRefused(w: World)
    ensures !AllowsUnion(w, LiteralUnion([Str(FACE)]), Str(FACE))
  {
    assert !NoAstral(FACE) by {
      assert FACE[0] == 0x1F600;
    }
    AstralRefused(w, [Str(FACE)], 0);
  }

  /** One more definition, the constant U+1F600: it is compiled, and the generated type refuses it. */
  lemma AstralConstantRefused(lang: Language, definitions: seq<Member>)
    requires Accepted(lang, definitions) && Distinct(definitions) && "Note" !in Names(definitions)
    ensures var more := definitions + [Member("Note", FACE_NOTE)];
      && Accepted(lang, more) && LastRefuses(lang, more, Str(FACE)) && !Faithful(lang, more)
      && Conforms(lang, more, |definitions|, FACE_NOTE, Str(FACE))
  {
    var m := Member("Note", FACE_NOTE);
    var more, n := definitions + [m], |definitions|;
    FaceShape();
    FaceAnnotation(lang, Names(definitions));
    FaceLength();
    NoteOk();
    ShortAlias(lang, "Note", FACE_NOTE, Names(definitions));
    AcceptedAppend(lang, definitions, m);
    FaceConforms(lang, more, n);
    DistinctAppend(definitions, m);
    forall globals | Imported(lang, more, globals)
      ensures !AllowsUnion(At(lang, globals, n, ""), UnionOf(FACE_NOTE), Str(FACE))
    {
      FaceRefused(At(lang, globals, n, ""));
    }
    AliasRefuses(lang, more, Str(FACE));
    Unfaithful(lang, more, Str(FACE));
  }

  // ----- patterns --------------------------------------------------------------------------------

  function PatternNode(p: Text): Node {
    Dict([Named("type", "string"), Member("pattern", Str(p))])
  }

  lemma PatternShape(p: Text)
    ensures var node := PatternNode(p);
      && OnlyKeys(node, STRING_KEYS) && IsText(Get(node, "type"), "string") && Get(node, "pattern") == Some(Str(p))
      && forall key | key !in {"type", "pattern"} :: Get(node, key).None?
  {
    PointsBack("string");
    TwoMembers(Named("type", "string"), Member("pattern", Str(p)));
  }

  /** The expressions under which only the pattern itself matches anything. */
  function OnlyMatching(p: Text): Language {
    Language((q: Text) => true, (q: Text, t: Text) => q == p, (t: Text) => true, (t: Text) => true, (name: string) => false)
  }

  lemma PatternExpression(lang: Language, p: Text, defined: set<string>)
    requires lang.compiles(p)
    ensures Annotation(lang, PatternNode(p), defined).Some?
    ensures Metadata(PatternNode(p)) == [One(Call("Field", Last(One(Keyword("pattern", Quoted(p))))))]
    ensures UnionOf(PatternNode(p)) == One(Index("Annotated", Comma(One(Name("str")), ArgsOf(Metadata(PatternNode(p))))))
  {
    PatternShape(p);
    var node := PatternNode(p);
    assert Get(node, "minLength").None? && Get(node, "maxLength").None? && Get(node, "x-utf8-max-bytes").None?;
    assert Get(node, "x-max-decimal").None? && Get(node, "x-calendar-valid").None?;
    assert Get(node, "const").None? && Get(node, "enum").None? && Get(node, "$ref").None? && Get(node, "anyOf").None?;
    assert ConstraintsOf(node) == [One(Keyword("pattern", Quoted(p)))];
    assert ValidatorsOf(node) == [];
    assert Metadata(node) == [One(Call("Field", ArgsOf(ConstraintsOf(node))))] + [];
  }

  /** A pattern with an astral character is another pattern in Python, which some expressions tell apart. */
  lemma AstralPatternRefused(w: World, p: Text)
    requires !NoAstral(p) && w.lang == OnlyMatching(p)
    requires Find(w.scope, "str").None? && Find(w.scope, "Annotated").None? && Find(w.scope, "Field").None?
    ensures Annotation(w.lang, PatternNode(p), {}).Some?
    ensures Conforms(w.lang, [], 0, PatternNode(p), Str([])) && !AllowsUnion(w, UnionOf(PatternNode(p)), Str([]))
  {
    var node := PatternNode(p);
    PatternShape(p);
    PatternExpression(w.lang, p, {});
    StringConforms(w.lang, [], 0, node, Str([]));
    UnitsLength(p);
    assert UsableUnion(w.lang, w.scope, One(Name("str")));
    MetadataUsable(w.lang, w.scope, node);
    assert EvaluableItem(w.lang, w.scope, StringUnion(node).item);
    TextReads(w, node, Str([]));
  }

  // ----- two nulls -------------------------------------------------------------------------------

  const NULL_NODE := Dict([Named("type", "null")])

  const TWO_NULLS := Dict([Member("anyOf", Items([NULL_NODE, NULL_NODE]))])

  lemma OneMember(a: Member)
    ensures Get(Dict([a]), a.key) == Some(a.value) && OnlyKeys(Dict([a]), {a.key})
    ensures forall key | key != a.key :: Get(Dict([a]), key).None?
  {
    Silent(Dict([a]), {a.key});
  }

  lemma NullAnnotation(lang: Language, defined: set<string>)
    ensures Annotation(lang, NULL_NODE, defined) == Some("None") && !IsObject(NULL_NODE) && Basic(NULL_NODE)
  {
    PointsBack("null");
    OneMember(Named("type", "null"));
  }

  lemma NullExpression()
    ensures UnionOf(NULL_NODE) == One(Name("None"))
  {
    PointsBack("null");
    OneMember(Named("type", "null"));
  }

  lemma PairAnnotation(lang: Language, defined: set<string>)
    ensures Annotation(lang, TWO_NULLS, defined) == Some("None | None") && !IsObject(TWO_NULLS)
    ensures UnionOf(TWO_NULLS) == More(Name("None"), One(Name("None")))
  {
    NullAnnotation(lang, defined);
    NullExpression();
    OneMember(Member("anyOf", Items([NULL_NODE, NULL_NODE])));
    assert Get(TWO_NULLS, "$ref").None? && Get(TWO_NULLS, "type").None?;
    PairTexts(lang, defined);
    PairUnion();
  }

  lemma PairTexts(lang: Language, defined: set<string>)
    ensures Annotations(lang, [NULL_NODE, NULL_NODE], defined) == Some(["None", "None"])
    ensures Join(" | ", ["None", "None"]) == "None | None"
  {
    NullAnnotation(lang, defined);
    var one := [NULL_NODE];
    assert [NULL_NODE, NULL_NODE][1..] == one && one[1..] == [];
    assert Annotations(lang, one[1..], defined) == Some([]);
    assert Annotations(lang, one, defined) == Some(["None"] + []);
    assert ["None"] + [] == ["None"] && ["None"] + ["None"] == ["None", "None"];
    assert ["None", "None"][1..] == ["None"];
    assert Join(" | ", ["None"]) == "None";
    assert "None" + " | " + "None" == "None | None";
  }

  lemma PairUnion()
    ensures UnionOfAll([NULL_NODE, NULL_NODE]) == More(Name("None"), One(Name("None")))
  {
    NullExpression();
    assert [NULL_NODE, NULL_NODE][1..] == [NULL_NODE];
    assert UnionOfAll([NULL_NODE]) == One(Name("None"));
    assert Chain(One(Name("None")), One(Name("None"))) == More(Name("None"), One(Name("None")));
  }

  /** One more definition, a union of null and null: it is compiled and can be read, but not imported. */
  lemma TwoNullsRaise(lang: Language, definitions: seq<Member>)
    requires Accepted(lang, definitions) && Distinct(definitions) && "Note" !in Names(definitions)
    ensures var more := definitions + [Member("Note", TWO_NULLS)];
      && Accepted(lang, more) && Load(lang, DefinitionsOf(more)).None? && !Faithful(lang, more)
      && (ReadAll(DefineAll(lang, more).value).Some? <==> ReadAll(DefineAll(lang, definitions).value).Some?)
      && Conforms(lang, more, |definitions|, TWO_NULLS, Null)
  {
    var m := Member("Note", TWO_NULLS);
    var more, n := definitions + [m], |definitions|;
    PairAnnotation(lang, Names(definitions));
    NoteOk();
    ShortAlias(lang, "Note", TWO_NULLS, Names(definitions));
    AcceptedAppend(lang, definitions, m);
    DistinctAppend(definitions, m);
    NullPairRaises(lang, more, n);
    PairConforms(lang, more, n);
    NarrowAppend(lang, definitions, m);
    assert Narrow(AliasPrefix("Note"), UnionOf(TWO_NULLS), "");
  }

  lemma PairConforms(lang: Language, definitions: seq<Member>, i: nat)
    requires i <= |definitions|
    ensures Conforms(lang, definitions, i, TWO_NULLS, Null)
  {
    OneMember(Member("anyOf", Items([NULL_NODE, NULL_NODE])));
    UnionConforms(lang, definitions, i, TWO_NULLS, Null);
    PointsBack("null");
    OneMember(Named("type", "null"));
    TypeConforms(lang, definitions, i, NULL_NODE, Null);
  }

  /** An alias for a union of two names for null cannot be imported, in any schema. */
  lemma NullPairRaises(lang: Language, definitions: seq<Member>, i: nat)
    requires DefineAll(lang, definitions).Some? && Distinct(definitions) && i < |definitions| && !IsObject(definitions[i].value)
    requires var union := UnionOf(definitions[i].value);
      && union.More? && union.item.Name? && union.rest.item.Name?
      && MeansNull(definitions, i, union.item.name) && MeansNull(definitions, i, union.rest.item.name)
    ensures Load(lang, DefinitionsOf(definitions)).None?
  {
    if Load(lang, DefinitionsOf(definitions)).Some? {
      var globals := Load(lang, DefinitionsOf(definitions)).value;
      ImportedIsPlaced(lang, definitions);
      LoadedAt(lang, DefinitionsOf(definitions), i);
      AliasValue(lang, definitions, globals, i, Null);
      var union := UnionOf(definitions[i].value);
      NullExactly(lang, definitions, i, globals[..i], union.item.name);
      NullExactly(lang, definitions, i, globals[..i], union.rest.item.name);
      assert NullItem(Scope(globals[..i], ""), union.item) && NullItem(Scope(globals[..i], ""), union.rest.item);
    }
  }

  /** Whether the lines can be read is decided definition by definition. */
  lemma NarrowAppend(lang: Language, definitions: seq<Member>, m: Member)
    requires DefineAll(lang, definitions).Some? && DefineAll(lang, definitions + [m]).Some?
    ensures ReadAll(DefineAll(lang, definitions + [m]).value).Some? <==>
      ReadAll(DefineAll(lang, definitions).value).Some? && NarrowDefinition(m)
  {
    NarrowSchemaReadsBack(lang, definitions);
    NarrowSchemaReadsBack(lang, definitions + [m]);
    assert (definitions + [m])[|definitions|] == m;
    assert forall k | 0 <= k < |definitions| :: (definitions + [m])[k] == definitions[k];
  }

  // ----- taken names -----------------------------------------------------------------------------

  /** The names that annotations use. */
  const USED := {"bool", "str", "list", "Literal", "Annotated", "Field", "AfterValidator"}

  /** A node whose annotation uses the name. */
  function NodeUsing(name: string): Node {
    if name == "bool" then Dict([Named("type", "boolean")])
    else if name == "str" then Dict([Named("type", "string")])
    else if name == "Literal" then Dict([Named("type", "string"), Member("const", Str([]))])
    else if name == "AfterValidator" then Dict([Named("type", "string"), Member("x-utf8-max-bytes", Number(128))])
    else Dict([Named("type", "array"), Member("items", NULL_NODE), Member("maxItems", Number(1))])
  }

  /** A value it allows. */
  function ValueOf(name: string): Node {
    if name == "bool" then Flag(true)
    else if name in {"str", "Literal", "AfterValidator"} then Str([])
    else Items([])
  }

  lemma BooleanAnnotation(lang: Language, defined: set<string>)
    ensures Annotation(lang, NodeUsing("bool"), defined) == Some("bool") && !IsObject(NodeUsing("bool")) && Basic(NodeUsing("bool"))
  {
    PointsBack("boolean");
    OneMember(Named("type", "boolean"));
  }

  lemma BooleanConforms(lang: Language, definitions: seq<Member>, i: nat)
    requires i <= |definitions|
    ensures Conforms(lang, definitions, i, NodeUsing("bool"), Flag(true))
  {
    PointsBack("boolean");
    OneMember(Named("type", "boolean"));
    TypeConforms(lang, definitions, i, NodeUsing("bool"), Flag(true));
  }

  lemma StringShape()
    ensures var node := NodeUsing("str");
      && node.Dict? && OnlyKeys(node, STRING_KEYS) && IsText(Get(node, "type"), "string")
      && forall key | key != "type" :: Get(node, key).None?
  {
    PointsBack("string");
    OneMember(Named("type", "string"));
  }

  lemma StringAnnotated(lang: Language, defined: set<string>)
    ensures Annotation(lang, NodeUsing("str"), defined) == Some("str") && !IsObject(NodeUsing("str")) && Basic(NodeUsing("str"))
  {
    StringShape();
    var node := NodeUsing("str");
    assert PatternConstraint(lang, node) == Some([]) && LengthConstraint(node, "minLength", "min_length") == Some([]);
    assert LengthConstraint(node, "maxLength", "max_length") == Some([]);
    assert Utf8Validator(node) == Some([]) && DecimalValidator(node) == Some([]) && CalendarValidator(node) == Some([]);
    assert Constraints(lang, node) == Some([] + [] + []) && Validators(node) == Some([] + [] + []);
  }

  lemma StringAllows(lang: Language, definitions: seq<Member>, i: nat)
    requires i <= |definitions|
    ensures Conforms(lang, definitions, i, NodeUsing("str"), Str([]))
  {
    StringShape();
    StringConforms(lang, definitions, i, NodeUsing("str"), Str([]));
  }

  lemma LiteralShape()
    ensures var node := NodeUsing("Literal");
      && node.Dict? && OnlyKeys(node, {"type", "const"}) && OnlyKeys(node, STRING_KEYS) && IsText(Get(node, "type"), "string")
      && Get(node, "const") == Some(Str([])) && forall key | key !in {"type", "const"} :: Get(node, key).None?
  {
    PointsBack("string");
    TwoMembers(Named("type", "string"), Member("const", Str([])));
  }

  lemma LiteralAnnotated(lang: Language, defined: set<string>)
    ensures var node := NodeUsing("Literal");
      Annotation(lang, node, defined) == Some("Literal[\"\"]") && !IsObject(node) && Basic(node)
  {
    LiteralShape();
    var values := [Str([])];
    assert Dumps([]) == "\"\"";
    assert seq(|values|, i requires 0 <= i < |values| => Dumps(values[i].text)) == ["\"\""];
    assert LiteralAnnotation(values) == Some("Literal[" + "\"\"" + "]");
    assert "Literal[" + "\"\"" + "]" == "Literal[\"\"]";
  }

  lemma LiteralAllows(lang: Language, definitions: seq<Member>, i: nat)
    requires i <= |definitions|
    ensures Conforms(lang, definitions, i, NodeUsing("Literal"), Str([]))
  {
    LiteralShape();
    ConstConforms(lang, definitions, i, NodeUsing("Literal"), Str([]));
  }

  lemma LimitShape()
    ensures var node := NodeUsing("AfterValidator");
      && node.Dict? && OnlyKeys(node, STRING_KEYS) && IsText(Get(node, "type"), "string")
      && Get(node, "x-utf8-max-bytes") == Some(Number(128))
      && forall key | key !in {"type", "x-utf8-max-bytes"} :: Get(node, key).None?
  {
    PointsBack("string");
    TwoMembers(Named("type", "string"), Member("x-utf8-max-bytes", Number(128)));
  }

  lemma LimitAnnotated(lang: Language, defined: set<string>)
    ensures var node := NodeUsing("AfterValidator");
      && Annotation(lang, node, defined).Some? && |Annotation(lang, node, defined).value| <= 60 && !IsObject(node) && Basic(node)
  {
    LimitShape();
    var node := NodeUsing("AfterValidator");
    StringNodeAnnotation(lang, node, defined);
    LimitConstraints(lang);
    LimitValidators();
    LimitText();
    var metadata := [] + Validators(node).value;
    assert metadata == Validators(node).value;
    assert StringAnnotation(lang, node) == Some("Annotated[str, " + Join(", ", metadata) + "]");
  }

  lemma LimitText()
    ensures |Join(", ", ["AfterValidator(_utf8_limit(" + Decimal(128) + "))"])| == 32
  {
    assert Decimal(1) == "1" && |Decimal(12)| == 2 && |Decimal(128)| == 3;
  }

  lemma LimitConstraints(lang: Language)
    ensures NodeUsing("AfterValidator").Dict? && Constraints(lang, NodeUsing("AfterValidator")) == Some([])
  {
    LimitShape();
    var node := NodeUsing("AfterValidator");
    assert PatternConstraint(lang, node) == Some([]) && LengthConstraint(node, "minLength", "min_length") == Some([]);
    assert LengthConstraint(node, "maxLength", "max_length") == Some([]);
    var none: seq<string> := [];
    assert none + none + none == none;
    assert Constraints(lang, node) == Some(none + none + none);
  }

  lemma LimitValidators()
    ensures NodeUsing("AfterValidator").Dict?
    ensures Validators(NodeUsing("AfterValidator")) == Some(["AfterValidator(_utf8_limit(" + Decimal(128) + "))"])
  {
    LimitShape();
    var node := NodeUsing("AfterValidator");
    var limit := Utf8Validator(node);
    assert DecimalValidator(node) == Some([]) && CalendarValidator(node) == Some([]);
    assert Validators(node) == Some(limit.value + [] + []);
    assert limit.value + [] + [] == limit.value;
  }

  lemma LimitAllowsEmpty(lang: Language, definitions: seq<Member>, i: nat)
    requires i <= |definitions|
    ensures Conforms(lang, definitions, i, NodeUsing("AfterValidator"), Str([]))
  {
    LimitShape();
    StringConforms(lang, definitions, i, NodeUsing("AfterValidator"), Str([]));
  }

  lemma ListShape()
    ensures var node := NodeUsing("list");
      && node.Dict? && OnlyKeys(node, {"type", "items", "maxItems"}) && IsText(Get(node, "type"), "array")
      && Get(node, "items") == Some(NULL_NODE) && Get(node, "maxItems") == Some(Number(1))
      && forall key | key !in {"type", "items", "maxItems"} :: Get(node, key).None?
  {
    PointsBack("array");
    var (a, b, c) := (Named("type", "array"), Member("items", NULL_NODE), Member("maxItems", Number(1)));
    var node := Dict([a, b, c]);
    assert [a, b, c][1..] == [b, c] && [b, c][1..] == [c];
    assert GetMember([c], "maxItems") == Some(Number(1));
    assert GetMember([b, c], "maxItems") == Some(Number(1)) && GetMember([b, c], "items") == Some(NULL_NODE);
    assert GetMember([a, b, c], "maxItems") == Some(Number(1)) && GetMember([a, b, c], "items") == Some(NULL_NODE);
    assert GetMember([a, b, c], "type") == Some(a.value);
    assert OnlyKeys(node, {"type", "items", "maxItems"});
    Silent(node, {"type", "items", "maxItems"});
  }

  lemma ListAnnotated(lang: Language, defined: set<string>)
    ensures var node := NodeUsing("list");
      && Annotation(lang, node, defined).Some? && |Annotation(lang, node, defined).value| <= 60 && !IsObject(node) && Basic(node)
  {
    ListShape();
    ListAnnotation(lang, defined);
  }

  lemma ListAnnotation(lang: Language, defined: set<string>)
    ensures Annotation(lang, NodeUsing("list"), defined) == Some("Annotated[list[" + "None" + "], Field(max_length=" + "1" + ")]")
  {
    ListShape();
    ArrayAnnotation(lang, NodeUsing("list"), defined);
    DecimalOne();
  }

  lemma DecimalOne()
    ensures Decimal(1) == "1"
  {
  }

  lemma ArrayAnnotation(lang: Language, node: Node, defined: set<string>)
    requires node.Dict? && OnlyKeys(node, {"type", "items", "maxItems"}) && IsText(Get(node, "type"), "array")
    requires Get(node, "items") == Some(NULL_NODE) && Get(node, "maxItems") == Some(Number(1))
    ensures Annotation(lang, node, defined) == Some("Annotated[list[" + "None" + "], Field(max_length=" + Decimal(1) + ")]")
  {
    NullAnnotation(lang, defined);
    Silent(node, {"type", "items", "maxItems"});
    assert Get(node, "$ref").None? && Get(node, "anyOf").None?;
  }

  lemma StringNodeAnnotation(lang: Language, node: Node, defined: set<string>)
    requires node.Dict? && IsText(Get(node, "type"), "string") && Get(node, "$ref").None? && Get(node, "anyOf").None?
    ensures Annotation(lang, node, defined) == StringAnnotation(lang, node) && !IsObject(node)
  {
  }

  lemma ListAllows(lang: Language, definitions: seq<Member>, i: nat)
    requires i <= |definitions|
    ensures Conforms(lang, definitions, i, NodeUsing("list"), Items([]))
  {
    ListShape();
    ListConforms(lang, definitions, i, NodeUsing("list"), Items([]));
  }

  /** The node compiles to a short annotation and allows its value. */
  lemma NodeUses(lang: Language, name: string, defined: set<string>, definitions: seq<Member>, i: nat)
    requires name in USED && i <= |definitions|
    ensures var node := NodeUsing(name);
      && node.Dict? && !IsObject(node) && Basic(node)
      && Annotation(lang, node, defined).Some? && |Annotation(lang, node, defined).value| <= 60
      && Conforms(lang, definitions, i, node, ValueOf(name))
  {
    if name == "bool" {
      BooleanAnnotation(lang, defined);
      BooleanConforms(lang, definitions, i);
    } else if name == "str" {
      StringAnnotated(lang, defined);
      StringAllows(lang, definitions, i);
    } else if name == "Literal" {
      LiteralAnnotated(lang, defined);
      LiteralAllows(lang, definitions, i);
    } else if name == "AfterValidator" {
      LimitAnnotated(lang, defined);
      LimitAllowsEmpty(lang, definitions, i);
    } else {
      assert NodeUsing(name) == NodeUsing("list") && ValueOf(name) == Items([]);
      ListAnnotated(lang, defined);
      ListAllows(lang, definitions, i);
    }
  }

  lemma UsedNamesOk(name: string)
    requires name in USED
    ensures NameOk(name) && |AliasPrefix(name)| <= 28
  {
    assert name == "bool" || name == "str" || name == "list" || name == "Literal" || name == "Annotated" || name == "Field"
      || name == "AfterValidator";
    assert IsName(name);
    assert name !in KEYWORDS;
    assert name !in {"UsageWireModel", "SOURCE_SHA256", "MAX_JSON_BYTES", "MAX_JSON_DEPTH"};
  }

  lemma LimitExpression()
    ensures var node := NodeUsing("AfterValidator");
      && Metadata(node) == LimitOf(node) && |LimitOf(node)| == 1
      && UnionOf(node) == One(Index("Annotated", Comma(One(Name("str")), ArgsOf(LimitOf(node)))))
  {
    LimitShape();
    var node := NodeUsing("AfterValidator");
    LimitOnly(node);
    StringNodeUnion(node);
  }

  /** The expression of a string node without constant. */
  lemma StringNodeUnion(node: Node)
    requires node.Dict? && IsText(Get(node, "type"), "string")
    requires Get(node, "const").None? && Get(node, "enum").None? && Get(node, "$ref").None? && Get(node, "anyOf").None?
    ensures UnionOf(node) == StringUnion(node)
    ensures Metadata(node) != [] ==> StringUnion(node) == One(Index("Annotated", Comma(One(Name("str")), ArgsOf(Metadata(node)))))
    ensures Metadata(node) == [] ==> StringUnion(node) == One(Name("str"))
  {
  }

  lemma LimitOnly(node: Node)
    requires node.Dict? && Get(node, "x-utf8-max-bytes").Some? && forall key | key !in {"type", "x-utf8-max-bytes"} :: Get(node, key).None?
    ensures ConstraintsOf(node) == [] && Metadata(node) == LimitOf(node) && |LimitOf(node)| == 1
  {
    assert Get(node, "pattern").None? && Get(node, "minLength").None? && Get(node, "maxLength").None?;
    assert Get(node, "x-max-decimal").None? && Get(node, "x-calendar-valid").None?;
    var none: seq<Union> := [];
    assert ConstraintsOf(node) == none + none + none;
    assert ValidatorsOf(node) == LimitOf(node) + none + none;
    assert Metadata(node) == none + ValidatorsOf(node);
  }

  lemma ListExpression()
    ensures UnionOf(NodeUsing("list")) == ListOf(UnionOf(NULL_NODE), 1)
  {
    ListShape();
    var node := NodeUsing("list");
    assert Get(node, "$ref").None? && Get(node, "anyOf").None?;
  }

  lemma BooleanExpression()
    ensures UnionOf(NodeUsing("bool")) == One(Name("bool"))
  {
    PointsBack("boolean");
    OneMember(Named("type", "boolean"));
  }

  lemma StringExpression()
    ensures UnionOf(NodeUsing("str")) == One(Name("str"))
  {
    StringShape();
    StringNodeUnion(NodeUsing("str"));
    assert ConstraintsOf(NodeUsing("str")) == [] && ValidatorsOf(NodeUsing("str")) == [];
  }

  lemma LiteralExpression()
    ensures UnionOf(NodeUsing("Literal")) == LiteralUnion([Str([])])
  {
    LiteralShape();
  }

  lemma NullDefined(lang: Language, definitions: seq<Member>, name: string)
    requires Accepted(lang, definitions) && Distinct(definitions) && name !in Names(definitions)
    requires NameOk(name) && |AliasPrefix(name)| <= 34
    ensures Accepted(lang, definitions + [Member(name, NULL_NODE)]) && Distinct(definitions + [Member(name, NULL_NODE)])
    ensures Names(definitions + [Member(name, NULL_NODE)]) == Names(definitions) + {name}
  {
    NullAnnotation(lang, Names(definitions));
    ShortAlias(lang, name, NULL_NODE, Names(definitions));
    AcceptedAppend(lang, definitions, Member(name, NULL_NODE));
    DistinctAppend(definitions, Member(name, NULL_NODE));
    NamesAppend(definitions, Member(name, NULL_NODE));
  }

  /** A definition that takes a name as null, and then a node. */
  function Taking(definitions: seq<Member>, name: string, node: Node): seq<Member> {
    definitions + [Member(name, NULL_NODE)] + [Member("Note", node)]
  }

  lemma TakingAccepted(lang: Language, definitions: seq<Member>, name: string, node: Node)
    requires Accepted(lang, definitions) && Distinct(definitions) && name !in Names(definitions) && "Note" !in Names(definitions)
    requires NameOk(name) && name != "Note" && |AliasPrefix(name)| <= 34
    requires node.Dict? && !IsObject(node)
    requires Annotation(lang, node, Names(definitions) + {name}).Some? && |Annotation(lang, node, Names(definitions) + {name}).value| <= 60
    ensures Accepted(lang, Taking(definitions, name, node)) && Distinct(Taking(definitions, name, node))
    ensures |Taking(definitions, name, node)| == |definitions| + 2
    ensures Taking(definitions, name, node)[|definitions|] == Member(name, NULL_NODE)
    ensures Taking(definitions, name, node)[|definitions| + 1] == Member("Note", node)
  {
    var first := definitions + [Member(name, NULL_NODE)];
    NullDefined(lang, definitions, name);
    NoteOk();
    ShortAlias(lang, "Note", node, Names(first));
    AcceptedAppend(lang, first, Member("Note", node));
    DistinctAppend(first, Member("Note", node));
  }

  /** In an imported module, the name that was taken as null is null for the node. */
  lemma TakenAsNull(lang: Language, definitions: seq<Member>, globals: Bindings, j: nat, name: string)
    requires Imported(lang, definitions, globals) && j < |definitions| && definitions[j] == Member(name, NULL_NODE)
    ensures Lookup(globals, name) == Some(NoneType)
    ensures j + 1 < |definitions| ==> Find(At(lang, globals, j + 1, "").scope, name) == Some(NoneType)
  {
    var ds := DefinitionsOf(definitions);
    NullAnnotation(lang, {});
    NullExpression();
    AliasParts(definitions[j]);
    AliasIsNull(lang, definitions, globals, j);
    LookupAt(globals, j);
    LookupAt(globals[..j + 1], j);
  }

  lemma AliasIsNull(lang: Language, definitions: seq<Member>, globals: Bindings, j: nat)
    requires Imported(lang, definitions, globals) && j < |definitions| && definitions[j].value == NULL_NODE && !IsObject(NULL_NODE)
    ensures globals[j].1 == NoneType
  {
    NullExpression();
    LoadedAt(lang, DefinitionsOf(definitions), j);
    assert ImportedTo(lang, definitions, j, globals[..j]);
    ValueNull(lang, definitions, j, globals[..j], globals[j].1);
  }

  lemma UsingNull(w: World, name: string)
    requires name in USED && Find(w.scope, name) == Some(NoneType)
    ensures !AllowsUnion(w, UnionOf(NodeUsing(name)), ValueOf(name))
      || !EvaluableUnion(w.lang, w.scope, UnionOf(NodeUsing(name)))
  {
    if name == "bool" {
      BooleanExpression();
    } else if name == "str" {
      StringExpression();
    } else if name == "Literal" {
      LiteralExpression();
    } else if name == "AfterValidator" {
      LimitExpression();
      UsingAfterValidator(w.lang, w.scope);
    } else {
      assert NodeUsing(name) == NodeUsing("list");
      ListExpression();
      UsingList(w.lang, w.scope, name);
    }
  }

  lemma UsingAfterValidator(lang: Language, scope: Scope)
    requires Find(scope, "AfterValidator") == Some(NoneType)
    ensures !EvaluableUnion(lang, scope, UnionOf(NodeUsing("AfterValidator")))
  {
    LimitExpression();
    var limit := LimitOf(NodeUsing("AfterValidator"));
    assert EvalMeta(lang, scope, [], limit[0]).None?;
    MetadataMeans(World(lang, [], scope), limit, Null);
    var item := UnionOf(NodeUsing("AfterValidator")).item;
    assert !EvaluableItem(lang, scope, item);
  }

  lemma UsingList(lang: Language, scope: Scope, name: string)
    requires name in {"list", "Annotated", "Field"} && Find(scope, name) == Some(NoneType)
    ensures !EvaluableUnion(lang, scope, ListOf(UnionOf(NULL_NODE), 1))
  {
    var item, field := UnionOf(NULL_NODE), One(Call("Field", Last(Bound("max_length", 1))));
    if name == "Field" {
      assert EvalMeta(lang, scope, [], field).None?;
      assert !EvaluableMetas(lang, scope, Last(field));
    } else if name == "list" {
      ListEvaluates(lang, scope, item);
    }
    assert !EvaluableItem(lang, scope, ListOf(item, 1).item);
  }

  /**
   Two more definitions, one that takes the name and a node that uses it: they are compiled, and
   the module cannot be imported or refuses a value the node allows.
   */
  ghost predicate TakenFails(lang: Language, definitions: seq<Member>, name: string, node: Node, v: Node) {
    var more := Taking(definitions, name, node);
    && Accepted(lang, more) && LastRefuses(lang, more, v) && !Faithful(lang, more)
    && Conforms(lang, more, |definitions| + 1, node, v)
  }

  /** The node refuses the value, or cannot be evaluated, wherever the name stands for null. */
  ghost predicate BrokenByNull(name: string, node: Node, v: Node) {
    forall w: World | Find(w.scope, name) == Some(NoneType) :: !AllowsUnion(w, UnionOf(node), v) || !EvaluableUnion(w.lang, w.scope, UnionOf(node))
  }

  /** Short, and compiled to a short annotation whatever else is defined. */
  ghost predicate Short(lang: Language, node: Node) {
    node.Dict? && !IsObject(node)
    && forall defined :: Annotation(lang, node, defined).Some? && |Annotation(lang, node, defined).value| <= 60
  }

  ghost predicate AlwaysAllows(lang: Language, node: Node, v: Node) {
    forall definitions: seq<Member>, i: nat | i <= |definitions| :: Conforms(lang, definitions, i, node, v)
  }

  /** Wherever the extended schema is imported, the node refuses the value or cannot be evaluated. */
  ghost predicate BrokenIn(lang: Language, more: seq<Member>, node: Node, v: Node)
    requires more != []
  {
    forall globals | Imported(lang, more, globals) ::
      var w := At(lang, globals, |more| - 1, "");
      !AllowsUnion(w, UnionOf(node), v) || !EvaluableUnion(lang, w.scope, UnionOf(node))
  }

  lemma FailsWhenBroken(lang: Language, definitions: seq<Member>, name: string, node: Node, v: Node)
    requires Accepted(lang, definitions) && Distinct(definitions) && name !in Names(definitions) && "Note" !in Names(definitions)
    requires NameOk(name) && name != "Note" && |AliasPrefix(name)| <= 34
    requires Short(lang, node) && AlwaysAllows(lang, node, v) && BrokenIn(lang, Taking(definitions, name, node), node, v)
    ensures TakenFails(lang, definitions, name, node, v)
  {
    var more := Taking(definitions, name, node);
    assert Annotation(lang, node, Names(definitions) + {name}).Some?;
    TakingAccepted(lang, definitions, name, node);
    assert Conforms(lang, more, |more| - 1, node, v);
    AliasRefuses(lang, more, v);
    Unfaithful(lang, more, v);
  }

  lemma FailsWhenTaken(lang: Language, definitions: seq<Member>, name: string, node: Node, v: Node)
    requires Accepted(lang, definitions) && Distinct(definitions) && name !in Names(definitions) && "Note" !in Names(definitions)
    requires NameOk(name) && name != "Note" && |AliasPrefix(name)| <= 34
    requires Short(lang, node) && AlwaysAllows(lang, node, v) && BrokenByNull(name, node, v)
    ensures TakenFails(lang, definitions, name, node, v)
  {
    var more := Taking(definitions, name, node);
    forall globals | Imported(lang, more, globals)
      ensures var w := At(lang, globals, |more| - 1, ""); !AllowsUnion(w, UnionOf(node), v) || !EvaluableUnion(lang, w.scope, UnionOf(node))
    {
      assert more[|definitions|] == Member(name, NULL_NODE);
      TakenAsNull(lang, more, globals, |definitions|, name);
    }
    FailsWhenBroken(lang, definitions, name, node, v);
  }

  lemma UsesShort(lang: Language, name: string)
    requires name in USED
    ensures Short(lang, NodeUsing(name)) && AlwaysAllows(lang, NodeUsing(name), ValueOf(name))
  {
    NodeUses(lang, name, {}, [], 0);
    forall defined
      ensures Annotation(lang, NodeUsing(name), defined).Some? && |Annotation(lang, NodeUsing(name), defined).value| <= 60
    {
      NodeUses(lang, name, defined, [], 0);
    }
    forall definitions: seq<Member>, i: nat | i <= |definitions|
      ensures Conforms(lang, definitions, i, NodeUsing(name), ValueOf(name))
    {
      NodeUses(lang, name, {}, definitions, i);
    }
  }

  lemma UsesBroken(name: string)
    requires name in USED
    ensures BrokenByNull(name, NodeUsing(name), ValueOf(name))
  {
    forall w: World | Find(w.scope, name) == Some(NoneType)
      ensures !AllowsUnion(w, UnionOf(NodeUsing(name)), ValueOf(name)) || !EvaluableUnion(w.lang, w.scope, UnionOf(NodeUsing(name)))
    {
      UsingNull(w, name);
    }
  }

  /** Each name that annotations use fails when it is taken before its use. */
  lemma TakenNameRefuses(lang: Language, definitions: seq<Member>, name: string)
    requires Accepted(lang, definitions) && Distinct(definitions) && name in USED
    requires name !in Names(definitions) && "Note" !in Names(definitions)
    ensures TakenFails(lang, definitions, name, NodeUsing(name), ValueOf(name))
  {
    UsedNamesOk(name);
    UsesShort(lang, name);
    UsesBroken(name);
    FailsWhenTaken(lang, definitions, name, NodeUsing(name), ValueOf(name));
  }

  // ----- names taken from the validators -------------------------------------------------------------

  /** The names that the validators use when they run, apart from `ValueError`, which decides nothing. */
  const CHECKED := {"len", "int", "re", "datetime"}

  const DECIMAL_NODE := Dict([Named("type", "string"), Named("x-max-decimal", "9223372036854775807")])

  const CALENDAR_NODE := Dict([Named("type", "string"), Member("x-calendar-valid", Flag(true))])

  /** A node whose check uses the name. */
  function NodeChecking(name: string): Node {
    if name == "len" then NodeUsing("AfterValidator") else if name == "int" then DECIMAL_NODE else CALENDAR_NODE
  }

  lemma DecimalShape()
    ensures DECIMAL_NODE.Dict? && OnlyKeys(DECIMAL_NODE, STRING_KEYS) && IsText(Get(DECIMAL_NODE, "type"), "string")
    ensures IsText(Get(DECIMAL_NODE, "x-max-decimal"), "9223372036854775807")
    ensures forall key | key !in {"type", "x-max-decimal"} :: Get(DECIMAL_NODE, key).None?
  {
    PointsBack("string");
    PointsBack("9223372036854775807");
    TwoMembers(Named("type", "string"), Named("x-max-decimal", "9223372036854775807"));
  }

  lemma CalendarShape()
    ensures CALENDAR_NODE.Dict? && OnlyKeys(CALENDAR_NODE, STRING_KEYS) && IsText(Get(CALENDAR_NODE, "type"), "string")
    ensures Get(CALENDAR_NODE, "x-calendar-valid") == Some(Flag(true))
    ensures forall key | key !in {"type", "x-calendar-valid"} :: Get(CALENDAR_NODE, key).None?
  {
    PointsBack("string");
    TwoMembers(Named("type", "string"), Member("x-calendar-valid", Flag(true)));
  }

  /** A string node with one check and nothing else. */
  predicate OnlyChecks(node: Node) {
    && node.Dict? && OnlyKeys(node, STRING_KEYS) && IsText(Get(node, "type"), "string")
    && Get(node, "$ref").None? && Get(node, "anyOf").None? && Get(node, "const").None? && Get(node, "enum").None?
    && Get(node, "pattern").None? && Get(node, "minLength").None? && Get(node, "maxLength").None?
  }

  lemma OnlyChecksShort(lang: Language, node: Node, validator: string)
    requires OnlyChecks(node) && Validators(node) == Some([validator]) && |validator| <= 44
    ensures Short(lang, node) && !IsObject(node)
  {
    var none: seq<string> := [];
    assert PatternConstraint(lang, node) == Some(none) && LengthConstraint(node, "minLength", "min_length") == Some(none);
    assert LengthConstraint(node, "maxLength", "max_length") == Some(none);
    assert none + none + none == none && none + [validator] == [validator];
    assert Constraints(lang, node) == Some(none + none + none);
    forall defined ensures Annotation(lang, node, defined).Some? && |Annotation(lang, node, defined).value| <= 60 {
      StringNodeAnnotation(lang, node, defined);
      assert StringAnnotation(lang, node) == Some("Annotated[str, " + Join(", ", [validator]) + "]");
    }
  }

  lemma DecimalValidators()
    ensures DECIMAL_NODE.Dict? && Validators(DECIMAL_NODE) == Some(["AfterValidator(_decimal_limit)"])
  {
    DecimalShape();
    var none: seq<string> := [];
    assert Utf8Validator(DECIMAL_NODE) == Some(none) && CalendarValidator(DECIMAL_NODE) == Some(none);
    assert none + ["AfterValidator(_decimal_limit)"] + none == ["AfterValidator(_decimal_limit)"];
  }

  lemma CalendarValidators()
    ensures CALENDAR_NODE.Dict? && Validators(CALENDAR_NODE) == Some(["AfterValidator(_calendar)"])
  {
    CalendarShape();
    var none: seq<string> := [];
    assert Utf8Validator(CALENDAR_NODE) == Some(none) && DecimalValidator(CALENDAR_NODE) == Some(none);
    assert none + none + ["AfterValidator(_calendar)"] == ["AfterValidator(_calendar)"];
  }

  lemma LimitShort(lang: Language)
    ensures Short(lang, NodeChecking("len")) && OnlyChecks(NodeChecking("len"))
  {
    LimitShape();
    UsesShort(lang, "AfterValidator");
  }

  lemma DecimalShort(lang: Language)
    ensures Short(lang, DECIMAL_NODE) && OnlyChecks(DECIMAL_NODE)
  {
    DecimalShape();
    DecimalValidators();
    OnlyChecksShort(lang, DECIMAL_NODE, "AfterValidator(_decimal_limit)");
  }

  lemma CalendarShort(lang: Language)
    ensures Short(lang, CALENDAR_NODE) && OnlyChecks(CALENDAR_NODE)
  {
    CalendarShape();
    CalendarValidators();
    OnlyChecksShort(lang, CALENDAR_NODE, "AfterValidator(_calendar)");
  }

  lemma ChecksShort(lang: Language, name: string)
    requires name in CHECKED
    ensures Short(lang, NodeChecking(name)) && OnlyChecks(NodeChecking(name))
  {
    if name == "len" {
      LimitShort(lang);
    } else if name == "int" {
      DecimalShort(lang);
    } else {
      CalendarShort(lang);
    }
  }

  /** A string that the check of the name admits. */
  predicate Admitted(lang: Language, name: string, t: Text) {
    if name == "len" then t == [] else if name == "int" then lang.decimal(t) else lang.calendar(t)
  }

  lemma ChecksAllowText(lang: Language, name: string, t: Text)
    requires name in CHECKED && Admitted(lang, name, t)
    ensures AlwaysAllows(lang, NodeChecking(name), Str(t))
  {
    LimitShape();
    DecimalShape();
    CalendarShape();
    var node := NodeChecking(name);
    forall definitions: seq<Member>, i: nat | i <= |definitions| ensures Conforms(lang, definitions, i, node, Str(t)) {
      StringConforms(lang, definitions, i, node, Str(t));
    }
  }

  lemma ChecksRefuse(globals: Bindings, name: string)
    requires name in CHECKED && Lookup(globals, name) == Some(NoneType)
    ensures NodeChecking(name).Dict? && Refuses(globals, NodeChecking(name))
  {
    LimitShape();
    DecimalShape();
    CalendarShape();
  }

  lemma CheckBroken(w: World, name: string, v: Node)
    requires name in CHECKED && Lookup(w.globals, name) == Some(NoneType) && Find(w.scope, "AfterValidator").None?
    ensures !AllowsUnion(w, UnionOf(NodeChecking(name)), v) || !EvaluableUnion(w.lang, w.scope, UnionOf(NodeChecking(name)))
  {
    ChecksShort(w.lang, name);
    ChecksRefuse(w.globals, name);
    RefusingText(w, NodeChecking(name), v);
  }

  lemma RefusingText(w: World, node: Node, v: Node)
    requires OnlyChecks(node) && Refuses(w.globals, node) && Find(w.scope, "AfterValidator").None?
    ensures !AllowsUnion(w, UnionOf(node), v) || !EvaluableUnion(w.lang, w.scope, UnionOf(node))
  {
    StringNodeUnion(node);
    if EvaluableUnion(w.lang, w.scope, UnionOf(node)) {
      TextReads(w, node, v);
      assert !ChecksRead(w.lang, w.globals, node, v);
    }
  }

  lemma CheckedNamesOk(name: string)
    requires name in CHECKED
    ensures NameOk(name) && |AliasPrefix(name)| <= 28
  {
    assert name == "len" || name == "int" || name == "re" || name == "datetime";
    assert IsName(name);
    assert name !in KEYWORDS;
    assert name !in {"UsageWireModel", "SOURCE_SHA256", "MAX_JSON_BYTES", "MAX_JSON_DEPTH"};
  }

  lemma Untouched(lang: Language, definitions: seq<Member>, name: string, node: Node, globals: Bindings)
    requires Imported(lang, Taking(definitions, name, node), globals) && "AfterValidator" !in Names(definitions) && name != "AfterValidator"
    ensures Find(At(lang, globals, |definitions| + 1, "").scope, "AfterValidator").None?
  {
    var more, n := Taking(definitions, name, node), |definitions| + 1;
    var first := definitions + [Member(name, NULL_NODE)];
    LoadedAt(lang, DefinitionsOf(more), n);
    assert more[..n] == first;
    NamesAppend(definitions, Member(name, NULL_NODE));
    Unbound(lang, more, n, globals[..n], "AfterValidator");
  }

  lemma CheckBrokenIn(lang: Language, definitions: seq<Member>, name: string, node: Node, v: Node)
    requires name in CHECKED && node == NodeChecking(name) && "AfterValidator" !in Names(definitions)
    ensures BrokenIn(lang, Taking(definitions, name, node), node, v)
  {
    var more := Taking(definitions, name, node);
    forall globals | Imported(lang, more, globals)
      ensures var w := At(lang, globals, |more| - 1, ""); !AllowsUnion(w, UnionOf(node), v) || !EvaluableUnion(lang, w.scope, UnionOf(node))
    {
      assert more[|definitions|] == Member(name, NULL_NODE);
      TakenAsNull(lang, more, globals, |definitions|, name);
      Untouched(lang, definitions, name, node, globals);
      CheckBroken(At(lang, globals, |more| - 1, ""), name, v);
    }
  }

  /** Each name that the validators use fails when it is taken, and a check uses it. */
  lemma TakenCheckNameRefuses(lang: Language, definitions: seq<Member>, name: string, t: Text)
    requires Accepted(lang, definitions) && Distinct(definitions) && name in CHECKED && Admitted(lang, name, t)
    requires name !in Names(definitions) && "Note" !in Names(definitions) && "AfterValidator" !in Names(definitions)
    ensures TakenFails(lang, definitions, name, NodeChecking(name), Str(t))
  {
    CheckedNamesOk(name);
    ChecksShort(lang, name);
    ChecksAllowText(lang, name, t);
    CheckBrokenIn(lang, definitions, name, NodeChecking(name), Str(t));
    FailsWhenBroken(lang, definitions, name, NodeChecking(name), Str(t));
  }
}
