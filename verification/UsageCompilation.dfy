/** The compiled module: its lines read back to the definitions of the schema exactly when every layout is tidy. */
module UsageCompilation {
  import opened Wrappers
  import opened UsageLexer
  import opened UsageLayout
  import opened UsageReading
  import opened UsageSchema
  import opened UsageMeaning
  import opened UsageSyntax
  import opened UsageExpressions
  import opened UsageForms
  import opened UsageScan
  import opened UsageWidth
  import opened UsageNodes

  // ----- what introduces an annotation ------------------------------------------------------------

  lemma LexColon()
    ensures Lex(": ") == Some([Mark(':')]) && Lex(" = ") == Some([Mark('=')])
  {
    LexMark(':');
    LexMark('=');
    LexSpace();
    LexAppend(":", " ");
    assert ":" + " " == ": " && [Mark(':')] + [] == [Mark(':')];
    LexAppend(" ", "=");
    assert " " + "=" == " =" && [] + [Mark('=')] == [Mark('=')];
    LexAppend(" =", " ");
    assert " =" + " " == " = " && [Mark('=')] + [] == [Mark('=')];
  }

  lemma NameIsWord(name: string)
    requires IsName(name)
    ensures IsWord(name)
  {
  }

  lemma FieldPrefixOk(name: string)
    requires IsName(name)
    ensures PrefixOk(FieldPrefix(name)) && Lex(FieldPrefix(name)) == Some([Word(name), Mark(':')])
  {
    LexSpaces(4);
    assert "    " == Spaces(4);
    LexWord(name);
    LexColon();
    LexAppend(name, ": ");
    LexAppend("    ", name + ": ");
    assert FieldPrefix(name) == "    " + (name + ": ");
    assert [] + ([Word(name)] + [Mark(':')]) == [Word(name), Mark(':')];
  }

  lemma AliasText(name: string)
    ensures AliasPrefix(name) == name + ": " + ("TypeAlias" + " = ")
  {
  }

  lemma AliasPrefixOk(name: string)
    requires IsName(name)
    ensures PrefixOk(AliasPrefix(name)) && Lex(AliasPrefix(name)) == Some(AliasTokens(name))
  {
    LexWord(name);
    LexAliasSign();
    LexColon();
    LexThree(name, ": ", "TypeAlias" + " = ", Mark(':'));
    AliasText(name);
    AliasTokenList(name);
  }

  lemma LexAliasSign()
    ensures Lex("TypeAlias" + " = ") == Some([Word("TypeAlias"), Mark('=')])
  {
    LexWord("TypeAlias");
    LexColon();
    LexAppend("TypeAlias", " = ");
    assert [Word("TypeAlias")] + [Mark('=')] == [Word("TypeAlias"), Mark('=')];
  }

  lemma AliasTokenList(name: string)
    ensures [Word(name)] + [Mark(':')] + [Word("TypeAlias"), Mark('=')] == AliasTokens(name)
  {
  }

  // ----- reading the statements back --------------------------------------------------------------

  predicate Words(names: set<string>) {
    forall name | name in names :: IsWord(name)
  }

  predicate TidyField(field: Member) {
    Tidy(FieldPrefix(field.key), ShowUnion(UnionOf(field.value)), "")
  }

  /** The layouts of a definition cut no literal and wrap no keyword argument. */
  predicate TidyDefinition(definition: Member) {
    if IsObject(definition.value) then
      var p := Get(definition.value, "properties");
      p.Some? && p.value.Dict? ==> forall k | 0 <= k < |p.value.members| :: TidyField(p.value.members[k])
    else Tidy(AliasPrefix(definition.key), ShowUnion(UnionOf(definition.value)), "")
  }

  lemma FieldReads(lang: Language, field: Member, defined: set<string>)
    requires FieldLines(lang, field, defined).Some? && Words(defined)
    ensures ReadField(FieldLines(lang, field, defined).value) == if TidyField(field) then Some((field.key, UnionOf(field.value))) else None
  {
    var union := UnionOf(field.value);
    AnnotationShown(lang, field.value, defined);
    UnionFormed(lang, field.value, defined);
    FormedUnionSound(union);
    FieldPrefixOk(field.key);
    PrintedReadsBack(FieldPrefix(field.key), union);
    var ts := [Word(field.key), Mark(':')] + UnionTokens(union);
    assert ts[2..] == UnionTokens(union);
  }

  lemma AliasReads(lang: Language, definition: Member, defined: set<string>)
    requires Define(lang, definition, defined).Some? && !IsObject(definition.value) && Words(defined)
    ensures ReadStatement(Define(lang, definition, defined).value)
      == if TidyDefinition(definition) then Some(DefinitionOf(definition)) else None
  {
    var union := UnionOf(definition.value);
    AnnotationShown(lang, definition.value, defined);
    UnionFormed(lang, definition.value, defined);
    FormedUnionSound(union);
    AliasPrefixOk(definition.key);
    PrintedReadsBack(AliasPrefix(definition.key), union);
    var ts := AliasTokens(definition.key) + UnionTokens(union);
    assert ts[4..] == UnionTokens(union) && ts[..4] == AliasTokens(definition.key);
  }

  /** Steps that all succeed. */
  lemma {:induction false} EachAll<A, B>(step: (seq<A>, A) -> Option<B>, xs: seq<A>, ys: seq<B>)
    requires |xs| == |ys| && forall k | 0 <= k < |xs| :: step(xs[..k], xs[k]) == Some(ys[k])
    ensures Each(step, xs) == Some(ys)
  {
    if xs != [] {
      var n := |xs| - 1;
      forall k | 0 <= k < n ensures step(xs[..n][..k], xs[..n][k]) == Some(ys[..n][k]) {
        assert xs[..n][..k] == xs[..k];
      }
      EachAll(step, xs[..n], ys[..n]);
      assert ys == ys[..n] + [ys[n]];
    } else {
      assert ys == [];
    }
  }

  lemma ClassReads(lang: Language, definition: Member, defined: set<string>)
    requires Define(lang, definition, defined).Some? && IsObject(definition.value) && Words(defined)
    ensures ReadStatement(Define(lang, definition, defined).value)
      == if TidyDefinition(definition) then Some(DefinitionOf(definition)) else None
  {
    var properties := Get(definition.value, "properties").value.members;
    var lines := Each(FieldWriter(lang, defined), properties).value;
    forall k | 0 <= k < |properties|
      ensures ReadField(lines[k]) == if TidyField(properties[k]) then Some(FieldsOf(properties)[k]) else None
    {
      FieldAnnotated(lang, properties, defined, k);
      FieldReads(lang, properties[k], defined);
    }
    if TidyDefinition(definition) {
      EachAll(FieldReader(), lines, FieldsOf(properties));
    } else if ReadFields(lines).Some? {
      var k :| 0 <= k < |properties| && !TidyField(properties[k]);
      EachPrefix(FieldReader(), lines, k);
      assert false;
    }
  }

  lemma DefinitionReads(lang: Language, definition: Member, defined: set<string>)
    requires Define(lang, definition, defined).Some? && Words(defined)
    ensures ReadStatement(Define(lang, definition, defined).value)
      == if TidyDefinition(definition) then Some(DefinitionOf(definition)) else None
  {
    if IsObject(definition.value) {
      ClassReads(lang, definition, defined);
    } else {
      AliasReads(lang, definition, defined);
    }
  }

  lemma DefinedWords(lang: Language, definitions: seq<Member>, k: nat)
    requires DefineAll(lang, definitions).Some? && k <= |definitions|
    ensures Words(Names(definitions[..k]))
  {
    forall name | name in Names(definitions[..k]) ensures IsWord(name) {
      var j :| 0 <= j < k && definitions[..k][j].key == name;
      DefinedAt(lang, definitions, j);
      NameIsWord(name);
    }
  }

  predicate TidySchema(definitions: seq<Member>) {
    forall k | 0 <= k < |definitions| :: TidyDefinition(definitions[k])
  }

  /** The compiled lines read back to the definitions of the schema exactly when every layout is tidy. */
  lemma CompiledReadsBack(lang: Language, definitions: seq<Member>)
    requires DefineAll(lang, definitions).Some?
    ensures ReadAll(DefineAll(lang, definitions).value) == if TidySchema(definitions) then Some(DefinitionsOf(definitions)) else None
  {
    var statements := DefineAll(lang, definitions).value;
    forall k | 0 <= k < |definitions|
      ensures ReadStatement(statements[k]) == if TidyDefinition(definitions[k]) then Some(DefinitionsOf(definitions)[k]) else None
    {
      DefinedAt(lang, definitions, k);
      DefinedWords(lang, definitions, k);
      DefinitionReads(lang, definitions[k], Names(definitions[..k]));
    }
    if TidySchema(definitions) {
      EachAll(StatementReader(), statements, DefinitionsOf(definitions));
    } else if ReadAll(statements).Some? {
      var k :| 0 <= k < |definitions| && !TidyDefinition(definitions[k]);
      EachPrefix(StatementReader(), statements, k);
      assert false;
    }
  }

  /** The tidiness of a definition, read off its annotations. */
  predicate NarrowDefinition(definition: Member) {
    if IsObject(definition.value) then
      var p := Get(definition.value, "properties");
      p.Some? && p.value.Dict? ==>
        forall k | 0 <= k < |p.value.members| :: Narrow(FieldPrefix(p.value.members[k].key), UnionOf(p.value.members[k].value), "")
    else Narrow(AliasPrefix(definition.key), UnionOf(definition.value), "")
  }

  lemma TidyIsNarrow(lang: Language, definition: Member, defined: set<string>)
    requires Define(lang, definition, defined).Some? && Words(defined)
    ensures TidyDefinition(definition) <==> NarrowDefinition(definition)
  {
    if IsObject(definition.value) {
      var properties := Get(definition.value, "properties").value.members;
      forall k | 0 <= k < |properties|
        ensures TidyField(properties[k]) <==> Narrow(FieldPrefix(properties[k].key), UnionOf(properties[k].value), "")
      {
        FieldAnnotated(lang, properties, defined, k);
        UnionFormed(lang, properties[k].value, defined);
        WidthDecides(FieldPrefix(properties[k].key), UnionOf(properties[k].value), "");
      }
    } else {
      UnionFormed(lang, definition.value, defined);
      WidthDecides(AliasPrefix(definition.key), UnionOf(definition.value), "");
    }
  }

  predicate NarrowSchema(definitions: seq<Member>) {
    forall k | 0 <= k < |definitions| :: NarrowDefinition(definitions[k])
  }

  /** The same, read off the expressions: no keyword argument is too wide and no constant is broken. */
  lemma NarrowSchemaReadsBack(lang: Language, definitions: seq<Member>)
    requires DefineAll(lang, definitions).Some?
    ensures ReadAll(DefineAll(lang, definitions).value) == if NarrowSchema(definitions) then Some(DefinitionsOf(definitions)) else None
  {
    CompiledReadsBack(lang, definitions);
    forall k | 0 <= k < |definitions| ensures TidyDefinition(definitions[k]) <==> NarrowDefinition(definitions[k]) {
      DefinedAt(lang, definitions, k);
      DefinedWords(lang, definitions, k);
      TidyIsNarrow(lang, definitions[k], Names(definitions[..k]));
    }
  }
}
