/** What the width condition says for a schema: only constraints of strings and list bounds can be too wide. */
module UsageWidthLimits {
  import opened PythonText
  import opened UsageLayout
  import opened UsageSchema
  import opened UsageMeaning
  import opened UsageSyntax
  import opened UsageExpressions
  import opened UsageScan
  import opened UsageWidth
  import opened UsageForms
  import opened UsageNodes
  import opened UsageCompilation
  import opened UsageContract
  import opened UsageLimits

  lemma {:induction false} LeadingOfSpaces(n: nat)
    ensures LeadingSpaces(Spaces(n)) == n
  {
    if n > 0 {
      assert Spaces(n)[1..] == Spaces(n - 1);
      LeadingOfSpaces(n - 1);
    }
  }

  /** Each pair of brackets moves its content four columns on. */
  lemma InnerOf(prefix: string)
    ensures |Inner(prefix)| == LeadingSpaces(prefix) + 4
    ensures |Inner(Inner(prefix))| == LeadingSpaces(prefix) + 8
  {
    var n := LeadingSpaces(prefix);
    assert Inner(prefix) == Spaces(n + 4);
    LeadingOfSpaces(n + 4);
  }

  predicate AllNarrow(prefix: string, unions: seq<Union>, suffix: string) {
    forall i | 0 <= i < |unions| :: Narrow(prefix, unions[i], suffix)
  }

  lemma {:induction false} NarrowArgsMeans(prefix: string, unions: seq<Union>, suffix: string)
    requires unions != []
    ensures NarrowArgs(prefix, ArgsOf(unions), suffix) <==> AllNarrow(prefix, unions, suffix)
  {
    if |unions| > 1 {
      NarrowArgsMeans(prefix, unions[1..], suffix);
      assert forall i | 0 <= i < |unions| :: unions[i] == if i == 0 then unions[0] else unions[1..][i - 1];
    }
  }

  lemma AllNarrowAppend(prefix: string, a: seq<Union>, b: seq<Union>, suffix: string)
    ensures AllNarrow(prefix, a + b, suffix) <==> AllNarrow(prefix, a, suffix) && AllNarrow(prefix, b, suffix)
  {
    if AllNarrow(prefix, a + b, suffix) {
      forall i | 0 <= i < |a| ensures Narrow(prefix, a[i], suffix) {
        assert (a + b)[i] == a[i];
      }
      forall i | 0 <= i < |b| ensures Narrow(prefix, b[i], suffix) {
        assert (a + b)[|a| + i] == b[i];
      }
    }
  }

  lemma ValidatorNarrow(prefix: string, validator: Item, suffix: string)
    requires validator.Name? || (validator.Call? && validator.args.Last? && validator.args.union.One? && validator.args.union.item.Name?)
    ensures Narrow(prefix, After(validator), suffix)
  {
    assert Narrow(Inner(prefix), One(validator), "") by {
      if validator.Call? {
        assert NarrowArgs(Inner(Inner(prefix)), validator.args, "");
      }
    }
    assert NarrowArgs(Inner(prefix), Last(One(validator)), "");
  }

  lemma ValidatorsNarrow(prefix: string, node: Node, suffix: string)
    requires node.Dict?
    ensures AllNarrow(prefix, ValidatorsOf(node), suffix)
  {
    ValidatorNarrow(prefix, Name("_decimal_limit"), suffix);
    ValidatorNarrow(prefix, Name("_calendar"), suffix);
    ValidatorNarrow(prefix, Call("_utf8_limit", Last(One(Name(Decimal(NumberAt(node, "x-utf8-max-bytes")))))), suffix);
  }

  /** A constraint of a string stands eight columns further in than its definition. */
  predicate ConstraintFits(prefix: string, constraint: Union, several: bool) {
    || LeadingSpaces(prefix) + 8 + |ShowUnion(constraint)| + (if several then 1 else 0) <= WIDTH
    || FirstOpening(ShowUnion(constraint)).Some?
  }

  predicate AllKeywords(unions: seq<Union>) {
    forall i | 0 <= i < |unions| :: unions[i].One? && unions[i].item.Keyword?
  }

  predicate AllFit(prefix: string, constraints: seq<Union>) {
    forall i | 0 <= i < |constraints| :: ConstraintFits(prefix, constraints[i], |constraints| > 1)
  }

  lemma KeywordNarrow(prefix: string, constraint: Union, several: bool)
    requires constraint.One? && constraint.item.Keyword?
    ensures Narrow(Inner(Inner(prefix)), constraint, if several then "," else "") <==> ConstraintFits(prefix, constraint, several)
  {
    InnerOf(prefix);
    assert ShowUnion(constraint) == ShowItem(constraint.item);
  }

  lemma ConstraintsNarrow(prefix: string, constraints: seq<Union>)
    requires constraints != [] && AllKeywords(constraints)
    ensures Narrow(Inner(prefix), One(Call("Field", ArgsOf(constraints))), ",") <==> AllFit(prefix, constraints)
  {
    var args, inner := ArgsOf(constraints), Inner(Inner(prefix));
    assert Separator(args) == if |constraints| > 1 then "," else "";
    NarrowArgsMeans(inner, constraints, Separator(args));
    forall i | 0 <= i < |constraints|
      ensures Narrow(inner, constraints[i], Separator(args)) <==> ConstraintFits(prefix, constraints[i], |constraints| > 1)
    {
      KeywordNarrow(prefix, constraints[i], |constraints| > 1);
    }
    assert Narrow(Inner(prefix), One(Call("Field", args)), ",") <==> NarrowArgs(inner, args, Separator(args));
  }

  lemma ConstraintsAreKeywords(node: Node)
    requires node.Dict?
    ensures AllKeywords(ConstraintsOf(node))
  {
  }

  lemma MetadataNarrow(prefix: string, node: Node)
    requires node.Dict?
    ensures AllNarrow(Inner(prefix), Metadata(node), ",") <==> AllFit(prefix, ConstraintsOf(node))
  {
    var constraints := ConstraintsOf(node);
    var field := if constraints == [] then [] else [One(Call("Field", ArgsOf(constraints)))];
    AllNarrowAppend(Inner(prefix), field, ValidatorsOf(node), ",");
    ValidatorsNarrow(Inner(prefix), node, ",");
    ConstraintsAreKeywords(node);
    if constraints != [] {
      ConstraintsNarrow(prefix, constraints);
      assert AllNarrow(Inner(prefix), field, ",") <==> Narrow(Inner(prefix), field[0], ",");
    }
  }

  lemma AnnotatedNarrow(prefix: string, metadata: seq<Union>)
    requires metadata != []
    ensures Narrow(prefix, One(Index("Annotated", Comma(One(Name("str")), ArgsOf(metadata)))), "") <==>
      AllNarrow(Inner(prefix), metadata, ",")
  {
    var args := Comma(One(Name("str")), ArgsOf(metadata));
    NarrowArgsMeans(Inner(prefix), metadata, ",");
    assert Narrow(Inner(prefix), One(Name("str")), ",");
    assert NarrowArgs(Inner(prefix), args, ",") <==> NarrowArgs(Inner(prefix), ArgsOf(metadata), ",");
  }

  /** A string without constant reads back exactly when each constraint has room eight columns in, or a bracket. */
  lemma StringNarrow(prefix: string, node: Node)
    requires node.Dict? && !Has(node, "const") && !Has(node, "enum")
    ensures Narrow(prefix, StringUnion(node), "") <==> AllFit(prefix, ConstraintsOf(node))
  {
    assert |Metadata(node)| == (if ConstraintsOf(node) == [] then 0 else 1) + |ValidatorsOf(node)|;
    if Metadata(node) != [] {
      MetadataNarrow(prefix, node);
      AnnotatedNarrow(prefix, Metadata(node));
    }
  }

  // ----- a pattern that is too long ------------------------------------------------------------------

  /** The pattern of `n` letters. */
  function Letters(n: nat): Text {
    seq(n, _ => 0x61)
  }

  function LongPattern(n: nat): Member {
    Member("Note", PatternNode(Letters(n)))
  }

  lemma {:induction false} LettersEscaped(n: nat)
    ensures |EscapeAll(Letters(n))| == n && forall i | 0 <= i < n :: EscapeAll(Letters(n))[i] == 'a'
  {
    if n > 0 {
      assert Letters(n)[1..] == Letters(n - 1);
      LettersEscaped(n - 1);
      assert Escape(0x61) == "a";
    }
  }

  function PatternKeyword(n: nat): Item {
    Keyword("pattern", Quoted(Letters(n)))
  }

  lemma KeywordShape(n: nat)
    ensures |ShowItem(PatternKeyword(n))| == n + 10 && FirstOpening(ShowItem(PatternKeyword(n))).None?
  {
    LettersEscaped(n);
    ShowQuoted(Letters(n));
    var text := ShowItem(PatternKeyword(n));
    assert text == "pattern" + "=" + ("\"" + EscapeAll(Letters(n)) + "\"");
    NoOpening(text);
  }

  lemma KeywordBreakable(prefix: string, n: nat)
    ensures Breakable(prefix, UnionOfPattern(n), "")
  {
    KeywordShape(n);
    var keyword := One(PatternKeyword(n));
    assert Breakable(Inner(Inner(prefix)), keyword, "");
    assert BreakableArgs(Inner(Inner(prefix)), Last(keyword), "");
    var field := One(Call("Field", Last(keyword)));
    assert Breakable(Inner(prefix), field, ",");
    assert BreakableArgs(Inner(prefix), Last(field), ",");
    assert Breakable(Inner(prefix), One(Name("str")), ",");
    assert BreakableArgs(Inner(prefix), Comma(One(Name("str")), Last(field)), ",");
  }

  function UnionOfPattern(n: nat): Union {
    One(Index("Annotated", Comma(One(Name("str")), Last(One(Call("Field", Last(One(PatternKeyword(n)))))))))
  }

  lemma PatternIs(lang: Language, n: nat, defined: set<string>)
    requires lang.compiles(Letters(n))
    ensures var node := PatternNode(Letters(n));
      && Annotation(lang, node, defined).Some? && UnionOf(node) == UnionOfPattern(n) && !IsObject(node)
      && StringUnion(node) == UnionOf(node) && !Has(node, "const") && !Has(node, "enum")
      && ConstraintsOf(node) == [One(PatternKeyword(n))]
  {
    PatternShape(Letters(n));
    PatternExpression(lang, Letters(n), defined);
    var node := PatternNode(Letters(n));
    assert Get(node, "$ref").None? && Get(node, "anyOf").None? && Get(node, "minLength").None? && Get(node, "maxLength").None?;
  }

  lemma LongPatternLaidOut(lang: Language, n: nat, defined: set<string>)
    requires lang.compiles(Letters(n)) && Words(defined)
    ensures Define(lang, LongPattern(n), defined).Some?
  {
    var node := PatternNode(Letters(n));
    PatternIs(lang, n, defined);
    AnnotationShown(lang, node, defined);
    UnionFormed(lang, node, defined);
    KeywordBreakable(AliasPrefix("Note"), n);
    WidthDecides(AliasPrefix("Note"), UnionOf(node), "");
    NoteOk();
  }

  /** One more definition, a pattern of letters: it is compiled whatever its length, but from 71 letters on the module cannot be read. */
  lemma LongPatternUnreadable(lang: Language, definitions: seq<Member>, n: nat)
    requires Accepted(lang, definitions) && "Note" !in Names(definitions) && lang.compiles(Letters(n))
    ensures var more := definitions + [LongPattern(n)];
      && Accepted(lang, more)
      && (ReadAll(DefineAll(lang, more).value).Some? <==> ReadAll(DefineAll(lang, definitions).value).Some? && n <= 70)
  {
    DefinedWords(lang, definitions, |definitions|);
    assert definitions[..|definitions|] == definitions;
    LongPatternLaidOut(lang, n, Names(definitions));
    AcceptedAppend(lang, definitions, LongPattern(n));
    NarrowAppend(lang, definitions, LongPattern(n));
    LongPatternNarrow(lang, n);
  }

  lemma LongPatternNarrow(lang: Language, n: nat)
    requires lang.compiles(Letters(n))
    ensures NarrowDefinition(LongPattern(n)) <==> n <= 70
  {
    var prefix := AliasPrefix("Note");
    PatternIs(lang, n, {});
    StringNarrow(prefix, PatternNode(Letters(n)));
    KeywordShape(n);
    var constraint := One(PatternKeyword(n));
    assert ShowUnion(constraint) == ShowItem(PatternKeyword(n));
    assert LeadingSpaces(prefix) == 0;
    assert AllFit(prefix, [constraint]) <==> ConstraintFits(prefix, [constraint][0], false);
  }
}
