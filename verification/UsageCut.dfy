/** A union of a literal and a list that is broken inside the literal. */
module UsageCut {
  import opened Wrappers
  import opened PythonText
  import opened UsageLexer
  import opened UsageLayout
  import opened UsageSchema
  import opened UsageMeaning
  import opened UsageSyntax
  import opened UsageExpressions
  import opened UsageScan
  import opened UsagePieces
  import opened UsageJoints
  import opened UsageWidth
  import opened UsageNodes
  import opened UsageCompilation
  import opened UsageContract
  import opened UsageLimits
  import opened UsageWidthLimits

  /** A constant with a bracket in it, after 60 letters. */
  const CUT: Text := Letters(60) + [0x5B]

  const CUT_NODE := Dict([Named("type", "string"), Member("const", Str(CUT))])

  const UNION_NODE := Dict([Member("anyOf", Items([CUT_NODE, NodeUsing("list")]))])

  const JOINT := "] | Annotated[list[None]"

  const SECOND := "Field(max_length=1)"

  // ----- the literal ------------------------------------------------------------------------------

  lemma {:induction false} EscapedLetters(n: nat, rest: Text)
    ensures EscapeAll(Letters(n) + rest) == EscapeAll(Letters(n)) + EscapeAll(rest)
  {
    if n == 0 {
      assert Letters(0) + rest == rest;
    } else {
      assert Letters(n)[1..] == Letters(n - 1);
      assert (Letters(n) + rest)[1..] == Letters(n - 1) + rest;
      EscapedLetters(n - 1, rest);
    }
  }

  /** Everything of the literal before its bracket. */
  function Opened(): string {
    "\"" + EscapeAll(Letters(60))
  }

  lemma CutEscaped()
    ensures EscapeAll(CUT) == EscapeAll(Letters(60)) + "["
    ensures |Opened()| == 61 && Opened()[0] == '"' && forall i | 0 < i < 61 :: Opened()[i] == 'a'
  {
    EscapedLetters(60, [0x5B]);
    LettersEscaped(60);
    assert [0x5B][1..] == [];
    assert Escape(0x5B) == "[";
  }

  function LiteralText(): string {
    "\"" + EscapeAll(CUT) + "\""
  }

  lemma Reassociate(quote: string, letters: string, bracket: string, rest: string)
    ensures quote + (letters + bracket) + quote + rest == quote + letters + (bracket + quote + rest)
  {
  }

  // ----- the two arguments ------------------------------------------------------------------------

  /** The piece that reaches from the literal over the bracket that closes its type into the list. */
  function First(): string {
    LiteralText() + JOINT
  }

  function Body(): string {
    First() + ", " + SECOND
  }

  lemma ListOfNoneLevel()
    ensures Level(START, "list" + ['['] + "None" + [']'])
  {
    var deep := START.(depth := 1);
    LevelWord(deep, "None");
    LevelBracketed(START, "list", '[', "None", ']');
  }

  lemma JointText()
    ensures JOINT == "] | " + "Annotated" + "[" + ("list" + ['['] + "None" + [']'])
  {
  }

  lemma JointLevel()
    ensures Level(START, JOINT)
  {
    LevelWord(BELOW, "Annotated");
    LexWord("Annotated");
    LinkLevel("Annotated");
    ListOfNoneLevel();
    LevelAppend(START, "] | " + "Annotated" + "[", "list" + ['['] + "None" + [']']);
    JointText();
  }

  lemma FirstLevel()
    ensures Level(START, First()) && Trimmed(First())
  {
    EscapedIsRaw(CUT);
    LevelLiteral(START, EscapeAll(CUT));
    JointLevel();
    LevelAppend(START, LiteralText(), JOINT);
  }

  lemma SecondText()
    ensures "Field" + ['('] + ("max_length" + "=" + "1") + [')'] == SECOND
  {
  }

  lemma SecondLevel()
    ensures Level(START, SECOND) && Trimmed(SECOND)
  {
    var deep := START.(depth := 1);
    LevelWord(deep, "max_length");
    LevelOne(deep, '=');
    LevelWord(deep, "1");
    LevelAppend(deep, "max_length", "=");
    LevelAppend(deep, "max_length" + "=", "1");
    LevelBracketed(START, "Field", '(', "max_length" + "=" + "1", ')');
    SecondText();
  }

  /** Two arguments that the scan leaves level are split at the comma between them. */
  lemma TwoArguments(first: string, second: string)
    requires Level(START, first) && Trimmed(first) && Level(START, second) && Trimmed(second)
    ensures Arguments(first + ", " + second) == [first, second]
  {
    var value := first + ", " + second;
    assert value[0..] == value;
    Tail(value, 0, first, second);
    assert At(value, 0, []);
    NextAt(value, 0, [], first);
    assert [] + [first] == [first];
    LastPart(value, |first| + 2, [first], second);
    assert [first] + [second] == [first, second];
  }

  // ----- the layout --------------------------------------------------------------------------------

  lemma OpensAt(text: string, a: string, rest: string)
    requires text == a + (['['] + rest) && NoneOpens(a) && rest != "" && rest[|rest| - 1] == ']'
    ensures FirstOpening(text).Some? && Unbracket(text) == Some(Bracketed(a + ['['], rest[..|rest| - 1], "]"))
  {
    FirstAt(a, '[', rest);
    BracketAround(a, '[', rest);
    UnbracketAt(text, |a|);
  }

  lemma JointEnds()
    ensures |JOINT| == 24 && JOINT[23] == ']'
  {
  }

  lemma FirstText()
    ensures First() == Opened() + (['['] + ("\"" + JOINT)) && |First()| == 87
  {
    CutEscaped();
    JointEnds();
    Reassociate("\"", EscapeAll(Letters(60)), "[", JOINT);
    Associate(['['], "\"", JOINT);
  }

  lemma FirstOpens()
    ensures FirstOpening(First()).Some? && |First()| == 87
    ensures Unbracket(First()) == Some(Bracketed(Opened() + ['['], ("\"" + JOINT)[..24], "]"))
  {
    CutEscaped();
    FirstText();
    JointEnds();
    OpensAt(First(), Opened(), "\"" + JOINT);
  }

  lemma {:induction false} NoQuoteEnd(s: string)
    requires forall i | 0 <= i < |s| :: s[i] != '"' && s[i] != '\\'
    ensures QuoteLength(s).None?
  {
    if s != "" {
      NoQuoteEnd(s[1..]);
    }
  }

  lemma OpenLiteral(head: string)
    requires head != "" && head[0] == '"' && forall i | 0 < i < |head| :: head[i] != '"' && head[i] != '\\'
    ensures Lex(head).None?
  {
    NoQuoteEnd(head[1..]);
  }

  /** A text that is broken at a bracket inside quotes, with a body that fits. */
  lemma CutLaidOut(indent: string, text: string, head: string, body: string)
    requires FirstOpening(text).Some? && Unbracket(text) == Some(Bracketed(head, body, "]")) && Lex(head).None?
    requires |indent| + |text| + 1 > WIDTH && |Inner(indent)| + |body| <= WIDTH
    ensures Layout(indent, text, ",").Some? && !Tidy(indent, text, ",")
  {
  }

  lemma FirstHead()
    ensures Lex(Opened() + ['[']).None?
  {
    CutEscaped();
    OpenLiteral(Opened() + ['[']);
  }

  lemma FirstRest()
    ensures |("\"" + JOINT)[..24]| == 24
  {
    JointEnds();
  }

  lemma FirstLaidOut(indent: string)
    requires |indent| == 4 && LeadingSpaces(indent) == 4
    ensures Layout(indent, First(), ",").Some? && !Tidy(indent, First(), ",")
  {
    FirstOpens();
    FirstHead();
    FirstRest();
    CutLaidOut(indent, First(), Opened() + ['['], ("\"" + JOINT)[..24]);
  }

  lemma TwoLaidOut(indent: string, first: string, second: string, bound: nat)
    requires |first| < bound && |second| < bound && |indent| + |second| + 1 <= WIDTH
    requires Layout(indent, first, ",").Some? && !Tidy(indent, first, ",")
    ensures LayoutAll(indent, [first, second], ",", bound).Some? && !AllTidy(indent, [first, second], ",", bound)
  {
    assert [first, second][1..] == [second] && [second][1..] == [];
    assert LayoutAll(indent, [second], ",", bound).Some?;
  }

  function UnionText(): string {
    "Literal" + ['['] + Body() + [']']
  }

  lemma SecondLength()
    ensures |SECOND| == 19
  {
  }

  lemma BodyLaidOut(bound: nat)
    requires bound > 87
    ensures Arguments(Body()) == [First(), SECOND] && |First()| < bound && |SECOND| < bound
    ensures LayoutAll(Spaces(4), [First(), SECOND], ",", bound).Some? && !AllTidy(Spaces(4), [First(), SECOND], ",", bound)
  {
    FirstLevel();
    SecondLevel();
    TwoArguments(First(), SECOND);
    LeadingOfSpaces(4);
    FirstLaidOut(Spaces(4));
    FirstOpens();
    SecondLength();
    TwoLaidOut(Spaces(4), First(), SECOND, bound);
  }

  lemma NoteInner()
    ensures Inner(AliasPrefix("Note")) == Spaces(4)
  {
    assert LeadingSpaces(AliasPrefix("Note")) == 0;
    assert Spaces(0) + "    " == Spaces(4);
  }

  lemma WideTwo(prefix: string, inner: string, text: string, body: string, first: string, second: string)
    requires |prefix| + |text| > WIDTH && Opens(text, body) && Inner(prefix) == inner && |inner| + |body| > WIDTH
    requires Arguments(body) == [first, second] && |first| < |text| && |second| < |text|
    requires LayoutAll(inner, [first, second], ",", |text|).Some? && !AllTidy(inner, [first, second], ",", |text|)
    ensures Layout(prefix, text, "").Some? && !Tidy(prefix, text, "")
  {
    WideShape(prefix, text, "", body);
  }

  lemma UnionLengths()
    ensures |Body()| == 108 && |UnionText()| == 117 && |First()| == 87 && |SECOND| == 19
  {
    FirstText();
    SecondLength();
  }

  lemma UnionOpens()
    ensures Opens(UnionText(), Body())
  {
    WordOpens("Literal", '[', Body(), ']');
  }

  lemma UnionLaidOut()
    ensures Layout(AliasPrefix("Note"), UnionText(), "").Some? && !Tidy(AliasPrefix("Note"), UnionText(), "")
  {
    NoteOk();
    NoteInner();
    UnionLengths();
    UnionOpens();
    BodyLaidOut(|UnionText()|);
    WideTwo(AliasPrefix("Note"), Spaces(4), UnionText(), Body(), First(), SECOND);
  }

  // ----- the schema --------------------------------------------------------------------------------

  lemma CutShape()
    ensures CUT_NODE.Dict? && OnlyKeys(CUT_NODE, {"type", "const"}) && OnlyKeys(CUT_NODE, STRING_KEYS)
    ensures IsText(Get(CUT_NODE, "type"), "string") && Get(CUT_NODE, "const") == Some(Str(CUT))
    ensures Get(CUT_NODE, "$ref").None? && Get(CUT_NODE, "anyOf").None?
  {
    PointsBack("string");
    TwoMembers(Named("type", "string"), Member("const", Str(CUT)));
  }

  lemma CutAnnotation(lang: Language, defined: set<string>)
    ensures Annotation(lang, CUT_NODE, defined) == Some("Literal[" + LiteralText() + "]")
  {
    CutShape();
    var values := [Str(CUT)];
    assert seq(|values|, i requires 0 <= i < |values| => Dumps(values[i].text)) == [LiteralText()];
    assert LiteralAnnotation(values) == Some("Literal[" + LiteralText() + "]");
  }

  lemma BranchesAnnotated(lang: Language, defined: set<string>, a: Node, b: Node, x: string, y: string)
    requires a.Dict? && b.Dict? && Annotation(lang, a, defined) == Some(x) && Annotation(lang, b, defined) == Some(y)
    ensures Annotations(lang, [a, b], defined) == Some([x, y]) && Join(" | ", [x, y]) == x + " | " + y
  {
    assert [a, b][1..] == [b] && [b][1..] == [] && [x, y][1..] == [y];
    assert Annotations(lang, [], defined) == Some([]);
    assert Annotations(lang, [b], defined) == Some([y] + []);
    assert [y] + [] == [y] && [x] + [y] == [x, y];
  }

  lemma SameList()
    ensures "Annotated[list[" + "None" + "], Field(max_length=" + "1" + ")]" == "Annotated[list[None], Field(max_length=1)]"
  {
  }

  lemma SameJoint()
    ensures "]" + " | " + "Annotated[list[None], Field(max_length=1)]" == JOINT + ", " + SECOND + [']']
  {
    ListParts();
    assert JOINT == "]" + " | " + "Annotated[list[None]";
  }

  lemma ListParts()
    ensures "Annotated[list[None], Field(max_length=1)]" == "Annotated[list[None]" + ", " + SECOND + [']']
  {
  }

  lemma SameEnd()
    ensures "]" + " | " + ("Annotated[list[" + "None" + "], Field(max_length=" + "1" + ")]") == JOINT + ", " + SECOND + [']']
  {
    SameList();
    SameJoint();
  }

  lemma Amid<T>(a: seq<T>, b: seq<T>, c: seq<T>, d: seq<T>, e: seq<T>, f: seq<T>, g: seq<T>, h: seq<T>)
    requires c + d + e == f + g + h
    ensures a + b + c + d + e == a + (b + f + g) + h
  {
    assert a + b + c + d + e == a + b + (c + d + e);
  }

  lemma SameText(literal: string)
    ensures "Literal[" + literal + "]" + " | " + ("Annotated[list[" + "None" + "], Field(max_length=" + "1" + ")]")
      == "Literal" + ['['] + (literal + JOINT + ", " + SECOND) + [']']
  {
    SameEnd();
    assert "Literal" + ['['] == "Literal[";
    Amid("Literal[", literal, "]", " | ", "Annotated[list[" + "None" + "], Field(max_length=" + "1" + ")]", JOINT + ", ", SECOND, [']']);
    assert literal + (JOINT + ", ") + SECOND == literal + JOINT + ", " + SECOND;
  }

  lemma UnionAnnotation(lang: Language, defined: set<string>)
    ensures Annotation(lang, UNION_NODE, defined) == Some(UnionText()) && !IsObject(UNION_NODE)
  {
    OneMember(Member("anyOf", Items([CUT_NODE, NodeUsing("list")])));
    CutAnnotation(lang, defined);
    ListAnnotation(lang, defined);
    BranchesAnnotated(lang, defined, CUT_NODE, NodeUsing("list"), "Literal[" + LiteralText() + "]",
                      "Annotated[list[" + "None" + "], Field(max_length=" + "1" + ")]");
    SameText(LiteralText());
    assert Get(UNION_NODE, "$ref").None? && Get(UNION_NODE, "type").None?;
  }

  /** One more definition, a union of a constant with a bracket and a list: it is compiled, and the constant is broken in two. */
  lemma CutLiteralUnreadable(lang: Language, definitions: seq<Member>)
    requires Accepted(lang, definitions) && "Note" !in Names(definitions)
    ensures var more := definitions + [Member("Note", UNION_NODE)];
      Accepted(lang, more) && ReadAll(DefineAll(lang, more).value) == None
  {
    var m := Member("Note", UNION_NODE);
    UnionAnnotation(lang, Names(definitions));
    UnionLaidOut();
    NoteOk();
    AnnotationShown(lang, UNION_NODE, Names(definitions));
    assert Define(lang, m, Names(definitions)).Some?;
    AcceptedAppend(lang, definitions, m);
    CompiledReadsBack(lang, definitions + [m]);
    assert !TidyDefinition((definitions + [m])[|definitions|]);
  }
}
