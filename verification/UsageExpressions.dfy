/** The annotations the compiler writes, as expressions, and the values of the literals in them. */
module UsageExpressions {
  import opened Wrappers
  import opened PythonText
  import opened UsageLexer
  import opened UsageSchema
  import opened UsageMeaning
  import opened UsageSyntax

  // ----- the expression of a node -----------------------------------------------------------------

  function Chain(first: Union, second: Union): Union {
    match first
    case One(item) => More(item, second)
    case More(item, rest) => More(item, Chain(rest, second))
  }

  function ArgsOf(unions: seq<Union>): Args
    requires unions != []
  {
    if |unions| == 1 then Last(unions[0]) else Comma(unions[0], ArgsOf(unions[1..]))
  }

  function UnionOf(node: Node): Union
    decreases Size(node)
  {
    if !node.Dict? then One(Name("None"))
    else if Has(node, "$ref") then One(Name(Referred(Get(node, "$ref").value).GetOr("None")))
    else if Has(node, "anyOf") then
      if Get(node, "anyOf").value.Items? && Get(node, "anyOf").value.items != [] then UnionOfAll(Get(node, "anyOf").value.items)
      else One(Name("None"))
    else if IsText(Get(node, "type"), "null") then One(Name("None"))
    else if IsText(Get(node, "type"), "boolean") then One(Name("bool"))
    else if IsText(Get(node, "type"), "array") && Has(node, "items") then
      ListOf(UnionOf(Get(node, "items").value), NumberAt(node, "maxItems"))
    else StringUnion(node)
  }

  function UnionOfAll(branches: seq<Node>): Union
    requires branches != []
    decreases SizeOfItems(branches)
  {
    if |branches| == 1 then UnionOf(branches[0]) else Chain(UnionOf(branches[0]), UnionOfAll(branches[1..]))
  }

  function NumberAt(node: Node, key: string): nat
    requires node.Dict?
  {
    var n := Get(node, key);
    if n.Some? && n.value.Number? && n.value.number >= 0 then n.value.number else 0
  }

  function ListOf(item: Union, maximum: nat): Union {
    One(Index("Annotated", Comma(One(Index("list", Last(item))), Last(One(Call("Field", Last(Bound("max_length", maximum))))))))
  }

  function Bound(name: string, n: nat): Union {
    One(Keyword(name, Name(Decimal(n))))
  }

  function Quoted(t: Text): Item {
    Literal(EscapeAll(t))
  }

  function LiteralUnion(values: seq<Node>): Union
    requires values != [] && forall i | 0 <= i < |values| :: values[i].Str?
  {
    One(Index("Literal", ArgsOf(seq(|values|, i requires 0 <= i < |values| => One(Quoted(values[i].text))))))
  }

  function StringUnion(node: Node): Union
    requires node.Dict?
  {
    var only, several := Get(node, "const"), Get(node, "enum");
    if only.Some? && only.value.Str? then LiteralUnion([only.value])
    else if several.Some? && several.value.Items? && several.value.items != [] && DistinctTexts(several.value.items) then
      LiteralUnion(several.value.items)
    else
      var metadata := Metadata(node);
      One(if metadata == [] then Name("str") else Index("Annotated", Comma(One(Name("str")), ArgsOf(metadata))))
  }

  function PatternOf(node: Node): seq<Union>
    requires node.Dict?
  {
    var p := Get(node, "pattern");
    if p.Some? && p.value.Str? then [One(Keyword("pattern", Quoted(p.value.text)))] else []
  }

  function BoundOf(node: Node, source: string, target: string): seq<Union>
    requires node.Dict?
  {
    if Has(node, source) then [Bound(target, NumberAt(node, source))] else []
  }

  function ConstraintsOf(node: Node): seq<Union>
    requires node.Dict?
  {
    PatternOf(node) + BoundOf(node, "minLength", "min_length") + BoundOf(node, "maxLength", "max_length")
  }

  function After(validator: Item): Union {
    One(Call("AfterValidator", Last(One(validator))))
  }

  function LimitOf(node: Node): seq<Union>
    requires node.Dict?
  {
    if Has(node, "x-utf8-max-bytes")
    then [After(Call("_utf8_limit", Last(One(Name(Decimal(NumberAt(node, "x-utf8-max-bytes")))))))] else []
  }

  function ValidatorsOf(node: Node): seq<Union>
    requires node.Dict?
  {
    LimitOf(node) + (if Has(node, "x-max-decimal") then [After(Name("_decimal_limit"))] else [])
      + (if Has(node, "x-calendar-valid") then [After(Name("_calendar"))] else [])
  }

  function Metadata(node: Node): seq<Union>
    requires node.Dict?
  {
    (if ConstraintsOf(node) == [] then [] else [One(Call("Field", ArgsOf(ConstraintsOf(node))))]) + ValidatorsOf(node)
  }

  // ----- printed -------------------------------------------------------------------------------------

  function Shows(unions: seq<Union>): seq<string> {
    seq(|unions|, i requires 0 <= i < |unions| => ShowUnion(unions[i]))
  }

  lemma {:induction false} ShowChain(first: Union, second: Union)
    ensures ShowUnion(Chain(first, second)) == ShowUnion(first) + " | " + ShowUnion(second)
    decreases first
  {
    if first.More? {
      ShowChain(first.rest, second);
      assert ShowItem(first.item) + " | " + (ShowUnion(first.rest) + " | " + ShowUnion(second))
        == ShowItem(first.item) + " | " + ShowUnion(first.rest) + " | " + ShowUnion(second);
    }
  }

  lemma {:induction false} ShowArgsOf(unions: seq<Union>)
    requires unions != []
    ensures ShowArgs(ArgsOf(unions)) == Join(", ", Shows(unions))
  {
    if |unions| > 1 {
      ShowArgsOf(unions[1..]);
      assert Shows(unions)[1..] == Shows(unions[1..]);
    }
  }

  lemma ShowsAppend(a: seq<Union>, b: seq<Union>)
    ensures Shows(a + b) == Shows(a) + Shows(b)
  {
  }

  lemma ShowBound(name: string, n: nat)
    ensures ShowUnion(Bound(name, n)) == name + "=" + Decimal(n)
  {
    assert ShowItem(Name(Decimal(n))) == Decimal(n);
    assert ShowItem(Keyword(name, Name(Decimal(n)))) == name + "=" + Decimal(n);
  }

  lemma ShowOnly(item: Item)
    ensures ShowArgs(Last(One(item))) == ShowItem(item)
  {
    assert ShowUnion(One(item)) == ShowItem(item);
  }

  lemma ShowCall(head: string, item: Item)
    ensures ShowUnion(One(Call(head, Last(One(item))))) == ShowItem(Call(head, Last(One(item)))) == head + "(" + ShowItem(item) + ")"
  {
    ShowOnly(item);
  }

  lemma ShowQuoted(t: Text)
    ensures ShowItem(Quoted(t)) == Dumps(t)
  {
  }

  lemma ShowConstraints(lang: Language, node: Node)
    requires node.Dict? && Constraints(lang, node).Some?
    ensures Constraints(lang, node).value == Shows(ConstraintsOf(node))
  {
    ShowsAppend(PatternOf(node), BoundOf(node, "minLength", "min_length"));
    ShowsAppend(PatternOf(node) + BoundOf(node, "minLength", "min_length"), BoundOf(node, "maxLength", "max_length"));
    PatternShown(lang, node);
    BoundShown(node, "minLength", "min_length");
    BoundShown(node, "maxLength", "max_length");
  }

  lemma PatternShown(lang: Language, node: Node)
    requires node.Dict? && PatternConstraint(lang, node).Some?
    ensures PatternConstraint(lang, node).value == Shows(PatternOf(node))
  {
    if Has(node, "pattern") {
      var t := Get(node, "pattern").value.text;
      ShowQuoted(t);
      assert ShowUnion(PatternOf(node)[0]) == "pattern" + "=" + Dumps(t);
      assert "pattern" + "=" == "pattern=";
    }
  }

  lemma BoundShown(node: Node, source: string, target: string)
    requires node.Dict? && LengthConstraint(node, source, target).Some?
    ensures LengthConstraint(node, source, target).value == Shows(BoundOf(node, source, target))
  {
    if Has(node, source) {
      ShowBound(target, NumberAt(node, source));
    }
  }

  lemma ShowAfter(validator: Item)
    ensures ShowUnion(After(validator)) == "AfterValidator(" + ShowItem(validator) + ")"
  {
    ShowCall("AfterValidator", validator);
    assert "AfterValidator" + "(" == "AfterValidator(";
  }

  lemma LimitText(n: string)
    ensures ShowUnion(After(Call("_utf8_limit", Last(One(Name(n)))))) == "AfterValidator(_utf8_limit(" + n + "))"
  {
    ShowAfter(Call("_utf8_limit", Last(One(Name(n)))));
    ShowCall("_utf8_limit", Name(n));
    assert ShowItem(Name(n)) == n;
    assert "AfterValidator(" + ("_utf8_limit" + "(" + n + ")") + ")" == "AfterValidator(_utf8_limit(" + n + "))";
  }

  lemma LimitShown(node: Node)
    requires node.Dict? && Utf8Validator(node).Some?
    ensures Utf8Validator(node).value == Shows(LimitOf(node))
  {
    if Has(node, "x-utf8-max-bytes") {
      var n := Decimal(NumberAt(node, "x-utf8-max-bytes"));
      LimitText(n);
    }
  }

  lemma MarkersShown(node: Node)
    requires node.Dict? && Validators(node).Some?
    ensures DecimalValidator(node).value == Shows(if Has(node, "x-max-decimal") then [After(Name("_decimal_limit"))] else [])
    ensures CalendarValidator(node).value == Shows(if Has(node, "x-calendar-valid") then [After(Name("_calendar"))] else [])
  {
    ShowAfter(Name("_decimal_limit"));
    ShowAfter(Name("_calendar"));
    assert "AfterValidator(" + "_decimal_limit" + ")" == "AfterValidator(_decimal_limit)";
    assert "AfterValidator(" + "_calendar" + ")" == "AfterValidator(_calendar)";
  }

  lemma ShowValidators(node: Node)
    requires node.Dict? && Validators(node).Some?
    ensures Validators(node).value == Shows(ValidatorsOf(node))
  {
    LimitShown(node);
    MarkersShown(node);
    var decimal := if Has(node, "x-max-decimal") then [After(Name("_decimal_limit"))] else [];
    var calendar := if Has(node, "x-calendar-valid") then [After(Name("_calendar"))] else [];
    ShowsAppend(LimitOf(node), decimal);
    ShowsAppend(LimitOf(node) + decimal, calendar);
  }

  lemma {:induction false} JoinTail(separator: string, first: string, parts: seq<string>)
    requires parts != []
    ensures Join(separator, [first] + parts) == first + separator + Join(separator, parts)
  {
    assert ([first] + parts)[1..] == parts;
  }

  lemma BracketText(head: string, args: Args)
    ensures ShowUnion(One(Index(head, args))) == head + "[" + ShowArgs(args) + "]"
    ensures ShowUnion(One(Call(head, args))) == head + "(" + ShowArgs(args) + ")"
  {
    assert ShowItem(Index(head, args)) == head + "[" + ShowArgs(args) + "]";
    assert ShowItem(Call(head, args)) == head + "(" + ShowArgs(args) + ")";
  }

  lemma CommaText(first: Union, others: Args)
    ensures ShowArgs(Comma(first, others)) == ShowUnion(first) + ", " + ShowArgs(others)
  {
  }

  lemma LiteralShown(values: seq<Node>)
    requires LiteralAnnotation(values).Some?
    ensures LiteralAnnotation(values).value == ShowUnion(LiteralUnion(values))
  {
    var unions := seq(|values|, i requires 0 <= i < |values| => One(Quoted(values[i].text)));
    var dumps := seq(|values|, i requires 0 <= i < |values| => Dumps(values[i].text));
    forall i | 0 <= i < |values| ensures Shows(unions)[i] == dumps[i] {
      ShowQuoted(values[i].text);
      assert ShowUnion(unions[i]) == ShowItem(Quoted(values[i].text));
    }
    assert Shows(unions) == dumps;
    ShowArgsOf(unions);
    BracketText("Literal", ArgsOf(unions));
    assert "Literal" + "[" == "Literal[";
  }

  lemma MetadataShown(lang: Language, node: Node)
    requires node.Dict? && Constraints(lang, node).Some? && Validators(node).Some?
    ensures Shows(Metadata(node)) ==
      (if Constraints(lang, node).value == [] then [] else ["Field(" + Join(", ", Constraints(lang, node).value) + ")"]) + Validators(node).value
  {
    ShowConstraints(lang, node);
    ShowValidators(node);
    var constraints := ConstraintsOf(node);
    var field := if constraints == [] then [] else [One(Call("Field", ArgsOf(constraints)))];
    if constraints != [] {
      ShowArgsOf(constraints);
      BracketText("Field", ArgsOf(constraints));
      assert "Field" + "(" == "Field(";
      assert Shows(field) == ["Field(" + Join(", ", Shows(constraints)) + ")"];
    }
    ShowsAppend(field, ValidatorsOf(node));
  }

  lemma AnnotatedText(metadata: seq<Union>)
    requires metadata != []
    ensures ShowUnion(One(Index("Annotated", Comma(One(Name("str")), ArgsOf(metadata))))) == "Annotated[str, " + Join(", ", Shows(metadata)) + "]"
  {
    ShowArgsOf(metadata);
    assert ShowUnion(One(Name("str"))) == ShowItem(Name("str")) == "str";
    CommaText(One(Name("str")), ArgsOf(metadata));
    BracketText("Annotated", Comma(One(Name("str")), ArgsOf(metadata)));
    assert "Annotated" + "[" + ("str" + ", " + Join(", ", Shows(metadata))) + "]" == "Annotated[str, " + Join(", ", Shows(metadata)) + "]";
  }

  lemma StringShown(lang: Language, node: Node)
    requires node.Dict? && StringAnnotation(lang, node).Some?
    ensures StringAnnotation(lang, node).value == ShowUnion(StringUnion(node))
  {
    if Has(node, "const") {
      LiteralShown([Get(node, "const").value]);
    } else if Has(node, "enum") {
      LiteralShown(Get(node, "enum").value.items);
    } else {
      MetadataShown(lang, node);
      if Metadata(node) != [] {
        AnnotatedText(Metadata(node));
      } else {
        assert ShowUnion(One(Name("str"))) == ShowItem(Name("str"));
        assert Shows(Metadata(node)) == [];
      }
    }
  }

  lemma ListShown(item: Union, maximum: nat)
    ensures ShowUnion(ListOf(item, maximum)) == "Annotated[list[" + ShowUnion(item) + "], Field(max_length=" + Decimal(maximum) + ")]"
  {
    var list, field := One(Index("list", Last(item))), One(Call("Field", Last(Bound("max_length", maximum))));
    assert ShowArgs(Last(item)) == ShowUnion(item);
    BracketText("list", Last(item));
    ShowBound("max_length", maximum);
    assert ShowArgs(Last(Bound("max_length", maximum))) == ShowUnion(Bound("max_length", maximum));
    BracketText("Field", Last(Bound("max_length", maximum)));
    assert ShowArgs(Last(field)) == ShowUnion(field);
    CommaText(list, Last(field));
    BracketText("Annotated", Comma(list, Last(field)));
    ListText(ShowUnion(item), Decimal(maximum));
  }

  lemma ListText(item: string, maximum: string)
    ensures "Annotated" + "[" + ("list" + "[" + item + "]" + ", " + ("Field" + "(" + ("max_length" + "=" + maximum) + ")")) + "]"
      == "Annotated[list[" + item + "], Field(max_length=" + maximum + ")]"
  {
  }

  /** The compiler writes exactly the expression of the node. */
  lemma {:induction false} AnnotationShown(lang: Language, node: Node, defined: set<string>)
    requires node.Dict? && Annotation(lang, node, defined).Some?
    ensures Annotation(lang, node, defined).value == ShowUnion(UnionOf(node))
    decreases Size(node)
  {
    if Has(node, "$ref") {
      var name := Annotation(lang, node, defined).value;
      assert ShowUnion(One(Name(name))) == ShowItem(Name(name));
    } else if Has(node, "anyOf") {
      AnnotationsShown(lang, Get(node, "anyOf").value.items, defined);
    } else {
      var kind := Get(node, "type");
      if IsText(kind, "null") {
        assert ShowUnion(One(Name("None"))) == ShowItem(Name("None"));
      } else if IsText(kind, "boolean") {
        assert ShowUnion(One(Name("bool"))) == ShowItem(Name("bool"));
      } else if IsText(kind, "array") {
        var item := Get(node, "items").value;
        AnnotationShown(lang, item, defined);
        ListShown(UnionOf(item), NumberAt(node, "maxItems"));
      } else {
        StringShown(lang, node);
      }
    }
  }

  lemma {:induction false} AnnotationsShown(lang: Language, branches: seq<Node>, defined: set<string>)
    requires branches != [] && Annotations(lang, branches, defined).Some?
    ensures Join(" | ", Annotations(lang, branches, defined).value) == ShowUnion(UnionOfAll(branches))
    decreases SizeOfItems(branches)
  {
    AnnotationShown(lang, branches[0], defined);
    var texts := Annotations(lang, branches, defined).value;
    if |branches| == 1 {
      assert texts == [texts[0]];
    } else {
      AnnotationsShown(lang, branches[1..], defined);
      ShowChain(UnionOf(branches[0]), UnionOfAll(branches[1..]));
      assert texts == [texts[0]] + Annotations(lang, branches[1..], defined).value;
      JoinTail(" | ", texts[0], Annotations(lang, branches[1..], defined).value);
    }
  }

  // ----- numbers and literals ------------------------------------------------------------------------

  lemma {:induction false} DecimalBack(n: nat)
    ensures IsWord(Decimal(n)) && NatOf(Decimal(n)) == Some(n)
  {
    var digit := "0123456789"[n % 10];
    assert DigitValue(digit) == Some(n % 10);
    if n < 10 {
      assert Decimal(n) == [digit];
    } else {
      DecimalBack(n / 10);
      assert Decimal(n)[..|Decimal(n)| - 1] == Decimal(n / 10);
    }
  }

  lemma HexBack(n: int)
    requires 0 <= n < 0x1_0000
    ensures Hex4Value(Hex4(n)) == Some(n)
    ensures forall i | 0 <= i < 4 :: IsWordChar(Hex4(n)[i])
  {
    assert n == ((n / 16 / 16 / 16 * 16 + n / 16 / 16 % 16) * 16 + n / 16 % 16) * 16 + n % 16;
    HexDigitBack(n / 16 / 16 / 16);
    HexDigitBack(n / 16 / 16 % 16);
    HexDigitBack(n / 16 % 16);
    HexDigitBack(n % 16);
  }

  lemma HexDigitBack(n: int)
    requires 0 <= n < 16
    ensures HexValue(HexDigit(n)) == Some(n) && IsWordChar(HexDigit(n))
  {
  }

  /** UTF-16 of one code point, as code points. */
  function Units(c: CodePoint): Text {
    if c < 0x1_0000 then [c] else [High(c), Low(c)]
  }

  function Utf16(t: Text): Text {
    if t == [] then [] else Units(t[0]) + Utf16(t[1..])
  }

  function AllBefore(first: Text, rest: Option<Text>): Option<Text> {
    if rest.None? then None else Some(first + rest.value)
  }

  lemma HexEscapeValue(n: int, rest: string)
    requires 0 <= n < 0x1_0000
    ensures PythonString("\\u" + Hex4(n) + rest) == Before(n, PythonString(rest))
  {
    var s := "\\u" + Hex4(n) + rest;
    HexBack(n);
    assert s[2..6] == Hex4(n) && s[6..] == rest;
  }

  lemma ShortValue(c: CodePoint, rest: string)
    requires ShortLetter(c).Some?
    ensures PythonString(['\\', ShortLetter(c).value] + rest) == Before(c, PythonString(rest))
  {
    var s := ['\\', ShortLetter(c).value] + rest;
    assert s[0] == '\\' && s[1] == ShortLetter(c).value && s[2..] == rest;
    assert ShortEscape(s[1]) == Some(c) && s[1] != 'u';
  }

  lemma PlainValue(c: char, rest: string)
    requires c != '\\'
    ensures PythonString([c] + rest) == Before(c as int, PythonString(rest))
  {
    assert ([c] + rest)[1..] == rest;
  }

  lemma PairValue(high: CodePoint, low: CodePoint, rest: string)
    requires high < 0x1_0000 && low < 0x1_0000
    ensures PythonString("\\u" + Hex4(high) + "\\u" + Hex4(low) + rest) == AllBefore([high, low], PythonString(rest))
  {
    HexEscapeValue(low, rest);
    HexEscapeValue(high, "\\u" + Hex4(low) + rest);
    assert "\\u" + Hex4(high) + "\\u" + Hex4(low) + rest == "\\u" + Hex4(high) + ("\\u" + Hex4(low) + rest);
    if PythonString(rest).Some? {
      assert [high] + ([low] + PythonString(rest).value) == [high, low] + PythonString(rest).value;
    }
  }

  /** Python reads an escaped code point as its UTF-16 units. */
  lemma EscapeValue(c: CodePoint, rest: string)
    ensures PythonString(Escape(c) + rest) == AllBefore(Units(c), PythonString(rest))
  {
    if ShortLetter(c).Some? {
      ShortValue(c, rest);
    } else if 0x20 <= c < 0x7F {
      PlainValue(c as char, rest);
    } else if c < 0x1_0000 {
      HexEscapeValue(c, rest);
    } else {
      PairValue(High(c), Low(c), rest);
    }
  }

  /** A dumped literal has the UTF-16 units of its text as its value in Python. */
  lemma {:induction false} LiteralValue(t: Text)
    ensures PythonString(EscapeAll(t)) == Some(Utf16(t))
  {
    if t != [] {
      LiteralValue(t[1..]);
      EscapeValue(t[0], EscapeAll(t[1..]));
    }
  }

  predicate NoAstral(t: Text) {
    forall i | 0 <= i < |t| :: t[i] < 0x1_0000
  }

  lemma {:induction false} UnitsLength(t: Text)
    ensures |Utf16(t)| >= |t|
    ensures NoAstral(t) ==> Utf16(t) == t
    ensures !NoAstral(t) ==> |Utf16(t)| > |t|
  {
    if t != [] {
      UnitsLength(t[1..]);
      assert NoAstral(t) <==> t[0] < 0x1_0000 && NoAstral(t[1..]) by {
        assert forall i | 0 < i < |t| :: t[i] == t[1..][i - 1];
      }
    }
  }

  /** The value of a dumped literal is its text exactly when no character lies outside the basic plane. */
  lemma LiteralFaithful(t: Text)
    ensures PythonString(EscapeAll(t)) == Some(t) <==> NoAstral(t)
  {
    LiteralValue(t);
    UnitsLength(t);
  }

  // ----- sound expressions ------------------------------------------------------------------------------

  lemma QuoteSkip(s: string, step: nat)
    requires s != "" && s[0] != '"' && step == (if s[0] == '\\' then 2 else 1) <= |s|
    requires QuoteLength(s[step..]).Some?
    ensures QuoteLength(s) == Some(step + QuoteLength(s[step..]).value)
  {
  }

  lemma {:induction false} PlainQuoteLength(a: string, rest: string)
    requires QuoteLength(rest).Some?
    requires forall i | 0 <= i < |a| :: a[i] != '"' && a[i] != '\\'
    ensures QuoteLength(a + rest) == Some(|a| + QuoteLength(rest).value)
  {
    if a == "" {
      assert a + rest == rest;
    } else {
      PlainQuoteLength(a[1..], rest);
      assert (a + rest)[1..] == a[1..] + rest;
      QuoteSkip(a + rest, 1);
    }
  }

  /** An escape takes two characters, whatever they are. */
  lemma ShortLength(letter: char, rest: string)
    requires QuoteLength(rest).Some?
    ensures QuoteLength(['\\', letter] + rest) == Some(2 + QuoteLength(rest).value)
  {
    DropTwo('\\', letter, rest);
    QuoteSkip(['\\', letter] + rest, 2);
  }

  lemma DropTwo<T>(a: T, b: T, rest: seq<T>)
    ensures ([a, b] + rest)[2..] == rest && ([a, b] + rest)[0] == a
  {
  }

  lemma UnicodeLength(s: string, digits: string, rest: string)
    requires s == ['\\', 'u'] + (digits + rest)
    requires |digits| == 4 && (forall i | 0 <= i < 4 :: digits[i] != '"' && digits[i] != '\\') && QuoteLength(rest).Some?
    ensures QuoteLength(s) == Some(6 + QuoteLength(rest).value)
  {
    PlainQuoteLength(digits, rest);
    DropTwo('\\', 'u', digits + rest);
    QuoteSkip(s, 2);
  }

  lemma UnicodeText(digits: string, rest: string)
    ensures "\\u" + digits + rest == ['\\', 'u'] + (digits + rest)
  {
  }

  lemma HexEscapeLength(n: int, rest: string)
    requires 0 <= n < 0x1_0000 && QuoteLength(rest).Some?
    ensures QuoteLength("\\u" + Hex4(n) + rest) == Some(6 + QuoteLength(rest).value)
  {
    HexBack(n);
    UnicodeText(Hex4(n), rest);
    UnicodeLength("\\u" + Hex4(n) + rest, Hex4(n), rest);
  }

  lemma PairText(high: string, low: string, rest: string)
    ensures "\\u" + high + "\\u" + low + rest == "\\u" + high + ("\\u" + low + rest)
  {
  }

  lemma PairLength(high: CodePoint, low: CodePoint, rest: string)
    requires high < 0x1_0000 && low < 0x1_0000 && QuoteLength(rest).Some?
    ensures QuoteLength("\\u" + Hex4(high) + "\\u" + Hex4(low) + rest) == Some(12 + QuoteLength(rest).value)
  {
    HexEscapeLength(low, rest);
    HexEscapeLength(high, "\\u" + Hex4(low) + rest);
    PairText(Hex4(high), Hex4(low), rest);
  }

  lemma EscapeSize(c: CodePoint)
    ensures |Escape(c)| == if ShortLetter(c).Some? then 2 else if 0x20 <= c < 0x7F then 1 else if c < 0x1_0000 then 6 else 12
  {
  }

  lemma EscapeLength(c: CodePoint, rest: string)
    requires QuoteLength(rest).Some?
    ensures QuoteLength(Escape(c) + rest) == Some(|Escape(c)| + QuoteLength(rest).value)
  {
    EscapeSize(c);
    if ShortLetter(c).Some? {
      ShortLength(ShortLetter(c).value, rest);
    } else if 0x20 <= c < 0x7F {
      PlainQuoteLength([c as char], rest);
    } else if c < 0x1_0000 {
      HexEscapeLength(c, rest);
    } else {
      PairLength(High(c), Low(c), rest);
    }
  }

  lemma Associate<T>(a: seq<T>, b: seq<T>, c: seq<T>)
    ensures a + b + c == a + (b + c)
  {
  }

  lemma RawJoin(first: string, rest: string, end: string)
    requires QuoteLength(first + (rest + end)) == Some(|first| + |rest|)
    ensures QuoteLength(first + rest + end) == Some(|first + rest|)
  {
    Associate(first, rest, end);
  }

  lemma {:induction false} EscapedIsRaw(t: Text)
    ensures IsRaw(EscapeAll(t))
  {
    if t == [] {
      assert "" + "\"" == "\"";
    } else {
      EscapedIsRaw(t[1..]);
      EscapeLength(t[0], EscapeAll(t[1..]) + "\"");
      RawJoin(Escape(t[0]), EscapeAll(t[1..]), "\"");
    }
  }
}
