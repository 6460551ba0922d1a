/** Printing an annotation and reading it again. */
module UsageSyntax {
  import opened Wrappers
  import opened UsageLexer
  import opened UsageLayout
  import opened UsageReading
  import opened UsageMeaning

  // ----- tokens and text ------------------------------------------------------------------------

  function ItemTokens(item: Item): seq<Token> {
    match item
    case Name(name) => [Word(name)]
    case Literal(raw) => [Quote(raw)]
    case Index(head, args) => [Word(head), Mark('[')] + ArgsTokens(args) + [Mark(']')]
    case Call(head, args) => [Word(head), Mark('(')] + ArgsTokens(args) + [Mark(')')]
    case Keyword(name, value) => [Word(name), Mark('=')] + ItemTokens(value)
  }

  function UnionTokens(union: Union): seq<Token> {
    match union
    case One(item) => ItemTokens(item)
    case More(item, rest) => ItemTokens(item) + [Mark('|')] + UnionTokens(rest)
  }

  function ArgsTokens(args: Args): seq<Token> {
    match args
    case Last(union) => UnionTokens(union)
    case Comma(union, others) => UnionTokens(union) + [Mark(',')] + ArgsTokens(others)
  }

  function ShowItem(item: Item): string {
    match item
    case Name(name) => name
    case Literal(raw) => "\"" + raw + "\""
    case Index(head, args) => head + "[" + ShowArgs(args) + "]"
    case Call(head, args) => head + "(" + ShowArgs(args) + ")"
    case Keyword(name, value) => name + "=" + ShowItem(value)
  }

  function ShowUnion(union: Union): string {
    match union
    case One(item) => ShowItem(item)
    case More(item, rest) => ShowItem(item) + " | " + ShowUnion(rest)
  }

  function ShowArgs(args: Args): string {
    match args
    case Last(union) => ShowUnion(union)
    case Comma(union, others) => ShowUnion(union) + ", " + ShowArgs(others)
  }

  predicate IsWord(s: string) {
    s != "" && forall i | 0 <= i < |s| :: IsWordChar(s[i])
  }

  /** The content of a literal that ends where it seems to. */
  predicate IsRaw(raw: string) {
    QuoteLength(raw + "\"") == Some(|raw|)
  }

  predicate SoundItem(item: Item) {
    match item
    case Name(name) => IsWord(name)
    case Literal(raw) => IsRaw(raw)
    case Index(head, args) => IsWord(head) && SoundArgs(args)
    case Call(head, args) => IsWord(head) && SoundArgs(args)
    case Keyword(name, value) => IsWord(name) && SoundItem(value)
  }

  predicate SoundUnion(union: Union) {
    SoundItem(union.item) && (union.More? ==> SoundUnion(union.rest))
  }

  predicate SoundArgs(args: Args) {
    SoundUnion(args.union) && (args.Comma? ==> SoundArgs(args.others))
  }

  // ----- parsing ------------------------------------------------------------------------------------

  predicate EndsArgument(rest: seq<Token>) {
    rest == [] || rest[0] == Mark(',') || rest[0] == Mark(']') || rest[0] == Mark(')')
  }

  predicate EndsItem(rest: seq<Token>) {
    EndsArgument(rest) || rest[0] == Mark('|')
  }

  lemma {:induction false} ParseItemBack(item: Item, rest: seq<Token>)
    requires EndsItem(rest)
    ensures ParseItem(ItemTokens(item) + rest) == Some((item, rest))
    decreases item
  {
    var ts := ItemTokens(item) + rest;
    match item
    case Name(name) => assert ts[0] == Word(name) && ts[1..] == rest;
    case Literal(raw) => assert ts[0] == Quote(raw) && ts[1..] == rest;
    case Index(head, args) =>
      ParseArgsBack(args, ']', rest);
      assert ts[0] == Word(head) && ts[1] == Mark('[') && ts[2..] == ArgsTokens(args) + [Mark(']')] + rest;
    case Call(head, args) =>
      ParseArgsBack(args, ')', rest);
      assert ts[0] == Word(head) && ts[1] == Mark('(') && ts[2..] == ArgsTokens(args) + [Mark(')')] + rest;
    case Keyword(name, value) =>
      ParseItemBack(value, rest);
      assert ts[0] == Word(name) && ts[1] == Mark('=') && ts[2..] == ItemTokens(value) + rest;
  }

  /** The parser inverts the tokens of an annotation. */
  lemma {:induction false} ParseUnionBack(union: Union, rest: seq<Token>)
    requires EndsArgument(rest)
    ensures ParseUnion(UnionTokens(union) + rest) == Some((union, rest))
    decreases union
  {
    match union
    case One(item) => ParseItemBack(item, rest);
    case More(item, others) =>
      var after := [Mark('|')] + (UnionTokens(others) + rest);
      assert UnionTokens(union) + rest == ItemTokens(item) + after;
      ParseItemBack(item, after);
      ParseUnionBack(others, rest);
      assert after[1..] == UnionTokens(others) + rest;
  }

  lemma {:induction false} ParseArgsBack(args: Args, closer: char, rest: seq<Token>)
    requires closer == ']' || closer == ')'
    ensures ParseArgs(ArgsTokens(args) + [Mark(closer)] + rest, closer) == Some((args, rest))
    decreases args
  {
    var end := [Mark(closer)] + rest;
    assert ArgsTokens(args) + [Mark(closer)] + rest == ArgsTokens(args) + end;
    assert end[1..] == rest;
    match args
    case Last(union) => ParseUnionBack(union, end);
    case Comma(union, others) =>
      var after := [Mark(',')] + (ArgsTokens(others) + end);
      assert ArgsTokens(args) + end == UnionTokens(union) + after;
      ParseUnionBack(union, after);
      ParseArgsBack(others, closer, rest);
      assert after[1..] == ArgsTokens(others) + [Mark(closer)] + rest;
  }

  // ----- reading the text ---------------------------------------------------------------------------

  lemma LexWord(s: string)
    requires IsWord(s)
    ensures Lex(s) == Some([Word(s)])
  {
    assert WordLength(s) == |s|;
    assert s[..|s|] == s && s[|s|..] == "";
    LexFirst(s);
    assert [Word(s)] + [] == [Word(s)];
  }

  lemma LexQuote(raw: string)
    requires IsRaw(raw)
    ensures Lex("\"" + raw + "\"") == Some([Quote(raw)])
  {
    var s := "\"" + raw + "\"";
    assert s[1..] == raw + "\"";
    assert s[1..|raw| + 1] == raw && s[|raw| + 2..] == "";
    LexFirst(s);
    assert [Quote(raw)] + [] == [Quote(raw)];
  }

  lemma LexThree(a: string, between: string, b: string, t: Token)
    requires Lex(a).Some? && Lex(b).Some? && Lex(between) == Some([t]) && between != ""
    requires !IsWordChar(between[0]) && !IsWordChar(between[|between| - 1])
    ensures Lex(a + between + b) == Some(Lex(a).value + [t] + Lex(b).value)
  {
    LexAppend(between, b);
    LexAppend(a, between + b);
    assert a + between + b == a + (between + b);
    assert Lex(a).value + ([t] + Lex(b).value) == Lex(a).value + [t] + Lex(b).value;
  }

  lemma LexSeparators()
    ensures Lex(" | ") == Some([Mark('|')]) && Lex(", ") == Some([Mark(',')])
  {
    LexMark('|');
    LexMark(',');
    LexSpace();
    LexAppend(" ", "|");
    assert " " + "|" == " |" && [] + [Mark('|')] == [Mark('|')];
    LexAppend(" |", " ");
    assert " |" + " " == " | " && [Mark('|')] + [] == [Mark('|')];
    LexAppend(",", " ");
    assert "," + " " == ", " && [Mark(',')] + [] == [Mark(',')];
  }

  lemma LexClosed(s: string, closer: char)
    requires Lex(s).Some? && (closer == ']' || closer == ')')
    ensures Lex(s + [closer]) == Some(Lex(s).value + [Mark(closer)])
  {
    LexMark(closer);
    LexAppend(s, [closer]);
  }

  lemma LexOpened(head: string, opener: char, inside: string)
    requires IsWord(head) && Lex(inside).Some? && IsOpening(opener)
    ensures Lex(head + [opener] + inside) == Some([Word(head), Mark(opener)] + Lex(inside).value)
  {
    LexWord(head);
    LexMark(opener);
    LexThree(head, [opener], inside, Mark(opener));
    assert [Word(head)] + [Mark(opener)] == [Word(head), Mark(opener)];
  }

  lemma LexBracketed(head: string, opener: char, inside: string, closer: char)
    requires IsWord(head) && Lex(inside).Some?
    requires (opener == '[' && closer == ']') || (opener == '(' && closer == ')')
    ensures Lex(head + [opener] + inside + [closer]) == Some([Word(head), Mark(opener)] + Lex(inside).value + [Mark(closer)])
  {
    LexOpened(head, opener, inside);
    LexClosed(head + [opener] + inside, closer);
  }

  /** The printed annotation is read as its tokens. */
  lemma {:induction false} LexItem(item: Item)
    requires SoundItem(item)
    ensures Lex(ShowItem(item)) == Some(ItemTokens(item))
    decreases item
  {
    match item
    case Name(name) => LexWord(name);
    case Literal(raw) => LexQuote(raw);
    case Index(head, args) =>
      LexArgs(args);
      LexBracketed(head, '[', ShowArgs(args), ']');
    case Call(head, args) =>
      LexArgs(args);
      LexBracketed(head, '(', ShowArgs(args), ')');
    case Keyword(name, value) =>
      LexItem(value);
      LexWord(name);
      LexMark('=');
      LexThree(name, "=", ShowItem(value), Mark('='));
      assert [Word(name)] + [Mark('=')] + ItemTokens(value) == [Word(name), Mark('=')] + ItemTokens(value);
  }

  lemma {:induction false} LexUnion(union: Union)
    requires SoundUnion(union)
    ensures Lex(ShowUnion(union)) == Some(UnionTokens(union))
    decreases union
  {
    LexItem(union.item);
    if union.More? {
      LexUnion(union.rest);
      LexSeparators();
      LexThree(ShowItem(union.item), " | ", ShowUnion(union.rest), Mark('|'));
    }
  }

  lemma {:induction false} LexArgs(args: Args)
    requires SoundArgs(args)
    ensures Lex(ShowArgs(args)) == Some(ArgsTokens(args))
    decreases args
  {
    LexUnion(args.union);
    if args.Comma? {
      LexArgs(args.others);
      LexSeparators();
      LexThree(ShowUnion(args.union), ", ", ShowArgs(args.others), Mark(','));
    }
  }

  // ----- brackets and commas ------------------------------------------------------------------------

  lemma ProperJoin(a: seq<Token>, t: Token, b: seq<Token>)
    requires Proper(a) && Proper(b) && t.Mark? && t.mark in {'|', ',', '='}
    ensures Proper(a + [t] + b)
  {
    var ts, n := a + [t] + b, |a|;
    forall i | 0 <= i < |ts| - 1 ensures Adjacent(ts[i], ts[i + 1]) {
      if i < n - 1 {
        assert Adjacent(a[i], a[i + 1]);
      } else if i > n {
        assert Adjacent(b[i - n - 1], b[i - n - 1 + 1]);
      }
    }
    assert ts[0] == a[0] && ts[|ts| - 1] == b[|b| - 1];
  }

  lemma ProperBracketed(head: string, opener: char, inside: seq<Token>, closer: char)
    requires Proper(inside) && ((opener == '[' && closer == ']') || (opener == '(' && closer == ')'))
    ensures Proper([Word(head), Mark(opener)] + inside + [Mark(closer)])
  {
    var ts := [Word(head), Mark(opener)] + inside + [Mark(closer)];
    forall i | 0 <= i < |ts| - 1 ensures Adjacent(ts[i], ts[i + 1]) {
      if 2 <= i < |inside| + 1 {
        assert Adjacent(inside[i - 2], inside[i - 2 + 1]);
      }
    }
  }

  lemma ProperSingle(t: Token)
    requires !t.Mark?
    ensures Proper([t])
  {
  }

  lemma ProperAssigned(name: string, value: seq<Token>)
    requires Proper(value)
    ensures Proper([Word(name), Mark('=')] + value)
  {
    ProperSingle(Word(name));
    ProperJoin([Word(name)], Mark('='), value);
    assert [Word(name)] + [Mark('=')] + value == [Word(name), Mark('=')] + value;
  }

  lemma {:induction false} ItemProper(item: Item)
    ensures Proper(ItemTokens(item))
    decreases item
  {
    match item
    case Name(name) => ProperSingle(Word(name));
    case Literal(raw) => ProperSingle(Quote(raw));
    case Index(head, args) =>
      ArgsProper(args);
      ProperBracketed(head, '[', ArgsTokens(args), ']');
    case Call(head, args) =>
      ArgsProper(args);
      ProperBracketed(head, '(', ArgsTokens(args), ')');
    case Keyword(name, value) =>
      ItemProper(value);
      ProperAssigned(name, ItemTokens(value));
  }

  lemma {:induction false} UnionProper(union: Union)
    ensures Proper(UnionTokens(union))
    decreases union
  {
    ItemProper(union.item);
    if union.More? {
      UnionProper(union.rest);
      ProperJoin(ItemTokens(union.item), Mark('|'), UnionTokens(union.rest));
    }
  }

  lemma {:induction false} ArgsProper(args: Args)
    ensures Proper(ArgsTokens(args))
    decreases args
  {
    UnionProper(args.union);
    if args.Comma? {
      ArgsProper(args.others);
      ProperJoin(UnionTokens(args.union), Mark(','), ArgsTokens(args.others));
    }
  }

  /** Printing, laying out and reading back gives the annotation, exactly when the layout is tidy. */
  lemma PrintedReadsBack(prefix: string, union: Union)
    requires PrefixOk(prefix) && SoundUnion(union) && Layout(prefix, ShowUnion(union), "").Some?
    ensures Undo(Layout(prefix, ShowUnion(union), "").value) ==
      if Tidy(prefix, ShowUnion(union), "") then Some(Lex(prefix).value + UnionTokens(union)) else None
    ensures ReadUnion(UnionTokens(union)) == Some(union)
  {
    LexUnion(union);
    UnionProper(union);
    LayoutRestores(prefix, ShowUnion(union));
    LexPrefix(prefix, ShowUnion(union));
    ParseUnionBack(union, []);
    assert UnionTokens(union) + [] == UnionTokens(union);
  }
}
