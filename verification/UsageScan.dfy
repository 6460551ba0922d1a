/** Printed expressions as the layout sees them: brackets, commas and quotes by their characters. */
module UsageScan {
  import opened Wrappers
  import opened UsageLexer
  import opened UsageLayout
  import opened UsageReading
  import opened UsageMeaning
  import opened UsageSyntax

  // ----- shapes ----------------------------------------------------------------------------------

  function Inner(prefix: string): string {
    Spaces(LeadingSpaces(prefix)) + "    "
  }

  function Separator(args: Args): string {
    if args.Comma? then "," else ""
  }

  predicate Fits(prefix: string, text: string, suffix: string) {
    |prefix| + |text| + |suffix| <= WIDTH
  }

  /** Every branch but the last is a plain name. */
  predicate Simple(union: Union) {
    union.More? ==> union.item.Name? && Simple(union.rest)
  }

  function LastItem(union: Union): Item {
    match union
    case One(item) => item
    case More(_, rest) => LastItem(rest)
  }

  /** The expressions the compiler writes: sound, with heads of two letters or more, and plain keyword values. */
  predicate FormedItem(item: Item) {
    match item
    case Name(name) => IsWord(name)
    case Literal(raw) => IsRaw(raw)
    case Index(head, args) => IsWord(head) && |head| >= 2 && FormedArgs(args)
    case Call(head, args) => IsWord(head) && |head| >= 2 && FormedArgs(args)
    case Keyword(name, value) => IsWord(name) && (value.Name? || value.Literal?) && FormedItem(value)
  }

  /** Only a whole argument is a literal or a keyword argument. */
  predicate FormedUnion(union: Union) {
    FormedItem(union.item) && (union.More? ==> Branches(union) && FormedUnion(union.rest))
  }

  predicate LiteralArgs(args: Args) {
    args.union.One? && args.union.item.Literal? && (args.Comma? ==> LiteralArgs(args.others))
  }

  predicate CallArgs(args: Args) {
    args.union.One? && args.union.item.Call? && (args.Comma? ==> CallArgs(args.others))
  }

  /** A branch of a union: a name, constants, or a name or list with calls about it. */
  predicate Branch(item: Item)
    decreases item
  {
    || item.Name?
    || (item.Index? && LiteralArgs(item.args))
    || (item.Index? && item.args.Comma? && item.args.union.One? && CallArgs(item.args.others)
        && (item.args.union.item.Name? || IsList(item.args.union.item)))
  }

  predicate IsList(item: Item)
    decreases item
  {
    item.Index? && item.args.Last? && Branches(item.args.union)
  }

  predicate Branches(union: Union)
    decreases union
  {
    Branch(union.item) && (union.More? ==> Branches(union.rest))
  }

  predicate FormedArgs(args: Args) {
    FormedUnion(args.union) && (args.Comma? ==> FormedArgs(args.others))
  }

  lemma {:induction false} FormedIsSound(item: Item)
    requires FormedItem(item)
    ensures SoundItem(item)
    decreases item
  {
    match item
    case Index(_, args) => FormedArgsSound(args);
    case Call(_, args) => FormedArgsSound(args);
    case Keyword(_, value) => FormedIsSound(value);
    case _ =>
  }

  lemma {:induction false} FormedUnionSound(union: Union)
    requires FormedUnion(union)
    ensures SoundUnion(union)
    decreases union
  {
    FormedIsSound(union.item);
    if union.More? {
      FormedUnionSound(union.rest);
    }
  }

  lemma {:induction false} FormedArgsSound(args: Args)
    requires FormedArgs(args)
    ensures SoundArgs(args)
    decreases args
  {
    FormedUnionSound(args.union);
    if args.Comma? {
      FormedArgsSound(args.others);
    }
  }

  // ----- scanning an expression --------------------------------------------------------------------

  /** The scan meets no comma that would cut. */
  predicate Clear(q: Scan, s: string)
    decreases |s|
  {
    s != "" ==> (q.quoted || q.depth != 0 || s[0] != ',') && Clear(Step(q, s[0]), s[1..])
  }

  lemma {:induction false} ClearAppend(q: Scan, a: string, b: string)
    ensures Clear(q, a + b) <==> Clear(q, a) && Clear(ScanFrom(q, a), b)
    decreases |a|
  {
    if a == "" {
      assert a + b == b;
    } else {
      assert (a + b)[1..] == a[1..] + b;
      ClearAppend(Step(q, a[0]), a[1..], b);
    }
  }

  /** A text over which the scan returns to where it was, without a cut. */
  predicate Level(q: Scan, s: string) {
    ScanFrom(q, s) == q && Clear(q, s)
  }

  lemma LevelAppend(q: Scan, a: string, b: string)
    requires Level(q, a) && Level(q, b)
    ensures Level(q, a + b)
  {
    ScanAppend(q, a, b);
    ClearAppend(q, a, b);
  }

  lemma {:induction false} LevelWord(q: Scan, s: string)
    requires !q.quoted && forall i | 0 <= i < |s| :: IsWordChar(s[i])
    ensures Level(q, s)
    decreases |s|
  {
    if s != "" {
      LevelWord(q, s[1..]);
    }
  }

  lemma {:induction false} ClearQuoted(q: Scan, s: string, n: nat)
    requires q.quoted && !q.escaped && QuoteLength(s) == Some(n)
    ensures Clear(q, s[..n + 1])
    decreases |s|
  {
    var t := s[..n + 1];
    if s[0] == '\\' {
      ClearQuoted(q, s[2..], n - 2);
      assert t[1..][1..] == s[2..][..n - 1];
      assert Step(Step(q, t[0]), t[1]) == q;
      assert t[1..][0] == t[1];
    } else if s[0] != '"' {
      ClearQuoted(q, s[1..], n - 1);
      assert t[1..] == s[1..][..n];
    } else {
      assert t[1..] == "";
    }
  }

  lemma LevelLiteral(q: Scan, raw: string)
    requires Outside(q) && IsRaw(raw)
    ensures Level(q, "\"" + raw + "\"")
  {
    var rest := raw + "\"";
    var s := "\"" + raw + "\"";
    assert s[1..] == rest && rest[..|raw| + 1] == rest;
    ScanQuote(Step(q, '"'), rest);
    ClearQuoted(Step(q, '"'), rest, |raw|);
  }

  lemma LevelOne(q: Scan, c: char)
    requires Outside(q) && c in {' ', '|', '='}
    ensures Level(q, [c])
  {
    assert [c][1..] == "";
  }

  lemma LevelBracketed(q: Scan, head: string, opener: char, inside: string, closer: char)
    requires Outside(q) && q.depth >= 0 && IsWord(head) && Level(q.(depth := q.depth + 1), inside)
    requires (opener == '[' && closer == ']') || (opener == '(' && closer == ')')
    ensures Level(q, head + [opener] + inside + [closer])
  {
    var deep := q.(depth := q.depth + 1);
    LevelWord(q, head);
    ScanAppend(q, head, [opener]);
    ClearAppend(q, head, [opener]);
    assert [opener][1..] == "" && [closer][1..] == "";
    ScanAppend(q, head + [opener], inside);
    ClearAppend(q, head + [opener], inside);
    ScanAppend(q, head + [opener] + inside, [closer]);
    ClearAppend(q, head + [opener] + inside, [closer]);
    assert Step(deep, closer) == q;
  }

  lemma {:induction false} LevelItem(q: Scan, item: Item)
    requires Outside(q) && q.depth >= 0 && SoundItem(item)
    ensures Level(q, ShowItem(item))
    decreases item
  {
    match item
    case Name(name) => LevelWord(q, name);
    case Literal(raw) => LevelLiteral(q, raw);
    case Index(head, args) =>
      LevelArgs(q.(depth := q.depth + 1), args);
      LevelBracketed(q, head, '[', ShowArgs(args), ']');
    case Call(head, args) =>
      LevelArgs(q.(depth := q.depth + 1), args);
      LevelBracketed(q, head, '(', ShowArgs(args), ')');
    case Keyword(name, value) =>
      LevelWord(q, name);
      LevelOne(q, '=');
      LevelItem(q, value);
      LevelAppend(q, name, "=");
      LevelAppend(q, name + "=", ShowItem(value));
  }

  lemma LevelBar(q: Scan)
    requires Outside(q)
    ensures Level(q, " | ")
  {
    LevelOne(q, ' ');
    LevelOne(q, '|');
    LevelAppend(q, " ", "|");
    LevelAppend(q, " " + "|", " ");
    assert " " + "|" + " " == " | ";
  }

  lemma {:induction false} LevelUnion(q: Scan, union: Union)
    requires Outside(q) && q.depth >= 0 && SoundUnion(union)
    ensures Level(q, ShowUnion(union))
    decreases union
  {
    LevelItem(q, union.item);
    if union.More? {
      LevelUnion(q, union.rest);
      LevelBar(q);
      LevelAppend(q, ShowItem(union.item), " | ");
      LevelAppend(q, ShowItem(union.item) + " | ", ShowUnion(union.rest));
    }
  }

  lemma LevelComma(q: Scan)
    requires Outside(q) && q.depth >= 1
    ensures Level(q, ", ")
  {
    assert ", "[1..] == " ";
    LevelOne(q, ' ');
  }

  lemma {:induction false} LevelArgs(q: Scan, args: Args)
    requires Outside(q) && q.depth >= 1 && SoundArgs(args)
    ensures Level(q, ShowArgs(args))
    decreases args
  {
    LevelUnion(q, args.union);
    if args.Comma? {
      LevelArgs(q, args.others);
      LevelComma(q);
      LevelAppend(q, ShowUnion(args.union), ", ");
      LevelAppend(q, ShowUnion(args.union) + ", ", ShowArgs(args.others));
    }
  }

  // ----- the arguments of a printed list -------------------------------------------------------------

  function ShowsOf(args: Args): seq<string> {
    match args
    case Last(union) => [ShowUnion(union)]
    case Comma(union, others) => [ShowUnion(union)] + ShowsOf(others)
  }

  /** A clear stretch only moves the scan on. */
  lemma {:induction false} CutClear(value: string, m: nat, n: nat)
    requires m <= n <= |value| && Clear(CutTo(value, m).scan, value[m..n])
    ensures CutTo(value, n) == CutTo(value, m).(scan := ScanFrom(CutTo(value, m).scan, value[m..n]))
    decreases n - m
  {
    var c := CutTo(value, m);
    if m < n {
      var s := value[m..n];
      var init := value[m..n - 1];
      assert s == init + [value[n - 1]];
      ClearAppend(c.scan, init, [value[n - 1]]);
      ScanAppend(c.scan, init, [value[n - 1]]);
      assert [value[n - 1]][1..] == "";
      CutClear(value, m, n - 1);
    } else {
      assert value[m..n] == "";
    }
  }

  lemma WordEnds(s: string)
    requires IsWord(s)
    ensures s != "" && s[0] != ' ' && s[|s| - 1] != ' '
  {
  }

  predicate Trimmed(s: string) {
    s != "" && s[0] != ' ' && s[|s| - 1] != ' '
  }

  lemma TrimmedAround(a: string, between: string, b: string)
    requires Trimmed(a) && Trimmed(b)
    ensures Trimmed(a + between + b)
  {
  }

  lemma {:induction false} ItemTrimmed(item: Item)
    requires SoundItem(item)
    ensures Trimmed(ShowItem(item))
    decreases item
  {
    match item
    case Name(name) => WordEnds(name);
    case Literal(raw) => TrimmedAround("\"", raw, "\"");
    case Index(head, args) =>
      WordEnds(head);
      TrimmedAround(head, "[" + ShowArgs(args), "]");
      assert head + ("[" + ShowArgs(args)) + "]" == ShowItem(item);
    case Call(head, args) =>
      WordEnds(head);
      TrimmedAround(head, "(" + ShowArgs(args), ")");
      assert head + ("(" + ShowArgs(args)) + ")" == ShowItem(item);
    case Keyword(name, value) =>
      WordEnds(name);
      ItemTrimmed(value);
      TrimmedAround(name, "=", ShowItem(value));
  }

  lemma {:induction false} UnionTrimmed(union: Union)
    requires SoundUnion(union)
    ensures Trimmed(ShowUnion(union))
    decreases union
  {
    ItemTrimmed(union.item);
    if union.More? {
      UnionTrimmed(union.rest);
      TrimmedAround(ShowItem(union.item), " | ", ShowUnion(union.rest));
    }
  }

  lemma StripTrimmed(s: string)
    requires Trimmed(s)
    ensures Strip(s) == s && Strip(" " + s) == s
  {
    assert (" " + s)[1..] == s;
  }

  /** Reading on from a position where an argument starts, after at most one blank. */
  ghost predicate At(value: string, m: nat, parts: seq<string>) {
    m <= |value| && CutTo(value, m).scan == START && CutTo(value, m).parts == parts
    && (CutTo(value, m).start == m || (CutTo(value, m).start == m - 1 && value[m - 1] == ' '))
  }

  lemma PartAt(value: string, m: nat, parts: seq<string>, text: string)
    requires At(value, m, parts) && m + |text| <= |value| && value[m..m + |text|] == text
    requires Trimmed(text) && Level(START, text)
    ensures var c := CutTo(value, m + |text|);
      c.scan == START && c.parts == parts && c.start <= m && Strip(value[c.start..m + |text|]) == text
  {
    CutClear(value, m, m + |text|);
    StripTrimmed(text);
    var start := CutTo(value, m).start;
    if start == m - 1 {
      assert value[start..m + |text|] == " " + value[m..m + |text|];
    }
  }

  lemma NextAt(value: string, m: nat, parts: seq<string>, text: string)
    requires At(value, m, parts) && m + |text| + 2 <= |value| && value[m..m + |text|] == text
    requires value[m + |text|] == ',' && value[m + |text| + 1] == ' ' && Trimmed(text) && Level(START, text)
    ensures At(value, m + |text| + 2, parts + [text])
  {
    PartAt(value, m, parts, text);
    var n := m + |text|;
    assert CutTo(value, n + 1) == Cuts(parts + [text], n + 1, START);
    assert Step(START, ' ') == START;
  }

  /** Where the parts of a text are that ends a longer one. */
  lemma Tail(value: string, m: nat, text: string, rest: string)
    requires m <= |value| && value[m..] == text + ", " + rest
    ensures m + |text| + 2 <= |value| && value[m..m + |text|] == text
    ensures value[m + |text|] == ',' && value[m + |text| + 1] == ' ' && value[m + |text| + 2..] == rest
  {
    var tail := value[m..];
    assert value[m..m + |text|] == tail[..|text|];
    assert value[m + |text|] == tail[|text|] && value[m + |text| + 1] == tail[|text| + 1];
    assert value[m + |text| + 2..] == tail[|text| + 2..];
  }

  lemma LastPart(value: string, m: nat, parts: seq<string>, text: string)
    requires At(value, m, parts) && value[m..] == text && Trimmed(text) && Level(START, text)
    ensures Arguments(value) == parts + [text]
  {
    assert value[m..m + |text|] == text && m + |text| == |value|;
    PartAt(value, m, parts, text);
    var start := CutTo(value, |value|).start;
    assert value[start..|value|] == value[start..];
  }

  lemma {:induction false} ArgumentsFrom(value: string, m: nat, parts: seq<string>, args: Args)
    requires At(value, m, parts) && value[m..] == ShowArgs(args) && SoundArgs(args)
    ensures Arguments(value) == parts + ShowsOf(args)
    decreases args
  {
    var text := ShowUnion(args.union);
    UnionTrimmed(args.union);
    LevelUnion(START, args.union);
    match args
    case Last(_) => LastPart(value, m, parts, text);
    case Comma(_, others) =>
      Tail(value, m, text, ShowArgs(others));
      NextAt(value, m, parts, text);
      ArgumentsFrom(value, m + |text| + 2, parts + [text], others);
      assert parts + [text] + ShowsOf(others) == parts + ([text] + ShowsOf(others));
  }

  /** Splitting printed arguments gives each of them. */
  lemma ArgumentsOfShown(args: Args)
    requires SoundArgs(args)
    ensures Arguments(ShowArgs(args)) == ShowsOf(args)
  {
    var value := ShowArgs(args);
    assert value[0..] == value;
    ArgumentsFrom(value, 0, [], args);
    assert [] + ShowsOf(args) == ShowsOf(args);
  }

  // ----- the first bracket of a printed expression -----------------------------------------------------

  lemma {:induction false} OpeningAfter(a: string, b: string)
    requires forall i | 0 <= i < |a| :: !IsOpening(a[i])
    ensures FirstOpening(a + b) == if FirstOpening(b).None? then None else Some(|a| + FirstOpening(b).value)
    decreases |a|
  {
    if a == "" {
      assert a + b == b;
    } else {
      assert (a + b)[1..] == a[1..] + b;
      OpeningAfter(a[1..], b);
    }
  }

  /** The first bracket of the text encloses the body, up to its last character, and stands outside quotes. */
  predicate Opens(text: string, body: string) {
    && FirstOpening(text).Some? && Unbracket(text).Some?
    && Unbracket(text).value.body == body && Lex(Unbracket(text).value.head).Some?
  }

  lemma UnbracketAt(text: string, n: nat)
    requires FirstOpening(text) == Some(n) && text[|text| - 1] == Closer(text[n])[0]
    ensures Unbracket(text) == Some(Bracketed(text[..n + 1], text[n + 1..|text| - 1], Closer(text[n])))
  {
  }

  lemma UnbracketShifted(text: string, a: string, b: string, n: nat)
    requires n < |b| - 1 && text == a + b && FirstOpening(text) == Some(|a| + n) && b[|b| - 1] == Closer(b[n])[0]
    ensures Unbracket(text) == Some(Bracketed(a + b[..n + 1], b[n + 1..|b| - 1], Closer(b[n])))
  {
    Shifted(a, b, n);
    UnbracketAt(text, |a| + n);
  }

  lemma UnbracketAfter(a: string, b: string)
    requires (forall i | 0 <= i < |a| :: !IsOpening(a[i])) && FirstOpening(b).Some? && Unbracket(b).Some?
    ensures FirstOpening(a + b).Some?
    ensures Unbracket(a + b) == Some(Bracketed(a + Unbracket(b).value.head, Unbracket(b).value.body, Unbracket(b).value.closer))
  {
    OpeningAfter(a, b);
    UnbracketShifted(a + b, a, b, FirstOpening(b).value);
  }

  lemma Shifted<T>(a: seq<T>, b: seq<T>, n: nat)
    requires n < |b| - 1
    ensures (a + b)[|a| + n] == b[n] && (a + b)[|a + b| - 1] == b[|b| - 1]
    ensures (a + b)[..|a| + n + 1] == a + b[..n + 1]
    ensures (a + b)[|a| + n + 1..|a + b| - 1] == b[n + 1..|b| - 1]
  {
  }

  lemma OpensAfter(a: string, b: string, body: string)
    requires (forall i | 0 <= i < |a| :: !IsOpening(a[i])) && Lex(a).Some? && (a == "" || !IsWordChar(a[|a| - 1])) && Opens(b, body)
    ensures Opens(a + b, body)
  {
    UnbracketAfter(a, b);
    LexAppend(a, Unbracket(b).value.head);
  }

  lemma WordOpens(head: string, opener: char, inside: string, closer: char)
    requires IsWord(head) && ((opener == '[' && closer == ']') || (opener == '(' && closer == ')'))
    ensures Opens(head + [opener] + inside + [closer], inside)
  {
    var rest := [opener] + inside + [closer];
    var text := head + [opener] + inside + [closer];
    assert text == head + rest;
    OpeningAfter(head, rest);
    assert FirstOpening(rest) == Some(0);
    assert text[..|head| + 1] == head + [opener];
    assert text[|head| + 1..|text| - 1] == inside;
    LexWord(head);
    LexMark(opener);
    LexAppend(head, [opener]);
  }

  function ArgsIn(item: Item): Args
    requires item.Index? || item.Call?
  {
    item.args
  }

  lemma {:induction false} SimpleOpens(union: Union)
    requires Simple(union) && FormedUnion(union) && (LastItem(union).Index? || LastItem(union).Call?)
    ensures Opens(ShowUnion(union), ShowArgs(ArgsIn(LastItem(union))))
    decreases union
  {
    match union
    case One(item) =>
      match item {
        case Index(head, args) => WordOpens(head, '[', ShowArgs(args), ']');
        case Call(head, args) => WordOpens(head, '(', ShowArgs(args), ')');
      }
    case More(item, rest) =>
      SimpleOpens(rest);
      NameBar(item.name);
      OpensAfter(item.name + " | ", ShowUnion(rest), ShowArgs(ArgsIn(LastItem(rest))));
  }

  lemma NameBar(name: string)
    requires IsWord(name)
    ensures Lex(name + " | ").Some? && forall i | 0 <= i < |name + " | "| :: !IsOpening((name + " | ")[i])
  {
    LexWord(name);
    LexSeparators();
    LexAppend(name, " | ");
  }

  lemma {:induction false} SimplePlain(union: Union)
    requires Simple(union) && FormedUnion(union) && LastItem(union).Name?
    ensures FirstOpening(ShowUnion(union)).None? && !IsKeyword(UnionTokens(union))
    decreases union
  {
    match union
    case One(item) =>
      OpeningAfter(item.name, "");
      assert item.name + "" == item.name;
    case More(item, rest) =>
      SimplePlain(rest);
      NameBar(item.name);
      OpeningAfter(item.name + " | ", ShowUnion(rest));
      assert UnionTokens(union)[1] == Mark('|');
  }

  /** A text that ends with a quote has no enclosing bracket. */
  lemma QuoteEnds(text: string)
    requires text != "" && text[|text| - 1] == '"' && FirstOpening(text).Some?
    ensures Unbracket(text).None?
  {
  }

  lemma NoOpening(s: string)
    requires forall i | 0 <= i < |s| :: !IsOpening(s[i])
    ensures FirstOpening(s).None?
  {
    OpeningAfter(s, "");
    assert s + "" == s;
  }

  lemma PlainKeyword(item: Item)
    requires item.Keyword? && FormedItem(item)
    ensures FirstOpening(ShowItem(item)).Some? ==> Unbracket(ShowItem(item)).None?
    ensures IsKeyword(ItemTokens(item))
  {
    var text := ShowItem(item);
    if item.value.Literal? {
      assert text[|text| - 1] == '"';
      if FirstOpening(text).Some? {
        QuoteEnds(text);
      }
    } else {
      assert text == item.name + "=" + item.value.name;
      NoOpening(text);
    }
  }
}
