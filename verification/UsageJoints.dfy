/**
 The pieces that reach from the last constant or call of one branch into the next branch: when
 the layout breaks such a piece inside a constant.
 */
module UsageJoints {
  import opened Wrappers
  import opened UsageLexer
  import opened UsageLayout
  import opened UsageMeaning
  import opened UsageSyntax
  import opened UsageScan
  import opened UsagePieces

  /**
   A piece of constants, each closing its branch, and a tail. Too wide, it is broken at the first
   bracket: inside a constant with a bracket if the last character closes that, and otherwise after
   the constant, if the last character closes a list.
   */
  predicate Uncut(prefix: string, carry: seq<Link>, tail: string, suffix: string)
    decreases |carry|
  {
    || tail == "" || carry == [] || !carry[0].union.item.Literal?
    || Fits(prefix, CarryText(carry) + tail, suffix)
    || var (constant, end) := (ShowItem(carry[0].union.item), tail[|tail| - 1]);
       if FirstOpening(constant).Some? then end != Closer(constant[FirstOpening(constant).value])[0]
       else
         end == ']' ==>
           var shorter := tail[..|tail| - 1];
           || |Inner(prefix)| + |CarryText(carry[1..]) + shorter| <= WIDTH
           || Uncut(Inner(prefix), carry[1..], shorter, "")
  }

  // ----- how expressions end -----------------------------------------------------------------------

  function EndOf(s: string): char
    requires s != ""
  {
    s[|s| - 1]
  }

  lemma EndAfter(a: string, b: string)
    requires b != ""
    ensures EndOf(a + b) == EndOf(b)
  {
  }

  lemma {:induction false} LiteralsEnd(args: Args)
    requires LiteralArgs(args)
    ensures ShowArgs(args) != "" && EndOf(ShowArgs(args)) == '"'
    decreases args
  {
    if args.Comma? {
      LiteralsEnd(args.others);
      EndAfter(ShowUnion(args.union) + ", ", ShowArgs(args.others));
    } else {
      EndAfter("\"" + args.union.item.raw, "\"");
      assert ShowArgs(args) == ShowUnion(args.union) == ShowItem(args.union.item);
    }
  }

  lemma {:induction false} CallsEnd(args: Args)
    requires CallArgs(args)
    ensures ShowArgs(args) != "" && EndOf(ShowArgs(args)) == ')'
    decreases args
  {
    if args.Comma? {
      CallsEnd(args.others);
      EndAfter(ShowUnion(args.union) + ", ", ShowArgs(args.others));
    } else {
      var item := args.union.item;
      EndAfter(item.head + "(" + ShowArgs(item.args), ")");
      assert ShowArgs(args) == ShowUnion(args.union) == ShowItem(item);
    }
  }

  lemma ArgsEnd(item: Item)
    requires item.Index? && Branch(item)
    ensures ShowArgs(item.args) != "" && EndOf(ShowArgs(item.args)) in {'"', ')'}
  {
    if LiteralArgs(item.args) {
      LiteralsEnd(item.args);
    } else {
      CallsEnd(item.args.others);
      EndAfter(ShowUnion(item.args.union) + ", ", ShowArgs(item.args.others));
    }
  }

  /** Without the closing bracket, a union ends with a constant or a call. */
  lemma {:induction false} BodyEnd(union: Union)
    requires Branches(union) && LastItem(union).Index?
    ensures BodyFrom(union) != "" && EndOf(BodyFrom(union)) in {'"', ')'}
    decreases union
  {
    match union
    case One(item) => ArgsEnd(item);
    case More(item, rest) =>
      BodyEnd(rest);
      if item.Index? {
        EndAfter(ShowArgs(item.args) + ("] | " + LeadOf(rest) + "["), BodyFrom(rest));
      }
  }

  lemma {:induction false} NameEnd(union: Union)
    requires FormedUnion(union) && LastItem(union).Name?
    ensures ShowUnion(union) != "" && IsWordChar(EndOf(ShowUnion(union)))
    decreases union
  {
    if union.More? {
      NameEnd(union.rest);
      EndAfter(ShowItem(union.item) + " | ", ShowUnion(union.rest));
    }
  }

  lemma {:induction false} LastBranch(union: Union)
    requires Branches(union)
    ensures LastItem(union).Name? || LastItem(union).Index?
    decreases union
  {
    if union.More? {
      LastBranch(union.rest);
    }
  }

  // ----- a list whose last brackets are gone ----------------------------------------------------------

  /** A name, a constant or a list as it starts a branch, less its last `k` characters. */
  predicate Shortened(item: Item, k: nat, tail: string) {
    && FormedItem(item) && k < |ShowItem(item)| && tail == ShowItem(item)[..|ShowItem(item)| - k]
    && (item.Name? || item.Literal? || IsList(item))
    && (k >= 1 ==> IsList(item)) && (k >= 2 ==> LastItem(item.args.union).Index?) && k <= 2
  }

  lemma ListText(item: Item)
    requires FormedItem(item) && IsList(item)
    ensures FormedUnion(item.args.union) && ShowItem(item) == item.head + "[" + ShowUnion(item.args.union) + "]"
  {
  }

  lemma DropEnd(a: string, b: string)
    requires b != ""
    ensures (a + b)[..|a + b| - 1] == a + b[..|b| - 1]
  {
  }

  lemma Once(item: Item, tail: string)
    requires Shortened(item, 1, tail)
    ensures tail == item.head + "[" + ShowUnion(item.args.union)
  {
    ListText(item);
  }

  lemma Twice(item: Item, tail: string)
    requires Shortened(item, 2, tail)
    ensures tail == (item.head + "[") + (LeadOf(item.args.union) + "[" + BodyFrom(item.args.union))
  {
    ListText(item);
    TextOfUnion(item.args.union);
    var (a, b) := (item.head + "[", LeadOf(item.args.union) + "[" + BodyFrom(item.args.union));
    assert ShowItem(item) == a + b + "]" + "]";
  }

  lemma TailEnd(item: Item, k: nat, tail: string)
    requires Shortened(item, k, tail)
    ensures tail != "" && EndOf(tail) != ' ' && (k == 0 ==> EndOf(tail) != ')')
    ensures EndOf(tail) == ']' ==> k <= 1 && Shortened(item, k + 1, tail[..|tail| - 1])
  {
    if k == 0 {
      assert tail == ShowItem(item);
      if item.Name? {
        assert IsWordChar(EndOf(item.name));
      } else if item.Literal? {
        EndAfter("\"" + item.raw, "\"");
      } else {
        ListText(item);
      }
    } else if k == 1 {
      Once(item, tail);
      var union := item.args.union;
      ListText(item);
      FormedUnionSound(union);
      UnionTrimmed(union);
      LastBranch(union);
      if LastItem(union).Name? {
        NameEnd(union);
      } else {
        TextOfUnion(union);
        EndAfter(LeadOf(union) + "[" + BodyFrom(union), "]");
      }
      EndAfter(item.head + "[", ShowUnion(union));
    } else {
      Twice(item, tail);
      BodyEnd(item.args.union);
      EndAfter(item.head + "[" + (LeadOf(item.args.union) + "["), BodyFrom(item.args.union));
      assert tail == item.head + "[" + (LeadOf(item.args.union) + "[") + BodyFrom(item.args.union);
    }
  }

  // ----- one piece ---------------------------------------------------------------------------------------

  lemma OneArgument(text: string)
    requires Clear(START, text) && Trimmed(text)
    ensures Arguments(text) == [text]
  {
    assert text[0..|text|] == text && text[0..] == text;
    CutClear(text, 0, |text|);
    StripTrimmed(text);
  }

  lemma ClearPrefix(q: Scan, a: string, n: nat)
    requires Clear(q, a) && n <= |a|
    ensures Clear(q, a[..n])
  {
    assert a == a[..n] + a[n..];
    ClearAppend(q, a[..n], a[n..]);
  }

  lemma TailClear(item: Item, k: nat, tail: string)
    requires Shortened(item, k, tail)
    ensures Clear(START, tail) && Trimmed(tail)
  {
    FormedIsSound(item);
    LevelItem(START, item);
    ItemTrimmed(item);
    ClearPrefix(START, ShowItem(item), |tail|);
    TailEnd(item, k, tail);
  }

  lemma JointClear(carry: seq<Link>, item: Item, k: nat, tail: string)
    requires CarryOk(carry) && Shortened(item, k, tail)
    ensures Arguments(CarryText(carry) + tail) == [CarryText(carry) + tail]
  {
    CarryLevel(carry);
    TailClear(item, k, tail);
    ClearAppend(START, CarryText(carry), tail);
    OneArgument(CarryText(carry) + tail);
  }

  /** Broken at a bracket whose partner is the last character, with a body that has no commas. */
  lemma WholeBody(prefix: string, text: string, suffix: string, body: string)
    requires !Fits(prefix, text, suffix) && Opens(text, body) && Arguments(body) == [body]
    ensures Tidy(prefix, text, suffix) <==> |Inner(prefix)| + |body| <= WIDTH || Tidy(Inner(prefix), body, "")
  {
    assert [body][1..] == [];
    assert |Inner(prefix)| + |body| > WIDTH ==>
      (AllTidy(Inner(prefix), [body], "", |text|) <==> Tidy(Inner(prefix), body, ""));
  }

  /** A text whose last character does not close its first bracket is refused by the layout. */
  lemma Unclosed(prefix: string, a: string, opener: char, rest: string, suffix: string)
    requires NoneOpens(a) && IsOpening(opener) && rest != "" && EndOf(rest) != Closer(opener)[0]
    ensures Tidy(prefix, a + ([opener] + rest), suffix)
  {
    FirstAt(a, opener, rest);
    BracketAround(a, opener, rest);
  }

  lemma BracketAround<T>(a: seq<T>, x: T, rest: seq<T>)
    requires rest != []
    ensures var text := a + ([x] + rest);
      && text[|a|] == x && text[|text| - 1] == rest[|rest| - 1] && text[..|a| + 1] == a + [x]
      && text[|a| + 1..|text| - 1] == rest[..|rest| - 1]
  {
  }

  lemma FirstAt(a: string, opener: char, rest: string)
    requires NoneOpens(a) && IsOpening(opener)
    ensures FirstOpening(a + ([opener] + rest)) == Some(|a|)
  {
    OpeningAfter(a, [opener] + rest);
    assert FirstOpening([opener] + rest) == Some(0);
  }

  /** A text that is broken at its first bracket. */
  lemma Closed(a: string, rest: string)
    requires NoneOpens(a) && Lex(a).Some? && rest != "" && EndOf(rest) == ']'
    ensures Opens(a + (['['] + rest), rest[..|rest| - 1])
  {
    FirstAt(a, '[', rest);
    BracketAround(a, '[', rest);
    UnbracketAt(a + (['['] + rest), |a|);
    LexMark('[');
    LexAppend(a, ['[']);
  }

  lemma WordLeads(head: string)
    requires IsWord(head)
    ensures NoneOpens(head) && Lex(head).Some?
  {
    LexWord(head);
  }

  lemma Bracket(a: string, b: string)
    ensures a + "[" + b == a + (['['] + b)
  {
  }

  /** A union without its last bracket is never broken inside a constant. */
  lemma OpenUnionTidy(prefix: string, union: Union, suffix: string)
    requires FormedUnion(union) && Branches(union) && LastItem(union).Index?
    ensures Tidy(prefix, LeadOf(union) + "[" + BodyFrom(union), suffix)
  {
    LeadsWell(union);
    BodyEnd(union);
    Bracket(LeadOf(union), BodyFrom(union));
    Unclosed(prefix, LeadOf(union), '[', BodyFrom(union), suffix);
  }

  lemma OpenUnionClear(item: Item)
    requires FormedItem(item) && IsList(item) && LastItem(item.args.union).Index?
    ensures var text := LeadOf(item.args.union) + "[" + BodyFrom(item.args.union); Arguments(text) == [text]
  {
    var union := item.args.union;
    var text := LeadOf(union) + "[" + BodyFrom(union);
    ListText(item);
    FormedUnionSound(union);
    LevelUnion(START, union);
    TextOfUnion(union);
    ClearPrefix(START, ShowUnion(union), |text|);
    assert ShowUnion(union)[..|text|] == text;
    LeadsWell(union);
    BodyEnd(union);
    EndAfter(LeadOf(union) + "[", BodyFrom(union));
    OneArgument(text);
  }

  /** Nor is a list without its last bracket or two. */
  lemma OpenListTidy(prefix: string, item: Item, k: nat, tail: string, suffix: string)
    requires Shortened(item, k, tail) && k >= 1
    ensures Tidy(prefix, tail, suffix)
  {
    var union := item.args.union;
    ListText(item);
    WordLeads(item.head);
    if k == 2 {
      Twice(item, tail);
      BodyEnd(union);
      var rest := LeadOf(union) + "[" + BodyFrom(union);
      EndAfter(LeadOf(union) + "[", BodyFrom(union));
      Bracket(item.head, rest);
      Unclosed(prefix, item.head, '[', rest, suffix);
    } else {
      Once(item, tail);
      Bracket(item.head, ShowUnion(union));
      LastBranch(union);
      if LastItem(union).Name? {
        NameEnd(union);
        Unclosed(prefix, item.head, '[', ShowUnion(union), suffix);
      } else {
        OpenListIndex(prefix, item, tail, suffix);
      }
    }
  }

  lemma OpenListIndex(prefix: string, item: Item, tail: string, suffix: string)
    requires Shortened(item, 1, tail) && LastItem(item.args.union).Index?
    requires tail == item.head + (['['] + ShowUnion(item.args.union))
    ensures Tidy(prefix, tail, suffix)
  {
    var union := item.args.union;
    var body := LeadOf(union) + "[" + BodyFrom(union);
    ListText(item);
    WordLeads(item.head);
    TextOfUnion(union);
    assert ShowUnion(union)[..|ShowUnion(union)| - 1] == body;
    Closed(item.head, ShowUnion(union));
    OpenUnionClear(item);
    OpenUnionTidy(Inner(prefix), union, "");
    if !Fits(prefix, tail, suffix) {
      WholeBody(prefix, tail, suffix, body);
    }
  }

  // ----- constants before a list -----------------------------------------------------------------------

  lemma {:induction false} OpenQuote(s: string, n: nat, m: nat)
    requires QuoteLength(s) == Some(n) && m <= n
    ensures QuoteLength(s[..m]).None?
    decreases |s|
  {
    if m > 0 {
      var step := if s[0] == '\\' then 2 else 1;
      if m >= step {
        OpenQuote(s[step..], n - step, m - step);
        assert s[..m][step..] == s[step..][..m - step];
      }
    }
  }

  /** A bracket inside a constant: what comes before it is no text of whole tokens. */
  lemma CutConstant(raw: string, n: nat)
    requires IsRaw(raw) && FirstOpening("\"" + raw + "\"") == Some(n)
    ensures 0 < n <= |raw| && Lex(("\"" + raw + "\"")[..n + 1]).None?
  {
    var text := "\"" + raw + "\"";
    assert text[0] == '"' && text[|text| - 1] == '"';
    OpenQuote(raw + "\"", |raw|, n);
    assert text[..n + 1][1..] == (raw + "\"")[..n];
  }

  predicate Joint(carry: seq<Link>, k: nat) {
    && CarryOk(carry) && (carry == [] ==> k >= 1)
    && forall i | 0 <= i < |carry| :: carry[i].union.One? && (carry[i].union.item.Literal? || (i == 0 && k == 0 && carry[i].union.item.Call?))
  }

  lemma Regroup(a: string, b: string, lead: string, c: string, tail: string)
    ensures (a + (b + lead + "[") + c) + tail == a + (b + lead + "[" + (c + tail))
    ensures (a + (b + lead + "[") + c) + tail == (a + (b + lead)) + (['['] + (c + tail))
  {
  }

  /** The text from the first link on. */
  function After(carry: seq<Link>, tail: string): string
    requires carry != []
  {
    "] | " + carry[0].lead + "[" + (CarryText(carry[1..]) + tail)
  }

  lemma FirstLink(carry: seq<Link>, tail: string)
    requires carry != [] && carry[0].union.One?
    ensures CarryText(carry) + tail == ShowItem(carry[0].union.item) + After(carry, tail)
    ensures CarryText(carry) + tail == (ShowItem(carry[0].union.item) + ("] | " + carry[0].lead)) + (['['] + (CarryText(carry[1..]) + tail))
  {
    Regroup(ShowItem(carry[0].union.item), "] | ", carry[0].lead, CarryText(carry[1..]), tail);
    assert CarryText(carry) == ShowItem(carry[0].union.item) + ("] | " + carry[0].lead + "[") + CarryText(carry[1..]);
  }

  lemma AfterEnd(carry: seq<Link>, tail: string)
    requires carry != [] && tail != ""
    ensures After(carry, tail) != "" && EndOf(After(carry, tail)) == EndOf(tail) == EndOf(CarryText(carry[1..]) + tail)
  {
    EndAfter(CarryText(carry[1..]), tail);
    EndAfter("] | " + carry[0].lead + "[", CarryText(carry[1..]) + tail);
  }

  lemma CallText(call: Item, after: string)
    requires call.Call?
    ensures ShowItem(call) + after == call.head + (['('] + (ShowArgs(call.args) + ")" + after))
  {
    assert ShowItem(call) == call.head + "(" + ShowArgs(call.args) + ")";
  }

  /** After a call the layout fails. */
  lemma CallTidy(prefix: string, carry: seq<Link>, item: Item, tail: string, suffix: string)
    requires CarryOk(carry) && carry != [] && carry[0].union.One? && carry[0].union.item.Call? && Shortened(item, 0, tail)
    ensures Tidy(prefix, CarryText(carry) + tail, suffix)
  {
    var call := carry[0].union.item;
    var rest := ShowArgs(call.args) + ")" + After(carry, tail);
    TailEnd(item, 0, tail);
    AfterEnd(carry, tail);
    EndAfter(ShowArgs(call.args) + ")", After(carry, tail));
    FirstLink(carry, tail);
    CallText(call, After(carry, tail));
    assert LinkOk(carry[0]) && FormedItem(call);
    WordLeads(call.head);
    Unclosed(prefix, call.head, '(', rest, suffix);
  }

  /** A constant with a bracket is cut there if the last character closes the bracket. */
  lemma BracketTidy(prefix: string, raw: string, after: string, suffix: string)
    requires IsRaw(raw) && after != "" && FirstOpening("\"" + raw + "\"").Some?
    requires !Fits(prefix, "\"" + raw + "\"" + after, suffix)
    ensures var n := FirstOpening("\"" + raw + "\"").value;
      Tidy(prefix, "\"" + raw + "\"" + after, suffix) <==> EndOf(after) != Closer(("\"" + raw + "\"")[n])[0]
  {
    var constant := "\"" + raw + "\"";
    var text := constant + after;
    var n := FirstOpening(constant).value;
    CutConstant(raw, n);
    FirstInside(constant, after);
    EndAfter(constant, after);
    assert text[n] == constant[n] && text[..n + 1] == constant[..n + 1];
    if EndOf(after) == Closer(constant[n])[0] {
      UnbracketAt(text, n);
    }
  }

  lemma {:induction false} FirstInside(a: string, b: string)
    requires FirstOpening(a).Some?
    ensures FirstOpening(a + b) == FirstOpening(a)
    decreases |a|
  {
    assert (a + b)[1..] == a[1..] + b;
    if !IsOpening(a[0]) {
      FirstInside(a[1..], b);
    }
  }

  lemma ConstantLeads(raw: string, lead: string)
    requires IsRaw(raw) && FirstOpening("\"" + raw + "\"").None? && Leading(lead)
    ensures NoneOpens("\"" + raw + "\"" + ("] | " + lead)) && Lex("\"" + raw + "\"" + ("] | " + lead)).Some?
  {
    LexQuote(raw);
    LexMark(']');
    LexSeparators();
    assert "]" + " | " == "] | ";
    LexAppend("]", " | ");
    LexAppend("] | ", lead);
    LexAppend("\"" + raw + "\"", "] | " + lead);
  }

  /** The condition is the layout's own. */
  lemma {:induction false} UncutDecides(prefix: string, carry: seq<Link>, item: Item, k: nat, tail: string, suffix: string)
    requires Joint(carry, k) && Shortened(item, k, tail)
    ensures Tidy(prefix, CarryText(carry) + tail, suffix) <==> Uncut(prefix, carry, tail, suffix)
    decreases |carry|, 1
  {
    var text := CarryText(carry) + tail;
    TailEnd(item, k, tail);
    if Fits(prefix, text, suffix) {
    } else if carry == [] {
      assert text == tail;
      OpenListTidy(prefix, item, k, tail, suffix);
    } else if carry[0].union.item.Call? {
      CallTidy(prefix, carry, item, tail, suffix);
    } else if FirstOpening(ShowItem(carry[0].union.item)).Some? {
      FirstLink(carry, tail);
      AfterEnd(carry, tail);
      assert LinkOk(carry[0]) && FormedItem(carry[0].union.item);
      BracketTidy(prefix, carry[0].union.item.raw, After(carry, tail), suffix);
    } else {
      BeyondDecides(prefix, carry, item, k, tail, suffix);
    }
  }

  predicate Plain(carry: seq<Link>) {
    carry != [] && carry[0].union.One? && carry[0].union.item.Literal? && FirstOpening(ShowItem(carry[0].union.item)).None?
  }

  lemma BeyondUnclosed(prefix: string, carry: seq<Link>, item: Item, k: nat, tail: string, suffix: string)
    requires CarryOk(carry) && Plain(carry) && Shortened(item, k, tail) && EndOf(tail) != ']'
    ensures Tidy(prefix, CarryText(carry) + tail, suffix)
  {
    assert LinkOk(carry[0]) && FormedItem(carry[0].union.item);
    ConstantLeads(carry[0].union.item.raw, carry[0].lead);
    FirstLink(carry, tail);
    AfterEnd(carry, tail);
    Unclosed(prefix, ShowItem(carry[0].union.item) + ("] | " + carry[0].lead), '[', CarryText(carry[1..]) + tail, suffix);
  }

  lemma BeyondOpens(carry: seq<Link>, tail: string)
    requires CarryOk(carry) && Plain(carry) && tail != "" && EndOf(tail) == ']'
    ensures Opens(CarryText(carry) + tail, CarryText(carry[1..]) + tail[..|tail| - 1])
  {
    assert LinkOk(carry[0]) && FormedItem(carry[0].union.item);
    ConstantLeads(carry[0].union.item.raw, carry[0].lead);
    FirstLink(carry, tail);
    AfterEnd(carry, tail);
    DropEnd(CarryText(carry[1..]), tail);
    Closed(ShowItem(carry[0].union.item) + ("] | " + carry[0].lead), CarryText(carry[1..]) + tail);
  }

  lemma PlainUncut(prefix: string, carry: seq<Link>, tail: string, suffix: string)
    requires Plain(carry) && tail != "" && !Fits(prefix, CarryText(carry) + tail, suffix)
    ensures Uncut(prefix, carry, tail, suffix) <==> (EndOf(tail) == ']' ==>
      var shorter := tail[..|tail| - 1];
      |Inner(prefix)| + |CarryText(carry[1..]) + shorter| <= WIDTH || Uncut(Inner(prefix), carry[1..], shorter, ""))
  {
  }

  lemma {:induction false} BeyondDecides(prefix: string, carry: seq<Link>, item: Item, k: nat, tail: string, suffix: string)
    requires Joint(carry, k) && Shortened(item, k, tail) && Plain(carry)
    requires !Fits(prefix, CarryText(carry) + tail, suffix)
    ensures Tidy(prefix, CarryText(carry) + tail, suffix) <==> Uncut(prefix, carry, tail, suffix)
    decreases |carry|, 0
  {
    TailEnd(item, k, tail);
    PlainUncut(prefix, carry, tail, suffix);
    if EndOf(tail) != ']' {
      BeyondUnclosed(prefix, carry, item, k, tail, suffix);
    } else {
      var shorter := tail[..|tail| - 1];
      BeyondOpens(carry, tail);
      JointClear(carry[1..], item, k + 1, shorter);
      WholeBody(prefix, CarryText(carry) + tail, suffix, CarryText(carry[1..]) + shorter);
      UncutDecides(Inner(prefix), carry[1..], item, k + 1, shorter, "");
    }
  }
}
