/**
 When the layout of an annotation succeeds and when it is tidy, read off the expression: what
 matters is how wide its keyword arguments are where they stand, and which constants it breaks.
 */
module UsageWidth {
  import opened UsageLayout
  import opened UsageReading
  import opened UsageMeaning
  import opened UsageSyntax
  import opened UsageScan
  import opened UsagePieces
  import opened UsageJoints

  // ----- the condition ---------------------------------------------------------------------------

  /**
   No keyword argument without a bracket is wider than its line. A union with several bracketed
   branches is broken across all of them, into the pieces between their commas; there also no
   constant may be broken.
   */
  predicate Narrow(prefix: string, union: Union, suffix: string)
    decreases union, 1
  {
    if Simple(union) then NarrowLast(prefix, union, suffix)
    else
      || Fits(prefix, ShowUnion(union), suffix) || !LastItem(union).Index?
      || |Inner(prefix)| + |BodyFrom(union)| <= WIDTH
      || NarrowBranches(Inner(prefix), [], union, if |PiecesOf([], union)| > 1 then "," else "")
  }

  predicate NarrowBranches(prefix: string, carry: seq<Link>, union: Union, suffix: string)
    decreases union, 0
  {
    match union
    case One(item) => item.Index? ==> NarrowPieces(prefix, carry, item.args, true, suffix)
    case More(item, rest) =>
      if item.Index? then
        && NarrowPieces(prefix, carry, item.args, false, suffix)
        && NarrowBranches(prefix, NextCarry(carry, item.args, LeadOf(rest)), rest, suffix)
      else NarrowBranches(prefix, carry, rest, suffix)
  }

  /** The pieces that end inside a branch, the last one only if no branch follows. */
  predicate NarrowPieces(prefix: string, carry: seq<Link>, args: Args, last: bool, suffix: string)
    decreases args, 2
  {
    match args
    case Last(union) => last ==> NarrowPiece(prefix, carry, union, suffix)
    case Comma(union, others) => NarrowPiece(prefix, carry, union, suffix) && NarrowPieces(prefix, [], others, last, suffix)
  }

  predicate NarrowPiece(prefix: string, carry: seq<Link>, union: Union, suffix: string)
    decreases union, 2
  {
    if carry == [] then Narrow(prefix, union, suffix) else Uncut(prefix, carry, ShowUnion(union), suffix)
  }

  predicate NarrowLast(prefix: string, union: Union, suffix: string)
    decreases union, 0
  {
    match union
    case More(_, rest) => NarrowLast(prefix, rest, suffix)
    case One(item) =>
      match item
      case Name(_) => true
      case Literal(_) => true
      case Keyword(_, _) => Fits(prefix, ShowItem(item), suffix) || FirstOpening(ShowItem(item)).Some?
      case Index(_, args) => NarrowArgs(Inner(prefix), args, Separator(args))
      case Call(_, args) => NarrowArgs(Inner(prefix), args, Separator(args))
  }

  predicate NarrowArgs(prefix: string, args: Args, suffix: string)
    decreases args, 2
  {
    Narrow(prefix, args.union, suffix) && (args.Comma? ==> NarrowArgs(prefix, args.others, suffix))
  }

  /** No literal and no keyword argument with a bracket is wider than its line: then the layout succeeds. */
  predicate Breakable(prefix: string, union: Union, suffix: string)
    decreases union, 1
  {
    if Simple(union) then BreakableLast(prefix, union, suffix) else Layout(prefix, ShowUnion(union), suffix).Some?
  }

  predicate BreakableLast(prefix: string, union: Union, suffix: string)
    decreases union, 0
  {
    match union
    case More(_, rest) => BreakableLast(prefix, rest, suffix)
    case One(item) =>
      match item
      case Name(_) => true
      case Literal(_) => Fits(prefix, ShowItem(item), suffix) || FirstOpening(ShowItem(item)).None?
      case Keyword(_, _) => Fits(prefix, ShowItem(item), suffix) || FirstOpening(ShowItem(item)).None?
      case Index(_, args) => BreakableArgs(Inner(prefix), args, Separator(args))
      case Call(_, args) => BreakableArgs(Inner(prefix), args, Separator(args))
  }

  predicate BreakableArgs(prefix: string, args: Args, suffix: string)
    decreases args, 2
  {
    Breakable(prefix, args.union, suffix) && (args.Comma? ==> BreakableArgs(prefix, args.others, suffix))
  }

  // ----- the condition is exact ----------------------------------------------------------------------------

  lemma {:induction false} LastNarrow(prefix: string, union: Union, suffix: string)
    requires Simple(union)
    ensures LastItem(union).Name? ==> NarrowLast(prefix, union, suffix) && BreakableLast(prefix, union, suffix)
    ensures LastItem(union).Index? || LastItem(union).Call? ==>
      var args := ArgsIn(LastItem(union));
      && (NarrowLast(prefix, union, suffix) <==> NarrowArgs(Inner(prefix), args, Separator(args)))
      && (BreakableLast(prefix, union, suffix) <==> BreakableArgs(Inner(prefix), args, Separator(args)))
    decreases union
  {
    if union.More? {
      LastNarrow(prefix, union.rest, suffix);
    }
  }

  lemma {:induction false} LeadingFits(prefix: string)
    ensures LeadingSpaces(prefix) <= |prefix|
    decreases |prefix|
  {
    if prefix != "" && prefix[0] == ' ' {
      LeadingFits(prefix[1..]);
    }
  }

  lemma {:induction false} LastLength(union: Union)
    ensures |ShowItem(LastItem(union))| <= |ShowUnion(union)|
    decreases union
  {
    if union.More? {
      LastLength(union.rest);
    }
  }

  lemma HeadLength(item: Item)
    requires (item.Index? || item.Call?) && FormedItem(item)
    ensures |ShowArgs(ArgsIn(item))| + 4 <= |ShowItem(item)|
  {
  }

  lemma {:induction false} LastFormed(union: Union)
    requires FormedUnion(union)
    ensures FormedItem(LastItem(union))
    ensures union.More? ==> LastItem(union).Name? || LastItem(union).Index?
    decreases union
  {
    if union.More? {
      LastBranch(union);
      LastFormed(union.rest);
    }
  }

  /** What fits on a line contains nothing too wide. */
  lemma {:induction false} FitsNarrow(prefix: string, union: Union, suffix: string)
    requires FormedUnion(union) && Fits(prefix, ShowUnion(union), suffix)
    ensures Narrow(prefix, union, suffix) && Breakable(prefix, union, suffix)
    decreases union, 1
  {
    if Simple(union) {
      match union
      case More(_, rest) => FitsNarrow(prefix, rest, suffix);
      case One(item) =>
        if item.Index? || item.Call? {
          HeadLength(item);
          LeadingFits(prefix);
          FitsArgs(Inner(prefix), item.args, Separator(item.args));
        }
    }
  }

  lemma {:induction false} FitsArgs(prefix: string, args: Args, suffix: string)
    requires FormedArgs(args) && |suffix| <= 1
    requires |prefix| + |ShowArgs(args)| + (if args.Last? then |suffix| else 0) <= WIDTH
    ensures NarrowArgs(prefix, args, suffix) && BreakableArgs(prefix, args, suffix)
    decreases args, 2
  {
    FitsNarrow(prefix, args.union, suffix);
    if args.Comma? {
      FitsArgs(prefix, args.others, suffix);
    }
  }

  lemma LiteralDecides(prefix: string, item: Item, suffix: string)
    requires item.Literal? && FormedItem(item) && !Fits(prefix, ShowItem(item), suffix)
    ensures Tidy(prefix, ShowItem(item), suffix)
    ensures Layout(prefix, ShowItem(item), suffix).Some? <==> FirstOpening(ShowItem(item)).None?
  {
    FormedIsSound(item);
    LexItem(item);
    var text := ShowItem(item);
    assert text[|text| - 1] == '"';
    if FirstOpening(text).Some? {
      QuoteEnds(text);
    }
  }

  lemma KeywordDecides(prefix: string, item: Item, suffix: string)
    requires item.Keyword? && FormedItem(item) && !Fits(prefix, ShowItem(item), suffix)
    ensures Tidy(prefix, ShowItem(item), suffix) <==> FirstOpening(ShowItem(item)).Some?
    ensures Layout(prefix, ShowItem(item), suffix).Some? <==> FirstOpening(ShowItem(item)).None?
  {
    FormedIsSound(item);
    LexItem(item);
    PlainKeyword(item);
  }

  lemma PlainDecides(prefix: string, union: Union, suffix: string)
    requires Simple(union) && FormedUnion(union) && LastItem(union).Name?
    ensures Tidy(prefix, ShowUnion(union), suffix) && Layout(prefix, ShowUnion(union), suffix).Some?
  {
    SimplePlain(union);
    FormedUnionSound(union);
    LexUnion(union);
  }

  /** The layout of an expression succeeds, and is tidy, exactly under the two conditions on its parts. */
  lemma {:induction false} WidthDecides(prefix: string, union: Union, suffix: string)
    requires FormedUnion(union)
    ensures Tidy(prefix, ShowUnion(union), suffix) <==> Narrow(prefix, union, suffix)
    ensures Layout(prefix, ShowUnion(union), suffix).Some? <==> Breakable(prefix, union, suffix)
    decreases |ShowUnion(union)|, 5, 0
  {
    if Fits(prefix, ShowUnion(union), suffix) {
      FitsNarrow(prefix, union, suffix);
    } else if Simple(union) {
      var item := LastItem(union);
      LastFormed(union);
      LastNarrow(prefix, union, suffix);
      if item.Name? {
        PlainDecides(prefix, union, suffix);
      } else if item.Literal? {
        LiteralDecides(prefix, item, suffix);
      } else if item.Keyword? {
        KeywordDecides(prefix, item, suffix);
      } else {
        BracketDecides(prefix, union, suffix);
      }
    } else {
      UnionDecides(prefix, union, suffix);
    }
  }

  lemma WideShape(prefix: string, text: string, suffix: string, body: string)
    requires !Fits(prefix, text, suffix) && Opens(text, body)
    ensures Tidy(prefix, text, suffix) <==> MiddleTidy(prefix, text)
    ensures Layout(prefix, text, suffix).Some? <==> Middle(prefix, text).Some?
  {
  }

  lemma {:induction false} BracketDecides(prefix: string, union: Union, suffix: string)
    requires FormedUnion(union) && Simple(union) && (LastItem(union).Index? || LastItem(union).Call?)
    requires !Fits(prefix, ShowUnion(union), suffix)
    ensures Tidy(prefix, ShowUnion(union), suffix) <==> Narrow(prefix, union, suffix)
    ensures Layout(prefix, ShowUnion(union), suffix).Some? <==> Breakable(prefix, union, suffix)
    decreases |ShowUnion(union)|, 4
  {
    var item := LastItem(union);
    LastFormed(union);
    LastNarrow(prefix, union, suffix);
    SimpleOpens(union);
    WideShape(prefix, ShowUnion(union), suffix, ShowArgs(ArgsIn(item)));
    LastLength(union);
    HeadLength(item);
    MiddleDecides(prefix, ShowUnion(union), ArgsIn(item));
  }

  lemma {:induction false} MiddleDecides(prefix: string, text: string, args: Args)
    requires FormedArgs(args) && Opens(text, ShowArgs(args)) && |ShowArgs(args)| + 4 <= |text|
    ensures MiddleTidy(prefix, text) <==> NarrowArgs(Inner(prefix), args, Separator(args))
    ensures Middle(prefix, text).Some? <==> BreakableArgs(Inner(prefix), args, Separator(args))
    decreases |ShowArgs(args)|, 7
  {
    if |Inner(prefix)| + |ShowArgs(args)| <= WIDTH {
      FitsArgs(Inner(prefix), args, Separator(args));
    } else {
      FormedArgsSound(args);
      ArgumentsOfShown(args);
      ShowsLength(args);
      ArgsDecide(Inner(prefix), args, Separator(args), |text|);
    }
  }

  lemma {:induction false} ShowsLength(args: Args)
    ensures ShowsOf(args) != [] && (|ShowsOf(args)| > 1 <==> args.Comma?)
    ensures forall i | 0 <= i < |ShowsOf(args)| :: |ShowsOf(args)[i]| <= |ShowArgs(args)|
    decreases args
  {
    if args.Comma? {
      ShowsLength(args.others);
    }
  }

  lemma {:induction false} ArgsDecide(prefix: string, args: Args, suffix: string, bound: nat)
    requires FormedArgs(args) && forall i | 0 <= i < |ShowsOf(args)| :: |ShowsOf(args)[i]| < bound
    ensures AllTidy(prefix, ShowsOf(args), suffix, bound) <==> NarrowArgs(prefix, args, suffix)
    ensures LayoutAll(prefix, ShowsOf(args), suffix, bound).Some? <==> BreakableArgs(prefix, args, suffix)
    decreases |ShowArgs(args)|, 6
  {
    WidthDecides(prefix, args.union, suffix);
    var shows := ShowsOf(args);
    match args
    case Last(_) => assert shows[1..] == [];
    case Comma(_, others) =>
      assert shows[1..] == ShowsOf(others);
      ArgsDecide(prefix, others, suffix, bound);
  }

  // ----- several bracketed branches ------------------------------------------------------------------------

  lemma Enclosed(lead: string, body: string)
    requires Leading(lead)
    ensures Opens(lead + "[" + body + "]", body)
  {
    Closed(lead, body + "]");
    assert (body + "]")[..|body|] == body;
    assert lead + "[" + body + "]" == lead + (['['] + (body + "]"));
  }

  lemma UnionOpens(union: Union)
    requires FormedUnion(union) && LastItem(union).Index?
    ensures Opens(ShowUnion(union), BodyFrom(union))
  {
    TextOfUnion(union);
    LeadsWell(union);
    Enclosed(LeadOf(union), BodyFrom(union));
  }

  lemma BracketIn(a: string, b: string, c: string, n: nat)
    requires n < |b| && IsOpening(b[n])
    ensures FirstOpening(a + b + c).Some?
  {
    assert (a + b + c)[|a| + n] == b[n];
  }

  /** A union that is not simple has a bracket. */
  lemma {:induction false} HasBracket(union: Union)
    requires FormedUnion(union) && !Simple(union)
    ensures FirstOpening(ShowUnion(union)).Some?
    decreases union
  {
    if union.item.Index? {
      BracketIn(union.item.head, "[", ShowArgs(union.item.args) + "]" + " | " + ShowUnion(union.rest), 0);
      assert ShowUnion(union) == union.item.head + "[" + (ShowArgs(union.item.args) + "]" + " | " + ShowUnion(union.rest));
    } else {
      assert Branch(union.item);
      HasBracket(union.rest);
      var n := FirstOpening(ShowUnion(union.rest)).value;
      assert n < |ShowUnion(union.rest)| && IsOpening(ShowUnion(union.rest)[n]);
      BracketIn(ShowItem(union.item) + " | ", ShowUnion(union.rest), "", FirstOpening(ShowUnion(union.rest)).value);
      assert ShowUnion(union) == ShowItem(union.item) + " | " + ShowUnion(union.rest) + "";
    }
  }

  lemma NoClosing(prefix: string, union: Union, suffix: string)
    requires FormedUnion(union) && !Simple(union) && !LastItem(union).Index?
    ensures Tidy(prefix, ShowUnion(union), suffix)
  {
    LastFormed(union);
    NameEnd(union);
    HasBracket(union);
  }

  lemma {:induction false} UnionDecides(prefix: string, union: Union, suffix: string)
    requires FormedUnion(union) && !Simple(union) && !Fits(prefix, ShowUnion(union), suffix)
    ensures Tidy(prefix, ShowUnion(union), suffix) <==> Narrow(prefix, union, suffix)
    decreases |ShowUnion(union)|, 4
  {
    if !LastItem(union).Index? {
      NoClosing(prefix, union, suffix);
    } else {
      UnionOpens(union);
      WideShape(prefix, ShowUnion(union), suffix, BodyFrom(union));
      PiecesCut(union);
      BranchesDecide(Inner(prefix), [], union, if |PiecesOf([], union)| > 1 then "," else "", |ShowUnion(union)|);
    }
  }

  predicate AllShorter(pieces: seq<string>, bound: nat) {
    forall i | 0 <= i < |pieces| :: |pieces[i]| < bound
  }

  lemma {:induction false} AllTidyAppend(indent: string, a: seq<string>, b: seq<string>, suffix: string, bound: nat)
    requires AllShorter(a, bound) && AllShorter(b, bound)
    ensures AllShorter(a + b, bound)
    ensures AllTidy(indent, a + b, suffix, bound) <==> AllTidy(indent, a, suffix, bound) && AllTidy(indent, b, suffix, bound)
    decreases |a|
  {
    if a == [] {
      assert a + b == b;
    } else {
      assert (a + b)[1..] == a[1..] + b;
      AllTidyAppend(indent, a[1..], b, suffix, bound);
    }
  }

  predicate Carried(carry: seq<Link>) {
    carry == [] || Joint(carry, 0)
  }

  lemma {:induction false} LiteralLast(args: Args)
    requires LiteralArgs(args)
    ensures LastUnion(args).One? && LastUnion(args).item.Literal?
    decreases args
  {
    if args.Comma? {
      LiteralLast(args.others);
    }
  }

  lemma {:induction false} CallLast(args: Args)
    requires CallArgs(args)
    ensures LastUnion(args).One? && LastUnion(args).item.Call?
    decreases args
  {
    if args.Comma? {
      CallLast(args.others);
    }
  }

  lemma NextCarried(carry: seq<Link>, item: Item, lead: string)
    requires Carried(carry) && item.Index? && Branch(item) && FormedItem(item) && Leading(lead)
    ensures Joint(NextCarry(carry, item.args, lead), 0)
  {
    NextOk(carry, item.args, lead);
    if LiteralArgs(item.args) {
      LiteralLast(item.args);
    } else {
      CallLast(item.args.others);
    }
  }

  function Pieces(carry: seq<Link>, args: Args, last: bool): seq<string> {
    FirstPieces(carry, args) + if last then [LastPiece(carry, args)] else []
  }

  lemma {:induction false} BranchesDecide(prefix: string, carry: seq<Link>, union: Union, suffix: string, bound: nat)
    requires FormedUnion(union) && Branches(union) && LastItem(union).Index? && Carried(carry) && AllShorter(PiecesOf(carry, union), bound)
    ensures AllTidy(prefix, PiecesOf(carry, union), suffix, bound) <==> NarrowBranches(prefix, carry, union, suffix)
    decreases |ShowUnion(union)|, 3
  {
    match union
    case One(item) =>
      assert PiecesOf(carry, union) == Pieces(carry, item.args, true);
      PiecesDecide(prefix, carry, item, true, suffix, bound);
    case More(item, rest) =>
      if item.Index? {
        var next := NextCarry(carry, item.args, LeadOf(rest));
        LeadsWell(rest);
        NextCarried(carry, item, LeadOf(rest));
        MorePieces(carry, item, rest, bound);
        PiecesDecide(prefix, carry, item, false, suffix, bound);
        BranchesDecide(prefix, next, rest, suffix, bound);
        AllTidyAppend(prefix, Pieces(carry, item.args, false), PiecesOf(next, rest), suffix, bound);
      } else {
        BranchesDecide(prefix, carry, rest, suffix, bound);
      }
  }

  lemma MorePieces(carry: seq<Link>, item: Item, rest: Union, bound: nat)
    requires item.Index? && AllShorter(PiecesOf(carry, More(item, rest)), bound)
    ensures var (a, b) := (Pieces(carry, item.args, false), PiecesOf(NextCarry(carry, item.args, LeadOf(rest)), rest));
      PiecesOf(carry, More(item, rest)) == a + b && AllShorter(a, bound) && AllShorter(b, bound)
  {
    var (a, b) := (Pieces(carry, item.args, false), PiecesOf(NextCarry(carry, item.args, LeadOf(rest)), rest));
    assert PiecesOf(carry, More(item, rest)) == a + b;
    forall i | 0 <= i < |a| ensures |a[i]| < bound {
      assert (a + b)[i] == a[i];
    }
    forall i | 0 <= i < |b| ensures |b[i]| < bound {
      assert (a + b)[|a| + i] == b[i];
    }
  }

  lemma BranchFirst(item: Item)
    requires item.Index? && Branch(item) && FormedItem(item)
    ensures item.args.union.One? && FormedItem(item.args.union.item)
    ensures var first := item.args.union.item; first.Name? || first.Literal? || IsList(first)
  {
    assert FormedUnion(item.args.union);
  }

  lemma JoinedDecides(prefix: string, carry: seq<Link>, item: Item, suffix: string)
    requires Joint(carry, 0) && FormedItem(item) && (item.Name? || item.Literal? || IsList(item))
    ensures Tidy(prefix, CarryText(carry) + ShowItem(item), suffix) <==> Uncut(prefix, carry, ShowItem(item), suffix)
  {
    FormedIsSound(item);
    ItemTrimmed(item);
    var text := ShowItem(item);
    assert text[..|text| - 0] == text;
    UncutDecides(prefix, carry, item, 0, text, suffix);
  }

  lemma OneTidy(prefix: string, first: string, rest: seq<string>, suffix: string, bound: nat)
    requires |first| < bound && AllShorter(rest, bound)
    ensures AllTidy(prefix, [first] + rest, suffix, bound) <==> Tidy(prefix, first, suffix) && AllTidy(prefix, rest, suffix, bound)
  {
    assert ([first] + rest)[1..] == rest;
  }

  lemma CommaPieces(carry: seq<Link>, args: Args, last: bool, bound: nat)
    requires args.Comma? && AllShorter(Pieces(carry, args, last), bound)
    ensures var first := CarryText(carry) + ShowUnion(args.union);
      && Pieces(carry, args, last) == [first] + Pieces([], args.others, last)
      && |first| < bound && AllShorter(Pieces([], args.others, last), bound)
  {
    var (first, more) := (CarryText(carry) + ShowUnion(args.union), Pieces([], args.others, last));
    assert Pieces(carry, args, last) == [first] + more;
    assert ([first] + more)[0] == first;
    forall i | 0 <= i < |more| ensures |more[i]| < bound {
      assert ([first] + more)[i + 1] == more[i];
    }
  }

  lemma JoinedFirst(prefix: string, carry: seq<Link>, item: Item, suffix: string)
    requires item.Index? && Branch(item) && FormedItem(item) && Joint(carry, 0)
    ensures Tidy(prefix, CarryText(carry) + ShowUnion(item.args.union), suffix) <==> NarrowPiece(prefix, carry, item.args.union, suffix)
  {
    BranchFirst(item);
    JoinedDecides(prefix, carry, item.args.union.item, suffix);
  }

  lemma JoinedLast(prefix: string, carry: seq<Link>, item: Item, last: bool, suffix: string, bound: nat)
    requires item.Index? && Branch(item) && FormedItem(item) && item.args.Last? && Joint(carry, 0) && carry != []
    requires AllShorter(Pieces(carry, item.args, last), bound)
    ensures AllTidy(prefix, Pieces(carry, item.args, last), suffix, bound) <==> NarrowPieces(prefix, carry, item.args, last, suffix)
  {
    if last {
      var first := CarryText(carry) + ShowUnion(item.args.union);
      assert Pieces(carry, item.args, last) == [first] + [];
      assert Pieces(carry, item.args, last)[0] == first;
      JoinedFirst(prefix, carry, item, suffix);
      OneTidy(prefix, first, [], suffix, bound);
    }
  }

  lemma JoinedComma(prefix: string, carry: seq<Link>, item: Item, last: bool, suffix: string, bound: nat)
    requires item.Index? && Branch(item) && FormedItem(item) && item.args.Comma? && Joint(carry, 0) && carry != []
    requires AllShorter(Pieces(carry, item.args, last), bound) && AllShorter(Pieces([], item.args.others, last), bound)
    requires AllTidy(prefix, Pieces([], item.args.others, last), suffix, bound) <==> NarrowPieces(prefix, [], item.args.others, last, suffix)
    ensures AllTidy(prefix, Pieces(carry, item.args, last), suffix, bound) <==> NarrowPieces(prefix, carry, item.args, last, suffix)
  {
    CommaPieces(carry, item.args, last, bound);
    JoinedFirst(prefix, carry, item, suffix);
    OneTidy(prefix, CarryText(carry) + ShowUnion(item.args.union), Pieces([], item.args.others, last), suffix, bound);
  }

  /** A piece that begins in an earlier branch is decided by its constants, any other by its expression. */
  lemma {:induction false} PiecesDecide(prefix: string, carry: seq<Link>, item: Item, last: bool, suffix: string, bound: nat)
    requires item.Index? && Branch(item) && FormedItem(item) && Carried(carry) && AllShorter(Pieces(carry, item.args, last), bound)
    ensures AllTidy(prefix, Pieces(carry, item.args, last), suffix, bound) <==> NarrowPieces(prefix, carry, item.args, last, suffix)
    decreases |ShowItem(item)|, 2
  {
    var args := item.args;
    HeadLength(item);
    if carry == [] {
      FreshDecide(prefix, args, last, suffix, bound);
    } else if args.Comma? {
      CommaPieces(carry, args, last, bound);
      FreshDecide(prefix, args.others, last, suffix, bound);
      JoinedComma(prefix, carry, item, last, suffix, bound);
    } else {
      JoinedLast(prefix, carry, item, last, suffix, bound);
    }
  }

  lemma {:induction false} FreshDecide(prefix: string, args: Args, last: bool, suffix: string, bound: nat)
    requires FormedArgs(args) && AllShorter(Pieces([], args, last), bound)
    ensures AllTidy(prefix, Pieces([], args, last), suffix, bound) <==> NarrowPieces(prefix, [], args, last, suffix)
    decreases |ShowArgs(args)|, 6
  {
    match args
    case Last(union) =>
      if last {
        FreshLast(prefix, union, suffix, bound);
      }
    case Comma(union, others) =>
      WidthDecides(prefix, union, suffix);
      CommaPieces([], args, last, bound);
      FreshText(union);
      FreshDecide(prefix, others, last, suffix, bound);
      OneTidy(prefix, ShowUnion(union), Pieces([], others, last), suffix, bound);
  }

  lemma FreshText(union: Union)
    ensures CarryText([]) + ShowUnion(union) == ShowUnion(union)
    ensures Pieces([], Last(union), true) == [ShowUnion(union)] + []
  {
    assert FirstPieces([], Last(union)) == [];
  }

  lemma {:induction false} FreshLast(prefix: string, union: Union, suffix: string, bound: nat)
    requires FormedUnion(union) && AllShorter(Pieces([], Last(union), true), bound)
    ensures AllTidy(prefix, Pieces([], Last(union), true), suffix, bound) <==> Narrow(prefix, union, suffix)
    decreases |ShowUnion(union)|, 5, 1
  {
    FreshText(union);
    assert Pieces([], Last(union), true)[0] == ShowUnion(union);
    WidthDecides(prefix, union, suffix);
    OneTidy(prefix, ShowUnion(union), [], suffix, bound);
  }
}
