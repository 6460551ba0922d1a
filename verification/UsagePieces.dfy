/**
 A union with several bracketed branches, broken at its first bracket: the pieces between its
 commas, some of which reach over the end of one branch into the next.
 */
module UsagePieces {
  import opened UsageLexer
  import opened UsageLayout
  import opened UsageReading
  import opened UsageMeaning
  import opened UsageSyntax
  import opened UsageScan

  // ----- the text after the first bracket ----------------------------------------------------------

  /** The last argument of a branch, and what stands between it and the arguments of the next one. */
  datatype Link = Link(union: Union, lead: string)

  function LinkText(link: Link): string {
    ShowUnion(link.union) + ("] | " + link.lead + "[")
  }

  function CarryText(carry: seq<Link>): string {
    if carry == [] then "" else LinkText(carry[0]) + CarryText(carry[1..])
  }

  /** The names before the first bracketed branch, and its head. */
  function LeadOf(union: Union): string {
    match union
    case One(item) => if item.Index? then item.head else ""
    case More(item, rest) => if item.Index? then item.head else ShowItem(item) + " | " + LeadOf(rest)
  }

  /** What stands between the first bracket and the last. */
  function BodyFrom(union: Union): string {
    match union
    case One(item) => if item.Index? then ShowArgs(item.args) else ""
    case More(item, rest) =>
      if item.Index? then ShowArgs(item.args) + ("] | " + LeadOf(rest) + "[") + BodyFrom(rest) else BodyFrom(rest)
  }

  function LastUnion(args: Args): Union
    decreases args
  {
    match args
    case Last(union) => union
    case Comma(_, others) => LastUnion(others)
  }

  /** What comes before the last argument in its piece. */
  function LastCarry(carry: seq<Link>, args: Args): seq<Link> {
    if args.Last? then carry else []
  }

  /** The pieces before the last argument. */
  function FirstPieces(carry: seq<Link>, args: Args): seq<string>
    decreases args
  {
    match args
    case Last(_) => []
    case Comma(union, others) => [CarryText(carry) + ShowUnion(union)] + FirstPieces([], others)
  }

  function NextCarry(carry: seq<Link>, args: Args, lead: string): seq<Link> {
    LastCarry(carry, args) + [Link(LastUnion(args), lead)]
  }

  function LastPiece(carry: seq<Link>, args: Args): string {
    CarryText(LastCarry(carry, args)) + ShowUnion(LastUnion(args))
  }

  function PiecesOf(carry: seq<Link>, union: Union): seq<string>
    decreases union
  {
    match union
    case One(item) => if item.Index? then FirstPieces(carry, item.args) + [LastPiece(carry, item.args)] else []
    case More(item, rest) =>
      if item.Index? then FirstPieces(carry, item.args) + PiecesOf(NextCarry(carry, item.args, LeadOf(rest)), rest)
      else PiecesOf(carry, rest)
  }

  lemma {:induction false} TextOfUnion(union: Union)
    requires LastItem(union).Index?
    ensures ShowUnion(union) == LeadOf(union) + "[" + BodyFrom(union) + "]"
    decreases union
  {
    if union.More? {
      TextOfUnion(union.rest);
      var (lead, body) := (LeadOf(union.rest), BodyFrom(union.rest));
      if union.item.Index? {
        var (head, args) := (union.item.head, ShowArgs(union.item.args));
        assert ShowUnion(union) == head + "[" + args + "]" + " | " + (lead + "[" + body + "]");
        assert head + "[" + args + "]" + " | " + (lead + "[" + body + "]") == head + "[" + (args + ("] | " + lead + "[") + body) + "]" by {
          assert "]" + " | " == "] | ";
        }
      } else {
        assert ShowItem(union.item) + " | " + (lead + "[" + body + "]") == (ShowItem(union.item) + " | " + lead) + "[" + body + "]";
      }
    }
  }

  // ----- what stands between branches ----------------------------------------------------------------

  const BELOW := Scan(-1, false, false)

  predicate NoneOpens(s: string) {
    forall i | 0 <= i < |s| :: !IsOpening(s[i])
  }

  predicate Leading(lead: string) {
    lead != "" && lead[0] != ' ' && NoneOpens(lead) && Level(BELOW, lead) && Lex(lead).Some?
  }

  lemma {:induction false} LeadsWell(union: Union)
    requires FormedUnion(union) && LastItem(union).Index?
    ensures Leading(LeadOf(union))
    decreases union
  {
    if union.item.Index? {
      LevelWord(BELOW, union.item.head);
      LexWord(union.item.head);
    } else {
      assert union.More? && Branch(union.item);
      LeadsWell(union.rest);
      LeadAfter(union.item.name, LeadOf(union.rest));
    }
  }

  lemma LeadAfter(name: string, lead: string)
    requires IsWord(name) && Leading(lead)
    ensures Leading(name + " | " + lead)
  {
    NameBar(name);
    LevelWord(BELOW, name);
    LevelBar(BELOW);
    LevelAppend(BELOW, name, " | ");
    LevelAppend(BELOW, name + " | ", lead);
    LexAppend(name + " | ", lead);
  }

  /** Closing one bracket and opening the next leaves the depth as it was. */
  lemma LinkLevel(lead: string)
    requires Leading(lead)
    ensures Level(START, "] | " + lead + "[")
  {
    LevelBar(BELOW);
    LevelAppend(BELOW, " | ", lead);
    var between := " | " + lead;
    assert [']'][1..] == "" && ['['][1..] == "";
    ScanAppend(START, [']'], between);
    ClearAppend(START, [']'], between);
    ScanAppend(START, [']'] + between, ['[']);
    ClearAppend(START, [']'] + between, ['[']);
    assert [']'] + between + ['['] == "] | " + lead + "[";
  }

  predicate LinkOk(link: Link) {
    FormedUnion(link.union) && Leading(link.lead)
  }

  lemma {:induction false} CarryLevel(carry: seq<Link>)
    requires forall i | 0 <= i < |carry| :: LinkOk(carry[i])
    ensures Level(START, CarryText(carry))
    ensures carry != [] ==> CarryText(carry) != "" && CarryText(carry)[0] != ' '
  {
    if carry != [] {
      var link := carry[0];
      CarryLevel(carry[1..]);
      FormedUnionSound(link.union);
      LevelUnion(START, link.union);
      UnionTrimmed(link.union);
      LinkLevel(link.lead);
      LevelAppend(START, ShowUnion(link.union), "] | " + link.lead + "[");
      LevelAppend(START, LinkText(link), CarryText(carry[1..]));
    }
  }

  lemma {:induction false} CarryMore(carry: seq<Link>, link: Link)
    ensures CarryText(carry + [link]) == CarryText(carry) + LinkText(link)
  {
    if carry == [] {
      assert [] + [link] == [link] && [link][1..] == [];
    } else {
      assert (carry + [link])[1..] == carry[1..] + [link];
      CarryMore(carry[1..], link);
    }
  }

  predicate CarryOk(carry: seq<Link>) {
    forall i | 0 <= i < |carry| :: LinkOk(carry[i])
  }

  lemma {:induction false} LastUnionFormed(args: Args)
    requires FormedArgs(args)
    ensures FormedUnion(LastUnion(args))
    decreases args
  {
    if args.Comma? {
      LastUnionFormed(args.others);
    }
  }

  lemma NextOk(carry: seq<Link>, args: Args, lead: string)
    requires CarryOk(carry) && FormedArgs(args) && Leading(lead)
    ensures CarryOk(NextCarry(carry, args, lead))
  {
    LastUnionFormed(args);
  }

  /** A piece is level and has no blanks around it. */
  lemma PieceLevel(carry: seq<Link>, union: Union)
    requires CarryOk(carry) && FormedUnion(union)
    ensures Level(START, CarryText(carry) + ShowUnion(union)) && Trimmed(CarryText(carry) + ShowUnion(union))
  {
    CarryLevel(carry);
    FormedUnionSound(union);
    LevelUnion(START, union);
    UnionTrimmed(union);
    LevelAppend(START, CarryText(carry), ShowUnion(union));
  }

  // ----- splitting at the commas ---------------------------------------------------------------------

  lemma TextCut(value: string, m: nat, parts: seq<string>, text: string, rest: string)
    requires At(value, m, parts) && value[m..] == text + ", " + rest && Level(START, text) && Trimmed(text)
    ensures var n := m + |text| + 2; n <= |value| && At(value, n, parts + [text]) && value[n..] == rest
  {
    Tail(value, m, text, rest);
    NextAt(value, m, parts, text);
  }

  lemma PieceCut(value: string, m: nat, parts: seq<string>, carry: seq<Link>, union: Union, rest: string)
    requires At(value, m, parts) && value[m..] == (CarryText(carry) + ShowUnion(union)) + ", " + rest
    requires CarryOk(carry) && FormedUnion(union)
    ensures var text := CarryText(carry) + ShowUnion(union); var n := m + |text| + 2;
      n <= |value| && At(value, n, parts + [text]) && value[n..] == rest
  {
    PieceLevel(carry, union);
    TextCut(value, m, parts, CarryText(carry) + ShowUnion(union), rest);
  }

  lemma Prepend(parts: seq<string>, text: string, more: seq<string>)
    ensures parts + [text] + more == parts + ([text] + more)
  {
  }

  lemma CommaText(carry: string, union: string, others: string, tail: string)
    ensures carry + (union + ", " + others) + tail == (carry + union) + ", " + (others + tail)
    ensures "" + others + tail == others + tail
  {
  }

  /** Reading a branch up to its last argument. */
  lemma {:induction false} ReachLast(value: string, m: nat, parts: seq<string>, carry: seq<Link>, args: Args, tail: string) returns (n: nat)
    requires At(value, m, parts) && value[m..] == CarryText(carry) + ShowArgs(args) + tail
    requires CarryOk(carry) && FormedArgs(args)
    ensures At(value, n, parts + FirstPieces(carry, args))
    ensures n <= |value| && value[n..] == LastPiece(carry, args) + tail
    decreases args
  {
    match args
    case Last(_) =>
      n := m;
      assert parts + [] == parts;
    case Comma(union, others) =>
      var text := CarryText(carry) + ShowUnion(union);
      CommaText(CarryText(carry), ShowUnion(union), ShowArgs(others), tail);
      PieceCut(value, m, parts, carry, union, ShowArgs(others) + tail);
      n := ReachLast(value, m + |text| + 2, parts + [text], [], others, tail);
      Prepend(parts, text, FirstPieces([], others));
  }

  /** The end of a branch belongs to the piece that the next one goes on with. */
  lemma LinkedText(carry: seq<Link>, args: Args, lead: string, body: string)
    ensures LastPiece(carry, args) + ("] | " + lead + "[" + body) == CarryText(NextCarry(carry, args, lead)) + body
  {
    CarryMore(LastCarry(carry, args), Link(LastUnion(args), lead));
  }

  lemma PiecesMore(parts: seq<string>, carry: seq<Link>, item: Item, rest: Union)
    requires item.Index?
    ensures parts + FirstPieces(carry, item.args) + PiecesOf(NextCarry(carry, item.args, LeadOf(rest)), rest)
      == parts + PiecesOf(carry, More(item, rest))
  {
  }

  lemma BodyMore(item: Item, rest: Union)
    requires item.Index?
    ensures BodyFrom(More(item, rest)) == ShowArgs(item.args) + ("] | " + LeadOf(rest) + "[") + BodyFrom(rest)
  {
  }

  lemma {:induction false} CutUnion(value: string, m: nat, parts: seq<string>, carry: seq<Link>, union: Union)
    requires At(value, m, parts) && value[m..] == CarryText(carry) + BodyFrom(union)
    requires CarryOk(carry) && FormedUnion(union) && LastItem(union).Index?
    ensures Arguments(value) == parts + PiecesOf(carry, union)
    decreases union
  {
    match union
    case One(item) => CutLast(value, m, parts, carry, item.args);
    case More(item, rest) =>
      if item.Index? {
        LeadsWell(rest);
        NextOk(carry, item.args, LeadOf(rest));
        BodyMore(item, rest);
        var n := CutBranch(value, m, parts, carry, item.args, LeadOf(rest), BodyFrom(rest));
        CutUnion(value, n, parts + FirstPieces(carry, item.args), NextCarry(carry, item.args, LeadOf(rest)), rest);
        PiecesMore(parts, carry, item, rest);
      } else {
        CutUnion(value, m, parts, carry, rest);
      }
  }

  lemma CutLast(value: string, m: nat, parts: seq<string>, carry: seq<Link>, args: Args)
    requires At(value, m, parts) && value[m..] == CarryText(carry) + ShowArgs(args)
    requires CarryOk(carry) && FormedArgs(args)
    ensures Arguments(value) == parts + (FirstPieces(carry, args) + [LastPiece(carry, args)])
  {
    assert value[m..] == CarryText(carry) + ShowArgs(args) + "";
    var n := ReachLast(value, m, parts, carry, args, "");
    LastUnionFormed(args);
    PieceLevel(LastCarry(carry, args), LastUnion(args));
    LastPart(value, n, parts + FirstPieces(carry, args), LastPiece(carry, args));
  }

  lemma CutBranch(value: string, m: nat, parts: seq<string>, carry: seq<Link>, args: Args, lead: string, body: string) returns (n: nat)
    requires At(value, m, parts) && value[m..] == CarryText(carry) + (ShowArgs(args) + ("] | " + lead + "[") + body)
    requires CarryOk(carry) && FormedArgs(args)
    ensures At(value, n, parts + FirstPieces(carry, args))
    ensures n <= |value| && value[n..] == CarryText(NextCarry(carry, args, lead)) + body
  {
    var tail := "] | " + lead + "[" + body;
    BranchText(CarryText(carry), ShowArgs(args), "] | " + lead + "[", body);
    n := ReachLast(value, m, parts, carry, args, tail);
    LinkedText(carry, args, lead, body);
  }

  lemma BranchText(carry: string, args: string, link: string, body: string)
    ensures carry + (args + link + body) == carry + args + (link + body)
  {
  }

  /** The body of a union is split into its pieces. */
  lemma PiecesCut(union: Union)
    requires FormedUnion(union) && LastItem(union).Index?
    ensures Arguments(BodyFrom(union)) == PiecesOf([], union)
  {
    var value := BodyFrom(union);
    assert value[0..] == value && "" + value == value;
    CutUnion(value, 0, [], [], union);
    assert [] + PiecesOf([], union) == PiecesOf([], union);
  }
}
