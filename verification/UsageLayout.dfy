/**
 The layout of a generated annotation over lines of at most 88 characters, and what reading
 the lines gives back.
 */
module UsageLayout {
  import opened Wrappers
  import opened UsageLexer

  // ----- splitting arguments -------------------------------------------------------------------

  datatype Scan = Scan(depth: int, quoted: bool, escaped: bool)

  const START := Scan(0, false, false)

  function Step(q: Scan, c: char): Scan {
    if q.quoted then
      if q.escaped then q.(escaped := false)
      else if c == '\\' then q.(escaped := true)
      else if c == '"' then q.(quoted := false)
      else q
    else if c == '"' then q.(quoted := true)
    else if c == '[' || c == '(' then q.(depth := q.depth + 1)
    else if c == ']' || c == ')' then q.(depth := q.depth - 1)
    else q
  }

  /** White space other than blanks does not occur in a generated annotation. */
  function StripLeft(s: string): (r: string)
    ensures |r| <= |s|
  {
    if s != "" && s[0] == ' ' then StripLeft(s[1..]) else s
  }

  function StripRight(s: string): (r: string)
    ensures |r| <= |s|
  {
    if s != "" && s[|s| - 1] == ' ' then StripRight(s[..|s| - 1]) else s
  }

  function Strip(s: string): (r: string)
    ensures |r| <= |s|
  {
    StripRight(StripLeft(s))
  }

  datatype Cuts = Cuts(parts: seq<string>, start: nat, scan: Scan)

  predicate PartsFit(parts: seq<string>, n: nat) {
    forall i | 0 <= i < |parts| :: |parts[i]| <= n
  }

  /** The state after reading `n` characters: finished parts, start of the current one, brackets and quotes. */
  function CutTo(value: string, n: nat): (c: Cuts)
    requires n <= |value|
    ensures c.start <= n && PartsFit(c.parts, n)
  {
    if n == 0 then Cuts([], 0, START)
    else
      var c := CutTo(value, n - 1);
      if !c.scan.quoted && c.scan.depth == 0 && value[n - 1] == ',' then
        Cuts(c.parts + [Strip(value[c.start..n - 1])], n, c.scan)
      else c.(scan := Step(c.scan, value[n - 1]))
  }

  function Arguments(value: string): (parts: seq<string>)
    ensures parts != [] && PartsFit(parts, |value|)
  {
    var c := CutTo(value, |value|);
    c.parts + [Strip(value[c.start..])]
  }

  method SplitArguments(value: string) returns (result: seq<string>)
    ensures result == Arguments(value)
  {
    result := [];
    var depth, quoted, escaped, start := 0, false, false, 0;
    var position := 0;
    while position < |value|
      invariant 0 <= start <= position <= |value|
      invariant CutTo(value, position) == Cuts(result, start, Scan(depth, quoted, escaped))
    {
      var character := value[position];
      if quoted {
        if escaped {
          escaped := false;
        } else if character == '\\' {
          escaped := true;
        } else if character == '"' {
          quoted := false;
        }
      } else if character == '"' {
        quoted := true;
      } else if character == '[' || character == '(' {
        depth := depth + 1;
      } else if character == ']' || character == ')' {
        depth := depth - 1;
      } else if character == ',' && depth == 0 {
        result := result + [Strip(value[start..position])];
        start := position + 1;
      }
      position := position + 1;
    }
    result := result + [Strip(value[start..])];
  }

  // ----- lines ---------------------------------------------------------------------------------

  const WIDTH := 88

  function Spaces(n: nat): (s: string)
    ensures |s| == n
  {
    seq(n, _ => ' ')
  }

  function LeadingSpaces(s: string): nat {
    if s != "" && s[0] == ' ' then 1 + LeadingSpaces(s[1..]) else 0
  }

  predicate IsOpening(c: char) {
    c == '[' || c == '('
  }

  function FirstOpening(s: string): (n: Option<nat>)
    ensures n.Some? ==> n.value < |s| && IsOpening(s[n.value])
    ensures forall i | 0 <= i < (if n.Some? then n.value else |s|) :: !IsOpening(s[i])
  {
    if s == "" then None
    else if IsOpening(s[0]) then Some(0)
    else
      var n := FirstOpening(s[1..]);
      if n.None? then None else Some(n.value + 1)
  }

  function Closer(opener: char): string {
    if opener == '[' then "]" else ")"
  }

  /** The three parts of an expression around its first bracket, if its last character closes it. */
  datatype Bracketed = Bracketed(head: string, body: string, closer: string)

  function Unbracket(expression: string): (r: Option<Bracketed>)
    requires FirstOpening(expression).Some?
    ensures r.Some? ==> expression == r.value.head + r.value.body + r.value.closer && |r.value.body| + 2 <= |expression|
  {
    var position := FirstOpening(expression).value;
    var closer := Closer(expression[position]);
    if expression[|expression| - 1] != closer[0] then None
    else Some(Bracketed(expression[..position + 1], expression[position + 1..|expression| - 1], closer))
  }

  function Layout(prefix: string, expression: string, suffix: string): (r: Option<seq<string>>)
    decreases |expression|, 1, 0
  {
    if |prefix| + |expression| + |suffix| <= WIDTH then Some([prefix + expression + suffix])
    else
      var indentation := Spaces(LeadingSpaces(prefix));
      var inner := indentation + "    ";
      if FirstOpening(expression).None? then
        Some([prefix + "(", inner + expression, indentation + ")" + suffix])
      else if Unbracket(expression).None? then None
      else
        var parts := Unbracket(expression).value;
        var middle :=
          if |inner| + |parts.body| <= WIDTH then Some([inner + parts.body])
          else
            var arguments := Arguments(parts.body);
            LayoutAll(inner, arguments, if |arguments| > 1 then "," else "", |expression|);
        if middle.None? then None
        else Some([prefix + parts.head] + middle.value + [indentation + parts.closer + suffix])
  }

  function LayoutAll(indent: string, arguments: seq<string>, suffix: string, bound: nat): Option<seq<string>>
    requires forall i | 0 <= i < |arguments| :: |arguments[i]| < bound
    decreases bound, 0, |arguments|
  {
    if arguments == [] then Some([])
    else
      var first := Layout(indent, arguments[0], suffix);
      var rest := LayoutAll(indent, arguments[1..], suffix, bound);
      if first.None? || rest.None? then None else Some(first.value + rest.value)
  }

  // ----- reading the lines back ------------------------------------------------------------------

  predicate IsCloser(t: Token) {
    t == Mark(']') || t == Mark(')')
  }

  predicate IsOpener(t: Token) {
    t == Mark('[') || t == Mark('(')
  }

  predicate IsComma(t: Token) {
    t == Mark(',')
  }

  /** A line ending with a parenthesis that opens no call. */
  predicate Wraps(line: seq<Token>) {
    line != [] && line[|line| - 1] == Mark('(') && (|line| == 1 || !line[|line| - 2].Word?)
  }

  /** A keyword argument, which Python does not allow in parentheses of its own. */
  predicate IsKeyword(ts: seq<Token>) {
    |ts| >= 2 && ts[0].Word? && ts[1] == Mark('=')
  }

  /** The tokens of the lines without wrapping parentheses. No token spans two lines. */
  function Joined(lines: seq<string>): Option<seq<Token>> {
    if lines == [] then Some([])
    else if Lex(lines[0]).None? then None
    else
      var line := Lex(lines[0]).value;
      if !Wraps(line) then Then(line, Joined(lines[1..]))
      else if |lines| < 3 then None
      else
        var (inner, last) := (Lex(lines[1]), Lex(lines[2]));
        if inner.None? || IsKeyword(inner.value) || last.None? || last.value == [] || last.value[0] != Mark(')') then None
        else Then(line[..|line| - 1] + inner.value + last.value[1..], Joined(lines[3..]))
  }

  /** Trailing commas mean nothing before a closing bracket. */
  function DropCommas(ts: seq<Token>): seq<Token> {
    if ts == [] then []
    else if |ts| > 1 && IsComma(ts[0]) && IsCloser(ts[1]) then DropCommas(ts[1..])
    else [ts[0]] + DropCommas(ts[1..])
  }

  /** Undoes indentation, wrapping parentheses and trailing commas. */
  function Undo(lines: seq<string>): Option<seq<Token>> {
    var joined := Joined(lines);
    if joined.None? then None else Some(DropCommas(joined.value))
  }

  /**
   Along the layout no literal is cut, that is, no bracket it breaks at lies inside quotes,
   and no keyword argument is put in parentheses.
   */
  predicate Tidy(prefix: string, expression: string, suffix: string)
    decreases |expression|, 1, 0
  {
    |prefix| + |expression| + |suffix| <= WIDTH ||
    var inner := Spaces(LeadingSpaces(prefix)) + "    ";
    if FirstOpening(expression).None? then
      Lex(expression).None? || !IsKeyword(Lex(expression).value)
    else
      Unbracket(expression).Some? ==>
        var parts := Unbracket(expression).value;
        && Lex(parts.head).Some?
        && (|inner| + |parts.body| <= WIDTH ||
            var arguments := Arguments(parts.body);
            AllTidy(inner, arguments, if |arguments| > 1 then "," else "", |expression|))
  }

  predicate AllTidy(indent: string, arguments: seq<string>, suffix: string, bound: nat)
    requires forall i | 0 <= i < |arguments| :: |arguments[i]| < bound
    decreases bound, 0, |arguments|
  {
    arguments == [] || (Tidy(indent, arguments[0], suffix) && AllTidy(indent, arguments[1..], suffix, bound))
  }
}
