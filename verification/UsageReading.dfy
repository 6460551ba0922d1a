/** Reading a layout back: exactly the tidy layouts restore the annotation. */
module UsageReading {
  import opened Wrappers
  import opened UsageLexer
  import opened UsageLayout

  // ----- quotes ----------------------------------------------------------------------------------

  function ScanFrom(q: Scan, s: string): Scan
    decreases |s|
  {
    if s == "" then q else ScanFrom(Step(q, s[0]), s[1..])
  }

  lemma {:induction false} ScanAppend(q: Scan, a: string, b: string)
    ensures ScanFrom(q, a + b) == ScanFrom(ScanFrom(q, a), b)
    decreases |a|
  {
    if a == "" {
      assert a + b == b;
    } else {
      assert (a + b)[1..] == a[1..] + b;
      ScanAppend(Step(q, a[0]), a[1..], b);
    }
  }

  lemma ScanLast(q: Scan, s: string)
    requires s != ""
    ensures ScanFrom(q, s) == Step(ScanFrom(q, s[..|s| - 1]), s[|s| - 1])
  {
    assert s == s[..|s| - 1] + [s[|s| - 1]];
    ScanAppend(q, s[..|s| - 1], [s[|s| - 1]]);
  }

  predicate Outside(q: Scan) {
    !q.quoted && !q.escaped
  }

  lemma ScanStep(q: Scan, s: string)
    requires s != ""
    ensures ScanFrom(q, s) == ScanFrom(Step(q, s[0]), s[1..])
    ensures ScanFrom(q, s[..1]) == Step(q, s[0])
  {
    assert s[..1] == [s[0]];
  }

  /** Inside a literal the scan stays inside up to its closing quote. */
  lemma {:induction false} ScanQuote(q: Scan, s: string)
    requires q.quoted && !q.escaped
    ensures QuoteLength(s).Some? ==> ScanFrom(q, s[..QuoteLength(s).value + 1]) == q.(quoted := false)
    ensures QuoteLength(s).None? ==> ScanFrom(q, s).quoted
    decreases |s|
  {
    if s != "" {
      ScanStep(q, s);
      if s[0] == '\\' && |s| > 1 {
        ScanStep(q.(escaped := true), s[1..]);
        assert s[1..][1..] == s[2..];
        ScanQuote(q, s[2..]);
        if QuoteLength(s).Some? {
          var t := s[..QuoteLength(s).value + 1];
          ScanStep(q, t);
          ScanStep(q.(escaped := true), t[1..]);
          assert t[1..][1..] == s[2..][..QuoteLength(s[2..]).value + 1];
        }
      } else if s[0] != '\\' && s[0] != '"' {
        ScanQuote(q, s[1..]);
        if QuoteLength(s).Some? {
          var t := s[..QuoteLength(s).value + 1];
          ScanStep(q, t);
          assert t[1..] == s[1..][..QuoteLength(s[1..]).value + 1];
        }
      }
    }
  }

  lemma {:induction false} ScanWord(q: Scan, s: string)
    requires !q.quoted && forall i | 0 <= i < |s| :: IsWordChar(s[i])
    ensures ScanFrom(q, s) == q
  {
    if s != "" {
      ScanWord(q, s[1..]);
    }
  }

  lemma ScanFirst(q: Scan, s: string)
    requires Outside(q) && s != ""
    ensures First(s).None? ==> ScanFrom(q, s).quoted
    ensures First(s).Some? ==> exists p :: Outside(p) && ScanFrom(q, s) == ScanFrom(p, First(s).value.1)
  {
    if s[0] == '"' {
      var inside := Step(q, s[0]);
      ScanQuote(inside, s[1..]);
      if First(s).Some? {
        var n := QuoteLength(s[1..]).value;
        assert s[1..] == s[1..][..n + 1] + s[n + 2..];
        ScanAppend(inside, s[1..][..n + 1], s[n + 2..]);
        assert Outside(q) && ScanFrom(q, s) == ScanFrom(inside.(quoted := false), First(s).value.1);
      }
    } else if IsWordChar(s[0]) {
      var n := WordLength(s);
      ScanWord(q, s[..n]);
      assert s == s[..n] + s[n..];
      ScanAppend(q, s[..n], s[n..]);
    } else {
      assert Outside(Step(q, s[0]));
    }
  }

  /** A text can be read exactly when it ends outside quotes. */
  lemma {:induction false} LexMeansClosed(q: Scan, s: string)
    requires Outside(q)
    ensures Lex(s).Some? <==> !ScanFrom(q, s).quoted
    decreases |s|
  {
    if s != "" {
      if s[0] == ' ' {
        LexMeansClosed(q, s[1..]);
      } else {
        ScanFirst(q, s);
        if First(s).Some? {
          var p :| Outside(p) && ScanFrom(q, s) == ScanFrom(p, First(s).value.1);
          LexMeansClosed(p, First(s).value.1);
        }
      }
    }
  }

  /** Dropping a last character that is no quote leaves a readable text. */
  lemma LexInit(s: string)
    requires s != "" && Lex(s).Some? && s[|s| - 1] != '"'
    ensures Lex(s[..|s| - 1]).Some?
  {
    LexMeansClosed(START, s);
    LexMeansClosed(START, s[..|s| - 1]);
    ScanLast(START, s);
  }

  lemma {:induction false} LexStripLeft(s: string)
    ensures Lex(StripLeft(s)) == Lex(s)
  {
    if s != "" && s[0] == ' ' {
      LexStripLeft(s[1..]);
    }
  }

  lemma {:induction false} LexStripRight(s: string)
    requires Lex(s).Some?
    ensures Lex(StripRight(s)) == Lex(s)
  {
    if s != "" && s[|s| - 1] == ' ' {
      var init := s[..|s| - 1];
      LexInit(s);
      assert s == init + " ";
      LexSpace();
      LexAppend(init, " ");
      assert Lex(init).value + [] == Lex(init).value;
      LexStripRight(init);
    }
  }

  // ----- arguments -------------------------------------------------------------------------------

  predicate AllLex(parts: seq<string>) {
    forall i | 0 <= i < |parts| :: Lex(parts[i]).Some?
  }

  /** The tokens of the parts, each followed by a comma. */
  function CommaEnded(parts: seq<string>): seq<Token>
    requires AllLex(parts)
  {
    if parts == [] then []
    else CommaEnded(parts[..|parts| - 1]) + Lex(parts[|parts| - 1]).value + [Mark(',')]
  }

  lemma CommaEndedMore(parts: seq<string>, part: string)
    requires AllLex(parts) && Lex(part).Some?
    ensures AllLex(parts + [part])
    ensures CommaEnded(parts + [part]) == CommaEnded(parts) + Lex(part).value + [Mark(',')]
  {
    assert (parts + [part])[..|parts|] == parts;
  }

  lemma {:induction false} CutScan(value: string, n: nat)
    requires n <= |value|
    ensures CutTo(value, n).scan == ScanFrom(START, value[..n])
  {
    if n > 0 {
      CutScan(value, n - 1);
      ScanLast(START, value[..n]);
      assert value[..n][..n - 1] == value[..n - 1];
    }
  }

  /** What is cut off so far reads as the finished parts with their commas. */
  ghost predicate CutReads(value: string, c: Cuts) {
    && c.start <= |value| && AllLex(c.parts)
    && Lex(value[..c.start]) == Some(CommaEnded(c.parts))
    && (c.start > 0 ==> value[c.start - 1] == ',')
  }

  lemma PartReads(value: string, c: Cuts, n: nat)
    requires CutReads(value, c) && c.start <= n <= |value| && Lex(value[..n]).Some?
    ensures Lex(Strip(value[c.start..n])).Some?
    ensures Lex(value[..n]) == Some(CommaEnded(c.parts) + Lex(Strip(value[c.start..n])).value)
  {
    assert value[..n] == value[..c.start] + value[c.start..n];
    LexAppend(value[..c.start], value[c.start..n]);
    LexStripLeft(value[c.start..n]);
    LexStripRight(StripLeft(value[c.start..n]));
  }

  lemma AppendComma(s: string)
    requires Lex(s).Some?
    ensures Lex(s + ",") == Some(Lex(s).value + [Mark(',')])
  {
    LexMark(',');
    LexAppend(s, ",");
  }

  lemma TakeComma(value: string, n: nat)
    requires n < |value| && value[n] == ','
    ensures value[..n + 1] == value[..n] + ","
  {
  }

  lemma ReadComma(value: string, n: nat)
    requires n < |value| && value[n] == ',' && Lex(value[..n]).Some?
    ensures Lex(value[..n + 1]) == Some(Lex(value[..n]).value + [Mark(',')])
  {
    AppendComma(value[..n]);
    TakeComma(value, n);
  }

  lemma CutHere(value: string, c: Cuts, n: nat, part: string)
    requires CutReads(value, c) && c.start <= n < |value| && value[n] == ',' && Lex(part).Some?
    requires Lex(value[..n + 1]) == Some(CommaEnded(c.parts) + Lex(part).value + [Mark(',')])
    ensures CutReads(value, Cuts(c.parts + [part], n + 1, c.scan))
  {
    CommaEndedMore(c.parts, part);
  }

  lemma CutNow(value: string, c: Cuts, n: nat)
    requires CutReads(value, c) && c.start <= n < |value| && value[n] == ','
    requires Lex(value[..n]).Some?
    ensures CutReads(value, Cuts(c.parts + [Strip(value[c.start..n])], n + 1, c.scan))
  {
    PartReads(value, c, n);
    ReadComma(value, n);
    CutHere(value, c, n, Strip(value[c.start..n]));
  }

  lemma CutGoesOn(value: string, c: Cuts, scan: Scan)
    requires CutReads(value, c)
    ensures CutReads(value, c.(scan := scan))
  {
  }

  lemma {:induction false} CutsRead(value: string, n: nat)
    requires n <= |value|
    ensures CutReads(value, CutTo(value, n))
  {
    if n == 0 {
      assert value[..0] == "";
    } else {
      CutsRead(value, n - 1);
      var c := CutTo(value, n - 1);
      if !c.scan.quoted && c.scan.depth == 0 && value[n - 1] == ',' {
        CutScan(value, n - 1);
        LexMeansClosed(START, value[..n - 1]);
        CutNow(value, c, n - 1);
      } else {
        CutGoesOn(value, c, Step(c.scan, value[n - 1]));
      }
    }
  }

  /** The tokens of parts with commas between them. */
  function CommaJoined(parts: seq<string>): seq<Token>
    requires AllLex(parts) && parts != []
  {
    CommaEnded(parts[..|parts| - 1]) + Lex(parts[|parts| - 1]).value
  }

  /** The arguments of a readable text are readable and make it up, with commas between them. */
  lemma ArgumentsRead(value: string)
    requires Lex(value).Some?
    ensures AllLex(Arguments(value)) && Lex(value).value == CommaJoined(Arguments(value))
  {
    var c := CutTo(value, |value|);
    CutsRead(value, |value|);
    assert value[..|value|] == value && value[c.start..|value|] == value[c.start..];
    PartReads(value, c, |value|);
    CommaEndedMore(c.parts, Strip(value[c.start..]));
    assert Arguments(value)[..|c.parts|] == c.parts;
  }

  // ----- well-placed brackets and commas -----------------------------------------------------------

  predicate StartOk(t: Token) {
    !IsCloser(t) && !IsComma(t) && t != Mark('(')
  }

  predicate EndOk(t: Token) {
    !IsOpener(t) && !IsComma(t)
  }

  predicate Adjacent(a: Token, b: Token) {
    && (IsOpener(a) || IsComma(a) ==> StartOk(b))
    && (IsCloser(b) || IsComma(b) ==> EndOk(a))
    && (b == Mark('(') ==> a.Word?)
  }

  /** No empty brackets or arguments, and a parenthesis only after a name. */
  predicate Proper(ts: seq<Token>) {
    && ts != [] && StartOk(ts[0]) && EndOk(ts[|ts| - 1])
    && forall i | 0 <= i < |ts| - 1 :: Adjacent(ts[i], ts[i + 1])
  }

  lemma ProperPart(ts: seq<Token>, i: nat, j: nat)
    requires Proper(ts) && i < j <= |ts| && StartOk(ts[i]) && EndOk(ts[j - 1])
    ensures Proper(ts[i..j])
  {
    forall k | 0 <= k < j - i - 1 ensures Adjacent(ts[i..j][k], ts[i..j][k + 1]) {
      assert Adjacent(ts[i + k], ts[i + k + 1]);
    }
  }

  lemma ProperSplit(a: seq<Token>, b: seq<Token>)
    requires Proper(a + [Mark(',')] + b)
    ensures Proper(a) && Proper(b)
  {
    var ts, n := a + [Mark(',')] + b, |a|;
    assert ts[n] == Mark(',');
    assert 0 < n < |ts| - 1;
    assert Adjacent(ts[n - 1], ts[n - 1 + 1]) && Adjacent(ts[n], ts[n + 1]);
    ProperPart(ts, 0, n);
    ProperPart(ts, n + 1, |ts|);
    assert ts[0..n] == a && ts[n + 1..|ts|] == b;
  }

  predicate AllProper(parts: seq<string>)
    requires AllLex(parts)
  {
    forall i | 0 <= i < |parts| :: Proper(Lex(parts[i]).value)
  }

  lemma {:induction false} PartsProper(parts: seq<string>)
    requires parts != [] && AllLex(parts) && Proper(CommaJoined(parts))
    ensures AllProper(parts)
  {
    var init := parts[..|parts| - 1];
    var last := Lex(parts[|parts| - 1]).value;
    if init != [] {
      assert CommaEnded(init) + last == CommaJoined(init) + [Mark(',')] + last;
      ProperSplit(CommaJoined(init), last);
      PartsProper(init);
      forall i | 0 <= i < |parts| ensures Proper(Lex(parts[i]).value) {
        assert i < |init| ==> parts[i] == init[i];
      }
    } else {
      assert CommaEnded(init) + last == last;
    }
  }

  /** Between the first opening bracket and the last closing one. */
  lemma ProperBody(head: seq<Token>, body: seq<Token>, closer: Token)
    requires head != [] && IsOpener(head[|head| - 1]) && IsCloser(closer)
    requires Proper(head + body + [closer])
    ensures Proper(body)
  {
    var ts, n := head + body + [closer], |head|;
    assert ts[n - 1] == head[n - 1] && ts[|ts| - 1] == closer;
    assert Adjacent(ts[n - 1], ts[n - 1 + 1]);
    assert body != [];
    assert Adjacent(ts[|ts| - 2], ts[|ts| - 2 + 1]);
    ProperPart(ts, n, |ts| - 1);
    assert ts[n..|ts| - 1] == body;
  }

  lemma ProperHead(head: seq<Token>, rest: seq<Token>)
    requires head != [] && Proper(head + rest)
    ensures !Wraps(head) && DropCommas(head) == head && StartOk(head[0])
  {
    var ts := head + rest;
    forall i | 0 <= i < |head| - 1 ensures Adjacent(head[i], head[i + 1]) {
      assert Adjacent(ts[i], ts[i + 1]);
    }
    assert head[0] == ts[0];
    if |head| > 1 {
      assert Adjacent(head[|head| - 2], head[|head| - 2 + 1]);
    }
    forall i | 0 <= i < |head| - 1 ensures !(IsComma(head[i]) && IsCloser(head[i + 1])) {
      assert Adjacent(head[i], head[i + 1]);
    }
    NothingDropped(head);
  }

  // ----- trailing commas -----------------------------------------------------------------------------

  lemma {:induction false} NothingDropped(ts: seq<Token>)
    requires forall i | 0 <= i < |ts| - 1 :: !(IsComma(ts[i]) && IsCloser(ts[i + 1]))
    ensures DropCommas(ts) == ts
  {
    if ts != [] {
      forall i | 0 <= i < |ts| - 2 ensures !(IsComma(ts[1..][i]) && IsCloser(ts[1..][i + 1])) {
        assert !(IsComma(ts[i + 1]) && IsCloser(ts[i + 2]));
      }
      NothingDropped(ts[1..]);
      assert |ts| > 1 ==> !(IsComma(ts[0]) && IsCloser(ts[0 + 1]));
    }
  }

  lemma ProperKept(ts: seq<Token>)
    requires Proper(ts)
    ensures DropCommas(ts) == ts && !Wraps(ts)
  {
    forall i | 0 <= i < |ts| - 1 ensures !(IsComma(ts[i]) && IsCloser(ts[i + 1])) {
      assert Adjacent(ts[i], ts[i + 1]);
    }
    NothingDropped(ts);
  }

  function Kept(t: Token, rest: seq<Token>): seq<Token> {
    if rest != [] && IsComma(t) && IsCloser(rest[0]) then [] else [t]
  }

  lemma DropStep(t: Token, rest: seq<Token>)
    ensures DropCommas([t] + rest) == Kept(t, rest) + DropCommas(rest)
  {
    assert ([t] + rest)[1..] == rest;
  }

  lemma AppendStep(drop: seq<Token> -> seq<Token>, first: seq<Token>, kept: seq<Token>, rest: seq<Token>, b: seq<Token>)
    requires drop(first + rest) == kept + drop(rest)
    requires drop(first + (rest + b)) == kept + drop(rest + b)
    requires drop(rest + b) == drop(rest) + drop(b)
    ensures drop(first + rest + b) == drop(first + rest) + drop(b)
  {
    assert first + rest + b == first + (rest + b);
    assert kept + (drop(rest) + drop(b)) == kept + drop(rest) + drop(b);
  }

  lemma {:induction false} DropAppend(a: seq<Token>, b: seq<Token>)
    requires a == [] || b == [] || !IsComma(a[|a| - 1]) || !IsCloser(b[0])
    ensures DropCommas(a + b) == DropCommas(a) + DropCommas(b)
    decreases |a|
  {
    if a == [] {
      assert a + b == b;
    } else {
      var rest := a[1..];
      DropAppend(rest, b);
      DropStep(a[0], rest);
      DropStep(a[0], rest + b);
      assert rest != [] ==> (rest + b)[0] == rest[0] && rest[|rest| - 1] == a[|a| - 1];
      assert Kept(a[0], rest + b) == Kept(a[0], rest);
      assert [a[0]] + rest == a;
      AppendStep(DropCommas, [a[0]], Kept(a[0], rest), rest, b);
    }
  }

  lemma DropTrailing(a: seq<Token>, b: seq<Token>)
    requires b != [] && IsCloser(b[0])
    ensures DropCommas(a + [Mark(',')] + b) == DropCommas(a) + DropCommas(b)
  {
    var rest := [Mark(',')] + b;
    assert a + [Mark(',')] + b == a + rest;
    DropAppend(a, rest);
    DropStep(Mark(','), b);
  }

  lemma DropFinal(a: seq<Token>)
    ensures DropCommas(a + [Mark(',')]) == DropCommas(a) + [Mark(',')]
  {
    DropAppend(a, [Mark(',')]);
    assert DropCommas([Mark(',')]) == [Mark(',')];
  }

  lemma Cancel<T>(a: seq<T>, b: seq<T>, t: T)
    requires a + [t] == b + [t]
    ensures a == b
  {
    assert a == (a + [t])[..|a + [t]| - 1] && b == (b + [t])[..|b + [t]| - 1];
  }

  lemma CloseTrailing(init: seq<Token>, body: seq<Token>, tail: seq<Token>)
    requires tail != [] && IsCloser(tail[0])
    requires DropCommas(init + [Mark(',')]) == body + [Mark(',')]
    ensures DropCommas(init + [Mark(',')] + tail) == body + DropCommas(tail)
  {
    DropFinal(init);
    Cancel(DropCommas(init), body, Mark(','));
    DropTrailing(init, tail);
  }

  lemma CloseBody(m: seq<Token>, body: seq<Token>, tail: seq<Token>)
    requires m != [] && tail != [] && IsCloser(tail[0])
    requires DropCommas(m) == if IsComma(m[|m| - 1]) then body + [Mark(',')] else body
    ensures DropCommas(m + tail) == body + DropCommas(tail)
  {
    if IsComma(m[|m| - 1]) {
      var init := m[..|m| - 1];
      assert m == init + [Mark(',')];
      CloseTrailing(init, body, tail);
    } else {
      DropAppend(m, tail);
    }
  }

  // ----- one layout -----------------------------------------------------------------------------------

  /** What stands before an expression: blanks, or a name and a sign. */
  predicate PrefixOk(prefix: string) {
    && Lex(prefix).Some? && (prefix != "" ==> prefix[|prefix| - 1] == ' ')
    && var ts := Lex(prefix).value;
       (ts != [] ==> !ts[|ts| - 1].Word?) && forall i | 0 <= i < |ts| :: !IsComma(ts[i])
  }

  predicate SuffixOk(suffix: string) {
    suffix == "" || suffix == ","
  }

  function SuffixTokens(suffix: string): seq<Token> {
    if suffix == "" then [] else [Mark(',')]
  }

  lemma LexSuffix(s: string, suffix: string)
    requires Lex(s).Some? && SuffixOk(suffix)
    ensures Lex(s + suffix) == Some(Lex(s).value + SuffixTokens(suffix))
  {
    if suffix == "" {
      assert s + suffix == s;
      assert Lex(s).value + [] == Lex(s).value;
    } else {
      AppendComma(s);
    }
  }

  lemma LexPrefix(prefix: string, s: string)
    requires PrefixOk(prefix)
    ensures Lex(prefix + s) == Then(Lex(prefix).value, Lex(s))
  {
    LexAppend(prefix, s);
  }

  lemma {:induction false} LexSpaces(n: nat)
    ensures Lex(Spaces(n)) == Some([])
  {
    if n > 0 {
      assert Spaces(n)[1..] == Spaces(n - 1);
      LexSpaces(n - 1);
    }
  }

  lemma SpacesOk(n: nat)
    ensures PrefixOk(Spaces(n)) && Lex(Spaces(n)) == Some([])
    ensures PrefixOk(Spaces(n) + "    ") && Lex(Spaces(n) + "    ") == Some([])
  {
    LexSpaces(n);
    LexSpaces(n + 4);
    assert Spaces(n) + "    " == Spaces(n + 4);
  }

  lemma PrefixKept(prefix: string, ts: seq<Token>)
    requires PrefixOk(prefix)
    ensures DropCommas(Lex(prefix).value + ts) == Lex(prefix).value + DropCommas(ts)
  {
    NothingDropped(Lex(prefix).value);
    DropAppend(Lex(prefix).value, ts);
  }

  /** `x` reads as the expression between its prefix and its suffix. */
  ghost predicate Reads(x: seq<Token>, prefix: string, expression: string, suffix: string)
    requires Lex(prefix).Some? && Lex(expression).Some?
  {
    && x != [] && DropCommas(x) == Lex(prefix).value + Lex(expression).value + SuffixTokens(suffix)
    && (IsComma(x[|x| - 1]) <==> suffix == ",")
    && (Lex(prefix).value == [] ==> StartOk(x[0]))
  }

  predicate Expression(e: string) {
    Lex(e).Some? && Proper(Lex(e).value)
  }

  lemma SuffixRead(prefix: string, e: string, suffix: string)
    requires PrefixOk(prefix) && Expression(e) && SuffixOk(suffix)
    ensures Reads(Lex(prefix).value + Lex(e).value + SuffixTokens(suffix), prefix, e, suffix)
  {
    var ts := Lex(e).value;
    var x := Lex(prefix).value + ts + SuffixTokens(suffix);
    ProperKept(ts);
    DropAppend(ts, SuffixTokens(suffix));
    PrefixKept(prefix, ts + SuffixTokens(suffix));
    assert x == Lex(prefix).value + (ts + SuffixTokens(suffix));
    assert DropCommas(SuffixTokens(suffix)) == SuffixTokens(suffix);
    assert x[|x| - 1] == if suffix == "" then ts[|ts| - 1] else Mark(',');
    assert Lex(prefix).value == [] ==> x[0] == ts[0];
  }

  lemma JoinedLine(line: string, rest: seq<string>)
    requires Lex(line).Some? && !Wraps(Lex(line).value)
    ensures Joined([line] + rest) == Then(Lex(line).value, Joined(rest))
  {
    assert ([line] + rest)[1..] == rest;
  }

  lemma LineReads(prefix: string, e: string, suffix: string, rest: seq<string>)
    requires PrefixOk(prefix) && Expression(e) && SuffixOk(suffix)
    ensures Joined([prefix + e + suffix] + rest) == Then(Lex(prefix).value + Lex(e).value + SuffixTokens(suffix), Joined(rest))
  {
    LexPrefix(prefix, e);
    LexSuffix(prefix + e, suffix);
    var ts := Lex(e).value;
    var x := Lex(prefix).value + ts + SuffixTokens(suffix);
    assert x[|x| - 1] == if suffix == "" then ts[|ts| - 1] else Mark(',');
    JoinedLine(prefix + e + suffix, rest);
  }

  lemma CloserLine(n: nat, closer: char, suffix: string)
    requires (closer == ']' || closer == ')') && SuffixOk(suffix)
    ensures Lex(Spaces(n) + [closer] + suffix) == Some([Mark(closer)] + SuffixTokens(suffix))
  {
    SpacesOk(n);
    LexMark(closer);
    LexPrefix(Spaces(n), [closer]);
    LexSuffix(Spaces(n) + [closer], suffix);
    assert [] + [Mark(closer)] == [Mark(closer)];
  }

  lemma JoinedWrap(first: string, second: string, third: string, rest: seq<string>)
    requires Lex(first).Some? && Wraps(Lex(first).value)
    requires Lex(second).Some? && Lex(third).Some? && Lex(third).value != [] && Lex(third).value[0] == Mark(')')
    ensures Joined([first, second, third] + rest) ==
      if IsKeyword(Lex(second).value) then None
      else Then(Lex(first).value[..|Lex(first).value| - 1] + Lex(second).value + Lex(third).value[1..], Joined(rest))
  {
    var lines := [first, second, third] + rest;
    assert lines[0] == first && lines[1] == second && lines[2] == third && lines[3..] == rest;
  }

  lemma WrapReads(prefix: string, n: nat, e: string, suffix: string, rest: seq<string>)
    requires PrefixOk(prefix) && Expression(e) && SuffixOk(suffix)
    ensures Joined([prefix + "(", Spaces(n) + "    " + e, Spaces(n) + ")" + suffix] + rest) ==
      if IsKeyword(Lex(e).value) then None
      else Then(Lex(prefix).value + Lex(e).value + SuffixTokens(suffix), Joined(rest))
  {
    LexMark('(');
    LexPrefix(prefix, "(");
    SpacesOk(n);
    LexPrefix(Spaces(n) + "    ", e);
    ThenNothing(Lex(e));
    CloserLine(n, ')', suffix);
    var line := Lex(prefix).value + [Mark('(')];
    assert line[..|line| - 1] == Lex(prefix).value;
    assert ([Mark(')')] + SuffixTokens(suffix))[1..] == SuffixTokens(suffix);
    JoinedWrap(prefix + "(", Spaces(n) + "    " + e, Spaces(n) + ")" + suffix, rest);
  }

  // ----- the first bracket ---------------------------------------------------------------------------

  lemma LexBody(head: string, body: string, closer: char)
    requires Lex(head).Some? && head != "" && IsOpening(head[|head| - 1]) && (closer == ']' || closer == ')')
    requires Lex(head + body + [closer]).Some?
    ensures Lex(body).Some?
    ensures Lex(head + body + [closer]).value == Lex(head).value + Lex(body).value + [Mark(closer)]
    ensures Lex(head).value != [] && IsOpener(Lex(head).value[|Lex(head).value| - 1])
  {
    var end := body + [closer];
    assert head + body + [closer] == head + end;
    LexAppend(head, end);
    assert end[..|end| - 1] == body;
    LexInit(end);
    LexMark(closer);
    LexAppend(body, [closer]);
    assert Lex(head).value + (Lex(body).value + [Mark(closer)]) == Lex(head).value + Lex(body).value + [Mark(closer)];
    var init, opener := head[..|head| - 1], head[|head| - 1];
    LexInit(head);
    LexMark(opener);
    LexAppend(init, [opener]);
    assert head == init + [opener];
  }

  /** Tokens around a body in brackets. */
  predicate Around(ts: seq<Token>, head: seq<Token>, body: seq<Token>, closer: Token) {
    && ts == head + body + [closer] && head != [] && IsOpener(head[|head| - 1]) && IsCloser(closer)
    && Proper(body) && !Wraps(head) && DropCommas(head) == head && StartOk(head[0])
  }

  lemma ProperAround(head: seq<Token>, body: seq<Token>, closer: Token)
    requires head != [] && IsOpener(head[|head| - 1]) && IsCloser(closer)
    requires Proper(head + body + [closer])
    ensures Around(head + body + [closer], head, body, closer)
  {
    ProperBody(head, body, closer);
    assert head + body + [closer] == head + (body + [closer]);
    ProperHead(head, body + [closer]);
  }

  lemma UnbracketedLex(e: string)
    requires Lex(e).Some? && FirstOpening(e).Some? && Unbracket(e).Some? && Lex(Unbracket(e).value.head).Some?
    ensures var parts := Unbracket(e).value; var head := Lex(parts.head).value;
      && (parts.closer == "]" || parts.closer == ")") && Lex(parts.body).Some?
      && Lex(e).value == head + Lex(parts.body).value + [Mark(parts.closer[0])]
      && head != [] && IsOpener(head[|head| - 1])
  {
    var parts := Unbracket(e).value;
    assert parts.head[|parts.head| - 1] == e[FirstOpening(e).value];
    assert parts.closer == [parts.closer[0]];
    LexBody(parts.head, parts.body, parts.closer[0]);
  }

  /** An expression whose first bracket stands outside quotes is read as its three parts. */
  lemma Unbracketed(e: string)
    requires Expression(e) && FirstOpening(e).Some? && Unbracket(e).Some? && Lex(Unbracket(e).value.head).Some?
    ensures Lex(Unbracket(e).value.body).Some? && Unbracket(e).value.closer != ""
    ensures var parts := Unbracket(e).value;
      Around(Lex(e).value, Lex(parts.head).value, Lex(parts.body).value, Mark(parts.closer[0]))
  {
    UnbracketedLex(e);
    var parts := Unbracket(e).value;
    ProperAround(Lex(parts.head).value, Lex(parts.body).value, Mark(parts.closer[0]));
  }

  lemma WrapsPrefixed(a: seq<Token>, line: seq<Token>)
    requires line != [] && !Wraps(line) && (a == [] || |line| > 1 || line[0] != Mark('('))
    ensures !Wraps(a + line)
  {
    var ts := a + line;
    assert ts[|ts| - 1] == line[|line| - 1];
    assert |line| > 1 ==> ts[|ts| - 2] == line[|line| - 2];
  }

  lemma HeadLine(prefix: string, e: string, rest: seq<string>)
    requires PrefixOk(prefix) && Expression(e) && FirstOpening(e).Some? && Unbracket(e).Some?
    ensures var head := Unbracket(e).value.head;
      Joined([prefix + head] + rest) ==
        if Lex(head).None? then None else Then(Lex(prefix).value + Lex(head).value, Joined(rest))
  {
    var head := Unbracket(e).value.head;
    LexPrefix(prefix, head);
    if Lex(head).Some? {
      Unbracketed(e);
      WrapsPrefixed(Lex(prefix).value, Lex(head).value);
      JoinedLine(prefix + head, rest);
    } else {
      assert ([prefix + head] + rest)[0] == prefix + head;
    }
  }

  /** The tokens of the lines between the brackets, up to one trailing comma. */
  predicate ReadsBody(m: seq<Token>, body: seq<Token>) {
    m != [] && DropCommas(m) == if IsComma(m[|m| - 1]) then body + [Mark(',')] else body
  }

  lemma BracketTokens(drop: seq<Token> -> seq<Token>, pt: seq<Token>, head: seq<Token>, m: seq<Token>, body: seq<Token>, tail: seq<Token>)
    requires drop(pt + (head + (m + tail))) == pt + drop(head + (m + tail))
    requires drop(head + (m + tail)) == head + drop(m + tail)
    requires drop(m + tail) == body + tail
    ensures drop(pt + head + m + tail) == pt + (head + body + tail)
  {
    assert pt + (head + (m + tail)) == pt + head + m + tail;
    assert pt + (head + (body + tail)) == pt + (head + body + tail);
  }

  lemma BracketDrop(prefix: string, ts: seq<Token>, head: seq<Token>, m: seq<Token>, body: seq<Token>, closer: Token, suffix: string)
    requires PrefixOk(prefix) && SuffixOk(suffix) && Around(ts, head, body, closer) && ReadsBody(m, body)
    ensures DropCommas(Lex(prefix).value + head + m + ([closer] + SuffixTokens(suffix))) == Lex(prefix).value + ts + SuffixTokens(suffix)
  {
    var pt, tail := Lex(prefix).value, [closer] + SuffixTokens(suffix);
    NothingDropped(tail);
    CloseBody(m, body, tail);
    DropAppend(head, m + tail);
    PrefixKept(prefix, head + (m + tail));
    BracketTokens(DropCommas, pt, head, m, body, tail);
    assert pt + (head + body + tail) == pt + ts + SuffixTokens(suffix);
  }

  lemma BracketReads(prefix: string, e: string, suffix: string, m: seq<Token>, x: seq<Token>)
    requires PrefixOk(prefix) && Expression(e) && SuffixOk(suffix) && FirstOpening(e).Some? && Unbracket(e).Some?
    requires Lex(Unbracket(e).value.head).Some? && Lex(Unbracket(e).value.body).Some? && ReadsBody(m, Lex(Unbracket(e).value.body).value)
    requires x == Lex(prefix).value + Lex(Unbracket(e).value.head).value + m + ([Mark(Unbracket(e).value.closer[0])] + SuffixTokens(suffix))
    ensures Reads(x, prefix, e, suffix)
  {
    Unbracketed(e);
    var parts := Unbracket(e).value;
    BracketDrop(prefix, Lex(e).value, Lex(parts.head).value, m, Lex(parts.body).value, Mark(parts.closer[0]), suffix);
    assert Lex(prefix).value == [] ==> x[0] == Lex(parts.head).value[0];
    assert x[|x| - 1] == ([Mark(parts.closer[0])] + SuffixTokens(suffix))[|SuffixTokens(suffix)|];
  }

  // ----- the whole layout -------------------------------------------------------------------------------

  /** The tokens of all arguments, each with its suffix. */
  function AllTokens(arguments: seq<string>, suffix: string): seq<Token>
    requires AllLex(arguments)
  {
    if arguments == [] then []
    else Lex(arguments[0]).value + SuffixTokens(suffix) + AllTokens(arguments[1..], suffix)
  }

  lemma Regroup<T>(a: seq<T>, b: seq<T>, c: seq<T>, d: seq<T>)
    ensures a + b + c + d == a + (b + c + d)
  {
  }

  lemma {:induction false} CommaEndedFront(parts: seq<string>)
    requires AllLex(parts) && parts != []
    ensures CommaEnded(parts) == Lex(parts[0]).value + [Mark(',')] + CommaEnded(parts[1..])
  {
    var init, last := parts[..|parts| - 1], parts[|parts| - 1];
    if init == [] {
      assert parts[1..] == [];
    } else {
      CommaEndedFront(init);
      assert parts[1..] == init[1..] + [last];
      CommaEndedMore(init[1..], last);
      assert init + [last] == parts;
      CommaEndedMore(init, last);
      assert parts[0] == init[0];
      Regroup(Lex(parts[0]).value + [Mark(',')], CommaEnded(init[1..]), Lex(last).value, [Mark(',')]);
    }
  }

  lemma {:induction false} AllTokensCommas(parts: seq<string>)
    requires AllLex(parts)
    ensures AllTokens(parts, ",") == CommaEnded(parts)
  {
    if parts != [] {
      AllTokensCommas(parts[1..]);
      CommaEndedFront(parts);
    }
  }

  predicate ReadsAll(x: seq<Token>, arguments: seq<string>, suffix: string)
    requires AllLex(arguments)
  {
    && DropCommas(x) == AllTokens(arguments, suffix)
    && (x == [] <==> arguments == [])
    && (x != [] ==> StartOk(x[0]) && (IsComma(x[|x| - 1]) <==> suffix == ","))
  }

  lemma ReadsMore(x: seq<Token>, y: seq<Token>, indent: string, arguments: seq<string>, suffix: string)
    requires arguments != [] && AllLex(arguments) && Lex(indent) == Some([])
    requires Reads(x, indent, arguments[0], suffix) && ReadsAll(y, arguments[1..], suffix)
    ensures ReadsAll(x + y, arguments, suffix)
  {
    DropAppend(x, y);
    assert [] + Lex(arguments[0]).value == Lex(arguments[0]).value;
    assert (x + y)[0] == x[0];
    assert y != [] ==> (x + y)[|x + y| - 1] == y[|y| - 1];
    assert y == [] ==> x + y == x;
  }

  /** Arguments that read as the pieces of a body make it up. */
  lemma ArgumentsBody(x: seq<Token>, body: string)
    requires Expression(body) && AllLex(Arguments(body))
    requires ReadsAll(x, Arguments(body), if |Arguments(body)| > 1 then "," else "")
    ensures ReadsBody(x, Lex(body).value)
  {
    var parts := Arguments(body);
    ArgumentsRead(body);
    if |parts| > 1 {
      AllTokensCommas(parts);
      assert CommaEnded(parts) == CommaJoined(parts) + [Mark(',')];
    } else {
      assert parts == [parts[0]];
      assert AllTokens(parts, "") == Lex(parts[0]).value + [] + AllTokens(parts[1..], "");
      assert CommaJoined(parts) == [] + Lex(parts[0]).value;
    }
  }

  /** Three groups of lines read one after the other. */
  lemma JoinedThree(head: string, middle: seq<string>, tail: string, rest: seq<string>, h: seq<Token>, m: seq<Token>, t: seq<Token>)
    requires Joined([head] + (middle + ([tail] + rest))) == Then(h, Joined(middle + ([tail] + rest)))
    requires Joined(middle + ([tail] + rest)) == Then(m, Joined([tail] + rest))
    requires Joined([tail] + rest) == Then(t, Joined(rest))
    ensures Joined([head] + middle + [tail] + rest) == Then(h + m + t, Joined(rest))
  {
    assert [head] + middle + [tail] + rest == [head] + (middle + ([tail] + rest));
    ThenThen(m, t, Joined(rest));
    ThenThen(h, m + t, Joined(rest));
    assert h + (m + t) == h + m + t;
  }

  /** The lines between the brackets. */
  function Middle(prefix: string, expression: string): Option<seq<string>>
    requires FirstOpening(expression).Some? && Unbracket(expression).Some?
  {
    var inner := Spaces(LeadingSpaces(prefix)) + "    ";
    var body := Unbracket(expression).value.body;
    if |inner| + |body| <= WIDTH then Some([inner + body])
    else
      var arguments := Arguments(body);
      LayoutAll(inner, arguments, if |arguments| > 1 then "," else "", |expression|)
  }

  predicate MiddleTidy(prefix: string, expression: string)
    requires FirstOpening(expression).Some? && Unbracket(expression).Some?
  {
    var inner := Spaces(LeadingSpaces(prefix)) + "    ";
    var body := Unbracket(expression).value.body;
    |inner| + |body| <= WIDTH ||
      var arguments := Arguments(body);
      AllTidy(inner, arguments, if |arguments| > 1 then "," else "", |expression|)
  }

  ghost predicate LayoutReading(prefix: string, e: string, suffix: string, rest: seq<string>, x: seq<Token>)
    requires Lex(prefix).Some? && Lex(e).Some? && Layout(prefix, e, suffix).Some?
  {
    var joined := Joined(Layout(prefix, e, suffix).value + rest);
    if Tidy(prefix, e, suffix) then joined == Then(x, Joined(rest)) && Reads(x, prefix, e, suffix) else joined == None
  }

  lemma LayoutReads(prefix: string, e: string, suffix: string, rest: seq<string>) returns (x: seq<Token>)
    requires PrefixOk(prefix) && Expression(e) && SuffixOk(suffix) && Layout(prefix, e, suffix).Some?
    ensures LayoutReading(prefix, e, suffix, rest, x)
    decreases |e|, 3, 0
  {
    x := Lex(prefix).value + Lex(e).value + SuffixTokens(suffix);
    if |prefix| + |e| + |suffix| <= WIDTH {
      LineReads(prefix, e, suffix, rest);
      SuffixRead(prefix, e, suffix);
    } else if FirstOpening(e).None? {
      WrapReads(prefix, LeadingSpaces(prefix), e, suffix, rest);
      SuffixRead(prefix, e, suffix);
    } else {
      LayoutShape(prefix, e, suffix);
      x := BracketLayoutReads(prefix, e, suffix, rest);
    }
  }

  lemma LayoutShape(prefix: string, e: string, suffix: string)
    requires |prefix| + |e| + |suffix| > WIDTH && FirstOpening(e).Some? && Layout(prefix, e, suffix).Some?
    ensures Unbracket(e).Some? && Middle(prefix, e).Some?
    ensures var parts := Unbracket(e).value;
      Layout(prefix, e, suffix).value
        == [prefix + parts.head] + Middle(prefix, e).value + [Spaces(LeadingSpaces(prefix)) + parts.closer + suffix]
    ensures Tidy(prefix, e, suffix) <==> Lex(Unbracket(e).value.head).Some? && MiddleTidy(prefix, e)
  {
  }

  /** The line with the closing bracket. */
  lemma TailLine(prefix: string, e: string, suffix: string, rest: seq<string>)
    requires Expression(e) && SuffixOk(suffix) && FirstOpening(e).Some? && Unbracket(e).Some? && Lex(Unbracket(e).value.head).Some?
    ensures Unbracket(e).value.closer != ""
    ensures Joined([Spaces(LeadingSpaces(prefix)) + Unbracket(e).value.closer + suffix] + rest)
      == Then([Mark(Unbracket(e).value.closer[0])] + SuffixTokens(suffix), Joined(rest))
  {
    UnbracketedLex(e);
    var closer := Unbracket(e).value.closer;
    assert closer == [closer[0]];
    CloserLine(LeadingSpaces(prefix), closer[0], suffix);
    JoinedLine(Spaces(LeadingSpaces(prefix)) + closer + suffix, rest);
  }

  lemma BracketLayoutReads(prefix: string, e: string, suffix: string, rest: seq<string>) returns (x: seq<Token>)
    requires PrefixOk(prefix) && Expression(e) && SuffixOk(suffix) && FirstOpening(e).Some?
    requires Unbracket(e).Some? && Middle(prefix, e).Some?
    ensures var joined := Joined([prefix + Unbracket(e).value.head] + Middle(prefix, e).value
        + [Spaces(LeadingSpaces(prefix)) + Unbracket(e).value.closer + suffix] + rest);
      if Lex(Unbracket(e).value.head).Some? && MiddleTidy(prefix, e)
      then joined == Then(x, Joined(rest)) && Reads(x, prefix, e, suffix) else joined == None
    decreases |e|, 2, 0
  {
    var head := Unbracket(e).value.head;
    var middle := Middle(prefix, e).value;
    var tail := Spaces(LeadingSpaces(prefix)) + Unbracket(e).value.closer + suffix;
    HeadLine(prefix, e, middle + ([tail] + rest));
    assert [prefix + head] + middle + [tail] + rest == [prefix + head] + (middle + ([tail] + rest));
    x := [];
    if Lex(head).Some? {
      UnbracketedBody(e);
      var m := MiddleReads(prefix, e, [tail] + rest);
      if MiddleTidy(prefix, e) {
        x := Assembled(prefix, e, suffix, rest, middle, tail, m);
      }
    }
  }

  lemma UnbracketedBody(e: string)
    requires Expression(e) && FirstOpening(e).Some? && Unbracket(e).Some? && Lex(Unbracket(e).value.head).Some?
    ensures Expression(Unbracket(e).value.body)
  {
    Unbracketed(e);
  }

  lemma Assembled(prefix: string, e: string, suffix: string, rest: seq<string>, middle: seq<string>, tail: string, m: seq<Token>)
    returns (x: seq<Token>)
    requires PrefixOk(prefix) && Expression(e) && SuffixOk(suffix) && FirstOpening(e).Some? && Unbracket(e).Some?
    requires Lex(Unbracket(e).value.head).Some? && Expression(Unbracket(e).value.body)
    requires tail == Spaces(LeadingSpaces(prefix)) + Unbracket(e).value.closer + suffix
    requires Joined(middle + ([tail] + rest)) == Then(m, Joined([tail] + rest)) && ReadsBody(m, Lex(Unbracket(e).value.body).value)
    ensures Joined([prefix + Unbracket(e).value.head] + middle + [tail] + rest) == Then(x, Joined(rest)) && Reads(x, prefix, e, suffix)
  {
    var parts := Unbracket(e).value;
    HeadLine(prefix, e, middle + ([tail] + rest));
    TailLine(prefix, e, suffix, rest);
    var t := [Mark(parts.closer[0])] + SuffixTokens(suffix);
    x := Lex(prefix).value + Lex(parts.head).value + m + t;
    JoinedThree(prefix + parts.head, middle, tail, rest, Lex(prefix).value + Lex(parts.head).value, m, t);
    BracketReads(prefix, e, suffix, m, x);
  }

  lemma BodyLine(indent: string, body: string, rest: seq<string>)
    requires PrefixOk(indent) && Lex(indent) == Some([]) && Expression(body)
    ensures Joined([indent + body] + rest) == Then(Lex(body).value, Joined(rest)) && ReadsBody(Lex(body).value, Lex(body).value)
  {
    LexPrefix(indent, body);
    ThenNothing(Lex(body));
    ProperKept(Lex(body).value);
    JoinedLine(indent + body, rest);
  }

  lemma MiddleReads(prefix: string, e: string, rest: seq<string>) returns (m: seq<Token>)
    requires FirstOpening(e).Some? && Unbracket(e).Some? && Middle(prefix, e).Some? && Expression(Unbracket(e).value.body)
    ensures MiddleTidy(prefix, e) ==>
      Joined(Middle(prefix, e).value + rest) == Then(m, Joined(rest)) && ReadsBody(m, Lex(Unbracket(e).value.body).value)
    ensures !MiddleTidy(prefix, e) ==> Joined(Middle(prefix, e).value + rest) == None
    decreases |e|, 1, 0
  {
    var inner := Spaces(LeadingSpaces(prefix)) + "    ";
    var body := Unbracket(e).value.body;
    SpacesOk(LeadingSpaces(prefix));
    if |inner| + |body| <= WIDTH {
      m := Lex(body).value;
      BodyLine(inner, body, rest);
    } else {
      ArgumentsRead(body);
      var arguments := Arguments(body);
      PartsProper(arguments);
      var suffix := if |arguments| > 1 then "," else "";
      m := LayoutAllReads(inner, arguments, suffix, |e|, rest);
      if AllTidy(inner, arguments, suffix, |e|) {
        ArgumentsBody(m, body);
      }
    }
  }

  lemma LayoutAllReads(indent: string, arguments: seq<string>, suffix: string, bound: nat, rest: seq<string>) returns (x: seq<Token>)
    requires forall i | 0 <= i < |arguments| :: |arguments[i]| < bound
    requires PrefixOk(indent) && Lex(indent) == Some([]) && SuffixOk(suffix) && AllLex(arguments) && AllProper(arguments)
    requires LayoutAll(indent, arguments, suffix, bound).Some?
    ensures AllTidy(indent, arguments, suffix, bound) ==>
      Joined(LayoutAll(indent, arguments, suffix, bound).value + rest) == Then(x, Joined(rest)) && ReadsAll(x, arguments, suffix)
    ensures !AllTidy(indent, arguments, suffix, bound) ==> Joined(LayoutAll(indent, arguments, suffix, bound).value + rest) == None
    decreases bound, 0, |arguments|
  {
    x := [];
    if arguments == [] {
      assert [] + rest == rest;
      ThenNothing(Joined(rest));
    } else {
      var first := Layout(indent, arguments[0], suffix).value;
      var others := LayoutAll(indent, arguments[1..], suffix, bound).value;
      var y := LayoutReads(indent, arguments[0], suffix, others + rest);
      var z := LayoutAllReads(indent, arguments[1..], suffix, bound, rest);
      assert first + others + rest == first + (others + rest);
      x := y + z;
      ThenThen(y, z, Joined(rest));
      if Tidy(indent, arguments[0], suffix) && AllTidy(indent, arguments[1..], suffix, bound) {
        ReadsMore(y, z, indent, arguments, suffix);
      }
    }
  }

  /** Undoing a layout restores the annotation exactly when the layout is tidy, and fails otherwise. */
  lemma LayoutRestores(prefix: string, annotation: string)
    requires PrefixOk(prefix) && Expression(annotation) && Layout(prefix, annotation, "").Some?
    ensures Undo(Layout(prefix, annotation, "").value) ==
      if Tidy(prefix, annotation, "") then Lex(prefix + annotation) else None
  {
    var lines := Layout(prefix, annotation, "").value;
    var x := LayoutReads(prefix, annotation, "", []);
    assert lines + [] == lines;
    assert x + [] == x;
    LexPrefix(prefix, annotation);
    assert Lex(prefix).value + Lex(annotation).value + [] == Lex(prefix).value + Lex(annotation).value;
  }
}
