/** The tokens of the generated annotations, as Python's tokenizer sees them between brackets. */
module UsageLexer {
  import opened Wrappers

  /** `Quote` is a string literal without its quotes. */
  datatype Token = Word(word: string) | Quote(raw: string) | Mark(mark: char)

  predicate IsWordChar(c: char) {
    'a' <= c <= 'z' || 'A' <= c <= 'Z' || '0' <= c <= '9' || c == '_'
  }

  /** The length of a string literal's content that starts the text. */
  function QuoteLength(s: string): (n: Option<nat>)
    ensures n.Some? ==> n.value < |s| && s[n.value] == '"'
  {
    if s == "" then None
    else if s[0] == '"' then Some(0)
    else
      var step := if s[0] == '\\' then 2 else 1;
      if |s| < step then None
      else
        var n := QuoteLength(s[step..]);
        if n.None? then None else Some(n.value + step)
  }

  function WordLength(s: string): (n: nat)
    ensures n <= |s|
    ensures forall i | 0 <= i < n :: IsWordChar(s[i])
    ensures n < |s| ==> !IsWordChar(s[n])
  {
    if s == "" || !IsWordChar(s[0]) then 0 else 1 + WordLength(s[1..])
  }

  /** The first token and what follows it; `None` for a literal without end. */
  function First(s: string): (r: Option<(Token, string)>)
    requires s != ""
    ensures r.Some? ==> |r.value.1| < |s| && r.value.1 == s[|s| - |r.value.1|..]
  {
    if s[0] == '"' then
      var n := QuoteLength(s[1..]);
      if n.None? then None else Some((Quote(s[1..n.value + 1]), s[n.value + 2..]))
    else if IsWordChar(s[0]) then
      var n := WordLength(s);
      Some((Word(s[..n]), s[n..]))
    else Some((Mark(s[0]), s[1..]))
  }

  function Lex(s: string): Option<seq<Token>>
    decreases |s|
  {
    if s == "" then Some([])
    else if s[0] == ' ' then Lex(s[1..])
    else if First(s).None? then None
    else Then([First(s).value.0], Lex(First(s).value.1))
  }

  function Then(first: seq<Token>, rest: Option<seq<Token>>): Option<seq<Token>> {
    if rest.None? then None else Some(first + rest.value)
  }

  lemma ThenThen(a: seq<Token>, b: seq<Token>, rest: Option<seq<Token>>)
    ensures Then(a, Then(b, rest)) == Then(a + b, rest)
  {
    if rest.Some? {
      assert a + (b + rest.value) == a + b + rest.value;
    }
  }

  /** Two texts do not run into each other. */
  predicate Separate(a: string, b: string) {
    a == "" || b == "" || !IsWordChar(a[|a| - 1]) || !IsWordChar(b[0])
  }

  lemma {:induction false} QuoteLengthAppend(a: string, b: string)
    requires QuoteLength(a).Some?
    ensures QuoteLength(a + b) == QuoteLength(a)
  {
    if a[0] != '"' {
      var step := if a[0] == '\\' then 2 else 1;
      assert (a + b)[step..] == a[step..] + b;
      QuoteLengthAppend(a[step..], b);
    }
  }

  lemma {:induction false} WordLengthAppend(a: string, b: string)
    requires a != "" && Separate(a, b)
    ensures WordLength(a + b) == WordLength(a)
  {
    if IsWordChar(a[0]) {
      assert (a + b)[1..] == a[1..] + b;
      if |a| > 1 {
        WordLengthAppend(a[1..], b);
      }
    }
  }

  lemma QuoteAppend(a: string, b: string)
    requires a != "" && a[0] == '"' && First(a).Some?
    ensures First(a + b) == Some((First(a).value.0, First(a).value.1 + b))
  {
    assert (a + b)[1..] == a[1..] + b;
    QuoteLengthAppend(a[1..], b);
    var n := QuoteLength(a[1..]).value;
    assert (a + b)[1..n + 1] == a[1..n + 1] && (a + b)[n + 2..] == a[n + 2..] + b;
  }

  lemma FirstAppend(a: string, b: string)
    requires a != "" && Separate(a, b) && First(a).Some?
    ensures First(a + b) == Some((First(a).value.0, First(a).value.1 + b))
  {
    if a[0] == '"' {
      QuoteAppend(a, b);
    } else if IsWordChar(a[0]) {
      WordLengthAppend(a, b);
      var n := WordLength(a);
      assert (a + b)[..n] == a[..n] && (a + b)[n..] == a[n..] + b;
    } else {
      assert (a + b)[1..] == a[1..] + b;
    }
  }

  lemma ThenNothing(rest: Option<seq<Token>>)
    ensures Then([], rest) == rest
  {
    if rest.Some? {
      assert [] + rest.value == rest.value;
    }
  }

  lemma LexFirst(s: string)
    requires s != "" && s[0] != ' ' && First(s).Some?
    ensures Lex(s) == Then([First(s).value.0], Lex(First(s).value.1))
  {
  }

  lemma RestSeparate(a: string, b: string)
    requires a != "" && Separate(a, b) && First(a).Some?
    ensures Separate(First(a).value.1, b)
  {
    var rest := First(a).value.1;
    if rest != "" && b != "" {
      assert rest[|rest| - 1] == a[|a| - |rest|..][|rest| - 1] == a[|a| - 1];
      assert !IsWordChar(a[|a| - 1]) || !IsWordChar(b[0]);
    }
  }

  /** Texts that do not run into each other are read one after the other. */
  lemma {:induction false} LexAppend(a: string, b: string)
    requires Lex(a).Some? && Separate(a, b)
    ensures Lex(a + b) == Then(Lex(a).value, Lex(b))
    decreases |a|
  {
    if a == "" {
      assert a + b == b;
      ThenNothing(Lex(b));
    } else if a[0] == ' ' {
      assert (a + b)[1..] == a[1..] + b;
      LexAppend(a[1..], b);
    } else {
      FirstAppend(a, b);
      RestSeparate(a, b);
      LexFirst(a + b);
      var rest := First(a).value.1;
      LexAppend(rest, b);
      ThenThen([First(a).value.0], Lex(rest).value, Lex(b));
    }
  }

  lemma LexMark(c: char)
    requires c != '"' && c != ' ' && !IsWordChar(c)
    ensures Lex([c]) == Some([Mark(c)])
  {
    assert [c][1..] == "";
    LexFirst([c]);
    assert [Mark(c)] + [] == [Mark(c)];
  }

  lemma LexSpace()
    ensures Lex(" ") == Some([])
  {
    assert " "[1..] == "";
  }
}
