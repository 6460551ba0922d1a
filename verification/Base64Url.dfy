/**
 Canonical base64url without padding (RFC 4648, sections 5 and 3.5), as strings of ASCII
 characters, and the compact serialization of a proof (RFC 7515, section 7.1).
 */
module Base64Url {
  import opened Wrappers

  /** A byte as its bits, the highest first. */
  datatype byte = Byte(b7: bool, b6: bool, b5: bool, b4: bool, b3: bool, b2: bool, b1: bool, b0: bool)

  /** The six bits that one symbol stands for. */
  datatype sextet = Sextet(s5: bool, s4: bool, s3: bool, s2: bool, s1: bool, s0: bool)

  // ----- symbols --------------------------------------------------------------------

  function Bit(b: bool, weight: nat): nat {
    if b then weight else 0
  }

  function Number(x: sextet): (n: nat)
    ensures n < 64
  {
    Bit(x.s5, 32) + Bit(x.s4, 16) + Bit(x.s3, 8) + Bit(x.s2, 4) + Bit(x.s1, 2) + Bit(x.s0, 1)
  }

  function Bits(n: nat): sextet
    requires n < 64
  {
    var n4 := n - Bit(n >= 32, 32);
    var n3 := n4 - Bit(n4 >= 16, 16);
    var n2 := n3 - Bit(n3 >= 8, 8);
    var n1 := n2 - Bit(n2 >= 4, 4);
    var n0 := n1 - Bit(n1 >= 2, 2);
    Sextet(n >= 32, n4 >= 16, n3 >= 8, n2 >= 4, n1 >= 2, n0 >= 1)
  }

  lemma BitsOfNumber(x: sextet)
    ensures Bits(Number(x)) == x
  {
  }

  lemma NumberOfBits(n: nat)
    requires n < 64
    ensures Number(Bits(n)) == n
  {
  }

  function Letter(n: nat): char
    requires n < 64
  {
    if n < 26 then 'A' + n as char
    else if n < 52 then 'a' + (n - 26) as char
    else if n < 62 then '0' + (n - 52) as char
    else if n == 62 then '-'
    else '_'
  }

  predicate IsSymbol(c: char) {
    'A' <= c <= 'Z' || 'a' <= c <= 'z' || '0' <= c <= '9' || c == '-' || c == '_'
  }

  function Index(c: char): (n: nat)
    requires IsSymbol(c)
    ensures n < 64
  {
    if 'A' <= c <= 'Z' then c as int - 'A' as int
    else if 'a' <= c <= 'z' then c as int - 'a' as int + 26
    else if '0' <= c <= '9' then c as int - '0' as int + 52
    else if c == '-' then 62
    else 63
  }

  lemma LetterOfIndex(c: char)
    requires IsSymbol(c)
    ensures Letter(Index(c)) == c
  {
  }

  lemma IndexOfLetter(n: nat)
    requires n < 64
    ensures IsSymbol(Letter(n)) && Index(Letter(n)) == n
  {
  }

  function Symbol(x: sextet): char {
    Letter(Number(x))
  }

  function Value(c: char): sextet
    requires IsSymbol(c)
  {
    Bits(Index(c))
  }

  lemma SymbolOfValue(c: char)
    requires IsSymbol(c)
    ensures Symbol(Value(c)) == c
  {
    NumberOfBits(Index(c));
    LetterOfIndex(c);
  }

  lemma ValueOfSymbol(x: sextet)
    ensures IsSymbol(Symbol(x)) && Value(Symbol(x)) == x
  {
    IndexOfLetter(Number(x));
    BitsOfNumber(x);
  }

  function Symbols(s: seq<sextet>): string {
    if s == [] then "" else [Symbol(s[0])] + Symbols(s[1..])
  }

  function Values(text: string): seq<sextet>
    requires forall c | c in text :: IsSymbol(c)
  {
    if text == "" then [] else [Value(text[0])] + Values(text[1..])
  }

  // ----- groups of three bytes and four symbols ------------------------------------------

  const Zero := Byte(false, false, false, false, false, false, false, false)

  function First(a: byte): sextet {
    Sextet(a.b7, a.b6, a.b5, a.b4, a.b3, a.b2)
  }

  function Second(a: byte, b: byte): sextet {
    Sextet(a.b1, a.b0, b.b7, b.b6, b.b5, b.b4)
  }

  function Third(b: byte, c: byte): sextet {
    Sextet(b.b3, b.b2, b.b1, b.b0, c.b7, c.b6)
  }

  function Fourth(c: byte): sextet {
    Sextet(c.b5, c.b4, c.b3, c.b2, c.b1, c.b0)
  }

  function Sextets(bytes: seq<byte>): seq<sextet> {
    if bytes == [] then []
    else if |bytes| == 1 then [First(bytes[0]), Second(bytes[0], Zero)]
    else if |bytes| == 2 then [First(bytes[0]), Second(bytes[0], bytes[1]), Third(bytes[1], Zero)]
    else [First(bytes[0]), Second(bytes[0], bytes[1]), Third(bytes[1], bytes[2]), Fourth(bytes[2])] + Sextets(bytes[3..])
  }

  function FirstByte(w: sextet, x: sextet): byte {
    Byte(w.s5, w.s4, w.s3, w.s2, w.s1, w.s0, x.s5, x.s4)
  }

  function SecondByte(x: sextet, y: sextet): byte {
    Byte(x.s3, x.s2, x.s1, x.s0, y.s5, y.s4, y.s3, y.s2)
  }

  function ThirdByte(y: sextet, z: sextet): byte {
    Byte(y.s1, y.s0, z.s5, z.s4, z.s3, z.s2, z.s1, z.s0)
  }

  /** The bytes of a symbol string; left-over bits of the last symbol are dropped. */
  function Octets(s: seq<sextet>): seq<byte>
    requires |s| % 4 != 1
  {
    if s == [] then []
    else if |s| == 2 then [FirstByte(s[0], s[1])]
    else if |s| == 3 then [FirstByte(s[0], s[1]), SecondByte(s[1], s[2])]
    else [FirstByte(s[0], s[1]), SecondByte(s[1], s[2]), ThirdByte(s[2], s[3])] + Octets(s[4..])
  }

  predicate LowFourClear(x: sextet) {
    !x.s3 && !x.s2 && !x.s1 && !x.s0
  }

  predicate LowTwoClear(x: sextet) {
    !x.s1 && !x.s0
  }

  /** The bits of the last symbol that no byte uses are zero. */
  predicate TailClear(s: seq<sextet>) {
    && (|s| % 4 == 2 ==> LowFourClear(s[|s| - 1]))
    && (|s| % 4 == 3 ==> LowTwoClear(s[|s| - 1]))
  }

  // ----- the codec ------------------------------------------------------------------------

  datatype Base64Error = NotCanonical

  function Encode(bytes: seq<byte>): string {
    Symbols(Sextets(bytes))
  }

  function Decode(text: string): Result<seq<byte>, Base64Error> {
    if text == "" || exists c :: c in text && !IsSymbol(c) then Err(NotCanonical)
    else if |Values(text)| % 4 == 1 then Err(NotCanonical)
    else
      var decoded := Octets(Values(text));
      if Encode(decoded) != text then Err(NotCanonical) else Ok(decoded)
  }

  // ----- both directions ------------------------------------------------------------------------

  lemma {:induction false} SextetsLength(bytes: seq<byte>)
    ensures |Sextets(bytes)| == (4 * |bytes| + 2) / 3 && |Sextets(bytes)| % 4 != 1
    decreases |bytes|
  {
    if |bytes| >= 3 {
      SextetsLength(bytes[3..]);
    }
  }

  lemma {:induction false} OctetsLength(s: seq<sextet>)
    requires |s| % 4 != 1
    ensures |Octets(s)| == 3 * |s| / 4
    decreases |s|
  {
    if |s| >= 4 {
      OctetsLength(s[4..]);
    }
  }

  /** A full group in front of the rest, decoded. */
  lemma OctetsOfGroup(w: sextet, x: sextet, y: sextet, z: sextet, rest: seq<sextet>)
    requires |rest| % 4 != 1
    ensures Octets([w, x, y, z] + rest) == [FirstByte(w, x), SecondByte(x, y), ThirdByte(y, z)] + Octets(rest)
  {
    var s := [w, x, y, z] + rest;
    assert s[4..] == rest;
  }

  /** A full group in front of the rest, encoded. */
  lemma SextetsOfGroup(a: byte, b: byte, c: byte, rest: seq<byte>)
    ensures Sextets([a, b, c] + rest) == [First(a), Second(a, b), Third(b, c), Fourth(c)] + Sextets(rest)
  {
    var bytes := [a, b, c] + rest;
    assert bytes[3..] == rest;
  }

  lemma {:induction false} OctetsOfSextets(bytes: seq<byte>)
    ensures |Sextets(bytes)| % 4 != 1 && Octets(Sextets(bytes)) == bytes
    decreases |bytes|
  {
    SextetsLength(bytes);
    if |bytes| >= 3 {
      var a, b, c, rest := bytes[0], bytes[1], bytes[2], bytes[3..];
      assert bytes == [a, b, c] + rest;
      OctetsOfSextets(rest);
      SextetsOfGroup(a, b, c, rest);
      OctetsOfGroup(First(a), Second(a, b), Third(b, c), Fourth(c), Sextets(rest));
    }
  }

  lemma TailOfRest(w: sextet, x: sextet, y: sextet, z: sextet, rest: seq<sextet>)
    ensures TailClear([w, x, y, z] + rest) <==> TailClear(rest)
  {
    var s := [w, x, y, z] + rest;
    assert |s| % 4 == |rest| % 4;
    if rest != [] {
      assert s[|s| - 1] == rest[|rest| - 1];
    }
  }

  lemma SameTail(group: seq<sextet>, a: seq<sextet>, b: seq<sextet>)
    ensures group + a == group + b <==> a == b
  {
    assert (group + a)[|group|..] == a && (group + b)[|group|..] == b;
  }

  /** Re-encoding one or two bytes gives the symbols back exactly when their unused bits were clear. */
  lemma ShortGroups(s: seq<sextet>)
    requires |s| == 2 || |s| == 3
    ensures Sextets(Octets(s)) == s <==> TailClear(s)
  {
    var again := Sextets(Octets(s));
    assert |again| == |s| && again[0] == s[0];
    assert forall i | 0 <= i < |s| - 1 :: again[i] == s[i];
    assert again == s <==> again[|s| - 1] == s[|s| - 1];
  }

  lemma {:induction false} SextetsOfOctets(s: seq<sextet>)
    requires |s| % 4 != 1
    ensures Sextets(Octets(s)) == s <==> TailClear(s)
    decreases |s|
  {
    if |s| == 2 || |s| == 3 {
      ShortGroups(s);
    } else if |s| >= 4 {
      var w, x, y, z, rest := s[0], s[1], s[2], s[3], s[4..];
      assert s == [w, x, y, z] + rest;
      SextetsOfOctets(rest);
      TailOfRest(w, x, y, z, rest);
      OctetsOfGroup(w, x, y, z, rest);
      SextetsOfGroup(FirstByte(w, x), SecondByte(x, y), ThirdByte(y, z), Octets(rest));
      SameTail([w, x, y, z], Sextets(Octets(rest)), rest);
    }
  }

  lemma {:induction false} SymbolsAre(s: seq<sextet>)
    ensures |Symbols(s)| == |s| && forall i | 0 <= i < |s| :: Symbols(s)[i] == Symbol(s[i])
  {
    if s != [] {
      SymbolsAre(s[1..]);
    }
  }

  lemma {:induction false} ValuesOfSymbols(s: seq<sextet>)
    ensures forall c | c in Symbols(s) :: IsSymbol(c)
    ensures Values(Symbols(s)) == s
  {
    SymbolsAre(s);
    forall c | c in Symbols(s)
      ensures IsSymbol(c)
    {
      var i :| 0 <= i < |s| && Symbols(s)[i] == c;
      ValueOfSymbol(s[i]);
    }
    if s != [] {
      ValueOfSymbol(s[0]);
      ValuesOfSymbols(s[1..]);
      assert Symbols(s)[1..] == Symbols(s[1..]);
    }
  }

  lemma {:induction false} SymbolsOfValues(text: string)
    requires forall c | c in text :: IsSymbol(c)
    ensures Symbols(Values(text)) == text && |Values(text)| == |text|
    ensures forall i | 0 <= i < |text| :: Values(text)[i] == Value(text[i])
  {
    if text != "" {
      SymbolOfValue(text[0]);
      SymbolsOfValues(text[1..]);
    }
  }

  // ----- the contract of the codec -----------------------------------------------------------------

  /** Every non-empty byte string survives encoding and decoding. */
  lemma DecodeEncode(bytes: seq<byte>)
    requires bytes != []
    ensures Decode(Encode(bytes)) == Ok(bytes)
  {
    OctetsOfSextets(bytes);
    ValuesOfSymbols(Sextets(bytes));
    assert Sextets(bytes) != [];
  }

  /** Decoding accepts exactly the encodings of non-empty byte strings, and inverts them. */
  lemma DecodeMeans(text: string, bytes: seq<byte>)
    ensures Decode(text) == Ok(bytes) <==> bytes != [] && Encode(bytes) == text
  {
    if bytes != [] && Encode(bytes) == text {
      DecodeEncode(bytes);
    } else if Decode(text) == Ok(bytes) {
      SymbolsOfValues(text);
      SextetsOfOctets(Values(text));
    }
  }

  /** What is canonical, on the characters: no stray symbol, no lone last one, no bits left over. */
  predicate Canonical(text: string) {
    && text != ""
    && (forall c | c in text :: IsSymbol(c))
    && |text| % 4 != 1
    && (|text| % 4 == 2 ==> LowFourClear(Value(text[|text| - 1])))
    && (|text| % 4 == 3 ==> LowTwoClear(Value(text[|text| - 1])))
  }

  lemma DecodeAccepts(text: string)
    ensures Decode(text).Ok? <==> Canonical(text)
  {
    if text != "" && forall c | c in text :: IsSymbol(c) {
      SymbolsOfValues(text);
      TailOfText(text);
      if |text| % 4 != 1 {
        EncodesBack(text);
      }
    }
  }

  lemma TailOfText(text: string)
    requires text != "" && (forall c | c in text :: IsSymbol(c)) && |Values(text)| == |text|
    requires forall i | 0 <= i < |text| :: Values(text)[i] == Value(text[i])
    ensures |text| % 4 != 1 ==> (TailClear(Values(text)) <==> Canonical(text))
  {
  }

  lemma DecodedLength(text: string)
    requires Decode(text).Ok?
    ensures |Decode(text).value| == 3 * |text| / 4
  {
    SymbolsOfValues(text);
    OctetsLength(Values(text));
  }

  /** Encoding what was decoded gives the text back exactly when no bits were dropped. */
  lemma EncodesBack(text: string)
    requires (forall c | c in text :: IsSymbol(c)) && |Values(text)| == |text| && |text| % 4 != 1
    ensures Encode(Octets(Values(text))) == text <==> TailClear(Values(text))
  {
    var s := Values(text);
    var again := Sextets(Octets(s));
    SymbolsOfValues(text);
    SextetsOfOctets(s);
    if Symbols(again) == text {
      ValuesOfSymbols(again);
    }
  }

  // ----- the published patterns ------------------------------------------------------------------

  /** `^[A-Za-z0-9_-]{21}[AQgw]$` */
  predicate JtiPattern(text: string) {
    |text| == 22 && (forall c | c in text :: IsSymbol(c)) && text[21] in "AQgw"
  }

  /** `^[A-Za-z0-9_-]{42}[AEIMQUYcgkosw048]$` */
  predicate KeyPattern(text: string) {
    |text| == 43 && (forall c | c in text :: IsSymbol(c)) && text[42] in "AEIMQUYcgkosw048"
  }

  lemma ClearBits(n: nat)
    requires n < 64
    ensures LowFourClear(Bits(n)) <==> n in [0, 16, 32, 48]
    ensures LowTwoClear(Bits(n)) <==> n in [0, 4, 8, 12] + [16, 20, 24, 28] + [32, 36, 40, 44] + [48, 52, 56, 60]
  {
    NumberOfBits(n);
  }

  lemma NoHalfByte(c: char)
    requires IsSymbol(c)
    ensures LowFourClear(Value(c)) <==> c in "AQgw"
  {
    ClearBits(Index(c));
    LetterOfIndex(c);
  }

  lemma NoTwoBits(c: char)
    requires IsSymbol(c)
    ensures LowTwoClear(Value(c)) <==> c in "AEIMQUYcgkosw048"
  {
    ClearBits(Index(c));
    LetterOfIndex(c);
  }

  /** An identifier of 16 bytes is exactly what the pattern describes. */
  lemma SixteenBytes(text: string)
    ensures Decode(text).Ok? && |Decode(text).value| == 16 <==> JtiPattern(text)
  {
    DecodeAccepts(text);
    if Decode(text).Ok? {
      DecodedLength(text);
    }
    if |text| == 22 && IsSymbol(text[21]) {
      NoHalfByte(text[21]);
    }
  }

  /** A key of 32 bytes likewise. */
  lemma ThirtyTwoBytes(text: string)
    ensures Decode(text).Ok? && |Decode(text).value| == 32 <==> KeyPattern(text)
  {
    DecodeAccepts(text);
    if Decode(text).Ok? {
      DecodedLength(text);
    }
    if |text| == 43 && IsSymbol(text[42]) {
      NoTwoBits(text[42]);
    }
  }

  // ----- the compact serialization ---------------------------------------------------------------

  const MAX_COMPACT_JWS_BYTES: nat := 16 * 1024

  /** The parts between the dots; there is always at least one. */
  function Split(text: string): (r: seq<string>)
    ensures r != []
  {
    if text == "" then [""]
    else
      var rest := Split(text[1..]);
      if text[0] == '.' then [""] + rest else [[text[0]] + rest[0]] + rest[1..]
  }

  predicate DotFree(part: string) {
    forall c | c in part :: c != '.'
  }

  lemma {:induction false} SplitPart(part: string, rest: string)
    requires DotFree(part)
    ensures Split(part) == [part] && Split(part + "." + rest) == [part] + Split(rest)
  {
    var text := part + "." + rest;
    if part == "" {
      assert text[1..] == rest;
    } else {
      assert part[0] in part && forall c | c in part[1..] :: c in part;
      SplitPart(part[1..], rest);
      assert text[1..] == part[1..] + "." + rest;
      assert [part[0]] + part[1..] == part;
    }
  }

  function JoinDots(parts: seq<string>): string
    requires parts != []
  {
    if |parts| == 1 then parts[0] else parts[0] + "." + JoinDots(parts[1..])
  }

  /** Splitting loses nothing. */
  lemma {:induction false} JoinSplit(text: string)
    ensures JoinDots(Split(text)) == text && forall p | p in Split(text) :: DotFree(p)
  {
    if text != "" {
      var rest := Split(text[1..]);
      JoinSplit(text[1..]);
      if text[0] == '.' {
        assert ([""] + rest)[1..] == rest;
        assert JoinDots([""] + rest) == "" + "." + JoinDots(rest);
      } else {
        var longer := [[text[0]] + rest[0]] + rest[1..];
        assert longer[1..] == rest[1..];
        assert JoinDots(longer) == [text[0]] + JoinDots(rest);
        assert rest[0] in rest;
      }
    }
  }

  /** What was signed: the header and the claims as they stand in the proof. */
  function SigningInput(header: seq<byte>, claims: seq<byte>): string {
    Encode(header) + "." + Encode(claims)
  }

  function Compact(header: seq<byte>, claims: seq<byte>, signature: seq<byte>): string {
    SigningInput(header, claims) + "." + Encode(signature)
  }

  datatype ProofError = SigningFailed

  /** `verify` is the signature check of the public key; the header and claims are the canonical bytes expected. */
  function VerifySigned(compact: string, header: seq<byte>, claims: seq<byte>, verify: (seq<byte>, string) -> bool): Result<string, ProofError> {
    if (exists c :: c in compact && c as int >= 128) || |compact| > MAX_COMPACT_JWS_BYTES then Err(SigningFailed)
    else
      var parts := Split(compact);
      if |parts| != 3 || parts[0] == "" || parts[1] == "" || parts[2] == "" then Err(SigningFailed)
      else
        var protected, payload, signature := Decode(parts[0]), Decode(parts[1]), Decode(parts[2]);
        if protected.Err? || payload.Err? || signature.Err? then Err(SigningFailed)
        else if protected.value != header || payload.value != claims || |signature.value| != 64 then Err(SigningFailed)
        else if Encode(protected.value) != parts[0] || Encode(payload.value) != parts[1] || Encode(signature.value) != parts[2] then Err(SigningFailed)
        else if !verify(signature.value, parts[0] + "." + parts[1]) then Err(SigningFailed)
        else Ok(compact)
  }

  lemma EncodedIsPlain(bytes: seq<byte>)
    ensures DotFree(Encode(bytes)) && forall c | c in Encode(bytes) :: c as int < 128
  {
    ValuesOfSymbols(Sextets(bytes));
  }

  lemma SplitCompact(header: seq<byte>, claims: seq<byte>, signature: seq<byte>)
    ensures Split(Compact(header, claims, signature)) == [Encode(header), Encode(claims), Encode(signature)]
  {
    EncodedIsPlain(header);
    EncodedIsPlain(claims);
    EncodedIsPlain(signature);
    var tail := Encode(claims) + "." + Encode(signature);
    assert Compact(header, claims, signature) == Encode(header) + "." + tail;
    SplitPart(Encode(header), tail);
    SplitPart(Encode(claims), Encode(signature));
    SplitPart(Encode(signature), "");
  }

  /** The three parts of an accepted proof decode to the header, the claims and a signature. */
  lemma AcceptedParts(compact: string, header: seq<byte>, claims: seq<byte>, verify: (seq<byte>, string) -> bool) returns (signature: seq<byte>)
    requires VerifySigned(compact, header, claims, verify).Ok?
    ensures header != [] && claims != [] && |signature| == 64
    ensures compact == Compact(header, claims, signature) && verify(signature, SigningInput(header, claims))
    ensures |compact| <= MAX_COMPACT_JWS_BYTES
  {
    var parts := Split(compact);
    JoinSplit(compact);
    signature := Decode(parts[2]).value;
    DecodeMeans(parts[0], header);
    DecodeMeans(parts[1], claims);
    ThreeParts(parts);
  }

  lemma ThreeParts(parts: seq<string>)
    requires |parts| == 3
    ensures JoinDots(parts) == parts[0] + "." + parts[1] + "." + parts[2]
  {
    assert parts[1..][1..] == [parts[2]];
    assert JoinDots(parts[1..]) == parts[1] + "." + parts[2];
    assert parts[0] + "." + parts[1] + "." + parts[2] == parts[0] + "." + (parts[1] + "." + parts[2]);
  }

  lemma CompactAccepted(header: seq<byte>, claims: seq<byte>, signature: seq<byte>, verify: (seq<byte>, string) -> bool)
    requires header != [] && claims != [] && |signature| == 64 && verify(signature, SigningInput(header, claims))
    requires |Compact(header, claims, signature)| <= MAX_COMPACT_JWS_BYTES
    ensures VerifySigned(Compact(header, claims, signature), header, claims, verify) == Ok(Compact(header, claims, signature))
  {
    SplitCompact(header, claims, signature);
    DecodeEncode(header);
    DecodeEncode(claims);
    DecodeEncode(signature);
    CompactIsAscii(header, claims, signature);
  }

  lemma CompactIsAscii(header: seq<byte>, claims: seq<byte>, signature: seq<byte>)
    ensures forall c | c in Compact(header, claims, signature) :: c as int < 128
  {
    EncodedIsPlain(header);
    EncodedIsPlain(claims);
    EncodedIsPlain(signature);
  }

  /** A proof is accepted exactly when it is the three-part join of the header, the claims and a valid 64-byte signature. */
  lemma AcceptedProof(compact: string, header: seq<byte>, claims: seq<byte>, verify: (seq<byte>, string) -> bool)
    ensures VerifySigned(compact, header, claims, verify).Ok? <==>
      && header != [] && claims != [] && |compact| <= MAX_COMPACT_JWS_BYTES
      && exists signature: seq<byte> ::
           |signature| == 64 && compact == Compact(header, claims, signature) && verify(signature, SigningInput(header, claims))
  {
    if VerifySigned(compact, header, claims, verify).Ok? {
      var signature := AcceptedParts(compact, header, claims, verify);
    } else if header != [] && claims != [] && |compact| <= MAX_COMPACT_JWS_BYTES {
      forall signature: seq<byte>
        ensures !(|signature| == 64 && compact == Compact(header, claims, signature) && verify(signature, SigningInput(header, claims)))
      {
        if |signature| == 64 && compact == Compact(header, claims, signature) && verify(signature, SigningInput(header, claims)) {
          CompactAccepted(header, claims, signature, verify);
        }
      }
    }
  }

  /** The join determines its three parts, so a proof has one reading. */
  lemma CompactIsInjective(h: seq<byte>, c: seq<byte>, s: seq<byte>, header: seq<byte>, claims: seq<byte>, signature: seq<byte>)
    requires Compact(h, c, s) == Compact(header, claims, signature)
    requires h != [] && c != [] && s != [] && header != [] && claims != [] && signature != []
    ensures h == header && c == claims && s == signature
  {
    SplitCompact(h, c, s);
    SplitCompact(header, claims, signature);
    var a, b := [Encode(h), Encode(c), Encode(s)], [Encode(header), Encode(claims), Encode(signature)];
    assert a[0] == b[0] && a[1] == b[1] && a[2] == b[2];
    DecodeEncode(h);
    DecodeEncode(c);
    DecodeEncode(s);
    DecodeEncode(header);
    DecodeEncode(claims);
    DecodeEncode(signature);
  }
}
