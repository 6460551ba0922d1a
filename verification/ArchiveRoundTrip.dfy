/**
 A writer of ZIP32 archives and the round trip through the reader.

 `Archive` lays out one local entry per file, the central directory and an end record
 without a comment. Reading it back returns exactly the tree, unless some other offset
 of the payload also passes the end-record test; then the reader refuses it.
 */
module ArchiveRoundTrip {
  import opened Wrappers
  import opened Ordering
  import opened PackageArchive

  /**
   One file or directory to write. `encoded` is the stored content, or a deflate stream
   for it when `deflated`.
   */
  datatype Entry = Entry(raw: bytes, path: string, content: bytes, encoded: bytes, deflated: bool, executable: bool, directory: bool)

  function NameOf(e: Entry): string {
    if e.directory then e.path + "/" else e.path
  }

  // ----- the writer ------------------------------------------------------------

  /** Byte `i` of the little-endian form of `v`. */
  function ByteOf(v: nat, i: nat): byte {
    if i == 0 then v % 256
    else if i == 1 then (v / 256) % 256
    else if i == 2 then (v / 65536) % 256
    else (v / 16777216) % 256
  }

  function Compression(e: Entry): nat {
    if e.deflated then 8 else 0
  }

  function Attributes(e: Entry): nat {
    var mode := (if e.directory then 0x4000 else 0x8000) + if e.executable then 0x1ED else 0x1A4;
    mode * 65536 + if e.directory then 16 else 0
  }

  function LocalByte(codec: Codec, e: Entry, k: nat): byte {
    if k < 4 then ByteOf(LOCAL_SIGNATURE, k)
    else if k < 6 then ByteOf(20, k - 4)
    else if k < 8 then ByteOf(0x800, k - 6)
    else if k < 10 then ByteOf(Compression(e), k - 8)
    else if k < 14 then 0
    else if k < 18 then ByteOf(codec.crc32(e.content), k - 14)
    else if k < 22 then ByteOf(|e.encoded|, k - 18)
    else if k < 26 then ByteOf(|e.content|, k - 22)
    else if k < 28 then ByteOf(|e.raw|, k - 26)
    else 0
  }

  function CentralByte(codec: Codec, e: Entry, local: nat, k: nat): byte {
    if k < 4 then ByteOf(CENTRAL_SIGNATURE, k)
    else if k < 6 then ByteOf(0x314, k - 4)
    else if k < 8 then ByteOf(20, k - 6)
    else if k < 10 then ByteOf(0x800, k - 8)
    else if k < 12 then ByteOf(Compression(e), k - 10)
    else if k < 16 then 0
    else if k < 20 then ByteOf(codec.crc32(e.content), k - 16)
    else if k < 24 then ByteOf(|e.encoded|, k - 20)
    else if k < 28 then ByteOf(|e.content|, k - 24)
    else if k < 30 then ByteOf(|e.raw|, k - 28)
    else if k < 38 then 0
    else if k < 42 then ByteOf(Attributes(e), k - 38)
    else ByteOf(local, k - 42)
  }

  function EndByte(count: nat, size: nat, central: nat, comment: nat, k: nat): byte {
    if k < 4 then ByteOf(END_SIGNATURE, k)
    else if k < 8 then 0
    else if k < 10 then ByteOf(count, k - 8)
    else if k < 12 then ByteOf(count, k - 10)
    else if k < 16 then ByteOf(size, k - 12)
    else if k < 20 then ByteOf(central, k - 16)
    else ByteOf(comment, k - 20)
  }

  function LocalHeader(codec: Codec, e: Entry): (h: bytes)
    ensures |h| == 30
  {
    seq(30, k requires 0 <= k < 30 => LocalByte(codec, e, k))
  }

  function CentralHeader(codec: Codec, e: Entry, local: nat): (h: bytes)
    ensures |h| == 46
  {
    seq(46, k requires 0 <= k < 46 => CentralByte(codec, e, local, k))
  }

  function EndHeader(count: nat, size: nat, central: nat, comment: nat): (h: bytes)
    ensures |h| == 22
  {
    seq(22, k requires 0 <= k < 22 => EndByte(count, size, central, comment, k))
  }

  function LocalEntry(codec: Codec, e: Entry): bytes {
    LocalHeader(codec, e) + e.raw + e.encoded
  }

  function CentralEntry(codec: Codec, e: Entry, local: nat): bytes {
    CentralHeader(codec, e, local) + e.raw
  }

  /** The local entries of the first `n` files. */
  function Locals(codec: Codec, es: seq<Entry>, n: nat): bytes
    requires n <= |es|
  {
    if n == 0 then [] else Locals(codec, es, n - 1) + LocalEntry(codec, es[n - 1])
  }

  function Centrals(codec: Codec, es: seq<Entry>, n: nat): bytes
    requires n <= |es|
  {
    if n == 0 then [] else Centrals(codec, es, n - 1) + CentralEntry(codec, es[n - 1], |Locals(codec, es, n - 1)|)
  }

  function Archive(codec: Codec, es: seq<Entry>): bytes {
    var locals, centrals := Locals(codec, es, |es|), Centrals(codec, es, |es|);
    locals + centrals + EndHeader(|es|, |centrals|, |locals|, 0)
  }

  // ----- well-formed trees -------------------------------------------------------

  ghost predicate EntryOk(codec: Codec, e: Entry) {
    && |e.raw| <= MAX_NAME
    && codec.decodeUtf8(e.raw) == Some(NameOf(e))
    && codec.isNfc(NameOf(e))
    && PathAllowed(e.path)
    && e.path[0] != '\U{FEFF}'
    && |e.content| <= MAX_FILE
    && (e.directory ==> e.content == [])
    && (if e.deflated then codec.inflate(e.encoded, |e.content| + 1) == Some(e.content) else e.encoded == e.content)
  }

  function ContentSize(es: seq<Entry>, n: nat): nat
    requires n <= |es|
  {
    if n == 0 then 0 else ContentSize(es, n - 1) + |es[n - 1].content|
  }

  ghost predicate DistinctNames(es: seq<Entry>) {
    forall i, j | 0 <= i < j < |es| :: es[i].path != es[j].path
  }

  /** Neither of two names is a file above the other. */
  ghost predicate NoConflicts(es: seq<Entry>) {
    forall i, j | 0 <= i < j < |es| :: !Conflict(es[j].path, es[j].directory, es[i].path, es[i].directory)
  }

  ghost predicate EntriesOk(codec: Codec, es: seq<Entry>) {
    && (forall e | e in es :: EntryOk(codec, e))
    && DistinctNames(es)
    && NoConflicts(es)
    && ContentSize(es, |es|) <= MAX_TOTAL
  }

  /** A file tree within the reader's limits. */
  ghost predicate TreeOk(codec: Codec, es: seq<Entry>) {
    EntriesOk(codec, es) && |es| <= MAX_ENTRIES && |Archive(codec, es)| <= MAX_PAYLOAD
  }

  function MemberFor(e: Entry): Member {
    Member(e.content, e.executable, e.directory)
  }

  /** The tree the first `n` entries describe. */
  function Tree(es: seq<Entry>, n: nat): map<string, Member>
    requires n <= |es|
  {
    if n == 0 then map[] else Tree(es, n - 1)[es[n - 1].path := MemberFor(es[n - 1])]
  }

  function Directories(es: seq<Entry>, n: nat): map<string, bool>
    requires n <= |es|
  {
    if n == 0 then map[] else Directories(es, n - 1)[es[n - 1].path := es[n - 1].directory]
  }

  /** Every entry is in the tree under its own path and with its own content. */
  lemma {:induction false} TreeHolds(es: seq<Entry>, n: nat, i: nat)
    requires DistinctNames(es) && i < n <= |es|
    ensures es[i].path in Tree(es, n) && Tree(es, n)[es[i].path] == MemberFor(es[i])
    ensures es[i].path in Directories(es, n) && Directories(es, n)[es[i].path] == es[i].directory
  {
    if i < n - 1 {
      TreeHolds(es, n - 1, i);
      assert es[i].path != es[n - 1].path;
    }
  }

  /** Nothing else is in the tree. */
  lemma {:induction false} TreeOnly(es: seq<Entry>, n: nat, path: string)
    requires n <= |es|
    requires path in Tree(es, n) || path in Directories(es, n)
    ensures exists i :: 0 <= i < n && es[i].path == path
  {
    if path == es[n - 1].path {
      assert 0 <= n - 1 < n;
    } else {
      TreeOnly(es, n - 1, path);
    }
  }

  // ----- little-endian fields ------------------------------------------------------

  lemma Word16(v: nat)
    requires v < 0x1_0000
    ensures ByteOf(v, 0) as int + 256 * (ByteOf(v, 1) as int) == v
  {
  }

  lemma Word32(v: nat)
    requires v < 0x1_0000_0000
    ensures ByteOf(v, 0) as int + 256 * (ByteOf(v, 1) as int) + 65536 * (ByteOf(v, 2) as int) + 16777216 * (ByteOf(v, 3) as int) == v
  {
    assert v / 65536 == v / 256 / 256;
    assert v / 16777216 == v / 65536 / 256;
  }

  ghost predicate At(p: bytes, at: nat, record: bytes) {
    at + |record| <= |p| && p[at..at + |record|] == record
  }

  lemma AtParts(p: bytes, at: nat, a: bytes, b: bytes)
    requires At(p, at, a + b)
    ensures At(p, at, a) && At(p, at + |a|, b)
  {
    assert p[at..at + |a|] == (a + b)[..|a|] == a;
    assert p[at + |a|..at + |a| + |b|] == (a + b)[|a|..] == b;
  }

  lemma Shift16(p: bytes, at: nat, record: bytes, k: nat)
    requires At(p, at, record) && k + 2 <= |record|
    ensures U16(p, at + k) == U16(record, k)
  {
    var s := p[at..at + |record|];
    assert s[k] == p[at + k] && s[k + 1] == p[at + k + 1];
  }

  lemma Shift32(p: bytes, at: nat, record: bytes, k: nat)
    requires At(p, at, record) && k + 4 <= |record|
    ensures U32(p, at + k) == U32(record, k)
  {
    var s := p[at..at + |record|];
    assert s[k] == p[at + k] && s[k + 1] == p[at + k + 1] && s[k + 2] == p[at + k + 2] && s[k + 3] == p[at + k + 3];
  }

  lemma LocalHeaderWords(codec: Codec, e: Entry)
    requires |e.raw| < 0x1_0000
    ensures var h := LocalHeader(codec, e);
      && U32(h, 0) == LOCAL_SIGNATURE && U16(h, 4) == 20 && U16(h, 6) == 0x800 && U16(h, 8) == Compression(e)
      && U16(h, 26) == |e.raw| && U16(h, 28) == 0
  {
    Word16(|e.raw|);
  }

  lemma LocalHeaderSizes(codec: Codec, e: Entry)
    requires |e.encoded| < 0x1_0000_0000 && |e.content| < 0x1_0000_0000
    ensures var h := LocalHeader(codec, e);
      U32(h, 14) == codec.crc32(e.content) && U32(h, 18) == |e.encoded| && U32(h, 22) == |e.content|
  {
    Word32(codec.crc32(e.content));
    Word32(|e.encoded|);
    Word32(|e.content|);
  }

  function ExpectedCentral(codec: Codec, e: Entry, local: nat): CentralRecord {
    CentralRecord(20, 0x800, Compression(e), codec.crc32(e.content), |e.encoded|, |e.content|, |e.raw|, 0, 0, 0, Attributes(e), local)
  }

  lemma CentralHeaderWords(codec: Codec, e: Entry, local: nat)
    requires |e.raw| < 0x1_0000
    ensures var h := CentralHeader(codec, e, local);
      && U16(h, 6) == 20 && U16(h, 8) == 0x800 && U16(h, 10) == Compression(e)
      && U16(h, 28) == |e.raw| && U16(h, 30) == 0 && U16(h, 32) == 0 && U16(h, 34) == 0
  {
    Word16(|e.raw|);
  }

  lemma CentralHeaderSizes(codec: Codec, e: Entry, local: nat)
    requires |e.encoded| < 0x1_0000_0000 && |e.content| < 0x1_0000_0000
    ensures var h := CentralHeader(codec, e, local);
      && U32(h, 0) == CENTRAL_SIGNATURE && U32(h, 16) == codec.crc32(e.content)
      && U32(h, 20) == |e.encoded| && U32(h, 24) == |e.content|
  {
    Word32(codec.crc32(e.content));
    Word32(|e.encoded|);
    Word32(|e.content|);
  }

  lemma CentralHeaderPlace(codec: Codec, e: Entry, local: nat)
    requires local < 0x1_0000_0000
    ensures var h := CentralHeader(codec, e, local); U32(h, 38) == Attributes(e) && U32(h, 42) == local
  {
    var attributes := Attributes(e);
    Word32(attributes);
    Word32(local);
  }

  lemma CentralHeaderFields(codec: Codec, e: Entry, local: nat)
    requires |e.raw| < 0x1_0000 && |e.encoded| < 0x1_0000_0000 && |e.content| < 0x1_0000_0000 && local < 0x1_0000_0000
    ensures var h := CentralHeader(codec, e, local);
      U32(h, 0) == CENTRAL_SIGNATURE && CentralAt(h, 0) == ExpectedCentral(codec, e, local)
  {
    CentralHeaderWords(codec, e, local);
    CentralHeaderSizes(codec, e, local);
    CentralHeaderPlace(codec, e, local);
  }

  lemma EndHeaderFields(count: nat, size: nat, central: nat, comment: nat)
    requires count < 0x1_0000 && size < 0x1_0000_0000 && central < 0x1_0000_0000 && comment < 0x1_0000
    ensures var h := EndHeader(count, size, central, comment);
      && U32(h, 0) == END_SIGNATURE && U16(h, 4) == 0 && U16(h, 6) == 0 && U16(h, 8) == count && U16(h, 10) == count
      && U32(h, 12) == size && U32(h, 16) == central && U16(h, 20) == comment
  {
    Word16(count);
    Word32(size);
    Word32(central);
    Word16(comment);
  }

  lemma CentralAtShift(p: bytes, at: nat, h: bytes)
    requires At(p, at, h) && |h| == 46
    ensures CentralAt(p, at) == CentralAt(h, 0) && U32(p, at) == U32(h, 0)
  {
    Shift32(p, at, h, 0);
    Shift16(p, at, h, 6);
    Shift16(p, at, h, 8);
    Shift16(p, at, h, 10);
    Shift32(p, at, h, 16);
    Shift32(p, at, h, 20);
    Shift32(p, at, h, 24);
    Shift16(p, at, h, 28);
    Shift16(p, at, h, 30);
    Shift16(p, at, h, 32);
    Shift16(p, at, h, 34);
    Shift32(p, at, h, 38);
    Shift32(p, at, h, 42);
  }

  // ----- where the records lie -------------------------------------------------------

  lemma {:induction false} LocalsPrefix(codec: Codec, es: seq<Entry>, i: nat, n: nat)
    requires i <= n <= |es|
    ensures Locals(codec, es, i) <= Locals(codec, es, n)
  {
    if i < n {
      LocalsPrefix(codec, es, i, n - 1);
    }
  }

  lemma {:induction false} CentralsPrefix(codec: Codec, es: seq<Entry>, i: nat, n: nat)
    requires i <= n <= |es|
    ensures Centrals(codec, es, i) <= Centrals(codec, es, n)
  {
    if i < n {
      CentralsPrefix(codec, es, i, n - 1);
    }
  }

  /** The offset at which the central record of entry `i` starts. */
  function CursorAt(codec: Codec, es: seq<Entry>, i: nat): nat
    requires i <= |es|
  {
    |Locals(codec, es, |es|)| + |Centrals(codec, es, i)|
  }

  lemma LocalPlaced(codec: Codec, es: seq<Entry>, i: nat)
    requires i < |es|
    ensures At(Archive(codec, es), |Locals(codec, es, i)|, LocalEntry(codec, es[i]))
    ensures |Locals(codec, es, i + 1)| <= |Locals(codec, es, |es|)| < |Archive(codec, es)|
  {
    LocalsPrefix(codec, es, i + 1, |es|);
    var p, upto := Archive(codec, es), Locals(codec, es, i + 1);
    assert upto <= p;
    assert p[..|upto|] == upto;
    assert upto == Locals(codec, es, i) + LocalEntry(codec, es[i]);
    PrefixAt(p, Locals(codec, es, i), LocalEntry(codec, es[i]));
  }

  lemma CentralPlaced(codec: Codec, es: seq<Entry>, i: nat)
    requires i < |es|
    ensures At(Archive(codec, es), CursorAt(codec, es, i), CentralEntry(codec, es[i], |Locals(codec, es, i)|))
  {
    CentralsPrefix(codec, es, i + 1, |es|);
    var locals := Locals(codec, es, |es|);
    var record := CentralEntry(codec, es[i], |Locals(codec, es, i)|);
    var upto := Centrals(codec, es, i + 1);
    assert upto == Centrals(codec, es, i) + record;
    var p := Archive(codec, es);
    assert locals + Centrals(codec, es, |es|) <= p;
    assert locals + upto == (locals + Centrals(codec, es, i)) + record;
    PrefixAt(p, locals + Centrals(codec, es, i), record);
  }

  lemma PrefixAt(p: bytes, before: bytes, record: bytes)
    requires before + record <= p
    ensures At(p, |before|, record)
  {
    assert p[..|before| + |record|] == before + record;
    assert p[|before|..|before| + |record|] == p[..|before| + |record|][|before|..];
  }

  lemma EndPlaced(codec: Codec, es: seq<Entry>)
    ensures var p := Archive(codec, es);
      var size, central := |Centrals(codec, es, |es|)|, |Locals(codec, es, |es|)|;
      |p| == central + size + 22 && At(p, |p| - 22, EndHeader(|es|, size, central, 0))
  {
    var locals, centrals := Locals(codec, es, |es|), Centrals(codec, es, |es|);
    PrefixAt(Archive(codec, es), locals + centrals, EndHeader(|es|, |centrals|, |locals|, 0));
  }

  // ----- one entry through the reader ----------------------------------------------------

  lemma {:induction false} SplitTrailingSlash(s: string)
    requires s != "" && s[|s| - 1] == '/'
    ensures "" in Split(s)
  {
    if |s| > 1 {
      SplitTrailingSlash(s[1..]);
      var rest := Split(s[1..]);
      if s[0] != '/' {
        var r := [[s[0]] + rest[0]] + rest[1..];
        assert Split(s) == r;
        if rest[0] == "" {
          FirstSegmentEmpty(s[1..]);
          SplitAfterSlash(s[1..]);
        } else {
          assert "" in rest[1..];
        }
      }
    }
  }

  lemma FirstSegmentEmpty(s: string)
    requires s != "" && Split(s)[0] == ""
    ensures s[0] == '/'
  {
  }

  lemma {:induction false} SplitAfterSlash(s: string)
    requires s != "" && s[0] == '/' && s[|s| - 1] == '/'
    ensures "" in Split(s)[1..]
  {
    assert Split(s)[1..] == Split(s[1..]);
    if |s| == 1 {
      assert Split(s[1..]) == [""];
    } else {
      SplitTrailingSlash(s[1..]);
    }
  }

  /** A usable path never ends in a slash, so the name tells files and directories apart. */
  lemma NameDecides(e: Entry)
    requires PathAllowed(e.path)
    ensures NameOf(e)[|NameOf(e)| - 1] == '/' <==> e.directory
    ensures NameOf(e)[0] == e.path[0]
    ensures e.directory ==> NameOf(e)[..|NameOf(e)| - 1] == e.path
  {
    if e.path[|e.path| - 1] == '/' {
      SplitTrailingSlash(e.path);
      assert false;
    }
  }

  lemma AttributesAccepted(codec: Codec, e: Entry, local: nat)
    requires e.directory ==> e.content == []
    ensures AttributesAllowed(ExpectedCentral(codec, e, local), e.directory)
    ensures Executable(Attributes(e)) == e.executable
  {
    var mode := Attributes(e) / 65536;
    assert mode == (if e.directory then 0x4000 else 0x8000) + if e.executable then 0x1ED else 0x1A4;
  }

  lemma Utf8FlagOnly()
    ensures forall compression: nat :: FlagsAllowed(0x800, compression)
    ensures Utf8Name(0x800) && !HasDescriptor(0x800)
  {
  }

  lemma HeaderRead(codec: Codec, p: bytes, at: nat, e: Entry, local: nat, total: nat)
    requires EntryOk(codec, e) && At(p, at, CentralEntry(codec, e, local))
    requires |p| <= MAX_PAYLOAD && |e.encoded| <= |p| && local <= |p|
    requires total + |e.content| <= MAX_TOTAL
    ensures ReadHeader(p, at, total) == Ok(ExpectedCentral(codec, e, local))
    ensures RawName(p, at, ExpectedCentral(codec, e, local)) == e.raw
  {
    var h := CentralHeader(codec, e, local);
    AtParts(p, at, h, e.raw);
    CentralAtShift(p, at, h);
    CentralHeaderFields(codec, e, local);
    Utf8FlagOnly();
  }

  lemma NameRead(codec: Codec, e: Entry, local: nat, names: map<string, bool>)
    requires EntryOk(codec, e) && e.path !in names
    requires forall other | other in names :: !Conflict(e.path, e.directory, other, names[other])
    ensures ReadName(codec, e.raw, ExpectedCentral(codec, e, local), names) == Ok((e.path, e.directory))
  {
    NameDecides(e);
    AttributesAccepted(codec, e, local);
    Utf8FlagOnly();
  }

  /** The local header as the reader's accessors see it. */
  lemma LocalHeaderAt(codec: Codec, p: bytes, at: nat, e: Entry)
    requires At(p, at, LocalHeader(codec, e))
    requires |e.raw| < 0x1_0000 && |e.encoded| < 0x1_0000_0000 && |e.content| < 0x1_0000_0000
    ensures U32(p, at) == LOCAL_SIGNATURE && U16(p, at + 4) == 20 && U16(p, at + 6) == 0x800
    ensures U16(p, at + 8) == Compression(e) && U16(p, at + 26) == |e.raw| && U16(p, at + 28) == 0
    ensures U32(p, at + 14) == codec.crc32(e.content) && U32(p, at + 18) == |e.encoded| && U32(p, at + 22) == |e.content|
  {
    var h := LocalHeader(codec, e);
    LocalHeaderWords(codec, e);
    LocalHeaderSizes(codec, e);
    Shift32(p, at, h, 0);
    Shift16(p, at, h, 4);
    Shift16(p, at, h, 6);
    Shift16(p, at, h, 8);
    Shift32(p, at, h, 14);
    Shift32(p, at, h, 18);
    Shift32(p, at, h, 22);
    Shift16(p, at, h, 26);
    Shift16(p, at, h, 28);
  }

  lemma LocalPartsAt(codec: Codec, p: bytes, at: nat, e: Entry)
    requires At(p, at, LocalEntry(codec, e))
    ensures At(p, at, LocalHeader(codec, e))
    ensures at + 30 + |e.raw| + |e.encoded| <= |p|
    ensures p[at + 30..at + 30 + |e.raw|] == e.raw
    ensures p[at + 30 + |e.raw|..at + 30 + |e.raw| + |e.encoded|] == e.encoded
  {
    var h := LocalHeader(codec, e);
    assert h + e.raw + e.encoded == (h + e.raw) + e.encoded;
    AtParts(p, at, h + e.raw, e.encoded);
    AtParts(p, at, h, e.raw);
  }

  lemma LocalMatched(codec: Codec, p: bytes, e: Entry, local: nat)
    requires |e.raw| <= MAX_NAME && |e.content| <= MAX_FILE && At(p, local, LocalEntry(codec, e))
    requires |p| <= MAX_PAYLOAD
    ensures var c := ExpectedCentral(codec, e, local);
      && LocalMatches(p, e.raw, c)
      && SizesMatch(p, c)
      && DataStart(p, c) == local + 30 + |e.raw|
      && DataStart(p, c) + |e.encoded| <= |p|
      && Encoded(p, c) == e.encoded
  {
    LocalPartsAt(codec, p, local, e);
    LocalHeaderAt(codec, p, local, e);
    assert WordsAt(p, local + 14, ExpectedCentral(codec, e, local));
  }

  lemma LocalRead(codec: Codec, p: bytes, e: Entry, local: nat, central: nat)
    requires |e.raw| <= MAX_NAME && |e.content| <= MAX_FILE && At(p, local, LocalEntry(codec, e))
    requires |p| <= MAX_PAYLOAD && central <= |p|
    ensures var c := ExpectedCentral(codec, e, local);
      ReadLocal(p, e.raw, c, central) == Ok(local + |LocalEntry(codec, e)|) && Encoded(p, c) == e.encoded
  {
    LocalMatched(codec, p, e, local);
    Utf8FlagOnly();
    assert ExtraOk(p, local + 30 + |e.raw|, 0);
  }

  lemma ContentRead(codec: Codec, e: Entry, local: nat)
    requires EntryOk(codec, e)
    ensures ReadContent(codec, e.encoded, ExpectedCentral(codec, e, local)) == Ok(e.content)
  {
  }

  lemma EntryLocated(codec: Codec, p: bytes, at: nat, e: Entry, local: nat, central: nat)
    requires EntryOk(codec, e) && At(p, local, LocalEntry(codec, e))
    requires |p| <= MAX_PAYLOAD && central <= |p|
    requires at + 46 + |e.raw| <= |p| && RawName(p, at, ExpectedCentral(codec, e, local)) == e.raw
    ensures Locate(codec, p, central, at, ExpectedCentral(codec, e, local)) == Ok((local + |LocalEntry(codec, e)|, e.content))
  {
    assert ExtraOk(p, at + 46 + |e.raw|, 0);
    LocalRead(codec, p, e, local, central);
    ContentRead(codec, e, local);
  }

  // ----- the whole directory ---------------------------------------------------------------

  function Spans(codec: Codec, es: seq<Entry>, n: nat): (spans: seq<(nat, nat)>)
    requires n <= |es|
    ensures |spans| == n
  {
    if n == 0 then [] else Spans(codec, es, n - 1) + [(|Locals(codec, es, n - 1)|, |Locals(codec, es, n)|)]
  }

  /** The reader's state after `n` entries. */
  function StateAt(codec: Codec, es: seq<Entry>, n: nat): State
    requires n <= |es|
  {
    State(CursorAt(codec, es, n), ContentSize(es, n), Directories(es, n), Tree(es, n), Spans(codec, es, n))
  }

  lemma {:induction false} ContentSizeGrows(es: seq<Entry>, i: nat, n: nat)
    requires i <= n <= |es|
    ensures ContentSize(es, i) <= ContentSize(es, n)
  {
    if i < n {
      ContentSizeGrows(es, i, n - 1);
    }
  }

  lemma NamesBefore(es: seq<Entry>, i: nat)
    requires DistinctNames(es) && NoConflicts(es) && i < |es|
    ensures es[i].path !in Directories(es, i)
    ensures forall other | other in Directories(es, i) ::
      !Conflict(es[i].path, es[i].directory, other, Directories(es, i)[other])
  {
    var names := Directories(es, i);
    if es[i].path in names {
      TreeOnly(es, i, es[i].path);
      assert false;
    }
    forall other | other in names
      ensures !Conflict(es[i].path, es[i].directory, other, names[other])
    {
      TreeOnly(es, i, other);
      var j :| 0 <= j < i && es[j].path == other;
      TreeHolds(es, i, j);
    }
  }

  /** What the reader's state after `i` entries promises the next one. */
  ghost predicate Admits(codec: Codec, p: bytes, st: State, e: Entry, local: nat) {
    && EntryOk(codec, e)
    && At(p, st.cursor, CentralEntry(codec, e, local))
    && At(p, local, LocalEntry(codec, e))
    && st.total + |e.content| <= MAX_TOTAL
    && e.path !in st.names
    && forall other | other in st.names :: !Conflict(e.path, e.directory, other, st.names[other])
  }

  /** The state a written entry leads to. */
  function Advanced(codec: Codec, st: State, e: Entry, local: nat): State {
    State(st.cursor + 46 + |e.raw|, st.total + |e.content|, st.names[e.path := e.directory], st.files[e.path := MemberFor(e)],
          st.spans + [(local, local + |LocalEntry(codec, e)|)])
  }

  lemma ExpectedExtends(codec: Codec, st: State, e: Entry, local: nat)
    requires e.directory ==> e.content == []
    ensures Extend(st, ExpectedCentral(codec, e, local), e.path, e.directory, local + |LocalEntry(codec, e)|, e.content)
         == Advanced(codec, st, e, local)
  {
    AttributesAccepted(codec, e, local);
  }

  /** A written entry takes the reader one step further, wherever it lies. */
  lemma EntryStepped(codec: Codec, p: bytes, central: nat, step: Stepper, st: State, e: Entry, local: nat)
    requires Admits(codec, p, st, e, local) && |p| <= MAX_PAYLOAD && central <= |p|
    requires StepsEntries(step, codec, p, central)
    ensures step(st) == Ok(Advanced(codec, st, e, local))
  {
    assert step(st) == Step(codec, p, central, st);
    HeaderRead(codec, p, st.cursor, e, local, st.total);
    NameRead(codec, e, local, st.names);
    EntryLocated(codec, p, st.cursor, e, local, central);
    ExpectedExtends(codec, st, e, local);
  }

  /** `p` holds the local entry and the central record of file `i` where the writer puts them. */
  ghost predicate WrittenAt(codec: Codec, es: seq<Entry>, p: bytes, i: nat)
    requires i < |es|
  {
    && At(p, |Locals(codec, es, i)|, LocalEntry(codec, es[i]))
    && At(p, CursorAt(codec, es, i), CentralEntry(codec, es[i], |Locals(codec, es, i)|))
  }

  lemma ArchiveWritten(codec: Codec, es: seq<Entry>, i: nat)
    requires i < |es|
    ensures WrittenAt(codec, es, Archive(codec, es), i)
  {
    LocalPlaced(codec, es, i);
    CentralPlaced(codec, es, i);
  }

  lemma StateAdmits(codec: Codec, es: seq<Entry>, p: bytes, i: nat)
    requires EntriesOk(codec, es) && i < |es| && WrittenAt(codec, es, p, i)
    ensures Admits(codec, p, StateAt(codec, es, i), es[i], |Locals(codec, es, i)|)
  {
    assert es[i] in es;
    ContentSizeGrows(es, i + 1, |es|);
    NamesBefore(es, i);
  }

  lemma StepAt(codec: Codec, es: seq<Entry>, p: bytes, central: nat, step: Stepper, i: nat)
    requires EntriesOk(codec, es) && i < |es|
    requires WrittenAt(codec, es, p, i) && |p| <= MAX_PAYLOAD && central <= |p|
    requires StepsEntries(step, codec, p, central)
    ensures step(StateAt(codec, es, i)) == Ok(StateAt(codec, es, i + 1))
  {
    StateAdmits(codec, es, p, i);
    EntryStepped(codec, p, central, step, StateAt(codec, es, i), es[i], |Locals(codec, es, i)|);
    StateNext(codec, es, i);
  }

  lemma StateNext(codec: Codec, es: seq<Entry>, i: nat)
    requires i < |es|
    ensures StateAt(codec, es, i + 1) == Advanced(codec, StateAt(codec, es, i), es[i], |Locals(codec, es, i)|)
  {
  }

  lemma {:induction false} WalkFrom(codec: Codec, es: seq<Entry>, p: bytes, central: nat, step: Stepper, i: nat)
    requires EntriesOk(codec, es) && |p| <= MAX_PAYLOAD && central <= |p|
    requires p == Archive(codec, es) && i <= |es|
    requires StepsEntries(step, codec, p, central)
    ensures Walk(step, |es| - i, StateAt(codec, es, i)) == Ok(StateAt(codec, es, |es|))
    decreases |es| - i
  {
    if i < |es| {
      ArchiveWritten(codec, es, i);
      StepAt(codec, es, p, central, step, i);
      WalkFrom(codec, es, p, central, step, i + 1);
      WalkUnfold(step, |es| - i, StateAt(codec, es, i), StateAt(codec, es, i + 1));
    }
  }

  lemma WalkUnfold(step: Stepper, n: nat, st: State, next: State)
    requires n > 0 && step(st) == Ok(next)
    ensures Walk(step, n, st) == Walk(step, n - 1, next)
  {
  }

  /** Spans written one after another are already in order, so sorting leaves them alone. */
  lemma {:induction false} SpansChained(codec: Codec, es: seq<Entry>, n: nat)
    requires n <= |es|
    ensures Chained(Spans(codec, es, n), 0, |Locals(codec, es, n)|)
    ensures forall s | s in Spans(codec, es, n) :: s.0 < s.1
  {
    if n > 0 {
      SpansChained(codec, es, n - 1);
      ChainedAppend(Spans(codec, es, n - 1), 0, |Locals(codec, es, n - 1)|, |Locals(codec, es, n)|);
    }
  }

  lemma {:induction false} ChainSorted(spans: seq<(nat, nat)>, from: nat, to: nat)
    requires Chained(spans, from, to)
    requires forall s | s in spans :: s.0 < s.1
    ensures Sort(SpanLess, spans) == spans
  {
    if |spans| > 1 {
      var rest := spans[1..];
      ChainSorted(rest, spans[0].1, to);
      assert rest[0] == spans[1] && rest[0].0 == spans[0].1;
      assert spans[0] in spans;
      assert SpanLess(spans[0], rest[0]);
      assert [spans[0]] + rest == spans;
    }
  }

  // ----- the round trip ------------------------------------------------------------------------

  /** No offset but the writer's own end record passes the end-record test. */
  ghost predicate SoleEnd(p: bytes) {
    forall at: nat | EndAt(p, at) :: at + 22 == |p|
  }

  lemma EndsOf(p: bytes)
    requires |p| >= 22 && EndAt(p, |p| - 22)
    ensures SoleEnd(p) ==> Ends(p, |p| - 22) == [|p| - 22]
    ensures !SoleEnd(p) ==> |Ends(p, |p| - 22)| > 1
  {
    var ends, own := Ends(p, |p| - 22), |p| - 22;
    assert own in ends;
    assert |ends| > 1 ==> ends[0] > ends[1];
    if SoleEnd(p) {
      forall i | 0 <= i < |ends|
        ensures ends[i] == own
      {
        assert ends[i] in ends;
      }
    } else {
      var at: nat :| EndAt(p, at) && at != own;
      assert at in ends;
      var i :| 0 <= i < |ends| && ends[i] == at;
      var j :| 0 <= j < |ends| && ends[j] == own;
    }
  }

  lemma EndFields(p: bytes, count: nat, size: nat, central: nat)
    requires |p| >= 22 && At(p, |p| - 22, EndHeader(count, size, central, 0))
    requires count < 0x1_0000 && size < 0x1_0000_0000 && central < 0x1_0000_0000
    ensures EndAt(p, |p| - 22)
    ensures var end := |p| - 22;
      && U16(p, end + 4) == 0 && U16(p, end + 6) == 0 && U16(p, end + 8) == count && U16(p, end + 10) == count
      && U32(p, end + 12) == size && U32(p, end + 16) == central
  {
    var h, end := EndHeader(count, size, central, 0), |p| - 22;
    EndHeaderFields(count, size, central, 0);
    Shift32(p, end, h, 0);
    Shift16(p, end, h, 4);
    Shift16(p, end, h, 6);
    Shift16(p, end, h, 8);
    Shift16(p, end, h, 10);
    Shift32(p, end, h, 12);
    Shift32(p, end, h, 16);
    Shift16(p, end, h, 20);
  }

  lemma EndRead(codec: Codec, es: seq<Entry>)
    requires TreeOk(codec, es)
    ensures var p := Archive(codec, es);
      && EndAt(p, |p| - 22)
      && ReadEnd(p) == if SoleEnd(p) then Ok(Directory(|p| - 22, |es|, |Locals(codec, es, |es|)|)) else Err(Invalid)
  {
    var p := Archive(codec, es);
    EndPlaced(codec, es);
    EndFields(p, |es|, |Centrals(codec, es, |es|)|, |Locals(codec, es, |es|)|);
    EndsOf(p);
  }

  lemma ReadAccepts(codec: Codec, p: bytes, d: Directory, st: State)
    requires ReadEnd(p) == Ok(d)
    requires Walk(EntryStep(codec, p, d.central), d.count, Start(d.central)) == Ok(st)
    requires st.cursor == d.end && Chained(Sort(SpanLess, st.spans), 0, d.central)
    ensures Read(codec, p) == Ok(st.files)
  {
  }

  /**
   Writing a tree and reading it back returns the tree, exactly when the written bytes
   contain no second end record; with one, the reader reports an invalid archive.
   */
  lemma RoundTrip(codec: Codec, es: seq<Entry>)
    requires TreeOk(codec, es)
    ensures var p := Archive(codec, es);
      Read(codec, p) == if SoleEnd(p) then Ok(Tree(es, |es|)) else Err(Invalid)
  {
    var p, central := Archive(codec, es), |Locals(codec, es, |es|)|;
    EndRead(codec, es);
    if SoleEnd(p) {
      EndPlaced(codec, es);
      WalkFrom(codec, es, p, central, EntryStep(codec, p, central), 0);
      assert StateAt(codec, es, 0) == Start(central);
      SpansChained(codec, es, |es|);
      ChainSorted(Spans(codec, es, |es|), 0, central);
      ReadAccepts(codec, p, Directory(|p| - 22, |es|, central), StateAt(codec, es, |es|));
    }
  }

  /** An end record before the writer's own whose comment takes up the rest of the payload. */
  ghost predicate Foreign(codec: Codec, es: seq<Entry>, at: nat) {
    var p, end := Archive(codec, es), |Locals(codec, es, |es|)| + |Centrals(codec, es, |es|)|;
    at < end && end + 22 == |p| && EndAt(p, at) && U16(p, at + 20) == end - at
  }

  /** The archive of a tree is refused exactly when its entries and records hold such an end record. */
  lemma ForeignEnd(codec: Codec, es: seq<Entry>)
    requires TreeOk(codec, es)
    ensures Read(codec, Archive(codec, es)) == Err(Invalid) <==> exists at: nat :: Foreign(codec, es, at)
  {
    var p := Archive(codec, es);
    RoundTrip(codec, es);
    EndPlaced(codec, es);
    if !SoleEnd(p) {
      var at: nat :| EndAt(p, at) && at + 22 != |p|;
      assert Foreign(codec, es, at);
    }
    if at: nat :| Foreign(codec, es, at) {
      assert EndAt(p, at) && at + 22 != |p|;
    }
  }

  /** A one-file tree whose content is itself an end record reaching to the end of the payload. */
  function Hostile(): seq<Entry> {
    var content := EndHeader(0, 0, 0, 69);
    [Entry([97], "a", content, content, false, false, false)]
  }

  lemma SingleLetterAllowed()
    ensures PathAllowed("a")
  {
    var name: string := "a";
    var rest := Split(name[1..]);
    assert name[0] == 'a' && name[1..] == "";
    assert rest == [""] && rest[1..] == [];
    assert Split(name) == [[name[0]] + rest[0]] + rest[1..];
    assert [name[0]] + rest[0] == name;
    assert Split(name) == [name];
  }

  lemma HostileTree(codec: Codec)
    requires codec.decodeUtf8([97]) == Some("a") && codec.isNfc("a")
    ensures TreeOk(codec, Hostile())
    ensures |Archive(codec, Hostile())| == 122
  {
    var es := Hostile();
    SingleLetterAllowed();
    assert EntryOk(codec, es[0]);
    assert ContentSize(es, 1) == ContentSize(es, 0) + 22;
    assert Locals(codec, es, 1) == LocalEntry(codec, es[0]) && |LocalEntry(codec, es[0])| == 53;
    assert Centrals(codec, es, 1) == CentralEntry(codec, es[0], 0) && |CentralEntry(codec, es[0], 0)| == 47;
  }

  /** The condition of `RoundTrip` is needed: this tree is well formed, and its archive is refused. */
  lemma EmbeddedEndRefused(codec: Codec)
    requires codec.decodeUtf8([97]) == Some("a") && codec.isNfc("a")
    ensures TreeOk(codec, Hostile())
    ensures Read(codec, Archive(codec, Hostile())) == Err(Invalid)
  {
    HostileTree(codec);
    var p, e := Archive(codec, Hostile()), Hostile()[0];
    LocalPlaced(codec, Hostile(), 0);
    LocalPartsAt(codec, p, 0, e);
    ContentEnd(p, e.content);
    RoundTrip(codec, Hostile());
  }

  lemma ContentEnd(p: bytes, h: bytes)
    requires |p| == 122 && h == EndHeader(0, 0, 0, 69) && p[31..53] == h
    ensures EndAt(p, 31)
  {
    EndHeaderFields(0, 0, 0, 69);
    Shift32(p, 31, h, 0);
    Shift16(p, 31, h, 20);
  }
}
