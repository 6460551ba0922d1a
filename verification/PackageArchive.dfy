/**
 The bounded ZIP32 reader: end record, central directory, local headers, extra fields
 and data descriptors (PKWARE APPNOTE.TXT 4.3.7, 4.3.9, 4.3.12, 4.3.16, 4.5).

 `ReadPackageArchive` is the reader as a loop over mutable cursor, totals, names and
 spans; `Read` is the value it computes. What acceptance means for the bytes is proved
 in `ArchiveAccounting`, the round trip with a writer in `ArchiveRoundTrip`.
 */
module PackageArchive {
  import opened Wrappers
  import opened Ordering

  type byte = x: int | 0 <= x < 256
  type bytes = seq<byte>
  type word32 = x: int | 0 <= x < 0x1_0000_0000

  /**
   The parts of the platform the reader calls: UTF-8 decoding, the NFC test, CRC-32, and raw
   inflate. `inflate(data, limit)` is `Some` when the stream ends within `limit` output bytes
   with no input left over.
   */
  datatype Codec = Codec(
    decodeUtf8: bytes -> Option<string>,
    isNfc: string -> bool,
    crc32: bytes -> word32,
    inflate: (bytes, nat) -> Option<bytes>)

  datatype PackageError = Invalid | Unsafe | LimitExceeded

  datatype Member = Member(content: bytes, executable: bool, directory: bool)

  const MAX_PAYLOAD := 33554432
  const MAX_ENTRIES := 128
  const MAX_FILE := 16777216
  const MAX_TOTAL := 134217728
  const MAX_NAME := 256
  const END_SIGNATURE := 0x06054B50
  const CENTRAL_SIGNATURE := 0x02014B50
  const LOCAL_SIGNATURE := 0x04034B50
  const DESCRIPTOR_SIGNATURE := 0x08074B50
  const SENTINEL32 := 0xFFFFFFFF

  function U16(p: bytes, at: nat): (v: nat)
    requires at + 2 <= |p|
    ensures v < 0x1_0000
  {
    p[at] as int + 256 * (p[at + 1] as int)
  }

  function U32(p: bytes, at: nat): (v: nat)
    requires at + 4 <= |p|
    ensures v < 0x1_0000_0000
  {
    p[at] as int + 256 * (p[at + 1] as int) + 65536 * (p[at + 2] as int) + 16777216 * (p[at + 3] as int)
  }

  // ----- end of central directory -------------------------------------------

  /** `at` holds an end record whose comment runs exactly to the end of the payload. */
  predicate EndAt(p: bytes, at: nat) {
    at + 22 <= |p| && U32(p, at) == END_SIGNATURE && at + 22 + U16(p, at + 20) == |p|
  }

  /** The descending scan over every position a comment of at most 65535 bytes allows. */
  function Ends(p: bytes, from: int): (r: seq<nat>)
    requires from + 22 <= |p|
    ensures forall at: nat :: at in r <==> at <= from && |p| - 65557 <= at && EndAt(p, at)
    ensures forall i, j | 0 <= i < j < |r| :: r[i] > r[j]
    decreases from + 1
  {
    if from < 0 || from < |p| - 65557 then []
    else
      var rest := Ends(p, from - 1);
      assert forall i | 0 <= i < |rest| :: rest[i] in rest && rest[i] < from;
      if EndAt(p, from) then [from] + rest else rest
  }

  // ----- records --------------------------------------------------------------

  datatype CentralRecord = CentralRecord(
    version: nat, flags: nat, compression: nat, crc: nat, compressed: nat, size: nat,
    nameSize: nat, extraSize: nat, commentSize: nat, disk: nat, attributes: nat, local: nat)
  {
    function Width(): nat {
      46 + nameSize + extraSize + commentSize
    }
  }

  function CentralAt(p: bytes, at: nat): CentralRecord
    requires at + 46 <= |p|
  {
    CentralRecord(U16(p, at + 6), U16(p, at + 8), U16(p, at + 10), U32(p, at + 16), U32(p, at + 20), U32(p, at + 24),
                  U16(p, at + 28), U16(p, at + 30), U16(p, at + 32), U16(p, at + 34), U32(p, at + 38), U32(p, at + 42))
  }

  /** The lowest bit of `n`; bit k of `n` is the lowest bit of `n / 2^k`. */
  predicate Odd(n: nat) {
    n % 2 == 1
  }

  predicate HasDescriptor(flags: nat) {
    Odd(flags / 8)
  }

  predicate Utf8Name(flags: nat) {
    Odd(flags / 0x800)
  }

  /** No flag outside 0x808 is set, apart from the two deflate option bits on deflated entries. */
  predicate FlagsAllowed(flags: nat, compression: nat) {
    || flags in {0, 8, 0x800, 0x808}
    || (compression == 8 && flags in {2, 4, 6, 10, 12, 14, 0x802, 0x804, 0x806, 0x80A, 0x80C, 0x80E})
  }

  function ReadHeader(p: bytes, cursor: nat, total: nat): (r: Result<CentralRecord, PackageError>)
    ensures r.Ok? ==> cursor + 46 <= |p| && r.value == CentralAt(p, cursor) && cursor + r.value.Width() <= |p|
  {
    if cursor + 46 > |p| || U32(p, cursor) != CENTRAL_SIGNATURE then Err(Invalid)
    else
      var c := CentralAt(p, cursor);
      if c.disk != 0 || c.compressed == SENTINEL32 || c.size == SENTINEL32 || c.local == SENTINEL32 then Err(Invalid)
      else if c.compression !in {0, 8} || !FlagsAllowed(c.flags, c.compression) then Err(Unsafe)
      else if c.size > MAX_FILE || total + c.size > MAX_TOTAL || c.nameSize > MAX_NAME then Err(LimitExceeded)
      else if cursor + c.Width() > |p| then Err(Invalid)
      else Ok(c)
  }

  // ----- names ----------------------------------------------------------------

  function Split(s: string): (r: seq<string>)
    ensures r != []
  {
    if s == "" then [""]
    else
      var rest := Split(s[1..]);
      if s[0] == '/' then [""] + rest else [[s[0]] + rest[0]] + rest[1..]
  }

  predicate IsLetter(c: char) {
    'a' <= c <= 'z' || 'A' <= c <= 'Z'
  }

  predicate IsAscii(raw: bytes) {
    forall b | b in raw :: b < 128
  }

  /** The path is usable: relative, with plain segments, no drive letter, backslash or NUL. */
  predicate PathAllowed(path: string) {
    && path != ""
    && !(|path| >= 2 && IsLetter(path[0]) && path[1] == ':')
    && '\\' !in path
    && '\0' !in path
    && forall s | s in Split(path) :: s !in {"", ".", ".."}
  }

  predicate StartsWith(s: string, prefix: string) {
    prefix <= s
  }

  /** One of two names would have to be a directory, and is not. */
  predicate Conflict(path: string, directory: bool, other: string, otherDirectory: bool) {
    || (StartsWith(path, other + "/") && !otherDirectory)
    || (StartsWith(other, path + "/") && !directory)
  }

  predicate AttributesAllowed(c: CentralRecord, directory: bool) {
    var kind := c.attributes / 0x1000_0000;
    && kind in {0, 8, 4}
    && !(kind == 8 && directory)
    && !(kind == 4 && !directory)
    && Odd(c.attributes / 16) == directory
    && !(directory && c.size != 0)
  }

  /** Any of the three execute bits of the Unix mode in the upper half of the attributes. */
  predicate Executable(attributes: nat) {
    var mode := attributes / 65536;
    Odd(mode) || Odd(mode / 8) || Odd(mode / 64)
  }

  function ReadName(codec: Codec, raw: bytes, c: CentralRecord, names: map<string, bool>): Result<(string, bool), PackageError>
  {
    match codec.decodeUtf8(raw)
    case None => Err(Unsafe)
    case Some(name) =>
      var directory := name != "" && name[|name| - 1] == '/';
      var path := if directory then name[..|name| - 1] else name;
      if || (name != "" && name[0] == '\U{FEFF}')
         || (!Utf8Name(c.flags) && !IsAscii(raw))
         || !codec.isNfc(name)
         || !PathAllowed(path)
         || path in names then Err(Unsafe)
      else if exists other | other in names :: Conflict(path, directory, other, names[other]) then Err(Unsafe)
      else if !AttributesAllowed(c, directory) then Err(Unsafe)
      else Ok((path, directory))
  }

  // ----- extra fields -----------------------------------------------------------

  /** Tag-length-value blocks fill `[at, end)`, no tag twice, none of the two unsafe tags. */
  predicate ExtraFrom(p: bytes, at: nat, end: nat, seen: set<nat>)
    requires end <= |p|
    decreases if at <= end then end - at else 0
  {
    at >= end
    || (&& at + 4 <= end
        && var tag, count := U16(p, at), U16(p, at + 2);
        && at + 4 + count <= end
        && tag !in seen
        && tag !in {1, 0x7075}
        && ExtraFrom(p, at + 4 + count, end, seen + {tag}))
  }

  predicate ExtraOk(p: bytes, at: nat, size: nat) {
    at + size <= |p| && ExtraFrom(p, at, at + size, {})
  }

  method CheckExtra(p: bytes, at: nat, size: nat) returns (ok: bool)
    ensures ok == ExtraOk(p, at, size)
  {
    if at + size > |p| {
      return false;
    }
    var offset, end := at, at + size;
    var seen: set<nat> := {};
    while offset < end
      invariant at <= offset <= end
      invariant ExtraOk(p, at, size) == ExtraFrom(p, offset, end, seen)
    {
      if offset + 4 > end {
        return false;
      }
      var tag, count := U16(p, offset), U16(p, offset + 2);
      offset := offset + 4;
      if offset + count > end || tag in seen || tag in {1, 0x7075} {
        return false;
      }
      seen := seen + {tag};
      offset := offset + count;
    }
    return true;
  }

  // ----- local header, data and descriptor ----------------------------------------

  predicate WordsAt(p: bytes, at: nat, c: CentralRecord)
    requires at + 12 <= |p|
  {
    U32(p, at) == c.crc && U32(p, at + 4) == c.compressed && U32(p, at + 8) == c.size
  }

  /** Where the entry ends: exactly one of the two descriptor layouts must match. */
  function DescriptorEnd(p: bytes, at: nat, c: CentralRecord, central: nat): Result<nat, PackageError>
    requires central <= |p|
  {
    var plain := at + 12 <= central && WordsAt(p, at, c);
    var signed := at + 16 <= central && U32(p, at) == DESCRIPTOR_SIGNATURE && WordsAt(p, at + 4, c);
    if plain == signed then Err(Invalid)
    else if plain then Ok(at + 12)
    else Ok(at + 16)
  }

  predicate LocalMatches(p: bytes, raw: bytes, c: CentralRecord) {
    var at := c.local;
    && at + 30 <= |p|
    && U32(p, at) == LOCAL_SIGNATURE
    && U16(p, at + 4) == c.version
    && c.version <= 20
    && U16(p, at + 6) == c.flags
    && U16(p, at + 8) == c.compression
    && U16(p, at + 26) == c.nameSize
    && at + 30 + c.nameSize <= |p|
    && p[at + 30..at + 30 + c.nameSize] == raw
  }

  /** CRC and sizes repeat the central record, or are all zero in front of a descriptor. */
  predicate SizesMatch(p: bytes, c: CentralRecord)
    requires c.local + 30 <= |p|
  {
    || WordsAt(p, c.local + 14, c)
    || (HasDescriptor(c.flags) && U32(p, c.local + 14) == 0 && U32(p, c.local + 18) == 0 && U32(p, c.local + 22) == 0)
  }

  function DataStart(p: bytes, c: CentralRecord): nat
    requires c.local + 30 <= |p|
  {
    c.local + 30 + c.nameSize + U16(p, c.local + 28)
  }

  /** The end of the local entry, after its header has been checked against the central record. */
  function ReadLocal(p: bytes, raw: bytes, c: CentralRecord, central: nat): (r: Result<nat, PackageError>)
    requires central <= |p|
    ensures r.Ok? ==> c.local + 30 <= |p| && DataStart(p, c) + c.compressed <= |p|
    ensures r.Ok? ==> c.local < r.value
  {
    if !LocalMatches(p, raw, c) then Err(Invalid)
    else if !ExtraOk(p, c.local + 30 + c.nameSize, U16(p, c.local + 28)) then Err(Invalid)
    else if DataStart(p, c) + c.compressed > |p| then Err(Invalid)
    else if !SizesMatch(p, c) then Err(Invalid)
    else if HasDescriptor(c.flags) then DescriptorEnd(p, DataStart(p, c) + c.compressed, c, central)
    else Ok(DataStart(p, c) + c.compressed)
  }

  function ReadContent(codec: Codec, encoded: bytes, c: CentralRecord): (r: Result<bytes, PackageError>)
    ensures r.Ok? ==> |r.value| == c.size && codec.crc32(r.value) == c.crc
  {
    var data := if c.compression == 8 then codec.inflate(encoded, c.size + 1) else Some(encoded);
    if data.None? || |data.value| != c.size || codec.crc32(data.value) != c.crc then Err(Invalid)
    else Ok(data.value)
  }

  // ----- the walk over the central directory ----------------------------------------

  datatype State = State(cursor: nat, total: nat, names: map<string, bool>, files: map<string, Member>, spans: seq<(nat, nat)>)

  /** The raw name bytes of the central record at `cursor`. */
  function RawName(p: bytes, cursor: nat, c: CentralRecord): bytes
    requires cursor + 46 + c.nameSize <= |p|
  {
    p[cursor + 46..cursor + 46 + c.nameSize]
  }

  function Encoded(p: bytes, c: CentralRecord): bytes
    requires c.local + 30 <= |p| && DataStart(p, c) + c.compressed <= |p|
  {
    p[DataStart(p, c)..DataStart(p, c) + c.compressed]
  }

  /** One iteration of the reader's loop. */
  function Step(codec: Codec, p: bytes, central: nat, st: State): Result<State, PackageError>
    requires central <= |p|
  {
    var c :- ReadHeader(p, st.cursor, st.total);
    var named :- ReadName(codec, RawName(p, st.cursor, c), c, st.names);
    var located :- Locate(codec, p, central, st.cursor, c);
    Ok(Extend(st, c, named.0, named.1, located.0, located.1))
  }

  /** The rest of an entry once its name is known: extra fields, local entry, content. */
  function Locate(codec: Codec, p: bytes, central: nat, cursor: nat, c: CentralRecord): Result<(nat, bytes), PackageError>
    requires central <= |p| && cursor + c.Width() <= |p|
  {
    if !ExtraOk(p, cursor + 46 + c.nameSize, c.extraSize) then Err(Invalid)
    else
      var finish :- ReadLocal(p, RawName(p, cursor, c), c, central);
      var data :- ReadContent(codec, Encoded(p, c), c);
      Ok((finish, data))
  }

  function Extend(st: State, c: CentralRecord, path: string, directory: bool, finish: nat, data: bytes): State {
    State(
      st.cursor + c.Width(),
      st.total + c.size,
      st.names[path := directory],
      st.files[path := Member(data, Executable(c.attributes), directory)],
      st.spans + [(c.local, finish)])
  }

  type Stepper = State -> Result<State, PackageError>

  function EntryStep(codec: Codec, p: bytes, central: nat): Stepper
    requires central <= |p|
  {
    st => Step(codec, p, central, st)
  }

  /** `step` is the entry step of this payload. */
  ghost predicate StepsEntries(step: Stepper, codec: Codec, p: bytes, central: nat)
    requires central <= |p|
  {
    forall st {:trigger Step(codec, p, central, st)} :: step(st) == Step(codec, p, central, st)
  }

  /** `n` iterations, stopping at the first error. */
  function Walk(step: Stepper, n: nat, st: State): Result<State, PackageError> {
    if n == 0 then Ok(st)
    else
      var next :- step(st);
      Walk(step, n - 1, next)
  }

  /** The states between the iterations of an accepted walk. */
  ghost predicate Trail(step: Stepper, states: seq<State>) {
    states != [] && forall i | 0 < i < |states| :: step(states[i - 1]) == Ok(states[i])
  }

  // ----- tiling -------------------------------------------------------------------

  predicate SpanLess(a: (nat, nat), b: (nat, nat)) {
    a.0 < b.0 || (a.0 == b.0 && a.1 < b.1)
  }

  /** Each span starts where the one before it stopped, the first at `from`, the last ending at `to`. */
  predicate Chained(spans: seq<(nat, nat)>, from: nat, to: nat) {
    if spans == [] then from == to else spans[0].0 == from && Chained(spans[1..], spans[0].1, to)
  }

  lemma {:induction false} ChainedAppend(spans: seq<(nat, nat)>, from: nat, mid: nat, to: nat)
    requires Chained(spans, from, mid)
    ensures Chained(spans + [(mid, to)], from, to)
  {
    if spans != [] {
      ChainedAppend(spans[1..], spans[0].1, mid, to);
      assert (spans + [(mid, to)])[1..] == spans[1..] + [(mid, to)];
    } else {
      assert (spans + [(mid, to)])[1..] == [];
    }
  }

  method CheckTiling(spans: seq<(nat, nat)>, central: nat) returns (ok: bool)
    ensures ok == Chained(Sort(SpanLess, spans), 0, central)
  {
    var ordered := Sort(SpanLess, spans);
    var position := 0;
    assert ordered[0..] == ordered;
    for i := 0 to |ordered|
      invariant Chained(ordered, 0, central) == Chained(ordered[i..], position, central)
    {
      var (start, finish) := ordered[i];
      assert ordered[i..][0] == ordered[i] && ordered[i..][1..] == ordered[i + 1..];
      if start != position {
        return false;
      }
      position := finish;
    }
    ok := position == central;
  }

  // ----- the reader ---------------------------------------------------------------

  datatype Directory = Directory(end: nat, count: nat, central: nat)

  function ReadEnd(p: bytes): (r: Result<Directory, PackageError>)
    ensures r.Ok? ==> r.value.central <= r.value.end && EndAt(p, r.value.end) && r.value.count <= MAX_ENTRIES
  {
    if |p| > MAX_PAYLOAD then Err(LimitExceeded)
    else
      var ends := Ends(p, |p| - 22);
      if |ends| != 1 then Err(Invalid)
      else
        var end := ends[0];
        assert end in ends;
        var count, size, central := U16(p, end + 10), U32(p, end + 12), U32(p, end + 16);
        if || U16(p, end + 4) != 0
           || U16(p, end + 6) != 0
           || U16(p, end + 8) != count
           || count == 65535
           || size == SENTINEL32
           || central == SENTINEL32
           || central + size != end then Err(Invalid)
        else if count > MAX_ENTRIES then Err(LimitExceeded)
        else Ok(Directory(end, count, central))
  }

  function Start(central: nat): State {
    State(central, 0, map[], map[], [])
  }

  function Read(codec: Codec, p: bytes): Result<map<string, Member>, PackageError> {
    var d :- ReadEnd(p);
    var st :- Walk(EntryStep(codec, p, d.central), d.count, Start(d.central));
    if st.cursor != d.end || !Chained(Sort(SpanLess, st.spans), 0, d.central) then Err(Invalid)
    else Ok(st.files)
  }

  /** The checks of one entry after its name, in the order the reader makes them. */
  method LocateEntry(codec: Codec, p: bytes, central: nat, cursor: nat, c: CentralRecord) returns (r: Result<(nat, bytes), PackageError>)
    requires central <= |p| && cursor + c.Width() <= |p|
    ensures r == Locate(codec, p, central, cursor, c)
  {
    var extraOk := CheckExtra(p, cursor + 46 + c.nameSize, c.extraSize);
    if !extraOk {
      return Err(Invalid);
    }
    var finish :- ReadLocal(p, RawName(p, cursor, c), c, central);
    var data :- ReadContent(codec, Encoded(p, c), c);
    return Ok((finish, data));
  }

  /** The body of the loop: one central record and the local entry it points at. */
  method ReadEntry(codec: Codec, p: bytes, central: nat, cursor: nat, total: nat, names: map<string, bool>, files: map<string, Member>, spans: seq<(nat, nat)>, ghost step: Stepper)
    returns (r: Result<State, PackageError>)
    requires central <= |p| && StepsEntries(step, codec, p, central)
    ensures r == step(State(cursor, total, names, files, spans))
  {
    ghost var st := State(cursor, total, names, files, spans);
    assert step(st) == Step(codec, p, central, st);
    var c :- ReadHeader(p, cursor, total);
    var named :- ReadName(codec, RawName(p, cursor, c), c, names);
    var located :- LocateEntry(codec, p, central, cursor, c);
    r := Ok(Extend(State(cursor, total, names, files, spans), c, named.0, named.1, located.0, located.1));
  }

  method WalkDirectory(codec: Codec, p: bytes, central: nat, count: nat, ghost step: Stepper) returns (r: Result<State, PackageError>)
    requires central <= |p| && StepsEntries(step, codec, p, central)
    ensures r == Walk(step, count, Start(central))
  {
    var cursor: nat, total: nat := central, 0;
    var names: map<string, bool> := map[];
    var files: map<string, Member> := map[];
    var spans: seq<(nat, nat)> := [];
    ghost var st := Start(central);
    for i := 0 to count
      invariant Walk(step, count - i, st) == Walk(step, count, Start(central))
      invariant st == State(cursor, total, names, files, spans)
    {
      var next :- ReadEntry(codec, p, central, cursor, total, names, files, spans, step);
      cursor, total := next.cursor, next.total;
      names, files, spans := next.names, next.files, next.spans;
      st := next;
    }
    return Ok(State(cursor, total, names, files, spans));
  }

  method ReadPackageArchive(codec: Codec, p: bytes) returns (r: Result<map<string, Member>, PackageError>)
    ensures r == Read(codec, p)
  {
    var d :- ReadEnd(p);
    var st :- WalkDirectory(codec, p, d.central, d.count, EntryStep(codec, p, d.central));
    if st.cursor != d.end {
      return Err(Invalid);
    }
    var tiled := CheckTiling(st.spans, d.central);
    if !tiled {
      return Err(Invalid);
    }
    return Ok(st.files);
  }
}
