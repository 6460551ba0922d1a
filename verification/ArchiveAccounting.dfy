/**
 What acceptance of an archive means: every byte of the payload belongs to exactly one
 local entry, central record or the end record, and the names form a tree.
 */
module ArchiveAccounting {
  import opened Wrappers
  import opened Ordering
  import opened PackageArchive

  /** One accepted entry: where its central record is, what it names, where its local span ends. */
  datatype Record = Record(cursor: nat, central: CentralRecord, path: string, directory: bool, finish: nat, data: bytes)

  /** The record agrees with the bytes it was read from. */
  ghost predicate RecordOk(codec: Codec, p: bytes, central: nat, r: Record) {
    var c := r.central;
    && r.cursor + c.Width() <= |p| && U32(p, r.cursor) == CENTRAL_SIGNATURE && c == CentralAt(p, r.cursor)
    && codec.decodeUtf8(RawName(p, r.cursor, c)) == Some(if r.directory then r.path + "/" else r.path)
    && PathAllowed(r.path)
    && c.size <= MAX_FILE
    && (r.directory ==> r.data == [])
    && LocatedOk(codec, p, central, r.cursor, c, r.finish, r.data)
  }

  /** A descriptor of the given length before the directory, which repeats checksum and sizes. */
  ghost predicate DescriptorAt(p: bytes, central: nat, c: CentralRecord, at: nat, length: nat) {
    && at + length <= central <= |p|
    && ((length == 12 && WordsAt(p, at, c)) || (length == 16 && U32(p, at) == DESCRIPTOR_SIGNATURE && WordsAt(p, at + 4, c)))
  }

  /** Without a descriptor the entry ends with its data; with one, at the only descriptor that fits. */
  ghost predicate FinishOk(p: bytes, central: nat, c: CentralRecord, dataEnd: nat, finish: nat) {
    if HasDescriptor(c.flags) then
      dataEnd <= finish && forall length: nat :: DescriptorAt(p, central, c, dataEnd, length) <==> finish == dataEnd + length
    else finish == dataEnd
  }

  /** The local entry repeats the central record and holds content of the promised size and checksum. */
  ghost predicate LocatedOk(codec: Codec, p: bytes, central: nat, cursor: nat, c: CentralRecord, finish: nat, data: bytes)
    requires cursor + c.Width() <= |p|
  {
    && LocalMatches(p, RawName(p, cursor, c), c)
    && ExtraOk(p, cursor + 46 + c.nameSize, c.extraSize)
    && ExtraOk(p, c.local + 30 + c.nameSize, U16(p, c.local + 28))
    && DataStart(p, c) + c.compressed <= |p|
    && SizesMatch(p, c) && FinishOk(p, central, c, DataStart(p, c) + c.compressed, finish)
    && |data| == c.size && codec.crc32(data) == c.crc
    && (if c.compression == 8 then codec.inflate(Encoded(p, c), c.size + 1) == Some(data) else data == Encoded(p, c))
  }

  ghost predicate AllOk(codec: Codec, p: bytes, central: nat, records: seq<Record>) {
    forall r | r in records :: RecordOk(codec, p, central, r)
  }

  function MemberOf(r: Record): Member {
    Member(r.data, Executable(r.central.attributes), r.directory)
  }

  function LocalSpans(records: seq<Record>): (spans: seq<(nat, nat)>)
    ensures |spans| == |records|
  {
    if records == [] then []
    else
      var last := records[|records| - 1];
      LocalSpans(records[..|records| - 1]) + [(last.central.local, last.finish)]
  }

  function CentralSpans(records: seq<Record>): (spans: seq<(nat, nat)>)
    ensures |spans| == |records|
  {
    if records == [] then []
    else
      var last := records[|records| - 1];
      CentralSpans(records[..|records| - 1]) + [(last.cursor, last.cursor + last.central.Width())]
  }

  function TotalSize(records: seq<Record>): nat {
    if records == [] then 0
    else TotalSize(records[..|records| - 1]) + |records[|records| - 1].data|
  }

  /** How many of the half-open spans contain byte `b`. */
  function CoverCount(spans: seq<(nat, nat)>, b: nat): nat {
    if spans == [] then 0
    else (if spans[0].0 <= b < spans[0].1 then 1 else 0) + CoverCount(spans[1..], b)
  }

  ghost predicate DistinctPaths(records: seq<Record>) {
    forall i, j | 0 <= i < j < |records| :: records[i].path != records[j].path
  }

  /** No file lies above another name. */
  ghost predicate NoFileAncestor(files: map<string, Member>) {
    forall a, b | a in files && b in files && StartsWith(b, a + "/") :: files[a].directory
  }

  /** Every region the archive is made of. */
  function Regions(p: bytes, end: nat, records: seq<Record>): seq<(nat, nat)> {
    LocalSpans(records) + CentralSpans(records) + [(end, |p|)]
  }

  /** Each byte of the payload lies in exactly one region. */
  ghost predicate CoveredOnce(p: bytes, end: nat, records: seq<Record>) {
    forall b: nat | b < |p| :: CoverCount(Regions(p, end, records), b) == 1
  }

  // ----- following the walk --------------------------------------------------------

  ghost predicate Listed(files: map<string, Member>, records: seq<Record>) {
    && DistinctPaths(records)
    && (forall r | r in records :: r.path in files && files[r.path] == MemberOf(r))
    && (forall path | path in files :: exists r :: r in records && r.path == path)
  }

  ghost predicate TracksSpans(central: nat, records: seq<Record>, st: State) {
    && st.spans == LocalSpans(records)
    && Chained(CentralSpans(records), central, st.cursor)
    && st.total == TotalSize(records) <= MAX_TOTAL
  }

  ghost predicate TracksNames(records: seq<Record>, names: map<string, bool>, files: map<string, Member>) {
    && Listed(files, records)
    && names.Keys == files.Keys
    && (forall path | path in files :: names[path] == files[path].directory)
    && NoFileAncestor(files)
  }

  lemma NameRecorded(codec: Codec, raw: bytes, c: CentralRecord, names: map<string, bool>, path: string, directory: bool)
    requires ReadName(codec, raw, c, names) == Ok((path, directory))
    ensures codec.decodeUtf8(raw) == Some(if directory then path + "/" else path)
    ensures PathAllowed(path) && path !in names
    ensures forall other | other in names :: !Conflict(path, directory, other, names[other])
    ensures directory ==> c.size == 0
  {
    var name := codec.decodeUtf8(raw).value;
    if directory {
      assert name == name[..|name| - 1] + "/";
    }
  }

  lemma StepRecord(codec: Codec, p: bytes, central: nat, st: State) returns (r: Record, next: State)
    requires central <= |p| && Step(codec, p, central, st).Ok?
    ensures Step(codec, p, central, st) == Ok(next)
    ensures next == Extend(st, r.central, r.path, r.directory, r.finish, r.data)
    ensures r.cursor == st.cursor
    ensures RecordOk(codec, p, central, r)
    ensures r.path !in st.names
    ensures forall other | other in st.names :: !Conflict(r.path, r.directory, other, st.names[other])
    ensures st.total + |r.data| <= MAX_TOTAL
  {
    var c := ReadHeader(p, st.cursor, st.total).value;
    var raw := RawName(p, st.cursor, c);
    var named := ReadName(codec, raw, c, st.names).value;
    var located := Locate(codec, p, central, st.cursor, c).value;
    r := Record(st.cursor, c, named.0, named.1, located.0, located.1);
    next := Extend(st, c, named.0, named.1, located.0, located.1);
    LocatedRecord(codec, p, central, st.cursor, c);
    NameRecorded(codec, raw, c, st.names, r.path, r.directory);
  }

  lemma LocatedRecord(codec: Codec, p: bytes, central: nat, cursor: nat, c: CentralRecord)
    requires central <= |p| && cursor + c.Width() <= |p|
    requires Locate(codec, p, central, cursor, c).Ok?
    ensures var (finish, data) := Locate(codec, p, central, cursor, c).value; LocatedOk(codec, p, central, cursor, c, finish, data)
  {
  }

  lemma ListedExtend(files: map<string, Member>, records: seq<Record>, r: Record)
    requires Listed(files, records) && r.path !in files
    ensures Listed(files[r.path := MemberOf(r)], records + [r])
  {
    var after := records + [r];
    assert after[|records|] == r;
    forall i, j | 0 <= i < j < |after|
      ensures after[i].path != after[j].path
    {
      assert after[i] in records;
    }
    forall path | path in files.Keys + {r.path}
      ensures exists s :: s in after && s.path == path
    {
      if path == r.path {
        assert r in after;
      } else {
        var s :| s in records && s.path == path;
        assert s in after;
      }
    }
  }

  lemma SpansExtend(records: seq<Record>, r: Record)
    ensures LocalSpans(records + [r]) == LocalSpans(records) + [(r.central.local, r.finish)]
    ensures CentralSpans(records + [r]) == CentralSpans(records) + [(r.cursor, r.cursor + r.central.Width())]
    ensures TotalSize(records + [r]) == TotalSize(records) + |r.data|
  {
    assert (records + [r])[..|records|] == records;
  }

  lemma TreeExtend(names: map<string, bool>, files: map<string, Member>, r: Record)
    requires names.Keys == files.Keys
    requires forall path | path in files :: names[path] == files[path].directory
    requires NoFileAncestor(files)
    requires forall other | other in names :: !Conflict(r.path, r.directory, other, names[other])
    ensures NoFileAncestor(files[r.path := MemberOf(r)])
  {
    var after := files[r.path := MemberOf(r)];
    forall a, b | a in after && b in after && StartsWith(b, a + "/")
      ensures after[a].directory
    {
      if a != r.path && b != r.path {
        assert a in files && b in files;
      } else if a == r.path && b == r.path {
        assert false;
      } else if a == r.path {
        assert !Conflict(r.path, r.directory, b, names[b]);
      } else {
        assert !Conflict(r.path, r.directory, a, names[a]);
      }
    }
  }

  lemma StepTracksSpans(central: nat, records: seq<Record>, st: State, r: Record, next: State)
    requires TracksSpans(central, records, st)
    requires |r.data| == r.central.size && r.cursor == st.cursor
    requires st.total + |r.data| <= MAX_TOTAL
    requires next == Extend(st, r.central, r.path, r.directory, r.finish, r.data)
    ensures TracksSpans(central, records + [r], next)
  {
    SpansExtend(records, r);
    ChainedAppend(CentralSpans(records), central, st.cursor, next.cursor);
  }

  lemma StepTracksNames(records: seq<Record>, names: map<string, bool>, files: map<string, Member>, r: Record)
    requires TracksNames(records, names, files)
    requires r.path !in names
    requires forall other | other in names :: !Conflict(r.path, r.directory, other, names[other])
    ensures TracksNames(records + [r], names[r.path := r.directory], files[r.path := MemberOf(r)])
  {
    ListedExtend(files, records, r);
    TreeExtend(names, files, r);
  }

  lemma {:induction false} WalkTrail(step: Stepper, n: nat, st: State) returns (states: seq<State>)
    requires Walk(step, n, st).Ok?
    ensures |states| == n + 1 && states[0] == st
    ensures Trail(step, states)
    ensures Walk(step, n, st) == Ok(states[n])
  {
    states := [st];
    if n > 0 {
      var rest := WalkTrail(step, n - 1, step(st).value);
      states := [st] + rest;
    }
  }

  lemma {:induction false} TrailRecords(codec: Codec, p: bytes, central: nat, step: Stepper, states: seq<State>, n: nat) returns (records: seq<Record>)
    requires central <= |p| && StepsEntries(step, codec, p, central)
    requires n < |states| && Trail(step, states)
    requires states[0] == Start(central)
    ensures |records| == n
    ensures AllOk(codec, p, central, records)
    ensures TracksSpans(central, records, states[n]) && TracksNames(records, states[n].names, states[n].files)
  {
    if n == 0 {
      records := [];
    } else {
      var before := TrailRecords(codec, p, central, step, states, n - 1);
      var st := states[n - 1];
      assert step(st) == Ok(states[n]);
      var r, next := StepRecord(codec, p, central, st);
      StepTracksSpans(central, before, st, r, next);
      StepTracksNames(before, st.names, st.files, r);
      records := before + [r];
    }
  }

  // ----- covering ------------------------------------------------------------------

  lemma {:induction false} CoverAppend(s: seq<(nat, nat)>, t: seq<(nat, nat)>, b: nat)
    ensures CoverCount(s + t, b) == CoverCount(s, b) + CoverCount(t, b)
  {
    if s == [] {
      assert s + t == t;
    } else {
      CoverAppend(s[1..], t, b);
      assert (s + t)[1..] == s[1..] + t;
    }
  }

  lemma {:induction false} CoverInsert(x: (nat, nat), s: seq<(nat, nat)>, b: nat)
    ensures CoverCount(Insert(SpanLess, x, s), b) == CoverCount([x] + s, b)
  {
    if s != [] && !SpanLess(x, s[0]) {
      CoverInsert(x, s[1..], b);
      var rest := Insert(SpanLess, x, s[1..]);
      assert ([s[0]] + rest)[1..] == rest;
      assert ([x] + s)[1..] == s && ([x] + s[1..])[1..] == s[1..];
    }
  }

  lemma {:induction false} CoverSort(s: seq<(nat, nat)>, b: nat)
    ensures CoverCount(Sort(SpanLess, s), b) == CoverCount(s, b)
  {
    if s != [] {
      CoverSort(s[1..], b);
      CoverInsert(s[0], Sort(SpanLess, s[1..]), b);
      assert ([s[0]] + Sort(SpanLess, s[1..]))[1..] == Sort(SpanLess, s[1..]);
    }
  }

  lemma {:induction false} ChainCovers(spans: seq<(nat, nat)>, from: nat, to: nat, b: nat)
    requires Chained(spans, from, to)
    requires forall s | s in spans :: s.0 <= s.1
    ensures from <= to
    ensures CoverCount(spans, b) == if from <= b < to then 1 else 0
  {
    if spans != [] {
      ChainCovers(spans[1..], spans[0].1, to, b);
    }
  }

  lemma {:induction false} SpanOfRecord(records: seq<Record>, s: (nat, nat))
    ensures s in LocalSpans(records) ==> exists r :: r in records && s == (r.central.local, r.finish)
    ensures s in CentralSpans(records) ==> exists r :: r in records && s == (r.cursor, r.cursor + r.central.Width())
  {
    if records != [] {
      SpanOfRecord(records[..|records| - 1], s);
      var last := records[|records| - 1];
      assert last in records;
      assert forall r | r in records[..|records| - 1] :: r in records;
    }
  }

  lemma RegionsCover(codec: Codec, p: bytes, central: nat, end: nat, records: seq<Record>, b: nat)
    requires AllOk(codec, p, central, records)
    requires Chained(Sort(SpanLess, LocalSpans(records)), 0, central)
    requires Chained(CentralSpans(records), central, end)
    requires b < |p| && end <= |p|
    ensures CoverCount(Regions(p, end, records), b) == 1
  {
    var locals, centrals := LocalSpans(records), CentralSpans(records);
    var ordered := Sort(SpanLess, locals);
    SortMembers(SpanLess, locals);
    forall s | s in ordered
      ensures s.0 <= s.1
    {
      SpanOfRecord(records, s);
    }
    forall s | s in centrals
      ensures s.0 <= s.1
    {
      SpanOfRecord(records, s);
    }
    ChainCovers(ordered, 0, central, b);
    CoverSort(locals, b);
    ChainCovers(centrals, central, end, b);
    CoverAppend(locals, centrals, b);
    CoverAppend(locals + centrals, [(end, |p|)], b);
  }

  /** No other offset passes the end-record test. */
  ghost predicate OnlyEnd(p: bytes, end: nat) {
    EndAt(p, end) && forall at: nat | EndAt(p, at) :: at == end
  }

  /** The number of records an end record states. */
  function RecordCount(p: bytes, end: nat): nat
    requires EndAt(p, end)
  {
    U16(p, end + 10)
  }

  /** Where the end record says the central directory starts. */
  function DirectoryStart(p: bytes, end: nat): nat
    requires EndAt(p, end)
  {
    U32(p, end + 16)
  }

  /**
   Every accepted archive accounts for each byte once. The records the reader followed
   all agree with the bytes, each byte of the payload lies in exactly one region, the end
   record is the only one, sizes keep their limits, and the result lists exactly the
   records' members with no file above another name.
   */
  lemma AcceptedArchive(codec: Codec, p: bytes) returns (end: nat, records: seq<Record>)
    requires Read(codec, p).Ok?
    ensures |p| <= MAX_PAYLOAD && |records| <= MAX_ENTRIES
    ensures OnlyEnd(p, end)
    ensures RecordCount(p, end) == |records|
    ensures AllOk(codec, p, DirectoryStart(p, end), records)
    ensures CoveredOnce(p, end, records)
    ensures TotalSize(records) <= MAX_TOTAL
    ensures Listed(Read(codec, p).value, records)
    ensures NoFileAncestor(Read(codec, p).value)
  {
    var d := AcceptedEnd(codec, p);
    end := d.end;
    records := AcceptedRecords(codec, p, d);
  }

  lemma AcceptedEnd(codec: Codec, p: bytes) returns (d: Directory)
    requires Read(codec, p).Ok?
    ensures ReadEnd(p) == Ok(d) && |p| <= MAX_PAYLOAD && d.count <= MAX_ENTRIES
    ensures OnlyEnd(p, d.end) && RecordCount(p, d.end) == d.count && DirectoryStart(p, d.end) == d.central
  {
    d := ReadEnd(p).value;
    EndFacts(p);
  }

  lemma AcceptedRecords(codec: Codec, p: bytes, d: Directory) returns (records: seq<Record>)
    requires ReadEnd(p) == Ok(d) && Read(codec, p).Ok?
    ensures |records| == d.count && AllOk(codec, p, d.central, records)
    ensures CoveredOnce(p, d.end, records)
    ensures TotalSize(records) <= MAX_TOTAL
    ensures Listed(Read(codec, p).value, records) && NoFileAncestor(Read(codec, p).value)
  {
    var _, st := ReadFacts(codec, p);
    records := WalkRecords(codec, p, d.central, d.count, st);
    TrackedRecords(codec, p, d, records, st);
  }

  /** The directory and the final state of a successful read. */
  lemma ReadFacts(codec: Codec, p: bytes) returns (d: Directory, st: State)
    requires Read(codec, p).Ok?
    ensures ReadEnd(p) == Ok(d) && d.central <= d.end <= |p|
    ensures Walk(EntryStep(codec, p, d.central), d.count, Start(d.central)) == Ok(st)
    ensures st.cursor == d.end && Chained(Sort(SpanLess, st.spans), 0, d.central)
    ensures Read(codec, p) == Ok(st.files)
  {
    d := ReadEnd(p).value;
    st := Walk(EntryStep(codec, p, d.central), d.count, Start(d.central)).value;
  }

  /** An accepted end record is the only one, and states the number of records. */
  lemma EndFacts(p: bytes)
    requires ReadEnd(p).Ok?
    ensures var d := ReadEnd(p).value;
      && |p| <= MAX_PAYLOAD && d.count <= MAX_ENTRIES && d.central <= d.end <= |p|
      && OnlyEnd(p, d.end)
      && RecordCount(p, d.end) == d.count && DirectoryStart(p, d.end) == d.central
  {
    SoleEnd(p, ReadEnd(p).value.end);
  }

  /** The records the reader followed from the start of the central directory. */
  lemma WalkRecords(codec: Codec, p: bytes, central: nat, n: nat, st: State) returns (records: seq<Record>)
    requires central <= |p| && Walk(EntryStep(codec, p, central), n, Start(central)) == Ok(st)
    ensures |records| == n && AllOk(codec, p, central, records)
    ensures TracksSpans(central, records, st) && TracksNames(records, st.names, st.files)
  {
    var step := EntryStep(codec, p, central);
    var states := WalkTrail(step, n, Start(central));
    records := TrailRecords(codec, p, central, step, states, n);
  }

  /** What tracked records say about the bytes and the result. */
  lemma TrackedRecords(codec: Codec, p: bytes, d: Directory, records: seq<Record>, st: State)
    requires d.central <= d.end <= |p| && AllOk(codec, p, d.central, records)
    requires TracksSpans(d.central, records, st) && TracksNames(records, st.names, st.files)
    requires st.cursor == d.end && Chained(Sort(SpanLess, st.spans), 0, d.central)
    ensures CoveredOnce(p, d.end, records)
    ensures TotalSize(records) <= MAX_TOTAL && Listed(st.files, records) && NoFileAncestor(st.files)
  {
    forall b: nat | b < |p|
      ensures CoverCount(Regions(p, d.end, records), b) == 1
    {
      RegionsCover(codec, p, d.central, d.end, records, b);
    }
  }

  /** The scan's lower bound loses no candidate, so a single hit is the only end record. */
  lemma SoleEnd(p: bytes, end: nat)
    requires |p| >= 22
    requires Ends(p, |p| - 22) == [end]
    ensures forall at: nat | EndAt(p, at) :: at == end
  {
    forall at: nat | EndAt(p, at)
      ensures at == end
    {
      assert at in Ends(p, |p| - 22);
    }
  }

  // ----- extra fields ----------------------------------------------------------------

  /** `[at, end)` is a run of blocks carrying `tags`, each two tag bytes, two count bytes and the data. */
  ghost predicate Blocks(p: bytes, at: nat, end: nat, tags: seq<nat>)
    requires end <= |p|
    decreases |tags|
  {
    if tags == [] then at == end
    else at + 4 <= end && U16(p, at) == tags[0] && Blocks(p, at + 4 + U16(p, at + 2), end, tags[1..])
  }

  ghost predicate SafeTags(tags: seq<nat>, seen: set<nat>) {
    && (forall i, j | 0 <= i < j < |tags| :: tags[i] != tags[j])
    && (forall t | t in tags :: t !in seen && t !in {1, 0x7075})
  }

  /** Extra data is accepted exactly when it splits without remainder into distinct, safe blocks. */
  lemma {:induction false} ExtraIsBlocks(p: bytes, at: nat, end: nat, seen: set<nat>)
    requires at <= end <= |p|
    ensures ExtraFrom(p, at, end, seen) <==> exists tags :: Blocks(p, at, end, tags) && SafeTags(tags, seen)
    decreases end - at
  {
    if at == end {
      assert Blocks(p, at, end, []) && SafeTags([], seen);
    } else if at + 4 <= end {
      var tag, next := U16(p, at), at + 4 + U16(p, at + 2);
      if next <= end {
        ExtraIsBlocks(p, next, end, seen + {tag});
        if ExtraFrom(p, at, end, seen) {
          var rest :| Blocks(p, next, end, rest) && SafeTags(rest, seen + {tag});
          var tags := [tag] + rest;
          assert tags[1..] == rest;
          assert Blocks(p, at, end, tags) && SafeTags(tags, seen);
        }
        if tags :| Blocks(p, at, end, tags) && SafeTags(tags, seen) {
          assert tags[0] in tags;
          assert tags == [tag] + tags[1..];
          assert forall t | t in tags[1..] :: t in tags && t != tag;
          assert SafeTags(tags[1..], seen + {tag});
        }
      } else if tags :| Blocks(p, at, end, tags) {
        BlocksWithin(p, next, end, tags[1..]);
        assert false;
      }
    }
  }

  lemma {:induction false} BlocksWithin(p: bytes, at: nat, end: nat, tags: seq<nat>)
    requires end <= |p| && Blocks(p, at, end, tags)
    ensures at <= end
  {
  }
}
