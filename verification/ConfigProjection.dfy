/**
 The event projection refines the tree walk: skipping a value consumes exactly that
 value's events, and whenever both readings of a document succeed, the projection is the
 walk restricted to the HTTP settings.
 */
module ConfigProjection {
  import opened Wrappers
  import opened ConfigFile

  /** `part` stands in `events` from `at` on. */
  predicate Holds(events: seq<Event>, at: nat, part: seq<Event>)
    decreases |part|
  {
    if part == [] then at <= |events|
    else at < |events| && events[at] == part[0] && Holds(events, at + 1, part[1..])
  }

  lemma {:induction false} HoldsSplit(events: seq<Event>, at: nat, a: seq<Event>, b: seq<Event>)
    ensures Holds(events, at, a + b) <==> Holds(events, at, a) && Holds(events, at + |a|, b)
    decreases |a|
  {
    if a == [] {
      assert a + b == b;
      HoldsWithin(events, at, b);
    } else {
      assert (a + b)[0] == a[0] && (a + b)[1..] == a[1..] + b;
      HoldsSplit(events, at + 1, a[1..], b);
    }
  }

  lemma {:induction false} HoldsWithin(events: seq<Event>, at: nat, part: seq<Event>)
    ensures Holds(events, at, part) ==> at + |part| <= |events|
    decreases |part|
  {
    if part != [] {
      HoldsWithin(events, at + 1, part[1..]);
    }
  }

  lemma {:induction false} HoldsSlice(events: seq<Event>, at: nat, part: seq<Event>)
    requires at + |part| <= |events| && events[at..at + |part|] == part
    ensures Holds(events, at, part)
    decreases |part|
  {
    if part != [] {
      assert events[at] == events[at..at + |part|][0];
      assert events[at + 1..at + |part|] == events[at..at + |part|][1..];
      HoldsSlice(events, at + 1, part[1..]);
    }
  }

  lemma FirstEvent(node: Node)
    ensures |Events(node)| > 0
    ensures Events(node)[0] != MappingEnd && Events(node)[0] != SequenceEnd
  {
  }

  // ----- skipping -------------------------------------------------------------------------

  lemma SkipUnfolds(events: seq<Event>, at: nat)
    requires at < |events|
    ensures events[at].ScalarEvent? ==> Skip(events, at + 1, events[at]) == Ok(at + 1)
    ensures events[at] == SequenceStart ==> Skip(events, at + 1, events[at]) == SkipItems(events, at + 1)
    ensures events[at] == MappingStart ==> Skip(events, at + 1, events[at]) == SkipEntries(events, at + 1)
  {
  }

  /** Skipping from the first event of a value ends right after its last. */
  lemma {:induction false} SkipConsumes(events: seq<Event>, at: nat, node: Node)
    requires Holds(events, at, Events(node))
    ensures at < |events| && Skip(events, at + 1, events[at]) == Ok(at + |Events(node)|)
    decreases node
  {
    FirstEvent(node);
    SkipUnfolds(events, at);
    match node
    case Scalar(_, _) =>
    case Sequence(_) =>
      HoldsSplit(events, at, [SequenceStart], ItemEvents(node, 0));
      SkipItemsConsumes(events, at + 1, node, 0);
    case Mapping(_) =>
      HoldsSplit(events, at, [MappingStart], EntryEvents(node, 0));
      SkipEntriesConsumes(events, at + 1, node, 0);
  }

  lemma SkipItemsStep(events: seq<Event>, at: nat, next: nat)
    requires at < |events| && events[at] != SequenceEnd && Skip(events, at + 1, events[at]) == Ok(next)
    ensures next <= |events| && SkipItems(events, at) == SkipItems(events, next)
  {
  }

  /** What follows a key in a mapping that is skipped. */
  function AfterKey(events: seq<Event>, value: nat): Result<nat, ConfigError>
    requires value <= |events|
  {
    if value == |events| then Err(EndedEarly)
    else
      var next :- Skip(events, value + 1, events[value]);
      SkipEntries(events, next)
  }

  lemma SkipEntriesUnfolds(events: seq<Event>, at: nat)
    requires at < |events| && events[at] != MappingEnd
    ensures var key := Skip(events, at + 1, events[at]);
      SkipEntries(events, at) == if key.Err? then Err(key.error) else AfterKey(events, key.value)
  {
  }

  lemma AfterKeyStep(events: seq<Event>, value: nat, next: nat)
    requires value < |events| && Skip(events, value + 1, events[value]) == Ok(next)
    ensures next <= |events| && AfterKey(events, value) == SkipEntries(events, next)
  {
  }

  lemma SkipEntriesStep(events: seq<Event>, at: nat, value: nat, next: nat)
    requires at < |events| && events[at] != MappingEnd && Skip(events, at + 1, events[at]) == Ok(value)
    requires value < |events| && Skip(events, value + 1, events[value]) == Ok(next)
    ensures next <= |events| && SkipEntries(events, at) == SkipEntries(events, next)
  {
    SkipEntriesUnfolds(events, at);
    AfterKeyStep(events, value, next);
  }

  lemma LastHolds(events: seq<Event>, at: nat, end: Event)
    requires Holds(events, at, [end])
    ensures at < |events| && events[at] == end
  {
  }

  lemma {:induction false} SkipItemsConsumes(events: seq<Event>, at: nat, node: Node, k: nat)
    requires node.Sequence? && k <= |node.items| && Holds(events, at, ItemEvents(node, k))
    ensures SkipItems(events, at) == Ok(at + |ItemEvents(node, k)|)
    decreases node, |node.items| - k
  {
    if k < |node.items| {
      ItemHolds(events, at, node, k);
      var next := at + |Events(node.items[k])|;
      SkipConsumes(events, at, node.items[k]);
      SkipItemsConsumes(events, next, node, k + 1);
      SkipItemsStep(events, at, next);
    } else {
      LastHolds(events, at, SequenceEnd);
    }
  }

  lemma {:induction false} SkipEntriesConsumes(events: seq<Event>, at: nat, node: Node, k: nat)
    requires node.Mapping? && k <= |node.entries| && Holds(events, at, EntryEvents(node, k))
    ensures SkipEntries(events, at) == Ok(at + |EntryEvents(node, k)|)
    decreases node, |node.entries| - k
  {
    if k < |node.entries| {
      var next := SkipEntry(events, at, node, k);
      SkipEntriesConsumes(events, next, node, k + 1);
    } else {
      LastHolds(events, at, MappingEnd);
    }
  }

  /** One entry, key and value, is skipped whole. */
  lemma {:induction false} SkipEntry(events: seq<Event>, at: nat, node: Node, k: nat) returns (next: nat)
    requires node.Mapping? && k < |node.entries| && Holds(events, at, EntryEvents(node, k))
    ensures next + |EntryEvents(node, k + 1)| == at + |EntryEvents(node, k)|
    ensures Holds(events, next, EntryEvents(node, k + 1))
    ensures next <= |events| && SkipEntries(events, at) == SkipEntries(events, next)
    decreases node, 0
  {
    EntryHolds(events, at, node, k);
    var value := at + |Events(node.entries[k].key)|;
    next := value + |Events(node.entries[k].value)|;
    assert node.entries[k].key < node.entries[k] < node;
    assert node.entries[k].value < node.entries[k] < node;
    SkipConsumes(events, at, node.entries[k].key);
    SkipConsumes(events, value, node.entries[k].value);
    SkipEntriesStep(events, at, value, next);
  }

  /** Where the `k`-th item and the rest of a sequence stand. */
  lemma ItemHolds(events: seq<Event>, at: nat, node: Node, k: nat)
    requires node.Sequence? && k < |node.items| && Holds(events, at, ItemEvents(node, k))
    ensures var item := Events(node.items[k]);
      && Holds(events, at, item) && Holds(events, at + |item|, ItemEvents(node, k + 1))
      && |ItemEvents(node, k)| == |item| + |ItemEvents(node, k + 1)|
      && at < |events| && events[at] == item[0] && events[at] != SequenceEnd
  {
    var item, rest := Events(node.items[k]), ItemEvents(node, k + 1);
    assert ItemEvents(node, k) == item + rest;
    HoldsSplit(events, at, item, rest);
    FirstEvent(node.items[k]);
  }

  lemma HoldsFirst(events: seq<Event>, at: nat, node: Node)
    requires Holds(events, at, Events(node))
    ensures Events(node) != [] && at < |events| && events[at] == Events(node)[0]
    ensures events[at] != MappingEnd && events[at] != SequenceEnd
  {
    FirstEvent(node);
  }

  /** Where the key, the value and the rest of the `k`-th entry stand. */
  lemma EntryHolds(events: seq<Event>, at: nat, node: Node, k: nat)
    requires node.Mapping? && k < |node.entries| && Holds(events, at, EntryEvents(node, k))
    ensures var key, value := Events(node.entries[k].key), Events(node.entries[k].value);
      && Holds(events, at, key) && Holds(events, at + |key|, value)
      && Holds(events, at + |key| + |value|, EntryEvents(node, k + 1))
      && |EntryEvents(node, k)| == |key| + |value| + |EntryEvents(node, k + 1)|
      && at < |events| && events[at] == key[0] && events[at] != MappingEnd
      && at + |key| < |events| && events[at + |key|] == value[0]
  {
    var key, value := Events(node.entries[k].key), Events(node.entries[k].value);
    var rest := EntryEvents(node, k + 1);
    assert EntryEvents(node, k) == key + (value + rest);
    HoldsSplit(events, at, key, value + rest);
    HoldsSplit(events, at + |key|, value, rest);
    HoldsFirst(events, at, node.entries[k].key);
    HoldsFirst(events, at + |key|, node.entries[k].value);
  }

  // ----- and nothing but a value is skipped ---------------------------------------------------

  /** Whatever skipping accepts is the events of one value. */
  lemma {:induction false} SkippedIsValue(events: seq<Event>, at: nat) returns (node: Node)
    requires at < |events| && Skip(events, at + 1, events[at]).Ok?
    ensures Events(node) == events[at..Skip(events, at + 1, events[at]).value]
    decreases |events| - at - 1, 1
  {
    match events[at]
    case ScalarEvent(text, value) =>
      node := Scalar(text, value);
    case MappingStart =>
      var entries := SkippedEntries(events, at + 1);
      node := Mapping(entries);
      FirstAndRest(events, at, SkipEntries(events, at + 1).value);
    case SequenceStart =>
      var items := SkippedItems(events, at + 1);
      node := Sequence(items);
      FirstAndRest(events, at, SkipItems(events, at + 1).value);
  }

  lemma FirstAndRest(events: seq<Event>, at: nat, end: nat)
    requires at < end <= |events|
    ensures events[at..end] == [events[at]] + events[at + 1..end]
  {
  }

  lemma {:induction false} SkippedEntries(events: seq<Event>, at: nat) returns (entries: seq<Entry>)
    requires at <= |events| && SkipEntries(events, at).Ok?
    ensures EntryEvents(Mapping(entries), 0) == events[at..SkipEntries(events, at).value]
    decreases |events| - at, 0
  {
    if events[at] == MappingEnd {
      entries := [];
      assert events[at..at + 1] == [MappingEnd];
    } else {
      SkipEntriesUnfolds(events, at);
      var middle := Skip(events, at + 1, events[at]).value;
      var next := Skip(events, middle + 1, events[middle]).value;
      AfterKeyStep(events, middle, next);
      var key := SkippedIsValue(events, at);
      var value := SkippedIsValue(events, middle);
      var rest := SkippedEntries(events, next);
      entries := [Entry(key, value)] + rest;
      FirstEntry(Entry(key, value), rest);
      ThreeSlices(events, at, middle, next, SkipEntries(events, next).value);
    }
  }

  lemma ThreeSlices(events: seq<Event>, a: nat, b: nat, c: nat, d: nat)
    requires a <= b <= c <= d <= |events|
    ensures events[a..d] == events[a..b] + events[b..c] + events[c..d]
  {
  }

  lemma FirstEntry(entry: Entry, rest: seq<Entry>)
    ensures EntryEvents(Mapping([entry] + rest), 0) == Events(entry.key) + Events(entry.value) + EntryEvents(Mapping(rest), 0)
  {
    EntriesShift(entry, rest, 0);
  }

  lemma {:induction false} SkippedItems(events: seq<Event>, at: nat) returns (items: seq<Node>)
    requires at <= |events| && SkipItems(events, at).Ok?
    ensures ItemEvents(Sequence(items), 0) == events[at..SkipItems(events, at).value]
    decreases |events| - at, 0
  {
    if events[at] == SequenceEnd {
      items := [];
      assert events[at..at + 1] == [SequenceEnd];
    } else {
      var next := Skip(events, at + 1, events[at]).value;
      SkipItemsStep(events, at, next);
      var item := SkippedIsValue(events, at);
      var rest := SkippedItems(events, next);
      items := [item] + rest;
      FirstItem(item, rest);
      ThreeSlices(events, at, at, next, SkipItems(events, next).value);
    }
  }

  lemma FirstItem(item: Node, rest: seq<Node>)
    ensures ItemEvents(Sequence([item] + rest), 0) == Events(item) + ItemEvents(Sequence(rest), 0)
  {
    ItemsShift(item, rest, 0);
  }

  lemma {:induction false} EntriesShift(entry: Entry, rest: seq<Entry>, k: nat)
    requires k <= |rest|
    ensures EntryEvents(Mapping([entry] + rest), k + 1) == EntryEvents(Mapping(rest), k)
    decreases |rest| - k
  {
    if k < |rest| {
      EntriesShift(entry, rest, k + 1);
      assert ([entry] + rest)[k + 1] == rest[k];
    }
  }

  lemma {:induction false} ItemsShift(item: Node, rest: seq<Node>, k: nat)
    requires k <= |rest|
    ensures ItemEvents(Sequence([item] + rest), k + 1) == ItemEvents(Sequence(rest), k)
    decreases |rest| - k
  {
    if k < |rest| {
      ItemsShift(item, rest, k + 1);
      assert ([item] + rest)[k + 1] == rest[k];
    }
  }

  // ----- the table --------------------------------------------------------------------------------

  /** No path is empty or starts with a dot, and no other path shares an HTTP path's environment name. */
  ghost predicate TableOk(table: Table) {
    && table.http <= table.env.Keys
    && (forall p | p in table.env :: p != "" && p[0] != '.')
    && (forall p, q | p in table.http && q in table.env && table.env[p] == table.env[q] :: q in table.http)
  }

  /** The settings that HTTP paths set. */
  function Http(table: Table, out: Settings): Settings
    requires table.http <= table.env.Keys
  {
    map name | name in out && HttpName(table, name) :: out[name]
  }

  predicate HttpName(table: Table, name: string)
    requires table.http <= table.env.Keys
  {
    exists p :: p in table.http && table.env[p] == name
  }

  /** Neither the path nor anything below it is an HTTP path. */
  predicate Outside(table: Table, path: string) {
    path != "" && path !in table.http && !HasDescendant(path, table.http)
  }

  lemma OutsideBelow(table: Table, path: string, key: string)
    requires Outside(table, path)
    ensures Outside(table, Join(path, key))
  {
    assert Below(path, Join(path, key));
    forall c | c in table.http
      ensures Below(Join(path, key), c) ==> Below(path, c)
    {
      assert Join(path, key) + "." == (path + ".") + (key + ".");
    }
  }

  /** A subtree outside the HTTP paths sets no HTTP setting. */
  lemma {:induction false} WalkOutside(table: Table, path: string, node: Node, out: Settings)
    requires TableOk(table) && Outside(table, path) && Walk(table, path, node, out).Ok?
    ensures Http(table, Walk(table, path, node, out).value) == Http(table, out)
    decreases node, 1
  {
    match node
    case Mapping(entries) => WalkFieldsOutside(table, path, node, Constructed(entries).value, out);
    case _ =>
      var after := Walk(table, path, node, out).value;
      forall name | HttpName(table, name)
        ensures name in after <==> name in out
        ensures name in out ==> after[name] == out[name]
      {
        var p :| p in table.http && table.env[p] == name;
        assert table.env[path] != table.env[p];
      }
  }

  lemma {:induction false} WalkFieldsOutside(table: Table, path: string, node: Node, fields: seq<Field>, out: Settings)
    requires TableOk(table) && Outside(table, path) && node.Mapping?
    requires forall f | f in fields :: exists i :: 0 <= i < |node.entries| && node.entries[i].value == f.value
    requires WalkFields(table, path, node, fields, out).Ok?
    ensures Http(table, WalkFields(table, path, node, fields, out).value) == Http(table, out)
    decreases node, 0, |fields|
  {
    if fields != [] {
      var f := fields[0];
      assert f in fields;
      var i :| 0 <= i < |node.entries| && node.entries[i].value == f.value;
      assert node.entries[i].value < node;
      OutsideBelow(table, path, f.key);
      WalkOutside(table, Join(path, f.key), f.value, out);
      WalkFieldsOutside(table, path, node, fields[1..], Walk(table, Join(path, f.key), f.value, out).value);
    }
  }

  // ----- what a successful projection says about the document ----------------------------------

  function KeyText(e: Entry): string {
    if e.key.Scalar? then e.key.text else ""
  }

  /** The entries from the `k`-th on have scalar keys, new and different from each other. */
  ghost predicate DistinctKeys(node: Node, k: nat, seen: set<string>)
    requires node.Mapping?
  {
    && (forall i | k <= i < |node.entries| :: node.entries[i].key.Scalar? && node.entries[i].key.text !in seen)
    && (forall i, j | k <= i < j < |node.entries| :: KeyText(node.entries[i]) != KeyText(node.entries[j]))
  }

  /** The cases of one entry of a mapping that is projected. */
  datatype Turn = Setting(next: Settings) | Domain | Foreign

  function TurnOf(table: Table, path: string, value: Node, out: Settings): Option<Turn> {
    if path in table.http && path in table.env then
      if !value.Scalar? then None else Some(Setting(if value.value == Null then out else out[table.env[path] := value]))
    else if HasDescendant(path, table.http) then
      if value.Mapping? then Some(Domain) else None
    else if path in table.env || HasDescendant(path, table.env.Keys) then Some(Foreign)
    else None
  }

  /** What an entry with this value sets; the body of a domain starts at `at`. */
  predicate Turned(table: Table, events: seq<Event>, at: nat, path: string, value: Node, out: Settings, after: Settings) {
    match TurnOf(table, path, value, out)
    case None => false
    case Some(Setting(next)) => after == next
    case Some(Foreign) => after == out
    case Some(Domain) =>
      && Holds(events, at, EntryEvents(value, 0))
      && Project(table, events, at, path, {}, out).Ok?
      && after == Project(table, events, at, path, {}, out).value.out
  }

  lemma MappingsStart(node: Node)
    ensures node.Mapping? <==> Events(node)[0] == MappingStart
    ensures node.Scalar? <==> Events(node)[0].ScalarEvent?
    ensures node.Scalar? ==> Events(node) == [ScalarEvent(node.text, node.value)]
  {
  }

  /** A scalar key is one event long. */
  lemma ScalarKey(events: seq<Event>, at: nat, node: Node, k: nat)
    requires node.Mapping? && k < |node.entries| && Holds(events, at, EntryEvents(node, k))
    ensures at < |events| && events[at] != MappingEnd
    ensures events[at].ScalarEvent? <==> node.entries[k].key.Scalar?
    ensures node.entries[k].key.Scalar? ==>
      && events[at].text == node.entries[k].key.text
      && at + 1 < |events| && events[at + 1] == Events(node.entries[k].value)[0]
      && Holds(events, at + 1, Events(node.entries[k].value))
      && Holds(events, at + 1 + |Events(node.entries[k].value)|, EntryEvents(node, k + 1))
      && |EntryEvents(node, k)| == 1 + |Events(node.entries[k].value)| + |EntryEvents(node, k + 1)|
  {
    EntryHolds(events, at, node, k);
    MappingsStart(node.entries[k].key);
  }

  /** The value of a domain, after its first event. */
  lemma DomainHolds(events: seq<Event>, at: nat, value: Node)
    requires value.Mapping? && Holds(events, at, Events(value))
    ensures Holds(events, at + 1, EntryEvents(value, 0))
    ensures |Events(value)| == |EntryEvents(value, 0)| + 1
  {
    HoldsSplit(events, at, [MappingStart], EntryEvents(value, 0));
  }

  lemma DistinctFrom(node: Node, k: nat, seen: set<string>)
    requires node.Mapping? && k < |node.entries| && node.entries[k].key.Scalar? && KeyText(node.entries[k]) !in seen
    requires DistinctKeys(node, k + 1, seen + {KeyText(node.entries[k])})
    ensures DistinctKeys(node, k, seen)
  {
  }

  /** A projection that succeeds reads the mapping to its end and meets every key once. */
  lemma {:induction false} ProjectShape(table: Table, events: seq<Event>, at: nat, prefix: string, node: Node, k: nat, seen: set<string>, out: Settings)
    requires node.Mapping? && k <= |node.entries| && Holds(events, at, EntryEvents(node, k))
    requires Project(table, events, at, prefix, seen, out).Ok?
    ensures Project(table, events, at, prefix, seen, out).value.at == at + |EntryEvents(node, k)|
    ensures DistinctKeys(node, k, seen)
    decreases node, 0, |node.entries| - k + 1
  {
    if k < |node.entries| {
      var next, after := EntryStep(table, events, at, prefix, node, k, seen, out);
      ProjectShape(table, events, next, prefix, node, k + 1, seen + {KeyText(node.entries[k])}, after);
      DistinctFrom(node, k, seen);
    } else {
      LastHolds(events, at, MappingEnd);
    }
  }

  /** The `k`-th entry of the mapping: where the next one starts, and what is set by then. */
  lemma {:induction false} EntryStep(table: Table, events: seq<Event>, at: nat, prefix: string, node: Node, k: nat, seen: set<string>, out: Settings)
    returns (next: nat, after: Settings)
    requires node.Mapping? && k < |node.entries| && Holds(events, at, EntryEvents(node, k))
    requires Project(table, events, at, prefix, seen, out).Ok?
    ensures node.entries[k].key.Scalar? && KeyText(node.entries[k]) !in seen
    ensures next <= |events| && Holds(events, next, EntryEvents(node, k + 1))
    ensures next + |EntryEvents(node, k + 1)| == at + |EntryEvents(node, k)|
    ensures Project(table, events, at, prefix, seen, out)
            == Project(table, events, next, prefix, seen + {KeyText(node.entries[k])}, after)
    ensures Turned(table, events, at + 2, Join(prefix, KeyText(node.entries[k])), node.entries[k].value, out, after)
    decreases node, 0, 0
  {
    assert node.entries[k].value < node.entries[k] < node;
    ScalarKey(events, at, node, k);
    ProjectUnfolds(table, events, at, prefix, seen, out);
    assert events[at].text == KeyText(node.entries[k]);
    next := at + 1 + |Events(node.entries[k].value)|;
    after := ProjectEntry(table, events, at, prefix, node.entries[k].value, seen, out);
  }

  /** One projected entry with a scalar key at `at`: what is set when the next entry starts. */
  lemma {:induction false} ProjectEntry(table: Table, events: seq<Event>, at: nat, prefix: string, value: Node, seen: set<string>, out: Settings)
    returns (after: Settings)
    requires at < |events| && events[at].ScalarEvent? && Holds(events, at + 1, Events(value))
    requires Project(table, events, at, prefix, seen, out).Ok?
    ensures at + 1 + |Events(value)| <= |events|
    ensures Project(table, events, at, prefix, seen, out)
            == Project(table, events, at + 1 + |Events(value)|, prefix, seen + {events[at].text}, after)
    ensures Turned(table, events, at + 2, Join(prefix, events[at].text), value, out, after)
    decreases value, 3
  {
    HoldsFirst(events, at + 1, value);
    ProjectUnfolds(table, events, at, prefix, seen, out);
    after := ValueRead(table, events, at + 1, Join(prefix, events[at].text), value, out);
  }

  /** Reading the value of one entry, by the kind of the entry. */
  lemma {:induction false} ValueRead(table: Table, events: seq<Event>, at: nat, path: string, value: Node, out: Settings)
    returns (after: Settings)
    requires Holds(events, at, Events(value)) && at < |events| && events[at] == Events(value)[0]
    requires ProjectValue(table, events, at + 1, path, events[at], out).Ok?
    ensures ProjectValue(table, events, at + 1, path, events[at], out).value == Projected(at + |Events(value)|, after)
    ensures Turned(table, events, at + 1, path, value, out, after)
    decreases value, 2
  {
    after := ProjectValue(table, events, at + 1, path, events[at], out).value.out;
    MappingsStart(value);
    match TurnOf(table, path, value, out)
    case Some(Setting(_)) =>
    case Some(Foreign) => SkipConsumes(events, at, value);
    case Some(Domain) => ProjectDomain(table, events, at, path, value, out);
  }

  /** A domain is read to its end. */
  lemma {:induction false} ProjectDomain(table: Table, events: seq<Event>, at: nat, path: string, value: Node, out: Settings)
    requires value.Mapping? && Holds(events, at, Events(value)) && at < |events| && Project(table, events, at + 1, path, {}, out).Ok?
    ensures Holds(events, at + 1, EntryEvents(value, 0))
    ensures Project(table, events, at + 1, path, {}, out).value.at == at + |Events(value)|
    decreases value, 1
  {
    DomainHolds(events, at, value);
    ProjectShape(table, events, at + 1, path, value, 0, {}, out);
  }

  /** One unfolding of a successful projection. */
  lemma ProjectUnfolds(table: Table, events: seq<Event>, at: nat, prefix: string, seen: set<string>, out: Settings)
    requires at < |events| && events[at] != MappingEnd && Project(table, events, at, prefix, seen, out).Ok?
    ensures events[at].ScalarEvent? && events[at].text !in seen && at + 1 < |events|
    ensures var value := ProjectValue(table, events, at + 2, Join(prefix, events[at].text), events[at + 1], out);
      value.Ok? && Project(table, events, at, prefix, seen, out)
                   == Project(table, events, value.value.at, prefix, seen + {events[at].text}, value.value.out)
  {
  }

  // ----- the constructed mapping -----------------------------------------------------------------

  /** The fields of distinct entries, in order. */
  function Plain(node: Node, k: nat): (r: seq<Field>)
    requires node.Mapping? && k <= |node.entries|
    ensures |r| == |node.entries| - k
    ensures forall f | f in r :: exists i :: 0 <= i < |node.entries| && node.entries[i].value == f.value
  {
    seq(|node.entries| - k, i requires 0 <= i < |node.entries| - k =>
      Field(KeyText(node.entries[k + i]), node.entries[k + i].value))
  }

  lemma {:induction false} UpsertNew(fields: seq<Field>, field: Field)
    requires forall f | f in fields :: f.key != field.key
    ensures Upsert(fields, field) == fields + [field]
  {
    if fields != [] {
      UpsertNew(fields[1..], field);
      assert fields == [fields[0]] + fields[1..];
    }
  }

  function Fields(entries: seq<Entry>): seq<Field> {
    seq(|entries|, i requires 0 <= i < |entries| => Field(KeyText(entries[i]), entries[i].value))
  }

  lemma FieldsAppend(init: seq<Entry>, last: Entry)
    ensures Fields(init + [last]) == Fields(init) + [Field(KeyText(last), last.value)]
  {
  }

  /** A key that is new to the entries is appended. */
  lemma UpsertLast(init: seq<Entry>, last: Entry)
    requires forall i | 0 <= i < |init| :: KeyText(init[i]) != KeyText(last)
    ensures Upsert(Fields(init), Field(KeyText(last), last.value)) == Fields(init + [last])
  {
    forall f | f in Fields(init)
      ensures f.key != KeyText(last)
    {
      var i :| 0 <= i < |init| && Fields(init)[i] == f;
    }
    UpsertNew(Fields(init), Field(KeyText(last), last.value));
    FieldsAppend(init, last);
  }

  /** Constructing a mapping with distinct keys changes nothing. */
  lemma {:induction false} ConstructedDistinct(entries: seq<Entry>)
    requires Constructed(entries).Ok?
    requires forall i, j | 0 <= i < j < |entries| :: KeyText(entries[i]) != KeyText(entries[j])
    ensures Constructed(entries).value == Fields(entries)
  {
    if entries != [] {
      var init, last := entries[..|entries| - 1], entries[|entries| - 1];
      ConstructedDistinct(init);
      assert entries == init + [last];
      UpsertLast(init, last);
    }
  }

  lemma PlainIsConstructed(node: Node)
    requires node.Mapping? && Constructed(node.entries).Ok? && DistinctKeys(node, 0, {})
    ensures Constructed(node.entries).value == Plain(node, 0)
  {
    ConstructedDistinct(node.entries);
    assert Fields(node.entries) == Plain(node, 0);
  }

  // ----- the refinement ----------------------------------------------------------------------------

  /** Setting an HTTP path in both readings keeps them in step. */
  lemma SetBoth(table: Table, path: string, value: Node, walked: Settings, out: Settings)
    requires TableOk(table) && path in table.http && Http(table, walked) == out
    ensures Http(table, walked[table.env[path] := value]) == out[table.env[path] := value]
  {
    assert HttpName(table, table.env[path]);
  }

  /** An entry moves both readings alike. */
  lemma {:induction false} EntryRefines(table: Table, events: seq<Event>, at: nat, path: string, value: Node, out: Settings, after: Settings, walked: Settings)
    requires TableOk(table) && Http(table, walked) == out && Walk(table, path, value, walked).Ok?
    requires Turned(table, events, at, path, value, out, after)
    ensures Http(table, Walk(table, path, value, walked).value) == after
    decreases value, 1
  {
    match TurnOf(table, path, value, out)
    case Some(Setting(_)) =>
      if value.value != Null {
        SetBoth(table, path, value, walked, out);
      }
    case Some(Foreign) =>
      NotEmptyPath(table, path);
      WalkOutside(table, path, value, walked);
    case Some(Domain) =>
      ProjectShape(table, events, at, path, value, 0, {}, out);
      PlainIsConstructed(value);
      FieldsRefine(table, events, at, path, value, 0, {}, out, walked);
  }

  /** The empty path is unknown. */
  lemma NotEmptyPath(table: Table, path: string)
    requires TableOk(table) && (path in table.env || HasDescendant(path, table.env.Keys))
    ensures path != ""
  {
    forall c | c in table.env
      ensures Below("", c) ==> c[0] == '.'
    {
      assert "" + "." == ".";
    }
  }

  lemma {:induction false} FieldsRefine(table: Table, events: seq<Event>, at: nat, prefix: string, node: Node, k: nat, seen: set<string>, out: Settings, walked: Settings)
    requires TableOk(table) && node.Mapping? && k <= |node.entries| && Http(table, walked) == out
    requires Holds(events, at, EntryEvents(node, k))
    requires Project(table, events, at, prefix, seen, out).Ok?
    requires WalkFields(table, prefix, node, Plain(node, k), walked).Ok?
    ensures Http(table, WalkFields(table, prefix, node, Plain(node, k), walked).value)
            == Project(table, events, at, prefix, seen, out).value.out
    decreases node, 0, |node.entries| - k + 1
  {
    if k < |node.entries| {
      var next, after, walkedNext := FieldStep(table, events, at, prefix, node, k, seen, out, walked);
      FieldsRefine(table, events, next, prefix, node, k + 1, seen + {KeyText(node.entries[k])}, after, walkedNext);
    } else {
      LastRefines(table, events, at, prefix, node, seen, out, walked);
    }
  }

  /** One entry in both readings. */
  lemma {:induction false} FieldStep(table: Table, events: seq<Event>, at: nat, prefix: string, node: Node, k: nat, seen: set<string>, out: Settings, walked: Settings)
    returns (next: nat, after: Settings, walkedNext: Settings)
    requires TableOk(table) && node.Mapping? && k < |node.entries| && Http(table, walked) == out
    requires Holds(events, at, EntryEvents(node, k)) && Project(table, events, at, prefix, seen, out).Ok?
    requires WalkFields(table, prefix, node, Plain(node, k), walked).Ok?
    ensures next <= |events| && Holds(events, next, EntryEvents(node, k + 1))
    ensures Project(table, events, at, prefix, seen, out)
            == Project(table, events, next, prefix, seen + {KeyText(node.entries[k])}, after)
    ensures WalkFields(table, prefix, node, Plain(node, k), walked) == WalkFields(table, prefix, node, Plain(node, k + 1), walkedNext)
    ensures Http(table, walkedNext) == after
    decreases node, 0, 0
  {
    var value := node.entries[k].value;
    var path := Join(prefix, KeyText(node.entries[k]));
    assert value < node.entries[k] < node;
    FirstWalked(table, prefix, node, k, walked);
    walkedNext := Walk(table, path, value, walked).value;
    next, after := EntryStep(table, events, at, prefix, node, k, seen, out);
    EntryRefines(table, events, at + 2, path, value, out, after, walked);
  }

  /** At the end of the mapping both readings stop. */
  lemma LastRefines(table: Table, events: seq<Event>, at: nat, prefix: string, node: Node, seen: set<string>, out: Settings, walked: Settings)
    requires TableOk(table) && node.Mapping? && Http(table, walked) == out && Holds(events, at, EntryEvents(node, |node.entries|))
    ensures Project(table, events, at, prefix, seen, out).Ok? && Project(table, events, at, prefix, seen, out).value.out == out
    ensures WalkFields(table, prefix, node, Plain(node, |node.entries|), walked) == Ok(walked)
  {
    LastHolds(events, at, MappingEnd);
    assert Plain(node, |node.entries|) == [];
  }

  lemma FirstWalked(table: Table, prefix: string, node: Node, k: nat, walked: Settings)
    requires node.Mapping? && k < |node.entries| && WalkFields(table, prefix, node, Plain(node, k), walked).Ok?
    ensures var first := Walk(table, Join(prefix, KeyText(node.entries[k])), node.entries[k].value, walked);
      first.Ok? && WalkFields(table, prefix, node, Plain(node, k), walked) == WalkFields(table, prefix, node, Plain(node, k + 1), first.value)
  {
    assert Plain(node, k)[0] == Field(KeyText(node.entries[k]), node.entries[k].value);
    assert Plain(node, k)[1..] == Plain(node, k + 1);
  }

  // ----- whole documents -----------------------------------------------------------------------------

  /** Loading the tree: an empty document sets nothing, any other must be a mapping. */
  function LoadTree(table: Table, root: Option<Node>): Result<Settings, ConfigError> {
    if root.None? || (root.value.Scalar? && root.value.value == Null) then Ok(map[])
    else if !root.value.Mapping? then Err(InvalidType)
    else Walk(table, "", root.value, map[])
  }

  function Stream(root: Option<Node>): seq<Event> {
    if root.None? then [StreamStart, StreamEnd]
    else [StreamStart, DocumentStart] + Events(root.value) + [DocumentEnd, StreamEnd]
  }

  lemma StreamProjects(table: Table, root: Node)
    requires LoadHttp(table, Stream(Some(root))).Ok?
    ensures root.Mapping? && Holds(Stream(Some(root)), 3, EntryEvents(root, 0))
    ensures Project(table, Stream(Some(root)), 3, "", {}, map[]).Ok?
    ensures Project(table, Stream(Some(root)), 3, "", {}, map[]).value.out == LoadHttp(table, Stream(Some(root))).value
  {
    var events := Stream(Some(root));
    StreamHolds(root);
    MappingsStart(root);
    DomainHolds(events, 2, root);
  }

  /** Where the root stands in the stream. */
  lemma StreamHolds(root: Node)
    ensures var events := Stream(Some(root));
      && |events| > 3 && events[0] == StreamStart && events[1] == DocumentStart && events[2] == Events(root)[0]
      && Holds(events, 2, Events(root))
  {
    var events := Stream(Some(root));
    assert events == [StreamStart, DocumentStart] + (Events(root) + [DocumentEnd, StreamEnd]);
    FirstEvent(root);
    HoldsSlice(events, 2, Events(root));
  }

  /**
   Whenever both readings of a document succeed, the HTTP projection is the tree walk
   restricted to the HTTP settings: none is lost, none is added, none differs.
   */
  lemma ProjectionIsRestriction(table: Table, root: Option<Node>)
    requires TableOk(table) && LoadHttp(table, Stream(root)).Ok? && LoadTree(table, root).Ok?
    ensures LoadHttp(table, Stream(root)).value == Http(table, LoadTree(table, root).value)
  {
    if root.Some? {
      StreamProjects(table, root.value);
      var events := Stream(root);
      ProjectShape(table, events, 3, "", root.value, 0, {}, map[]);
      PlainIsConstructed(root.value);
      assert Http(table, map[]) == map[];
      FieldsRefine(table, events, 3, "", root.value, 0, {}, map[], map[]);
    }
  }
}
