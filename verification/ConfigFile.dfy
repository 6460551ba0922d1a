/**
 The two readings of one configuration document: the walk over the constructed tree, which
 the worker uses, and the projection over the parser's events, which the HTTP service uses.

 A scalar carries the value both readings give it. A document without aliases is a tree
 whose mappings keep their entries as written, duplicates included.
 */
module ConfigFile {
  import opened Wrappers

  datatype Value = Null | Text(text: string) | Typed(number: int)

  datatype Entry = Entry(key: Node, value: Node)

  datatype Node =
    | Scalar(text: string, value: Value)
    | Sequence(items: seq<Node>)
    | Mapping(entries: seq<Entry>)

  datatype Event =
    | ScalarEvent(text: string, value: Value)
    | AliasEvent
    | MappingStart
    | MappingEnd
    | SequenceStart
    | SequenceEnd
    | StreamStart
    | StreamEnd
    | DocumentStart
    | DocumentEnd

  datatype ConfigError = UnknownKey(path: string) | DuplicateKey | InvalidType | EndedEarly

  /** What a configuration sets: values by environment name. */
  type Settings = map<string, Node>

  /** Environment names by path, and the paths the HTTP service reads. */
  datatype Table = Table(env: map<string, string>, http: set<string>)

  function Join(prefix: string, key: string): string {
    if prefix == "" then key else prefix + "." + key
  }

  predicate Below(path: string, candidate: string) {
    path + "." <= candidate
  }

  predicate HasDescendant(path: string, candidates: set<string>) {
    exists c :: c in candidates && Below(path, c)
  }

  // ----- the tree walk ------------------------------------------------------------------

  datatype Field = Field(key: string, value: Node)

  /** Setting a key again keeps its place and takes the new value. */
  function Upsert(fields: seq<Field>, field: Field): (r: seq<Field>)
    ensures forall f | f in r :: f in fields || f.value == field.value
  {
    if fields == [] then [field]
    else if fields[0].key == field.key then [Field(field.key, field.value)] + fields[1..]
    else [fields[0]] + Upsert(fields[1..], field)
  }

  /** The constructed mapping: keys must be strings, and a repeated key counts once. */
  function Constructed(entries: seq<Entry>): (r: Result<seq<Field>, ConfigError>)
    ensures r.Ok? ==> forall f | f in r.value :: exists i :: 0 <= i < |entries| && entries[i].value == f.value
  {
    if entries == [] then Ok([])
    else
      var last := entries[|entries| - 1];
      var fields :- Constructed(entries[..|entries| - 1]);
      if last.key.Scalar? && last.key.value == Text(last.key.text)
      then
        assert entries[|entries| - 1] == last;
        Ok(Upsert(fields, Field(last.key.text, last.value)))
      else Err(InvalidType)
  }

  function Walk(table: Table, prefix: string, node: Node, out: Settings): Result<Settings, ConfigError>
    decreases node, 1
  {
    match node
    case Mapping(entries) =>
      var fields :- Constructed(entries);
      WalkFields(table, prefix, node, fields, out)
    case _ =>
      if prefix !in table.env then Err(UnknownKey(prefix))
      else if node.Scalar? && node.value == Null then Ok(out)
      else Ok(out[table.env[prefix] := node])
  }

  function WalkFields(table: Table, prefix: string, node: Node, fields: seq<Field>, out: Settings): Result<Settings, ConfigError>
    requires node.Mapping? && forall f | f in fields :: exists i :: 0 <= i < |node.entries| && node.entries[i].value == f.value
    decreases node, 0, |fields|
  {
    if fields == [] then Ok(out)
    else
      assert fields[0] in fields;
      var i :| 0 <= i < |node.entries| && node.entries[i].value == fields[0].value;
      assert node.entries[i].value < node;
      var next :- Walk(table, Join(prefix, fields[0].key), fields[0].value, out);
      WalkFields(table, prefix, node, fields[1..], next)
  }

  // ----- the event stream -----------------------------------------------------------------

  /** The parser's events for a value. */
  function Events(node: Node): seq<Event>
    decreases node
  {
    match node
    case Scalar(text, value) => [ScalarEvent(text, value)]
    case Sequence(_) => [SequenceStart] + ItemEvents(node, 0)
    case Mapping(_) => [MappingStart] + EntryEvents(node, 0)
  }

  /** The items from the `k`-th on, with the end of the sequence. */
  function ItemEvents(node: Node, k: nat): seq<Event>
    requires node.Sequence? && k <= |node.items|
    decreases node, |node.items| - k
  {
    if k == |node.items| then [SequenceEnd] else Events(node.items[k]) + ItemEvents(node, k + 1)
  }

  /** The entries from the `k`-th on, with the end of the mapping. */
  function EntryEvents(node: Node, k: nat): seq<Event>
    requires node.Mapping? && k <= |node.entries|
    decreases node, |node.entries| - k
  {
    if k == |node.entries| then [MappingEnd]
    else Events(node.entries[k].key) + Events(node.entries[k].value) + EntryEvents(node, k + 1)
  }

  /** Where reading a value that starts with `first` ends; `at` is the position after `first`. */
  function Skip(events: seq<Event>, at: nat, first: Event): (r: Result<nat, ConfigError>)
    requires at <= |events|
    ensures r.Ok? ==> at <= r.value <= |events|
    decreases |events| - at, 1
  {
    match first
    case ScalarEvent(_, _) => Ok(at)
    case MappingStart => SkipEntries(events, at)
    case SequenceStart => SkipItems(events, at)
    case _ => Err(InvalidType)
  }

  function SkipEntries(events: seq<Event>, at: nat): (r: Result<nat, ConfigError>)
    requires at <= |events|
    ensures r.Ok? ==> at <= r.value <= |events|
    decreases |events| - at, 0
  {
    if at == |events| then Err(EndedEarly)
    else if events[at] == MappingEnd then Ok(at + 1)
    else
      var value :- Skip(events, at + 1, events[at]);
      if value == |events| then Err(EndedEarly)
      else
        var next :- Skip(events, value + 1, events[value]);
        SkipEntries(events, next)
  }

  function SkipItems(events: seq<Event>, at: nat): (r: Result<nat, ConfigError>)
    requires at <= |events|
    ensures r.Ok? ==> at <= r.value <= |events|
    decreases |events| - at, 0
  {
    if at == |events| then Err(EndedEarly)
    else if events[at] == SequenceEnd then Ok(at + 1)
    else
      var next :- Skip(events, at + 1, events[at]);
      SkipItems(events, next)
  }

  datatype Projected = Projected(at: nat, out: Settings)

  /** Reading the value of the entry at `path`; `at` is the position after its first event. */
  function ProjectValue(table: Table, events: seq<Event>, at: nat, path: string, first: Event, out: Settings): (r: Result<Projected, ConfigError>)
    requires at <= |events|
    ensures r.Ok? ==> at <= r.value.at <= |events|
    decreases |events| - at, 1
  {
    if path in table.http && path in table.env then
      if !first.ScalarEvent? then Err(InvalidType)
      else Ok(Projected(at, if first.value == Null then out else out[table.env[path] := Scalar(first.text, first.value)]))
    else if HasDescendant(path, table.http) then
      if first != MappingStart then Err(InvalidType) else Project(table, events, at, path, {}, out)
    else if path in table.env || HasDescendant(path, table.env.Keys) then
      var end :- Skip(events, at, first);
      Ok(Projected(end, out))
    else Err(UnknownKey(path))
  }

  /** Reading the entries of a mapping up to its end, keeping HTTP settings and skipping the worker's. */
  function Project(table: Table, events: seq<Event>, at: nat, prefix: string, seen: set<string>, out: Settings)
    : (r: Result<Projected, ConfigError>)
    requires at <= |events|
    ensures r.Ok? ==> at <= r.value.at <= |events|
    decreases |events| - at, 0
  {
    if at == |events| then Err(EndedEarly)
    else if events[at] == MappingEnd then Ok(Projected(at + 1, out))
    else if !events[at].ScalarEvent? then Err(InvalidType)
    else if events[at].text in seen then Err(DuplicateKey)
    else if at + 1 == |events| then Err(EndedEarly)
    else
      var value :- ProjectValue(table, events, at + 2, Join(prefix, events[at].text), events[at + 1], out);
      Project(table, events, value.at, prefix, seen + {events[at].text}, value.out)
  }

  /** The whole stream: one document, whose root is a mapping. */
  function LoadHttp(table: Table, events: seq<Event>): Result<Settings, ConfigError> {
    if |events| == 0 then Err(EndedEarly)
    else if events[0] != StreamStart then Err(InvalidType)
    else if |events| == 1 then Err(EndedEarly)
    else if events[1] == StreamEnd then Ok(map[])
    else if events[1] != DocumentStart then Err(InvalidType)
    else if |events| == 2 then Err(EndedEarly)
    else if events[2] != MappingStart then Err(InvalidType)
    else
      var projected :- Project(table, events, 3, "", {}, map[]);
      if projected.at == |events| then Err(EndedEarly)
      else if events[projected.at] != DocumentEnd then Err(InvalidType)
      else if projected.at + 1 == |events| then Err(EndedEarly)
      else if events[projected.at + 1] != StreamEnd then Err(InvalidType)
      else Ok(projected.out)
  }
}
