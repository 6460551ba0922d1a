/**
 Which values a schema allows, keyword by keyword as JSON Schema 2020-12 defines it, and how
 the generated lines read as Python definitions.
 */
module UsageMeaning {
  import opened Wrappers
  import opened PythonText
  import opened UsageLexer
  import opened UsageLayout
  import opened UsageSchema

  /** The position of the last occurrence of a name. */
  function IndexOf(names: seq<string>, name: string): (r: Option<nat>)
    ensures r.Some? ==> r.value < |names| && names[r.value] == name
    ensures r.None? ==> name !in names
  {
    if names == [] then None
    else if names[|names| - 1] == name then Some(|names| - 1)
    else IndexOf(names[..|names| - 1], name)
  }

  // ----- the schema -------------------------------------------------------------------------------

  function Keys(members: seq<Member>): seq<string> {
    seq(|members|, i requires 0 <= i < |members| => members[i].key)
  }

  predicate TypeHolds(kind: Node, v: Node) {
    kind.Str? &&
      var name := Chars(kind.text);
      || (name == Some("null") && v.Null?)
      || (name == Some("boolean") && v.Flag?)
      || (name == Some("integer") && v.Number?)
      || (name == Some("number") && (v.Number? || v.Fraction?))
      || (name == Some("string") && v.Str?)
      || (name == Some("array") && v.Items?)
      || (name == Some("object") && v.Dict?)
  }

  /** The keywords that constrain a string; they say nothing about other values. */
  predicate TextHolds(lang: Language, node: Node, v: Node)
    requires node.Dict?
  {
    v.Str? ==>
      && (var p := Get(node, "pattern"); p.Some? && p.value.Str? ==> lang.matches(p.value.text, v.text))
      && (var n := Get(node, "minLength"); n.Some? && n.value.Number? ==> n.value.number <= |v.text|)
      && (var n := Get(node, "maxLength"); n.Some? && n.value.Number? ==> |v.text| <= n.value.number)
      && (var n := Get(node, "x-utf8-max-bytes"); n.Some? && n.value.Number? ==> IsUnicode(v.text) && |Utf8(v.text)| <= n.value.number)
      && (Has(node, "x-max-decimal") ==> lang.decimal(v.text))
      && (Get(node, "x-calendar-valid") == Some(Flag(true)) ==> lang.calendar(v.text))
  }

  /** The keywords that need no subschema, except those for strings. */
  predicate PlainHolds(node: Node, v: Node)
    requires node.Dict?
  {
    && (Has(node, "type") ==> TypeHolds(Get(node, "type").value, v))
    && (Has(node, "const") ==> v == Get(node, "const").value)
    && (var e := Get(node, "enum"); e.Some? && e.value.Items? ==> v in e.value.items)
    && (var n := Get(node, "maxItems"); n.Some? && n.value.Number? && v.Items? ==> |v.items| <= n.value.number)
    && (v.Dict? ==> RequiredHolds(Get(node, "required"), v) && ClosedHolds(node, v))
  }

  predicate RequiredHolds(required: Option<Node>, v: Node)
    requires v.Dict?
  {
    required.Some? && required.value.Items? ==>
      forall i | 0 <= i < |required.value.items| ::
        required.value.items[i].Str? && Chars(required.value.items[i].text).Some? ==> Has(v, Chars(required.value.items[i].text).value)
  }

  predicate ClosedHolds(node: Node, v: Node)
    requires node.Dict? && v.Dict?
  {
    Get(node, "additionalProperties") == Some(Flag(false)) ==>
      var p := Get(node, "properties");
      forall i | 0 <= i < |v.members| :: p.Some? && p.value.Dict? && HasKey(p.value.members, v.members[i].key)
  }

  /** A value conforms to a node that may refer to the first `i` definitions. */
  predicate Conforms(lang: Language, definitions: seq<Member>, i: nat, node: Node, v: Node)
    requires i <= |definitions|
    decreases i, Size(node), 0
  {
    && node.Dict? && PlainHolds(node, v) && TextHolds(lang, node, v)
    && (Has(node, "$ref") ==> RefersTo(lang, definitions, i, Referred(Get(node, "$ref").value), v))
    && (var b := Get(node, "anyOf"); b.Some? && b.value.Items? ==> AnyConforms(lang, definitions, i, b.value.items, v))
    && (var e := Get(node, "items"); e.Some? && v.Items? ==> forall k | 0 <= k < |v.items| :: Conforms(lang, definitions, i, e.value, v.items[k]))
    && (var p := Get(node, "properties"); p.Some? && p.value.Dict? && v.Dict? ==> AllConform(lang, definitions, i, p.value.members, v))
  }

  predicate RefersTo(lang: Language, definitions: seq<Member>, i: nat, name: Option<string>, v: Node)
    requires i <= |definitions|
    decreases i, 0, 0
  {
    name.Some? &&
      var j := IndexOf(Keys(definitions[..i]), name.value);
      j.Some? && Conforms(lang, definitions, j.value, definitions[j.value].value, v)
  }

  predicate AnyConforms(lang: Language, definitions: seq<Member>, i: nat, branches: seq<Node>, v: Node)
    requires i <= |definitions|
    decreases i, SizeOfItems(branches), 1
  {
    branches != [] && (Conforms(lang, definitions, i, branches[0], v) || AnyConforms(lang, definitions, i, branches[1..], v))
  }

  predicate AllConform(lang: Language, definitions: seq<Member>, i: nat, properties: seq<Member>, v: Node)
    requires i <= |definitions| && v.Dict?
    decreases i, SizeOfMembers(properties), 1
  {
    properties != [] ==>
      && (Has(v, properties[0].key) ==> Conforms(lang, definitions, i, properties[0].value, Get(v, properties[0].key).value))
      && AllConform(lang, definitions, i, properties[1..], v)
  }

  // ----- Python expressions ---------------------------------------------------------------------------

  datatype Item =
    | Name(name: string)
    | Literal(raw: string)
    | Index(head: string, args: Args)
    | Call(head: string, args: Args)
    | Keyword(name: string, value: Item)

  datatype Union = One(item: Item) | More(item: Item, rest: Union)

  datatype Args = Last(union: Union) | Comma(union: Union, others: Args)

  function ParseItem(ts: seq<Token>): (r: Option<(Item, seq<Token>)>)
    ensures r.Some? ==> |r.value.1| < |ts|
    decreases |ts|, 0
  {
    if ts == [] then None
    else if ts[0].Quote? then Some((Literal(ts[0].raw), ts[1..]))
    else if !ts[0].Word? then None
    else if |ts| > 1 && IsOpener(ts[1]) then
      var args := ParseArgs(ts[2..], if ts[1] == Mark('[') then ']' else ')');
      if args.None? then None
      else Some((if ts[1] == Mark('[') then Index(ts[0].word, args.value.0) else Call(ts[0].word, args.value.0), args.value.1))
    else if |ts| > 1 && ts[1] == Mark('=') then
      var value := ParseItem(ts[2..]);
      if value.None? then None else Some((Keyword(ts[0].word, value.value.0), value.value.1))
    else Some((Name(ts[0].word), ts[1..]))
  }

  function ParseUnion(ts: seq<Token>): (r: Option<(Union, seq<Token>)>)
    ensures r.Some? ==> |r.value.1| < |ts|
    decreases |ts|, 1
  {
    var first := ParseItem(ts);
    if first.None? then None
    else
      var (item, after) := first.value;
      if after != [] && after[0] == Mark('|') then
        var rest := ParseUnion(after[1..]);
        if rest.None? then None else Some((More(item, rest.value.0), rest.value.1))
      else Some((One(item), after))
  }

  function ParseArgs(ts: seq<Token>, closer: char): (r: Option<(Args, seq<Token>)>)
    ensures r.Some? ==> |r.value.1| < |ts|
    decreases |ts|, 2
  {
    var first := ParseUnion(ts);
    if first.None? then None
    else
      var (union, after) := first.value;
      if after == [] then None
      else if after[0] == Mark(closer) then Some((Last(union), after[1..]))
      else if IsComma(after[0]) then
        var rest := ParseArgs(after[1..], closer);
        if rest.None? then None else Some((Comma(union, rest.value.0), rest.value.1))
      else None
  }

  // ----- values of literals -----------------------------------------------------------------------------

  function HexValue(c: char): Option<nat> {
    if '0' <= c <= '9' then Some((c - '0') as int)
    else if 'a' <= c <= 'f' then Some((c - 'a') as int + 10)
    else None
  }

  function Hex4Value(s: string): Option<nat>
    requires |s| == 4
  {
    var (a, b, c, d) := (HexValue(s[0]), HexValue(s[1]), HexValue(s[2]), HexValue(s[3]));
    if a.None? || b.None? || c.None? || d.None? then None
    else Some(((a.value * 16 + b.value) * 16 + c.value) * 16 + d.value)
  }

  function ShortEscape(c: char): Option<CodePoint> {
    if c == '"' then Some(0x22)
    else if c == '\\' then Some(0x5C)
    else if c == 'n' then Some(0x0A)
    else if c == 'r' then Some(0x0D)
    else if c == 't' then Some(0x09)
    else if c == 'b' then Some(0x08)
    else if c == 'f' then Some(0x0C)
    else None
  }

  /** The value of a Python string literal, whose `\u` stands for one code point. */
  function PythonString(raw: string): Option<Text> {
    if raw == "" then Some([])
    else if raw[0] != '\\' then Before(raw[0] as int, PythonString(raw[1..]))
    else if |raw| >= 6 && raw[1] == 'u' then
      var n := Hex4Value(raw[2..6]);
      if n.None? || n.value >= 0x110000 then None else Before(n.value, PythonString(raw[6..]))
    else if |raw| >= 2 && ShortEscape(raw[1]).Some? then Before(ShortEscape(raw[1]).value, PythonString(raw[2..]))
    else None
  }

  function Before(c: CodePoint, rest: Option<Text>): Option<Text> {
    if rest.None? then None else Some([c] + rest.value)
  }

  function DigitValue(c: char): Option<nat> {
    if '0' <= c <= '9' then Some((c - '0') as int) else None
  }

  function NatOf(s: string): Option<nat> {
    if s == "" then None
    else if |s| == 1 then DigitValue(s[0])
    else
      var (high, low) := (NatOf(s[..|s| - 1]), DigitValue(s[|s| - 1]));
      if high.None? || low.None? then None else Some(high.value * 10 + low.value)
  }

  // ----- definitions and constraints ---------------------------------------------------------------------------

  datatype Definition = AliasOf(name: string, alias: Union) | ClassOf(name: string, fields: seq<(string, Union)>)

  predicate LiteralHolds(args: Args, t: Text) {
    || (args.union.One? && args.union.item.Literal? && PythonString(args.union.item.raw) == Some(t))
    || (args.Comma? && LiteralHolds(args.others, t))
  }

  function LengthOf(v: Node): Option<nat> {
    if v.Str? then Some(|v.text|) else if v.Items? then Some(|v.items|) else None
  }

  predicate ConstraintHolds(lang: Language, constraint: Union, v: Node) {
    constraint.One? && constraint.item.Keyword? &&
      var (name, value) := (constraint.item.name, constraint.item.value);
      if name == "pattern" then
        v.Str? && value.Literal? && PythonString(value.raw).Some? && lang.matches(PythonString(value.raw).value, v.text)
      else if value.Name? && NatOf(value.name).Some? && LengthOf(v).Some? then
        || (name == "min_length" && NatOf(value.name).value <= LengthOf(v).value)
        || (name == "max_length" && LengthOf(v).value <= NatOf(value.name).value)
      else false
  }

  predicate FieldHolds(lang: Language, args: Args, v: Node) {
    ConstraintHolds(lang, args.union, v) && (args.Comma? ==> FieldHolds(lang, args.others, v))
  }

  // ----- reading the generated lines ------------------------------------------------------------------------

  /** All of the tokens, as one annotation. */
  function ReadUnion(ts: seq<Token>): Option<Union> {
    var r := ParseUnion(ts);
    if r.None? || r.value.1 != [] then None else Some(r.value.0)
  }

  function ReadField(lines: seq<string>): Option<(string, Union)> {
    var ts := Undo(lines);
    if ts.None? || |ts.value| < 2 || !ts.value[0].Word? || ts.value[1] != Mark(':') || ReadUnion(ts.value[2..]).None? then None
    else Some((ts.value[0].word, ReadUnion(ts.value[2..]).value))
  }

  function FieldReader(): (seq<seq<string>>, seq<string>) -> Option<(string, Union)> {
    (before: seq<seq<string>>, field: seq<string>) => ReadField(field)
  }

  function ReadFields(fields: seq<seq<string>>): Option<seq<(string, Union)>> {
    Each(FieldReader(), fields)
  }

  function AliasTokens(name: string): seq<Token> {
    [Word(name), Mark(':'), Word("TypeAlias"), Mark('=')]
  }

  function ReadStatement(s: Statement): Option<Definition> {
    match s
    case Class(name, fields) => if ReadFields(fields).None? then None else Some(ClassOf(name, ReadFields(fields).value))
    case Alias(name, alias) =>
      var ts := Undo(alias);
      if ts.None? || !(AliasTokens(name) <= ts.value) || ReadUnion(ts.value[4..]).None? then None
      else Some(AliasOf(name, ReadUnion(ts.value[4..]).value))
  }

  function StatementReader(): (seq<Statement>, Statement) -> Option<Definition> {
    (before: seq<Statement>, statement: Statement) => ReadStatement(statement)
  }

  /** The module as Python reads it, statement by statement. */
  function ReadAll(statements: seq<Statement>): Option<seq<Definition>> {
    Each(StatementReader(), statements)
  }
}
