/**
 The compiler from the usage schema dialect to Python annotations, and what the schema means
 by itself, keyword by keyword, as JSON Schema 2020-12 defines it.
 */
module UsageSchema {
  import opened Wrappers
  import opened PythonText
  import opened UsageLexer
  import opened UsageLayout

  /** Parsed JSON; `Fraction` is any number that is no integer. */
  datatype Node =
    | Null
    | Flag(flag: bool)
    | Number(number: int)
    | Fraction
    | Str(text: Text)
    | Items(items: seq<Node>)
    | Dict(members: seq<Member>)

  datatype Member = Member(key: string, value: Node)

  /** Regular expressions, number parsing, the calendar and the attributes of the base class. */
  datatype Language = Language(
    compiles: Text -> bool, matches: (Text, Text) -> bool, decimal: Text -> bool, calendar: Text -> bool,
    isAttribute: string -> bool)

  // ----- nodes -------------------------------------------------------------------------------

  function Size(n: Node): nat {
    match n
    case Items(items) => 1 + SizeOfItems(items)
    case Dict(members) => 1 + SizeOfMembers(members)
    case _ => 0
  }

  function SizeOfItems(items: seq<Node>): nat {
    if items == [] then 0 else 1 + Size(items[0]) + SizeOfItems(items[1..])
  }

  function SizeOfMembers(members: seq<Member>): nat {
    if members == [] then 0 else 1 + Size(members[0].value) + SizeOfMembers(members[1..])
  }

  /** The member of a mapping, if there is one. */
  function Get(n: Node, key: string): (r: Option<Node>)
    requires n.Dict?
    ensures r.Some? ==> Size(r.value) < Size(n)
    ensures r.Some? <==> HasKey(n.members, key)
  {
    GetMember(n.members, key)
  }

  predicate HasKey(members: seq<Member>, key: string) {
    exists i | 0 <= i < |members| :: members[i].key == key
  }

  function GetMember(members: seq<Member>, key: string): (r: Option<Node>)
    ensures r.Some? ==> Size(r.value) < 1 + SizeOfMembers(members)
    ensures r.Some? <==> HasKey(members, key)
  {
    if members == [] then None
    else if members[0].key == key then Some(members[0].value)
    else
      var r := GetMember(members[1..], key);
      assert forall i | 0 < i < |members| :: members[i] == members[1..][i - 1];
      r
  }

  lemma {:induction false} ItemSize(items: seq<Node>, i: nat)
    requires i < |items|
    ensures Size(items[i]) < SizeOfItems(items)
  {
    if i > 0 {
      ItemSize(items[1..], i - 1);
    }
  }

  predicate Has(n: Node, key: string)
    requires n.Dict?
  {
    Get(n, key).Some?
  }

  predicate OnlyKeys(n: Node, allowed: set<string>)
    requires n.Dict?
  {
    forall i | 0 <= i < |n.members| :: n.members[i].key in allowed
  }

  /** A text without lone surrogates as a string of the model. */
  function Chars(t: Text): Option<string> {
    if IsUnicode(t) then Some(seq(|t|, i requires 0 <= i < |t| => t[i] as char)) else None
  }

  predicate IsText(n: Option<Node>, s: string) {
    n.Some? && n.value.Str? && Chars(n.value.text) == Some(s)
  }

  const REFERENCE := "#/$defs/"

  /** The definition that a reference names. */
  function Referred(n: Node): Option<string> {
    if n.Str? && Chars(n.text).Some? && REFERENCE <= Chars(n.text).value then Some(Chars(n.text).value[|REFERENCE|..]) else None
  }

  // ----- text ----------------------------------------------------------------------------------

  function HexDigit(n: int): char
    requires 0 <= n < 16
  {
    "0123456789abcdef"[n]
  }

  function Hex4(n: int): string
    requires 0 <= n < 0x1_0000
  {
    [HexDigit(n / 16 / 16 / 16), HexDigit(n / 16 / 16 % 16), HexDigit(n / 16 % 16), HexDigit(n % 16)]
  }

  /** The letter of a two-character escape. */
  function ShortLetter(c: CodePoint): Option<char> {
    if c == 0x22 then Some('"')
    else if c == 0x5C then Some('\\')
    else if c == 0x0A then Some('n')
    else if c == 0x0D then Some('r')
    else if c == 0x09 then Some('t')
    else if c == 0x08 then Some('b')
    else if c == 0x0C then Some('f')
    else None
  }

  /** What `json.dumps` writes for one code point. */
  function Escape(c: CodePoint): string {
    if ShortLetter(c).Some? then ['\\', ShortLetter(c).value]
    else if 0x20 <= c < 0x7F then [c as char]
    else if c < 0x1_0000 then "\\u" + Hex4(c)
    else "\\u" + Hex4(High(c)) + "\\u" + Hex4(Low(c))
  }

  /** The surrogate pair of a code point outside the basic plane. */
  function High(c: CodePoint): (r: CodePoint)
    requires 0x1_0000 <= c
    ensures 0xD800 <= r < 0xDC00
  {
    0xD800 + (c - 0x1_0000) / 0x400
  }

  function Low(c: CodePoint): (r: CodePoint)
    requires 0x1_0000 <= c
    ensures 0xDC00 <= r < 0xE000
  {
    0xDC00 + (c - 0x1_0000) % 0x400
  }

  function EscapeAll(t: Text): string {
    if t == [] then "" else Escape(t[0]) + EscapeAll(t[1..])
  }

  function Dumps(t: Text): string {
    "\"" + EscapeAll(t) + "\""
  }

  function Decimal(n: nat): string {
    (if n < 10 then "" else Decimal(n / 10)) + ["0123456789"[n % 10]]
  }

  function Join(separator: string, parts: seq<string>): string {
    if parts == [] then ""
    else if |parts| == 1 then parts[0]
    else parts[0] + separator + Join(separator, parts[1..])
  }

  // ----- the compiler -----------------------------------------------------------------------------

  /** The annotation of a node, given the names defined before it; `None` is a refused schema. */
  function Annotation(lang: Language, node: Node, defined: set<string>): Option<string>
    requires node.Dict?
    decreases Size(node)
  {
    if Has(node, "$ref") then
      var name := Referred(Get(node, "$ref").value);
      if !OnlyKeys(node, {"$ref"}) || name.None? || name.value !in defined then None else name
    else if Has(node, "anyOf") then
      var branches := Get(node, "anyOf").value;
      if !OnlyKeys(node, {"anyOf"}) || !branches.Items? || |branches.items| < 2 then None
      else
        var texts := Annotations(lang, branches.items, defined);
        if texts.None? then None else Some(Join(" | ", texts.value))
    else
      var kind := Get(node, "type");
      if IsText(kind, "null") then if OnlyKeys(node, {"type"}) then Some("None") else None
      else if IsText(kind, "boolean") then if OnlyKeys(node, {"type"}) then Some("bool") else None
      else if IsText(kind, "array") then
        var maximum, items := Get(node, "maxItems"), Get(node, "items");
        if !OnlyKeys(node, {"type", "items", "maxItems"}) || maximum.None? || !maximum.value.Number? || maximum.value.number < 1 then None
        else if items.None? || !items.value.Dict? then None
        else
          var item := Annotation(lang, items.value, defined);
          if item.None? then None
          else Some("Annotated[list[" + item.value + "], Field(max_length=" + Decimal(maximum.value.number) + ")]")
      else if IsText(kind, "string") then StringAnnotation(lang, node)
      else None
  }

  function Annotations(lang: Language, branches: seq<Node>, defined: set<string>): (r: Option<seq<string>>)
    ensures r.Some? ==> |r.value| == |branches|
    decreases SizeOfItems(branches)
  {
    if branches == [] then Some([])
    else if !branches[0].Dict? then None
    else
      var first := Annotation(lang, branches[0], defined);
      var rest := Annotations(lang, branches[1..], defined);
      if first.None? || rest.None? then None else Some([first.value] + rest.value)
  }

  const STRING_KEYS := {"type", "const", "enum", "pattern", "minLength", "maxLength", "x-utf8-max-bytes", "x-max-decimal", "x-calendar-valid"}

  function StringAnnotation(lang: Language, node: Node): Option<string>
    requires node.Dict?
  {
    if !OnlyKeys(node, STRING_KEYS) then None
    else if Has(node, "const") then
      if OnlyKeys(node, {"type", "const"}) then LiteralAnnotation([Get(node, "const").value]) else None
    else if Has(node, "enum") then
      if OnlyKeys(node, {"type", "enum"}) && Get(node, "enum").value.Items? then LiteralAnnotation(Get(node, "enum").value.items) else None
    else
      var constraints := Constraints(lang, node);
      var validators := Validators(node);
      if constraints.None? || validators.None? then None
      else
        var metadata := (if constraints.value == [] then [] else ["Field(" + Join(", ", constraints.value) + ")"]) + validators.value;
        Some(if metadata == [] then "str" else "Annotated[str, " + Join(", ", metadata) + "]")
  }

  predicate DistinctTexts(values: seq<Node>) {
    && (forall i | 0 <= i < |values| :: values[i].Str?)
    && (forall i, j | 0 <= i < j < |values| :: values[i].text != values[j].text)
  }

  function LiteralAnnotation(values: seq<Node>): Option<string> {
    if values == [] || !DistinctTexts(values) then None
    else Some("Literal[" + Join(", ", seq(|values|, i requires 0 <= i < |values| => Dumps(values[i].text))) + "]")
  }

  function PatternConstraint(lang: Language, node: Node): Option<seq<string>>
    requires node.Dict?
  {
    var value := Get(node, "pattern");
    if value.None? then Some([])
    else if value.value.Str? && lang.compiles(value.value.text) then Some(["pattern=" + Dumps(value.value.text)])
    else None
  }

  function LengthConstraint(node: Node, source: string, target: string): Option<seq<string>>
    requires node.Dict?
  {
    var value := Get(node, source);
    if value.None? then Some([])
    else if value.value.Number? && value.value.number >= 0 then Some([target + "=" + Decimal(value.value.number)])
    else None
  }

  function Three(a: Option<seq<string>>, b: Option<seq<string>>, c: Option<seq<string>>): Option<seq<string>> {
    if a.None? || b.None? || c.None? then None else Some(a.value + b.value + c.value)
  }

  function Constraints(lang: Language, node: Node): Option<seq<string>>
    requires node.Dict?
  {
    Three(PatternConstraint(lang, node), LengthConstraint(node, "minLength", "min_length"), LengthConstraint(node, "maxLength", "max_length"))
  }

  function Utf8Validator(node: Node): Option<seq<string>>
    requires node.Dict?
  {
    var value := Get(node, "x-utf8-max-bytes");
    if value.None? then Some([])
    else if value.value == Number(128) || value.value == Number(512) then
      Some(["AfterValidator(_utf8_limit(" + Decimal(value.value.number) + "))"])
    else None
  }

  function DecimalValidator(node: Node): Option<seq<string>>
    requires node.Dict?
  {
    var value := Get(node, "x-max-decimal");
    if value.None? then Some([])
    else if IsText(value, "9223372036854775807") then Some(["AfterValidator(_decimal_limit)"])
    else None
  }

  function CalendarValidator(node: Node): Option<seq<string>>
    requires node.Dict?
  {
    var value := Get(node, "x-calendar-valid");
    if value.None? then Some([])
    else if value.value == Flag(true) then Some(["AfterValidator(_calendar)"])
    else None
  }

  function Validators(node: Node): Option<seq<string>>
    requires node.Dict?
  {
    Three(Utf8Validator(node), DecimalValidator(node), CalendarValidator(node))
  }

  // ----- one after the other ---------------------------------------------------------------------------

  /** The results of a step for each element, given the elements before it; `None` once a step fails. */
  function Each<A, B>(step: (seq<A>, A) -> Option<B>, xs: seq<A>): (r: Option<seq<B>>)
    ensures r.Some? ==> |r.value| == |xs|
  {
    if xs == [] then Some([])
    else
      var before := xs[..|xs| - 1];
      var first := Each(step, before);
      var last := step(before, xs[|xs| - 1]);
      if first.None? || last.None? then None else Some(first.value + [last.value])
  }

  lemma {:induction false} EachPrefix<A, B>(step: (seq<A>, A) -> Option<B>, xs: seq<A>, n: nat)
    requires n < |xs| && Each(step, xs).Some?
    ensures Each(step, xs[..n]).Some? && step(xs[..n], xs[n]).Some?
    ensures Each(step, xs).value[..n] == Each(step, xs[..n]).value
    ensures Each(step, xs).value[n] == step(xs[..n], xs[n]).value
  {
    var init := xs[..|xs| - 1];
    if n < |init| {
      EachPrefix(step, init, n);
      assert init[..n] == xs[..n] && init[n] == xs[n];
    } else {
      assert init == xs[..n];
    }
  }

  lemma EachNext<A, B>(step: (seq<A>, A) -> Option<B>, xs: seq<A>, n: nat)
    requires n < |xs| && Each(step, xs[..n]).Some? && step(xs[..n], xs[n]).Some?
    ensures Each(step, xs[..n + 1]) == Some(Each(step, xs[..n]).value + [step(xs[..n], xs[n]).value])
  {
    assert xs[..n + 1][..n] == xs[..n];
  }

  // ----- definitions ----------------------------------------------------------------------------------

  const KEYWORDS := {
    "False", "None", "True", "and", "as", "assert", "async", "await", "break", "class", "continue", "def", "del", "elif", "else",
    "except", "finally", "for", "from", "global", "if", "import", "in", "is", "lambda", "nonlocal", "not", "or", "pass", "raise",
    "return", "try", "while", "with", "yield"}

  predicate IsName(s: string) {
    && s != "" && ('a' <= s[0] <= 'z' || 'A' <= s[0] <= 'Z')
    && forall i | 0 <= i < |s| :: IsWordChar(s[i])
  }

  predicate NameOk(name: string) {
    IsName(name) && name !in KEYWORDS && name !in {"UsageWireModel", "SOURCE_SHA256", "MAX_JSON_BYTES", "MAX_JSON_DEPTH"}
  }

  predicate FieldOk(lang: Language, name: string) {
    IsName(name) && name !in KEYWORDS && !lang.isAttribute(name) && name !in {"UsageWireModel", "SOURCE_SHA256"}
  }

  /** The statements written for a definition: a class with the lines of its fields, or an alias. */
  datatype Statement = Class(name: string, fields: seq<seq<string>>) | Alias(name: string, alias: seq<string>)

  function Lines(s: Statement): seq<string> {
    ["", ""] + if s.Class? then ["class " + s.name + "(UsageWireModel):"] + Flatten(s.fields) else s.alias
  }

  function Flatten(groups: seq<seq<string>>): seq<string> {
    if groups == [] then [] else Flatten(groups[..|groups| - 1]) + groups[|groups| - 1]
  }

  function FieldPrefix(name: string): string {
    "    " + name + ": "
  }

  function AliasPrefix(name: string): string {
    name + ": TypeAlias = "
  }

  /** One field, with its annotation laid out. */
  function FieldLines(lang: Language, field: Member, defined: set<string>): Option<seq<string>> {
    if !FieldOk(lang, field.key) || !field.value.Dict? then None
    else
      var annotation := Annotation(lang, field.value, defined);
      if annotation.None? then None else Layout(FieldPrefix(field.key), annotation.value, "")
  }

  function FieldWriter(lang: Language, defined: set<string>): (seq<Member>, Member) -> Option<seq<string>> {
    (before: seq<Member>, field: Member) => FieldLines(lang, field, defined)
  }

  /** All members required, in order, and no others allowed. */
  predicate IsClosed(node: Node)
    requires node.Dict?
  {
    && Has(node, "properties") && Get(node, "properties").value.Dict? && Get(node, "properties").value.members != []
    && Has(node, "required") && Get(node, "required").value.Items?
    && Has(node, "additionalProperties") && Get(node, "additionalProperties").value == Flag(false)
    && var required, properties := Get(node, "required").value.items, Get(node, "properties").value.members;
       |required| == |properties| && forall i | 0 <= i < |required| :: IsText(Some(required[i]), properties[i].key)
  }

  const OBJECT_KEYS := {"type", "additionalProperties", "properties", "required"}

  function Define(lang: Language, definition: Member, defined: set<string>): Option<Statement> {
    var (name, node) := (definition.key, definition.value);
    if !NameOk(name) || !node.Dict? then None
    else if IsText(Get(node, "type"), "object") then
      if !OnlyKeys(node, OBJECT_KEYS) || !IsClosed(node) then None
      else
        var fields := Each(FieldWriter(lang, defined), Get(node, "properties").value.members);
        if fields.None? then None else Some(Class(name, fields.value))
    else
      var annotation := Annotation(lang, node, defined);
      if annotation.None? then None
      else
        var alias := Layout(AliasPrefix(name), annotation.value, "");
        if alias.None? then None else Some(Alias(name, alias.value))
  }

  function Names(definitions: seq<Member>): set<string> {
    set i | 0 <= i < |definitions| :: definitions[i].key
  }

  /** Each definition sees the names before it. */
  function Definer(lang: Language): (seq<Member>, Member) -> Option<Statement> {
    (before: seq<Member>, definition: Member) => Define(lang, definition, Names(before))
  }

  function DefineAll(lang: Language, definitions: seq<Member>): Option<seq<Statement>> {
    Each(Definer(lang), definitions)
  }

  function AllLines(statements: seq<Statement>): seq<string> {
    if statements == [] then [] else AllLines(statements[..|statements| - 1]) + Lines(statements[|statements| - 1])
  }

  lemma FlattenMore(groups: seq<seq<string>>, group: seq<string>)
    ensures Flatten(groups + [group]) == Flatten(groups) + group
  {
    assert (groups + [group])[..|groups|] == groups;
  }

  /** The loop over the fields of a class. */
  method CompileFields(lang: Language, fields: seq<Member>, defined: set<string>) returns (r: Option<seq<string>>)
    ensures r == var all := Each(FieldWriter(lang, defined), fields); if all.None? then None else Some(Flatten(all.value))
  {
    ghost var writer := FieldWriter(lang, defined);
    var lines: seq<string> := [];
    var n := 0;
    while n < |fields|
      invariant 0 <= n <= |fields|
      invariant Each(writer, fields[..n]).Some? && lines == Flatten(Each(writer, fields[..n]).value)
    {
      var field := FieldLines(lang, fields[n], defined);
      if field.None? {
        if Each(writer, fields).Some? {
          EachPrefix(writer, fields, n);
        }
        return None;
      }
      EachNext(writer, fields, n);
      FlattenMore(Each(writer, fields[..n]).value, field.value);
      lines := lines + field.value;
      n := n + 1;
    }
    assert fields[..n] == fields;
    return Some(lines);
  }

  method CompileDefinition(lang: Language, definition: Member, defined: set<string>) returns (r: Option<seq<string>>)
    ensures r == if Define(lang, definition, defined).None? then None else Some(Lines(Define(lang, definition, defined).value))
  {
    var (name, node) := (definition.key, definition.value);
    if !NameOk(name) || !node.Dict? {
      return None;
    }
    var lines := ["", ""];
    if IsText(Get(node, "type"), "object") {
      if !OnlyKeys(node, OBJECT_KEYS) || !IsClosed(node) {
        return None;
      }
      var fields := CompileFields(lang, Get(node, "properties").value.members, defined);
      if fields.None? {
        return None;
      }
      return Some(lines + (["class " + name + "(UsageWireModel):"] + fields.value));
    }
    var annotation := Annotation(lang, node, defined);
    if annotation.None? {
      return None;
    }
    var alias := Layout(AliasPrefix(name), annotation.value, "");
    if alias.None? {
      return None;
    }
    return Some(lines + alias.value);
  }

  lemma LinesMore(statements: seq<Statement>, statement: Statement)
    ensures AllLines(statements + [statement]) == AllLines(statements) + Lines(statement)
  {
    assert (statements + [statement])[..|statements|] == statements;
  }

  lemma NamesNext(definitions: seq<Member>, n: nat)
    requires n < |definitions|
    ensures Names(definitions[..n + 1]) == Names(definitions[..n]) + {definitions[n].key}
  {
    forall name ensures name in Names(definitions[..n + 1]) <==> name in Names(definitions[..n]) + {definitions[n].key} {
      if name in Names(definitions[..n]) {
        var i :| 0 <= i < n && definitions[..n][i].key == name;
        assert definitions[..n + 1][i].key == name;
      }
      if name in Names(definitions[..n + 1]) {
        var i :| 0 <= i < n + 1 && definitions[..n + 1][i].key == name;
        assert i < n ==> definitions[..n][i].key == name;
      }
      assert definitions[..n + 1][n].key == definitions[n].key;
    }
  }

  /** The loop over the definitions. */
  method Compile(lang: Language, definitions: seq<Member>) returns (r: Option<seq<string>>)
    ensures r == if DefineAll(lang, definitions).None? then None else Some(AllLines(DefineAll(lang, definitions).value))
  {
    var lines: seq<string> := [];
    var defined: set<string> := {};
    var n := 0;
    while n < |definitions|
      invariant 0 <= n <= |definitions|
      invariant DefineAll(lang, definitions[..n]).Some? && lines == AllLines(DefineAll(lang, definitions[..n]).value)
      invariant defined == Names(definitions[..n])
    {
      var one := CompileDefinition(lang, definitions[n], defined);
      if one.None? {
        if DefineAll(lang, definitions).Some? {
          EachPrefix(Definer(lang), definitions, n);
        }
        return None;
      }
      EachNext(Definer(lang), definitions, n);
      LinesMore(DefineAll(lang, definitions[..n]).value, Define(lang, definitions[n], Names(definitions[..n])).value);
      NamesNext(definitions, n);
      lines := lines + one.value;
      defined := defined + {definitions[n].key};
      n := n + 1;
    }
    assert definitions[..n] == definitions;
    return Some(lines);
  }
}
