/**
 The generated module as Python runs it: the statements are evaluated in order, an evaluation
 may raise, and what a name stands for is what was last bound to it. `None` is a raised exception.
 */
module UsagePython {
  import opened Wrappers
  import opened PythonText
  import opened UsageSchema
  import opened UsageMeaning

  /** What annotations evaluate to. `SelfType` is the class that is being created. */
  datatype Value =
    | NoneType
    | BoolType
    | StrType
    | ListType(item: Value)
    | LiteralType(args: Args)
    | AnnotatedType(inner: Value, metadata: seq<Meta>)
    | UnionType(left: Value, right: Value)
    | ClassType(name: string, fields: seq<(string, Value)>)
    | SelfType(name: string)

  /** Metadata; the site tells apart what each evaluation makes anew. `Lost` has no effect. */
  datatype Meta =
    | Bounds(site: seq<nat>, constraints: Args)
    | Check(site: seq<nat>, validator: Item)
    | Lost(args: Args)

  type Bindings = seq<(string, Value)>

  /** The names bound so far, and the class that is being created; none has the empty name. */
  datatype Scope = Scope(bound: Bindings, own: string)

  function Lookup(names: Bindings, name: string): (r: Option<Value>)
    ensures r.Some? ==> exists i | 0 <= i < |names| :: names[i] == (name, r.value)
    ensures r.None? ==> forall i | 0 <= i < |names| :: names[i].0 != name
  {
    if names == [] then None
    else if names[|names| - 1].0 == name then Some(names[|names| - 1].1)
    else Lookup(names[..|names| - 1], name)
  }

  /** The fields of a class see the class itself first. */
  function Find(scope: Scope, name: string): Option<Value> {
    if scope.own != "" && scope.own == name then Some(SelfType(name)) else Lookup(scope.bound, name)
  }

  // ----- calls -----------------------------------------------------------------------------------

  /** Calling it with one argument gives a truth value. */
  predicate CallsBool(t: Value) {
    t.BoolType? || (t.AnnotatedType? && CallsBool(t.inner))
  }

  /** Calling it with one function returns. */
  predicate Calls(t: Value) {
    t.BoolType? || t.StrType? || (t.AnnotatedType? && Calls(t.inner))
  }

  function KeywordValue(item: Item): Node {
    if item.Literal? then Str(PythonString(item.raw).GetOr([]))
    else if item.Name? then Number(NatOf(item.name).GetOr(0)) else Null
  }

  function Keywords(args: Args): seq<Member> {
    var first := args.union.item;
    (if first.Keyword? then [Member(first.name, KeywordValue(first.value))] else []) + if args.Comma? then Keywords(args.others) else []
  }

  // ----- validation --------------------------------------------------------------------------------

  /** The validators look up `len`, `int`, `re` and `datetime` when they run. */
  predicate LimitHolds(globals: Bindings, n: nat, t: Text) {
    IsUnicode(t) && if Lookup(globals, "len").None? then |Utf8(t)| <= n else CallsBool(Lookup(globals, "len").value)
  }

  predicate DecimalHolds(lang: Language, globals: Bindings, v: Node) {
    if Lookup(globals, "int").None? then v.Flag? || (v.Str? && lang.decimal(v.text)) else CallsBool(Lookup(globals, "int").value)
  }

  predicate CalendarHolds(lang: Language, globals: Bindings, v: Node) {
    v.Str? && Lookup(globals, "re").None? && Lookup(globals, "datetime").None? && lang.calendar(v.text)
  }

  predicate CheckHolds(lang: Language, globals: Bindings, validator: Item, v: Node) {
    || (validator == Name("_decimal_limit") && DecimalHolds(lang, globals, v))
    || (validator == Name("_calendar") && CalendarHolds(lang, globals, v))
    || (validator.Call? && validator.head == "_utf8_limit" && validator.args.union.One? && validator.args.union.item.Name?
        && NatOf(validator.args.union.item.name).Some? && v.Str? && LimitHolds(globals, NatOf(validator.args.union.item.name).value, v.text))
  }

  predicate MetaHolds(lang: Language, globals: Bindings, meta: Meta, v: Node) {
    match meta
    case Bounds(_, constraints) => FieldHolds(lang, constraints, v)
    case Check(_, validator) => CheckHolds(lang, globals, validator, v)
    case Lost(_) => true
  }

  predicate HasField(fields: seq<(string, Value)>, name: string) {
    exists i | 0 <= i < |fields| :: fields[i].0 == name
  }

  predicate Accepts(lang: Language, globals: Bindings, t: Value, v: Node)
    decreases Size(v), 1, t
  {
    match t
    case NoneType => v.Null?
    case BoolType => v.Flag?
    case StrType => v.Str?
    case ListType(item) => v.Items? && forall k | 0 <= k < |v.items| :: (ItemSize(v.items, k); Accepts(lang, globals, item, v.items[k]))
    case LiteralType(args) => v.Str? && LiteralHolds(args, v.text)
    case AnnotatedType(inner, metadata) =>
      Accepts(lang, globals, inner, v) && forall k | 0 <= k < |metadata| :: MetaHolds(lang, globals, metadata[k], v)
    case UnionType(left, right) => Accepts(lang, globals, left, v) || Accepts(lang, globals, right, v)
    case ClassType(_, fields) => AcceptsFields(lang, globals, fields, v)
    case SelfType(name) =>
      var t := Lookup(globals, name);
      t.Some? && t.value.ClassType? && AcceptsFields(lang, globals, t.value.fields, v)
  }

  /** A class forbids other members and requires all of its own. */
  predicate AcceptsFields(lang: Language, globals: Bindings, fields: seq<(string, Value)>, v: Node)
    decreases Size(v), 0
  {
    && v.Dict? && (forall i | 0 <= i < |v.members| :: HasField(fields, v.members[i].key))
    && forall i | 0 <= i < |fields| :: Has(v, fields[i].0) && Accepts(lang, globals, fields[i].1, Get(v, fields[i].0).value)
  }

  /** Calling it with these keyword arguments makes an instance. */
  predicate Creates(lang: Language, globals: Bindings, t: Value, args: Args) {
    match t
    case ClassType(_, fields) => AcceptsFields(lang, globals, fields, Dict(Keywords(args)))
    case AnnotatedType(inner, _) => Creates(lang, globals, inner, args)
    case _ => false
  }

  // ----- evaluation --------------------------------------------------------------------------------

  /** `None | None` raises; two equal operands are one. */
  function Or(a: Value, b: Value): Option<Value> {
    if a.NoneType? && b.NoneType? then None else if a == b then Some(a) else Some(UnionType(a, b))
  }

  function Builtin(name: string): Option<Value> {
    if name == "None" then Some(NoneType) else if name == "bool" then Some(BoolType) else if name == "str" then Some(StrType) else None
  }

  function EvalName(scope: Scope, name: string): Option<Value> {
    if Find(scope, name).Some? then Find(scope, name) else Builtin(name)
  }

  /** A name that is taken is called instead of `Field` or `AfterValidator`. */
  function EvalMeta(lang: Language, scope: Scope, site: seq<nat>, union: Union): Option<Meta> {
    if !union.One? || !union.item.Call? then None
    else
      var (head, args) := (union.item.head, union.item.args);
      var taken := Find(scope, head);
      if head == "Field" then
        if taken.None? then Some(Bounds(site, args))
        else if Creates(lang, scope.bound, taken.value, args) then Some(Lost(args)) else None
      else if head == "AfterValidator" then
        if taken.None? then Some(Check(if args.union.item.Call? then site else [], args.union.item))
        else if Calls(taken.value) then Some(Lost(args)) else None
      else None
  }

  function EvalMetas(lang: Language, scope: Scope, site: seq<nat>, args: Args): Option<seq<Meta>>
    decreases args
  {
    var first := EvalMeta(lang, scope, site + [0], args.union);
    if first.None? then None
    else if args.Last? then Some([first.value])
    else
      var others := EvalMetas(lang, scope, site + [1], args.others);
      if others.None? then None else Some([first.value] + others.value)
  }

  /** None of the values can be subscripted, so a taken `list`, `Literal` or `Annotated` raises. */
  function EvalItem(lang: Language, scope: Scope, site: seq<nat>, item: Item): Option<Value>
    decreases item
  {
    match item
    case Name(name) => EvalName(scope, name)
    case Index(head, args) =>
      if Find(scope, head).Some? then None
      else if head == "Literal" then Some(LiteralType(args))
      else
        var first := EvalUnion(lang, scope, site + [0], args.union);
        if first.None? then None
        else if head == "list" && args.Last? then Some(ListType(first.value))
        else if head == "Annotated" && args.Comma? then
          var metadata := EvalMetas(lang, scope, site + [1], args.others);
          if metadata.None? then None else Some(AnnotatedType(first.value, metadata.value))
        else None
    case _ => None
  }

  function EvalUnion(lang: Language, scope: Scope, site: seq<nat>, union: Union): Option<Value>
    decreases union, 1
  {
    var first := EvalItem(lang, scope, site + [0], union.item);
    if first.None? || union.One? then first else EvalRest(lang, scope, site + [1], first.value, union.rest)
  }

  /** The operators are applied from left to right. */
  function EvalRest(lang: Language, scope: Scope, site: seq<nat>, so: Value, union: Union): Option<Value>
    decreases union, 0
  {
    var next := EvalItem(lang, scope, site + [0], union.item);
    if next.None? then None
    else
      var both := Or(so, next.value);
      if both.None? || union.One? then both else EvalRest(lang, scope, site + [1], both.value, union.rest)
  }

  function EvalFields(lang: Language, scope: Scope, site: seq<nat>, fields: seq<(string, Union)>): (r: Option<seq<(string, Value)>>)
    ensures r.Some? ==> |r.value| == |fields|
    ensures r.Some? ==> forall k | 0 <= k < |fields| :: r.value[k].0 == fields[k].0
  {
    if fields == [] then Some([])
    else
      var n := |fields| - 1;
      var before, last := EvalFields(lang, scope, site, fields[..n]), EvalUnion(lang, scope, site + [n], fields[n].1);
      if before.None? || last.None? then None else Some(before.value + [(fields[n].0, last.value)])
  }

  function EvalDefinition(lang: Language, bound: Bindings, site: nat, definition: Definition): Option<Value> {
    match definition
    case AliasOf(_, alias) => EvalUnion(lang, Scope(bound, ""), [site], alias)
    case ClassOf(name, fields) =>
      var values := EvalFields(lang, Scope(bound, name), [site], fields);
      if values.None? then None else Some(ClassType(name, values.value))
  }

  /** Importing the module: what each name is bound to in the end, or nothing if a statement raises. */
  function Load(lang: Language, definitions: seq<Definition>): (r: Option<Bindings>)
    ensures r.Some? ==> |r.value| == |definitions|
    ensures r.Some? ==> forall k | 0 <= k < |definitions| :: r.value[k].0 == definitions[k].name
  {
    if definitions == [] then Some([])
    else
      var n := |definitions| - 1;
      var before := Load(lang, definitions[..n]);
      if before.None? then None
      else
        var value := EvalDefinition(lang, before.value, n, definitions[n]);
        if value.None? then None else Some(before.value + [(definitions[n].name, value.value)])
  }
}
