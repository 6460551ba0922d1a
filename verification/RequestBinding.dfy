/**
 The canonical binding of a typed platform request: each field is projected to JSON, and the
 contract has a validator of its own. The digest function is a parameter.
 */
module RequestBinding {
  import opened Wrappers
  import opened Ordering
  import opened PythonText

  /** "3.0.0". */
  const BINDING_VERSION: Text := [0x33, 0x2E, 0x30, 0x2E, 0x30]

  const MAX_SAFE_INTEGER := 9_007_199_254_740_991

  datatype Wrapper =
    | SkillSeriesId | SkillId | SkillInstallationId | SkillSourceRef
    | McpConnectorId | McpServerId | McpConnectionId | McpAuthorizationId | McpInvocationGrant

  datatype Shape = OwnerScope | CommandIdentity | PageRequest

  datatype Kind =
    | String | Boolean | Enum | SafeInteger | Hex64 | Array | Set
    | Id(wrapper: Wrapper) | Msg(shape: Shape) | Opt(inner: Kind) | Command | Page
    | Wrapped(wrapper: Wrapper) | Named(shape: Shape)

  /** What a field of a request may hold; `Nothing` is an absent one, `Foreign` any other object. */
  datatype Value =
    | Nothing
    | Chars(text: Text)
    | Flag(flag: bool)
    | Number(number: int)
    | Octets(octets: seq<int>)
    | Many(items: seq<Value>)
    | ScopeOf(kind: Value, id: Value)
    | CommandOf(commandId: Value, digest: Value)
    | PageOf(limit: Value, cursor: Value)
    | IdOf(wrapper: Wrapper, value: Value)
    | Foreign

  datatype Json = JFlag(flag: bool) | JNumber(number: int) | JText(text: Text) | JList(items: seq<Json>) | JObject(members: map<string, Json>)

  // ----- text ------------------------------------------------------------------------------

  predicate IntLess(a: int, b: int) {
    a < b
  }

  predicate IntLex(a: seq<int>, b: seq<int>) {
    Lex(IntLess, a, b)
  }

  /** The sort key of both sides. */
  predicate Utf8Less(a: Text, b: Text) {
    IntLex(Utf8(a), Utf8(b))
  }

  predicate IsTrimmed(c: CodePoint) {
    || c in {0x09, 0x0A, 0x0B, 0x0C, 0x0D, 0x20, 0xA0, 0x1680, 0x2028, 0x2029, 0x202F, 0x205F, 0x3000, 0xFEFF}
    || 0x2000 <= c <= 0x200A
  }

  predicate IsBlank(t: Text) {
    forall i | 0 <= i < |t| :: IsTrimmed(t[i])
  }

  predicate IsHexDigit(c: CodePoint) {
    0x30 <= c <= 0x39 || 0x61 <= c <= 0x66
  }

  predicate IsHex64(t: Text) {
    |t| == 64 && forall i | 0 <= i < |t| :: IsHexDigit(t[i])
  }

  predicate IsAlphanumeric(c: CodePoint) {
    0x30 <= c <= 0x39 || 0x41 <= c <= 0x5A || 0x61 <= c <= 0x7A
  }

  predicate IsIdentity(t: Text) {
    && 1 <= |t| <= 191 && IsAlphanumeric(t[0])
    && forall i | 1 <= i < |t| :: IsAlphanumeric(t[i]) || t[i] in {0x2E, 0x5F, 0x3A, 0x2D}
  }

  predicate IsSourceRef(t: Text) {
    |t| >= 6 && t[..6] == [0x73, 0x6B, 0x69, 0x6C, 0x6C, 0x3A] && IsIdentity(t[6..])
  }

  predicate IsGrant(t: Text) {
    && |t| == 46 && t[..10] == [0x6D, 0x63, 0x70, 0x2D, 0x67, 0x72, 0x61, 0x6E, 0x74, 0x3A]
    && (forall i | 10 <= i < 46 :: if i in {18, 23, 28, 33} then t[i] == 0x2D else IsHexDigit(t[i]))
    && t[24] == 0x34 && t[29] in {0x38, 0x39, 0x61, 0x62}
  }

  // ----- projection -------------------------------------------------------------------------

  function ProjectString(v: Value): Option<Json> {
    if v.Chars? && IsUnicode(v.text) then Some(JText(v.text)) else None
  }

  function ProjectNonempty(v: Value): Option<Json> {
    if v.Chars? && v.text == [] then None else ProjectString(v)
  }

  function ProjectBoolean(v: Value): Option<Json> {
    if v.Flag? then Some(JFlag(v.flag)) else None
  }

  function ProjectInteger(v: Value): Option<Json> {
    if v.Number? && -MAX_SAFE_INTEGER <= v.number <= MAX_SAFE_INTEGER then Some(JNumber(v.number)) else None
  }

  function Texts(items: seq<Value>): Option<seq<Text>> {
    if items == [] then Some([])
    else if ProjectString(items[0]).None? then None
    else
      var rest := Texts(items[1..]);
      if rest.None? then None else Some([items[0].text] + rest.value)
  }

  function TextList(texts: seq<Text>): Json {
    JList(seq(|texts|, i requires 0 <= i < |texts| => JText(texts[i])))
  }

  function ProjectArray(v: Value): Option<Json> {
    if !v.Many? || Texts(v.items).None? then None else Some(TextList(Texts(v.items).value))
  }

  predicate AllDistinct(texts: seq<Text>) {
    forall i, j | 0 <= i < j < |texts| :: texts[i] != texts[j]
  }

  predicate SetOk(texts: seq<Text>) {
    (forall i | 0 <= i < |texts| :: !IsBlank(texts[i])) && AllDistinct(texts)
  }

  function ProjectSet(v: Value): Option<Json> {
    if !v.Many? || Texts(v.items).None? || !SetOk(Texts(v.items).value) then None
    else Some(TextList(Sort(Utf8Less, Texts(v.items).value)))
  }

  function Absent(): Json {
    JObject(map["present" := JFlag(false)])
  }

  function Present(j: Json): Json {
    JObject(map["present" := JFlag(true), "value" := j])
  }

  function Both(a: Option<Json>, b: Option<Json>, first: string, second: string): Option<Json> {
    if a.None? || b.None? then None else Some(JObject(map[first := a.value, second := b.value]))
  }

  function Presence(j: Option<Json>): Option<Json> {
    if j.None? then None else Some(Present(j.value))
  }

  function ProjectScope(v: Value): Option<Json> {
    if v.Nothing? then Some(Absent())
    else if !v.ScopeOf? then None
    else Presence(Both(ProjectNonempty(v.kind), ProjectNonempty(v.id), "kind", "id"))
  }

  function ProjectCommand(v: Value): Option<Json> {
    if v.Nothing? then Some(Absent())
    else if !v.CommandOf? then None
    else if !v.digest.Chars? || !IsHex64(v.digest.text) then None
    else Presence(Both(ProjectNonempty(v.commandId), ProjectString(v.digest), "command_id", "request_digest"))
  }

  function ProjectOptional(v: Value, project: Value -> Option<Json>): Option<Json> {
    if v.Nothing? then Some(Absent()) else Presence(project(v))
  }

  function ProjectPage(v: Value): Option<Json> {
    if v.Nothing? then Some(Absent())
    else if !v.PageOf? then None
    else Presence(Both(ProjectInteger(v.limit), ProjectOptional(v.cursor, ProjectString), "limit", "cursor"))
  }

  /** The three domains the projection distinguishes. */
  predicate InDomain(w: Wrapper, t: Text) {
    var length := |Utf8(t)|;
    if w.SkillSourceRef? then 7 <= length <= 197 && IsSourceRef(t)
    else if w.McpInvocationGrant? then length == 46 && IsGrant(t)
    else 1 <= length <= 191 && IsIdentity(t)
  }

  function ProjectIdentity(w: Wrapper, v: Value): Option<Json> {
    if v.Nothing? then Some(Absent())
    else if !v.IdOf? || v.wrapper != w then None
    else if ProjectNonempty(v.value).None? || !InDomain(w, v.value.text) then None
    else Some(Present(JText(v.value.text)))
  }

  function ProjectDigest(sha: seq<int> -> Text, v: Value): Option<Json> {
    if v.Octets? then Some(JText(sha(v.octets))) else None
  }

  /** The kinds for which the generator emits a projection. */
  predicate Supported(k: Kind) {
    match k
    case String | Boolean | Enum | Array | Set | Command | Page | Hex64 => true
    case Id(_) => true
    case Msg(shape) => shape.OwnerScope?
    case Opt(inner) => inner.String? || inner.Boolean?
    case _ => false
  }

  function Project(sha: seq<int> -> Text, k: Kind, v: Value): Option<Json>
    requires Supported(k)
  {
    match k
    case String => ProjectString(v)
    case Boolean => ProjectBoolean(v)
    case Enum => ProjectInteger(v)
    case Array => ProjectArray(v)
    case Set => ProjectSet(v)
    case Command => ProjectCommand(v)
    case Page => ProjectPage(v)
    case Msg(_) => ProjectScope(v)
    case Id(w) => ProjectIdentity(w, v)
    case Opt(inner) => ProjectOptional(v, if inner.String? then ProjectString else ProjectBoolean)
    case Hex64 => ProjectDigest(sha, v)
  }

  // ----- validation -------------------------------------------------------------------------

  /** Least and greatest length in bytes of an identity, and its pattern. */
  datatype Domain = Domain(minimum: nat, maximum: nat, pattern: Text -> bool)

  function WrapperDomain(w: Wrapper): Domain {
    match w
    case SkillSourceRef => Domain(7, 197, IsSourceRef)
    case McpInvocationGrant => Domain(46, 46, IsGrant)
    case _ => Domain(1, 191, IsIdentity)
  }

  function Height(k: Kind): nat {
    match k
    case Opt(inner) => Height(inner) + 1
    case Id(_) | Msg(_) | Command | Page => 2
    case Named(_) => 1
    case _ => 0
  }

  predicate ValidTexts(j: Json) {
    j.JList? && forall i | 0 <= i < |j.items| :: j.items[i].JText?
  }

  function ListTexts(j: Json): seq<Text>
    requires ValidTexts(j)
  {
    seq(|j.items|, i requires 0 <= i < |j.items| => j.items[i].text)
  }

  predicate ValidSet(j: Json) {
    && ValidTexts(j)
    && (forall i | 0 <= i < |j.items| :: j.items[i].text != [] && IsUnicode(j.items[i].text))
    && AllDistinct(ListTexts(j))
    && ListTexts(j) == Sort(Utf8Less, ListTexts(j))
  }

  predicate ValidPresence(j: Json, k: Kind)
    decreases Height(k), 2
  {
    && j.JObject? && "present" in j.members && j.members["present"].JFlag?
    && if j.members["present"].flag
       then j.members.Keys == {"present", "value"} && Valid(k, j.members["value"])
       else j.members.Keys == {"present"}
  }

  predicate ValidNamed(shape: Shape, j: Json)
    decreases 1, 0
  {
    j.JObject? &&
      match shape
      case OwnerScope =>
        && j.members.Keys == {"kind", "id"}
        && j.members["kind"].JText? && j.members["kind"].text != []
        && j.members["id"].JText? && j.members["id"].text != []
      case CommandIdentity =>
        && j.members.Keys == {"command_id", "request_digest"}
        && j.members["command_id"].JText? && j.members["command_id"].text != []
        && j.members["request_digest"].JText? && IsHex64(j.members["request_digest"].text)
      case PageRequest =>
        && j.members.Keys == {"limit", "cursor"}
        && Valid(SafeInteger, j.members["limit"])
        && ValidPresence(j.members["cursor"], String)
  }

  predicate Valid(k: Kind, j: Json)
    decreases Height(k), if k.Named? then 1 else 0
  {
    match k
    case String => j.JText? && IsUnicode(j.text)
    case Boolean => j.JFlag?
    case Enum | SafeInteger => j.JNumber? && -MAX_SAFE_INTEGER <= j.number <= MAX_SAFE_INTEGER
    case Hex64 => j.JText? && IsHex64(j.text)
    case Array => ValidTexts(j) && forall i | 0 <= i < |j.items| :: IsUnicode(j.items[i].text)
    case Set => ValidSet(j)
    case Id(w) => ValidPresence(j, Wrapped(w))
    case Msg(shape) => ValidPresence(j, Named(shape))
    case Opt(inner) => ValidPresence(j, inner)
    case Command => ValidPresence(j, Named(CommandIdentity))
    case Page => ValidPresence(j, Named(PageRequest))
    case Wrapped(w) =>
      var d := WrapperDomain(w);
      j.JText? && IsUnicode(j.text) && d.minimum <= |Utf8(j.text)| <= d.maximum && d.pattern(j.text)
    case Named(shape) => ValidNamed(shape, j)
  }
  // ----- whole requests ---------------------------------------------------------------------

  /** One row of the pinned bindings: the method it is for and its members in order. */
  datatype Binding = Binding(rpc: Text, members: seq<(string, Kind)>)

  /** A typed request: its message type, its id and its fields. */
  datatype Request = Request(rpc: Text, id: Value, fields: map<string, Value>)

  /** The digest member reads the raw arguments. */
  function Attribute(name: string, k: Kind): string {
    if k.Hex64? then "typed_arguments_json" else name
  }

  function FieldOf(r: Request, member: (string, Kind)): Value {
    var attribute := Attribute(member.0, member.1);
    if attribute in r.fields then r.fields[attribute] else Nothing
  }

  predicate WellFormed(b: Binding) {
    && (forall i | 0 <= i < |b.members| :: Supported(b.members[i].1))
    && (forall i, j | 0 <= i < j < |b.members| :: b.members[i].0 != b.members[j].0)
  }

  function ProjectMembers(sha: seq<int> -> Text, members: seq<(string, Kind)>, r: Request): Option<map<string, Json>>
    requires forall i | 0 <= i < |members| :: Supported(members[i].1)
  {
    if members == [] then Some(map[])
    else
      var last := members[|members| - 1];
      var before := ProjectMembers(sha, members[..|members| - 1], r);
      var j := Project(sha, last.1, FieldOf(r, last));
      if before.None? || j.None? then None else Some(before.value[last.0 := j.value])
  }

  function ProjectRequest(sha: seq<int> -> Text, b: Binding, tenant: Value, r: Request): Option<Json>
    requires WellFormed(b)
  {
    if ProjectNonempty(tenant).None? || r.rpc != b.rpc then None
    else
      var members := ProjectMembers(sha, b.members, r);
      if members.None? || ProjectNonempty(r.id).None? then None
      else
        Some(JObject(map[
          "binding_version" := JText(BINDING_VERSION), "fq_method" := JText(b.rpc), "tenant_ref" := JText(tenant.text),
          "request_id" := JText(r.id.text), "request" := JObject(members.value)]))
  }

  predicate IsText(j: Json, t: Text) {
    j.JText? && j.text == t
  }

  predicate NonemptyText(j: Json) {
    j.JText? && j.text != []
  }

  predicate ValidMembers(members: seq<(string, Kind)>, j: Json) {
    && j.JObject?
    && j.members.Keys == (set i | 0 <= i < |members| :: members[i].0)
    && forall i | 0 <= i < |members| :: Valid(members[i].1, j.members[members[i].0])
  }

  predicate ValidRequest(b: Binding, j: Json) {
    && j.JObject?
    && j.members.Keys == {"binding_version", "fq_method", "tenant_ref", "request_id", "request"}
    && IsText(j.members["binding_version"], BINDING_VERSION) && IsText(j.members["fq_method"], b.rpc)
    && NonemptyText(j.members["tenant_ref"]) && NonemptyText(j.members["request_id"])
    && ValidMembers(b.members, j.members["request"])
  }
}
