/**
 The whole compiler: the parts of the schema that are fixed, the definitions, the root; and what
 a schema it accepts can be extended by.
 */
module UsageContract {
  import opened Wrappers
  import opened PythonText
  import opened UsageSchema

  // ----- schemas in the text of the model --------------------------------------------------------------

  function Points(s: string): Text {
    seq(|s|, i requires 0 <= i < |s| => s[i] as int)
  }

  lemma PointsBack(s: string)
    ensures Chars(Points(s)) == Some(s)
  {
    assert IsUnicode(Points(s));
    assert Chars(Points(s)).value == s;
  }

  function Named(key: string, s: string): Member {
    Member(key, Str(Points(s)))
  }

  function Constant(s: string): Node {
    Dict([Named("type", "string"), Named("const", s)])
  }

  function Reference(name: string): Node {
    Dict([Named("$ref", REFERENCE + name)])
  }

  // ----- the fixed parts -------------------------------------------------------------------------------

  const PLANNED_PROPERTIES := [
    Member("binding_version", Constant("2.0.0")), Member("model", Reference("Opaque")), Member("provider", Reference("Opaque")),
    Member("revision_id", Reference("Opaque")), Member("provider_model_name", Reference("Opaque")),
    Member("request_model", Reference("Opaque")), Member("feature_key", Reference("Opaque")), Member("revision", Reference("Ordinal")),
    Member("generation", Reference("Ordinal")), Member("tenant_generation", Reference("Ordinal")), Member("digest", Reference("Digest")),
    Member("label", Dict([Member("anyOf", Items([Reference("Opaque"), Dict([Named("type", "null")])]))]))]

  function KeyTexts(members: seq<Member>): seq<Node> {
    seq(|members|, i requires 0 <= i < |members| => Str(Points(members[i].key)))
  }

  const PLANNED := Dict([
    Named("type", "object"), Member("additionalProperties", Flag(false)), Member("properties", Dict(PLANNED_PROPERTIES)),
    Member("required", Items(KeyTexts(PLANNED_PROPERTIES)))])

  /** The pattern is `^[^\x00-\x1f\x7f]+$`. */
  const OPAQUE := Dict([
    Named("type", "string"), Member("minLength", Number(1)), Named("pattern", "^[^\\x00-\\x1f\\x7f]+$"),
    Member("x-utf8-max-bytes", Number(512))])

  const SOURCES := Dict([
    Named("type", "string"),
    Member("enum", Items([Str(Points("openai_chat_completions")), Str(Points("ollama_openai_chat_completions"))]))])

  /** Equality of JSON values, which does not depend on the order of members. */
  predicate SameValue(a: Node, b: Node)
    decreases Size(a)
  {
    match a
    case Dict(members) =>
      && b.Dict? && (forall i | 0 <= i < |b.members| :: HasKey(members, b.members[i].key))
      && forall i | 0 <= i < |members| :: Has(b, members[i].key) && SameValue(Get(a, members[i].key).value, Get(b, members[i].key).value)
    case Items(items) =>
      b.Items? && |b.items| == |items| && forall i | 0 <= i < |items| :: (ItemSize(items, i); SameValue(items[i], b.items[i]))
    case _ => a == b
  }

  /** The value at the end of a path; anything else than a mapping on the way is refused. */
  function Along(node: Option<Node>, path: seq<string>): Option<Node>
    decreases |path|
  {
    if path == [] then node
    else if node.Some? && node.value.Dict? then Along(Get(node.value, path[0]), path[1..])
    else None
  }

  const LARGEST := Str(Points("9223372036854775807"))

  const FIXED := [
    (["PlannedBinding"], PLANNED), (["Opaque"], OPAQUE),
    (["ModelUsageEvidence", "properties", "artifact_version"], Constant("2.0.0")),
    (["ModelUsageEvidence", "properties", "planned"], Reference("PlannedBinding")),
    (["Count", "x-max-decimal"], LARGEST), (["Ordinal", "x-max-decimal"], LARGEST), (["UtcInstant", "x-calendar-valid"], Flag(true)),
    (["TokenUsageV1", "properties", "profile_id"], Constant("token_usage_v1")),
    (["TokenUsageV1", "properties", "unit"], Constant("token")),
    (["TokenUsageV1", "properties", "aggregation_mode"], Constant("final_cumulative")),
    (["TokenUsageV1", "properties", "source_protocol"], SOURCES),
    (["EvidenceIdentity", "properties", "peer_path", "maxItems"], Number(32)),
    (["EvidenceIdentity", "properties", "peer_path", "items", "x-utf8-max-bytes"], Number(128))]

  predicate IsAt(definitions: seq<Member>, part: (seq<string>, Node)) {
    var found := Along(Some(Dict(definitions)), part.0);
    found.Some? && SameValue(found.value, part.1)
  }

  /** The checks before the definitions are compiled. */
  predicate FixedParts(definitions: seq<Member>) {
    forall k | 0 <= k < |FIXED| :: IsAt(definitions, FIXED[k])
  }

  predicate HasRoot(definitions: seq<Member>) {
    "ModelUsageEvidence" in Names(definitions)
  }

  /** The definitions of a schema that the compiler accepts. */
  predicate Accepted(lang: Language, definitions: seq<Member>) {
    FixedParts(definitions) && DefineAll(lang, definitions).Some? && HasRoot(definitions)
  }

  method Generate(lang: Language, definitions: seq<Member>) returns (r: Option<seq<string>>)
    ensures r == if Accepted(lang, definitions) then Some(AllLines(DefineAll(lang, definitions).value)) else None
  {
    if !FixedParts(definitions) {
      return None;
    }
    r := Compile(lang, definitions);
    if !HasRoot(definitions) {
      return None;
    }
  }

  // ----- one more definition -----------------------------------------------------------------------------

  lemma {:induction false} GetAppend(members: seq<Member>, m: Member, key: string)
    ensures GetMember(members + [m], key) ==
      if HasKey(members, key) then GetMember(members, key) else if m.key == key then Some(m.value) else None
  {
    if members == [] {
      assert members + [m] == [m] && [m][1..] == [];
    } else {
      assert (members + [m])[0] == members[0] && (members + [m])[1..] == members[1..] + [m];
      GetAppend(members[1..], m, key);
      assert HasKey(members, key) <==> members[0].key == key || HasKey(members[1..], key) by {
        assert forall i | 0 < i < |members| :: members[i] == members[1..][i - 1];
      }
    }
  }

  lemma PathBefore(definitions: seq<Member>, m: Member, path: seq<string>)
    requires path != [] && Along(Some(Dict(definitions)), path).Some?
    ensures Along(Some(Dict(definitions + [m])), path) == Along(Some(Dict(definitions)), path)
  {
    GetAppend(definitions, m, path[0]);
    if Get(Dict(definitions), path[0]).None? {
      assert Along(None, path[1..]).Some?;
      NoPath(path[1..]);
    }
  }

  lemma NoPath(path: seq<string>)
    ensures Along(None, path).None?
  {
  }

  /** A definition with a new name does not disturb the fixed parts. */
  lemma FixedAppend(definitions: seq<Member>, m: Member)
    requires FixedParts(definitions)
    ensures FixedParts(definitions + [m])
  {
    forall k | 0 <= k < |FIXED| ensures IsAt(definitions + [m], FIXED[k]) {
      assert IsAt(definitions, FIXED[k]) && FIXED[k].0 != [];
      PathBefore(definitions, m, FIXED[k].0);
    }
  }

  lemma NamesAppend(definitions: seq<Member>, m: Member)
    ensures Names(definitions + [m]) == Names(definitions) + {m.key}
  {
    assert (definitions + [m])[..|definitions|] == definitions && (definitions + [m])[..|definitions| + 1] == definitions + [m];
    NamesNext(definitions + [m], |definitions|);
  }

  lemma DefineAppend(lang: Language, definitions: seq<Member>, m: Member)
    requires DefineAll(lang, definitions).Some? && Define(lang, m, Names(definitions)).Some?
    ensures DefineAll(lang, definitions + [m]) == Some(DefineAll(lang, definitions).value + [Define(lang, m, Names(definitions)).value])
  {
    var more := definitions + [m];
    assert more[..|definitions|] == definitions && more[..|more|] == more;
    assert Definer(lang)(definitions, m) == Define(lang, m, Names(definitions));
    EachNext(Definer(lang), more, |definitions|);
  }

  /** An accepted schema stays accepted with one more definition that compiles. */
  lemma AcceptedAppend(lang: Language, definitions: seq<Member>, m: Member)
    requires Accepted(lang, definitions) && Define(lang, m, Names(definitions)).Some?
    ensures Accepted(lang, definitions + [m])
    ensures DefineAll(lang, definitions + [m]) == Some(DefineAll(lang, definitions).value + [Define(lang, m, Names(definitions)).value])
  {
    FixedAppend(definitions, m);
    NamesAppend(definitions, m);
    DefineAppend(lang, definitions, m);
  }
}
