/**
 The event reader of the HTTP service: an iterator that is consumed in place, and settings
 that are filled in place. And the table the repository uses.
 */
module ConfigReader {
  import opened Wrappers
  import opened ConfigFile
  import opened ConfigProjection

  class Reader {
    const events: seq<Event>
    const table: Table
    var at: nat
    var out: Settings

    ghost predicate Valid()
      reads this
    {
      at <= |events|
    }

    constructor (table: Table, events: seq<Event>)
      ensures Valid() && this.table == table && this.events == events && at == 0 && out == map[]
    {
      this.table, this.events := table, events;
      at, out := 0, map[];
    }

    method Next() returns (r: Result<Event, ConfigError>)
      requires Valid()
      modifies this`at
      ensures Valid()
      ensures if old(at) == |events| then r == Err(EndedEarly) && at == old(at) else r == Ok(events[old(at)]) && at == old(at) + 1
    {
      if at == |events| {
        return Err(EndedEarly);
      }
      at := at + 1;
      return Ok(events[at - 1]);
    }

    /** Consumes the value that starts with `first`, and nothing else. */
    method SkipValue(first: Event) returns (r: Result<(), ConfigError>)
      requires Valid()
      modifies this`at
      ensures Valid() && old(at) <= at
      ensures match Skip(events, old(at), first)
              case Ok(end) => r == Ok(()) && at == end
              case Err(error) => r == Err(error)
      decreases |events| - at
    {
      if first.ScalarEvent? {
        return Ok(());
      }
      if first == MappingStart {
        while true
          invariant Valid() && old(at) <= at
          invariant Skip(events, old(at), first) == SkipEntries(events, at)
          decreases |events| - at
        {
          var item :- Next();
          if item == MappingEnd {
            return Ok(());
          }
          var _ :- SkipValue(item);
          var value :- Next();
          var _ :- SkipValue(value);
        }
      }
      if first == SequenceStart {
        while true
          invariant Valid() && old(at) <= at
          invariant Skip(events, old(at), first) == SkipItems(events, at)
          decreases |events| - at
        {
          var item :- Next();
          if item == SequenceEnd {
            return Ok(());
          }
          var _ :- SkipValue(item);
        }
      }
      return Err(InvalidType);
    }

    /** Reads the value of one entry: an HTTP setting, an HTTP domain, or something to skip. */
    method ProjectValue(path: string, value: Event) returns (r: Result<(), ConfigError>)
      requires Valid()
      modifies this`at, this`out
      ensures Valid() && old(at) <= at
      ensures match ConfigFile.ProjectValue(table, events, old(at), path, value, old(out))
              case Ok(projected) => r == Ok(()) && at == projected.at && out == projected.out
              case Err(error) => r == Err(error)
      decreases |events| - at, 1
    {
      if path in table.http && path in table.env {
        if !value.ScalarEvent? {
          return Err(InvalidType);
        }
        if value.value != Null {
          out := out[table.env[path] := Scalar(value.text, value.value)];
        }
        return Ok(());
      }
      if HasDescendant(path, table.http) {
        if value != MappingStart {
          return Err(InvalidType);
        }
        r := ProjectMapping(path);
        return;
      }
      if path in table.env || HasDescendant(path, table.env.Keys) {
        r := SkipValue(value);
        return;
      }
      return Err(UnknownKey(path));
    }

    /** Reads a mapping to its end and fills in its HTTP settings. */
    method ProjectMapping(prefix: string) returns (r: Result<(), ConfigError>)
      requires Valid()
      modifies this`at, this`out
      ensures Valid() && old(at) <= at
      ensures match Project(table, events, old(at), prefix, {}, old(out))
              case Ok(projected) => r == Ok(()) && at == projected.at && out == projected.out
              case Err(error) => r == Err(error)
      decreases |events| - at, 0
    {
      var seen: set<string> := {};
      while true
        invariant Valid() && old(at) <= at
        invariant Project(table, events, old(at), prefix, {}, old(out)) == Project(table, events, at, prefix, seen, out)
        decreases |events| - at
      {
        var keyEvent :- Next();
        if keyEvent == MappingEnd {
          return Ok(());
        }
        if !keyEvent.ScalarEvent? {
          return Err(InvalidType);
        }
        var key := keyEvent.text;
        if key in seen {
          return Err(DuplicateKey);
        }
        var value :- Next();
        var _ :- ProjectValue(Join(prefix, key), value);
        seen := seen + {key};
      }
    }
  }

  // ----- the table in use ---------------------------------------------------------------

  /** The paths the HTTP service reads, and those of the worker by domain. */
  const HttpEnv := map[
    "http.host" := "KOKORO_AGENT_HTTP_HOST",
    "http.port" := "KOKORO_AGENT_HTTP_PORT",
    "stream.redis_url" := "KOKORO_REDIS_URL",
    "database.url" := "KOKORO_AGENT_DATABASE_URL",
    "database.schema" := "KOKORO_AGENT_DATABASE_SCHEMA",
    "run_repository.lease_ttl_s" := "KOKORO_LEASE_TTL_S"]

  const ModelEnv := map[
    "model.disable_streaming" := "KOKORO_DISABLE_STREAMING",
    "model.openai_base_url" := "OPENAI_BASE_URL",
    "model.openai_reasoning" := "KOKORO_OPENAI_REASONING",
    "model.anthropic_base_url" := "ANTHROPIC_BASE_URL",
    "model.credentials_file" := "KOKORO_MODEL_CREDENTIALS_FILE",
    "model.allow_loopback_http" := "KOKORO_MODEL_ALLOW_LOOPBACK_HTTP"]

  const ShellEnv := map[
    "sandbox.local_shell.root" := "KOKORO_AGENT_LOCAL_SHELL_ROOT",
    "sandbox.local_shell.inherit_env" := "KOKORO_AGENT_LOCAL_SHELL_INHERIT_ENV",
    "sandbox.local_shell.timeout" := "KOKORO_AGENT_LOCAL_SHELL_TIMEOUT",
    "sandbox.local_shell.max_output_bytes" := "KOKORO_AGENT_LOCAL_SHELL_MAX_OUTPUT_BYTES"]

  const SandboxEnv := map[
    "sandbox.docker.image" := "KOKORO_DOCKER_IMAGE",
    "sandbox.docker.ttl" := "KOKORO_DOCKER_TTL",
    "sandbox.e2b.template" := "KOKORO_E2B_TEMPLATE",
    "sandbox.e2b.timeout" := "KOKORO_E2B_TIMEOUT",
    "sandbox.custom.factory" := "KOKORO_CUSTOM_BACKEND",
    "sandbox.custom.config" := "KOKORO_CUSTOM_BACKEND_CONFIG",
    "sandbox.custom.teardown" := "KOKORO_CUSTOM_BACKEND_TEARDOWN"]

  const ToolsEnv := map[
    "workspace_config" := "KOKORO_WORKSPACE_CONFIG",
    "mcp.egress_mode" := "KOKORO_MCP_EGRESS_MODE",
    "web_tools.fetch_allow_private" := "KOKORO_WEB_FETCH_ALLOW_PRIVATE",
    "web_tools.search.provider" := "KOKORO_WEB_SEARCH_PROVIDER",
    "web_tools.search.url" := "KOKORO_WEB_SEARCH_URL",
    "subagents.builtin" := "KOKORO_BUILTIN_SUBAGENTS",
    "subagents.custom_json" := "KOKORO_CUSTOM_SUBAGENTS"]

  const LimitsEnv := map[
    "limits.lease_heartbeat_s" := "KOKORO_LEASE_HEARTBEAT_S",
    "limits.recursion_limit" := "KOKORO_RECURSION_LIMIT",
    "limits.model_call_settle_timeout_s" := "KOKORO_MODEL_CALL_SETTLE_TIMEOUT_S",
    "limits.drain_timeout_s" := "KOKORO_DRAIN_TIMEOUT_S",
    "limits.run_token_budget" := "KOKORO_RUN_TOKEN_BUDGET",
    "retention.events_ttl_s" := "KOKORO_RETENTION_EVENTS_TTL_S",
    "retention.run_ttl_s" := "KOKORO_RETENTION_RUN_TTL_S"]

  const AgentTable := Table(HttpEnv + ModelEnv + ShellEnv + SandboxEnv + ToolsEnv + LimitsEnv, HttpEnv.Keys)

  const HttpNames: set<string> := {
    "KOKORO_AGENT_HTTP_HOST", "KOKORO_AGENT_HTTP_PORT", "KOKORO_REDIS_URL",
    "KOKORO_AGENT_DATABASE_URL", "KOKORO_AGENT_DATABASE_SCHEMA", "KOKORO_LEASE_TTL_S"}

  /** A section of the table that leaves the HTTP paths and names alone. */
  predicate Separate(section: map<string, string>) {
    forall p | p in section :: p != "" && p[0] != '.' && p !in HttpEnv && section[p] !in HttpNames
  }

  lemma HttpSection()
    ensures forall p | p in HttpEnv :: p != "" && p[0] != '.' && HttpEnv[p] in HttpNames
  {
  }

  lemma ModelSeparate()
    ensures Separate(ModelEnv)
  {
  }

  lemma ShellSeparate()
    ensures Separate(ShellEnv)
  {
  }

  lemma SandboxSeparate()
    ensures Separate(SandboxEnv)
  {
  }

  lemma ToolsSeparate()
    ensures Separate(ToolsEnv)
  {
  }

  lemma LimitsSeparate()
    ensures Separate(LimitsEnv)
  {
  }

  /** The HTTP paths have the HTTP names, and no other path does. */
  predicate Good(env: map<string, string>, http: set<string>) {
    && http <= env.Keys
    && forall p | p in env :: p != "" && p[0] != '.' && (p in http <==> env[p] in HttpNames)
  }

  lemma GoodIsOk(env: map<string, string>, http: set<string>)
    requires Good(env, http)
    ensures TableOk(Table(env, http))
  {
  }

  /** Adding a separate section changes nothing for HTTP. */
  lemma AddSection(env: map<string, string>, section: map<string, string>, http: set<string>)
    requires Good(env, http) && forall p | p in section :: p != "" && p[0] != '.' && p !in http && section[p] !in HttpNames
    ensures Good(env + section, http)
  {
  }

  lemma SandboxPart()
    ensures Good(HttpEnv + ModelEnv + ShellEnv + SandboxEnv, HttpEnv.Keys)
  {
    HttpSection();
    ModelSeparate();
    ShellSeparate();
    SandboxSeparate();
    AddSection(HttpEnv, ModelEnv, HttpEnv.Keys);
    AddSection(HttpEnv + ModelEnv, ShellEnv, HttpEnv.Keys);
    AddSection(HttpEnv + ModelEnv + ShellEnv, SandboxEnv, HttpEnv.Keys);
  }

  /** So the refinement holds for the table in use. */
  lemma AgentTableOk()
    ensures TableOk(AgentTable)
  {
    SandboxPart();
    ToolsSeparate();
    LimitsSeparate();
    AddSection(HttpEnv + ModelEnv + ShellEnv + SandboxEnv, ToolsEnv, HttpEnv.Keys);
    AddSection(HttpEnv + ModelEnv + ShellEnv + SandboxEnv + ToolsEnv, LimitsEnv, HttpEnv.Keys);
    GoodIsOk(AgentTable.env, AgentTable.http);
  }
}
