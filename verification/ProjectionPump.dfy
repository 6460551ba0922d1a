/**
 The projection pump of a run: the tasks that consume the run and its subagents, as
 processes whose awaits interleave in any order and fail at any time, one queue, and one
 publisher that drains it.

 A subagent is identified by its path in the tree of runs. Payloads that the pump only
 passes on are abstract.
 */
module ProjectionPump {
  import opened Wrappers

  // ----- what is consumed -------------------------------------------------------------

  type Path = seq<nat>

  datatype Final = Final(id: string, text: string)

  datatype Model = Model(onModelNode: bool, messageId: string, text: seq<string>, reasoning: seq<string>, final: Option<Final>)

  /** `chunks` are the texts of the output deltas; a chunk without text is empty. */
  datatype Tool = Tool(id: string, name: string, chunks: seq<string>, interrupted: bool, delivered: bool)

  datatype AgentRun = AgentRun(messages: seq<Model>, tools: seq<Tool>, subagents: seq<AgentRun>)

  // ----- what is published ---------------------------------------------------------------

  datatype Kind =
    | SubagentStarted
    | SubagentFinished
    | TextDelta(segment: string, text: string)
    | ThinkingDelta(segment: string, text: string)
    | TextCompleted(segment: string, text: string)
    | ToolInvoked(tool: string)
    | ToolOutput(tool: string, text: string)
    | ToolReturned(tool: string)
    | TodoUpdated(tool: string)
    | DeliveryCreated(tool: string)

  datatype Event = Event(owner: Path, kind: Kind)

  const TOOL_RESULT_MAX_CHARS: nat := 4000
  const SUBAGENT_TOOL_NAME := "task"
  const TODO_TOOL_NAME := "write_todos"

  // ----- the events of each task, in order ---------------------------------------------------

  function Concat(parts: seq<string>): string {
    if parts == [] then "" else parts[0] + Concat(parts[1..])
  }

  /** An empty delta has no payload. */
  function TextDeltas(path: Path, segment: string, deltas: seq<string>): seq<Event> {
    if deltas == [] then []
    else (if deltas[0] == "" then [] else [Event(path, TextDelta(segment, deltas[0]))]) + TextDeltas(path, segment, deltas[1..])
  }

  function ThinkingDeltas(path: Path, segment: string, deltas: seq<string>): seq<Event> {
    if deltas == [] then []
    else (if deltas[0] == "" then [] else [Event(path, ThinkingDelta(segment, deltas[0]))]) + ThinkingDeltas(path, segment, deltas[1..])
  }

  /** The completed frame, unless there is nothing to complete; an empty one only exists at the top. */
  function Completion(path: Path, m: Model): seq<Event> {
    var full := Concat(m.text);
    var segment := if m.final.Some? && m.final.value.id != "" then m.final.value.id else m.messageId;
    if m.final.None? && full == "" then []
    else
      var text := if m.final.Some? then m.final.value.text else full;
      if path != [] && text == "" then [] else [Event(path, TextCompleted(segment, text))]
  }

  /** The output of a tool up to the limit; `sent` characters are already out. */
  function OutputDeltas(path: Path, tool: string, chunks: seq<string>, sent: nat): seq<Event> {
    if chunks == [] then []
    else if sent >= TOOL_RESULT_MAX_CHARS || chunks[0] == "" then OutputDeltas(path, tool, chunks[1..], sent)
    else
      var text := Clipped(chunks[0], TOOL_RESULT_MAX_CHARS - sent);
      [Event(path, ToolOutput(tool, text))] + OutputDeltas(path, tool, chunks[1..], sent + |text|)
  }

  function Clipped(text: string, room: nat): string {
    if |text| <= room then text else text[..room]
  }

  function ToolEvents(path: Path, t: Tool): seq<Event> {
    if t.name == SUBAGENT_TOOL_NAME then []
    else if path != [] then [Event(path, ToolInvoked(t.id)), Event(path, ToolReturned(t.id))]
    else if t.name == TODO_TOOL_NAME then [Event(path, TodoUpdated(t.id))]
    else
      [Event(path, ToolInvoked(t.id))] + OutputDeltas(path, t.id, t.chunks, 0)
      + (if t.interrupted then [] else [Event(path, ToolReturned(t.id))])
      + (if t.interrupted || !t.delivered then [] else [Event(path, DeliveryCreated(t.id))])
  }

  function ToolsEvents(path: Path, tools: seq<Tool>): seq<Event> {
    if tools == [] then [] else ToolEvents(path, tools[0]) + ToolsEvents(path, tools[1..])
  }

  // ----- tasks as processes ----------------------------------------------------------------------

  /**
   `Await` is one await that puts an event or none. `Then` runs its second part once the
   first is over. `All` gathers concurrent tasks. `Broken` is a task that raised or was
   cancelled.
   */
  datatype Process =
    | Over
    | Broken
    | Await(event: Option<Event>, next: Process)
    | Then(first: Process, second: Process)
    | All(tasks: seq<Process>)

  /** Puts `events` in order; the last await sees the end of the stream. */
  function Puts(events: seq<Event>): Process {
    if events == [] then Await(None, Over) else Await(Some(events[0]), Puts(events[1..]))
  }

  const Drain: Process := Await(None, Over)

  function ConsumeMessage(path: Path, m: Model): Process {
    if !m.onModelNode then All([Drain, Drain])
    else Then(All([Puts(TextDeltas(path, m.messageId, m.text)), Puts(ThinkingDeltas(path, m.messageId, m.reasoning))]),
              Puts(Completion(path, m)))
  }

  function ConsumeMessages(path: Path, messages: seq<Model>): Process {
    if messages == [] then Drain else Then(ConsumeMessage(path, messages[0]), ConsumeMessages(path, messages[1..]))
  }

  /** The subagents from the `k`-th on, one after the other, each between its brackets. */
  function ConsumeSubagents(path: Path, run: AgentRun, k: nat): Process
    requires k <= |run.subagents|
    decreases run, |run.subagents| - k
  {
    if k == |run.subagents| then Drain
    else
      Await(Some(Event(path + [k], SubagentStarted)),
        Then(Consume(path + [k], run.subagents[k]),
          Await(Some(Event(path + [k], SubagentFinished)), ConsumeSubagents(path, run, k + 1))))
  }

  function Consume(path: Path, run: AgentRun): Process
    decreases run, |run.subagents| + 1
  {
    All([ConsumeMessages(path, run.messages), Puts(ToolsEvents(path, run.tools)), ConsumeSubagents(path, run, 0), Drain])
  }

  // ----- steps of processes ------------------------------------------------------------------------

  /** Where in a process the next step is taken, and whether it succeeds. */
  datatype Choice = Go | Break | First(inner: Choice) | Second(inner: Choice) | Task(index: nat, inner: Choice)

  predicate Finished(p: Process) {
    match p
    case Over => true
    case Broken => false
    case Await(_, _) => false
    case Then(first, second) => Finished(first) && Finished(second)
    case All(tasks) => forall t | t in tasks :: Finished(t)
  }

  datatype Stepped = Stepped(event: Option<Event>, process: Process)

  function Step(p: Process, at: Choice): Option<Stepped> {
    match p
    case Over => None
    case Broken => None
    case Await(event, next) =>
      if at == Go then Some(Stepped(event, next)) else if at == Break then Some(Stepped(None, Broken)) else None
    case Then(first, second) =>
      if at.First? then
        var inner := Step(first, at.inner);
        if inner.None? then None else Some(Stepped(inner.value.event, Then(inner.value.process, second)))
      else if at.Second? && Finished(first) then
        var inner := Step(second, at.inner);
        if inner.None? then None else Some(Stepped(inner.value.event, Then(first, inner.value.process)))
      else None
    case All(tasks) =>
      if at.Task? && at.index < |tasks| then
        var inner := Step(tasks[at.index], at.inner);
        if inner.None? then None else Some(Stepped(inner.value.event, All(tasks[at.index := inner.value.process])))
      else None
  }

  // ----- the pump ------------------------------------------------------------------------------------

  datatype Publisher = Draining | Stopped | Raised

  /** `put` is everything ever put, `taken` what the publisher took, `kept` which of it reached the `wire`. */
  datatype Pump = Pump(
    tasks: Process, sealed: bool, queue: seq<Option<Event>>, publisher: Publisher,
    put: seq<Event>, taken: seq<Event>, kept: seq<bool>, wire: seq<Event>)

  datatype Action = Produce(at: Choice) | Seal | Publish | Drop | Raise

  /** No task can take another step. */
  predicate Halted(p: Process) {
    match p
    case Over => true
    case Broken => true
    case Await(_, _) => false
    case Then(first, second) => Halted(first) && (Finished(first) ==> Halted(second))
    case All(tasks) => forall t | t in tasks :: Halted(t)
  }

  function Act(s: Pump, action: Action): Pump {
    match action
    case Produce(at) =>
      var stepped := Step(s.tasks, at);
      if stepped.None? || s.sealed then s
      else
        var s := s.(tasks := stepped.value.process);
        if stepped.value.event.None? then s
        else s.(queue := s.queue + [stepped.value.event], put := s.put + [stepped.value.event.value])
    case Seal =>
      if s.sealed || !Halted(s.tasks) then s else s.(sealed := true, queue := s.queue + [None])
    case Publish =>
      if !s.publisher.Draining? || s.queue == [] then s
      else if s.queue[0].None? then s.(queue := s.queue[1..], publisher := Stopped)
      else s.(queue := s.queue[1..], taken := s.taken + [s.queue[0].value], kept := s.kept + [true], wire := s.wire + [s.queue[0].value])
    case Drop =>
      if !s.publisher.Draining? || s.queue == [] || s.queue[0].None? then s
      else s.(queue := s.queue[1..], taken := s.taken + [s.queue[0].value], kept := s.kept + [false])
    case Raise => if s.publisher.Draining? then s.(publisher := Raised) else s
  }

  function Start(run: AgentRun): Pump {
    Pump(Consume([], run), false, [], Draining, [], [], [], [])
  }

  function Pumped(run: AgentRun, actions: seq<Action>): Pump {
    if actions == [] then Start(run) else Act(Pumped(run, actions[..|actions| - 1]), actions[|actions| - 1])
  }
}
