/**
 Every event of a subagent lies between the start and the end of that subagent.
 */
module PumpNesting {
  import opened Wrappers
  import opened ProjectionPump
  import opened PumpOrder
  import opened PumpChannels
  import opened PumpSafety

  // ----- open brackets of a trace ------------------------------------------------------

  /** The subagents that have started and not finished. */
  function OpenAfter(trace: seq<Event>): set<Path> {
    if trace == [] then {}
    else
      var before, e := OpenAfter(trace[..|trace| - 1]), trace[|trace| - 1];
      match e.kind
      case SubagentStarted => before + {e.owner}
      case SubagentFinished => before - {e.owner}
      case _ => before
  }

  /** A subagent is open after a trace exactly when its last bracket there is a start. */
  lemma {:induction false} OpenMeans(trace: seq<Event>, c: Path)
    ensures c in OpenAfter(trace) <==>
      exists i :: 0 <= i < |trace| && trace[i] == Event(c, SubagentStarted)
                  && forall j | i < j < |trace| :: trace[j] != Event(c, SubagentFinished)
  {
    if trace != [] {
      var before, last := trace[..|trace| - 1], trace[|trace| - 1];
      OpenMeans(before, c);
      if c in OpenAfter(trace) {
        if last == Event(c, SubagentStarted) {
          assert trace[|trace| - 1] == Event(c, SubagentStarted);
        } else {
          var i :| 0 <= i < |before| && before[i] == Event(c, SubagentStarted)
                   && forall j | i < j < |before| :: before[j] != Event(c, SubagentFinished);
          assert trace[i] == Event(c, SubagentStarted);
        }
      }
      if i :| 0 <= i < |trace| && trace[i] == Event(c, SubagentStarted)
              && forall j | i < j < |trace| :: trace[j] != Event(c, SubagentFinished) {
        if i < |before| {
          assert before[i] == Event(c, SubagentStarted);
          assert forall j | i < j < |before| :: before[j] == trace[j];
          assert last != Event(c, SubagentFinished);
        }
      }
    }
  }

  // ----- open brackets of a process ------------------------------------------------------

  predicate Closing(p: Process) {
    p.Await? && p.event.Some? && p.event.value.kind.SubagentFinished?
  }

  /** Started subagents whose end is still to come. */
  function OpenIn(p: Process): set<Path> {
    match p
    case Over => {}
    case Broken => {}
    case Await(_, _) => {}
    case Then(first, second) =>
      if Closing(second) then {second.event.value.owner} + OpenIn(first) else OpenIn(first) + OpenIn(second)
    case All(tasks) => set t, c | t in tasks && c in OpenIn(t) :: c
  }

  /** Every event of the process belongs to `path`, or lies inside a bracket below `path`. */
  predicate Scoped(p: Process, path: Path) {
    match p
    case Over => true
    case Broken => true
    case Await(event, next) =>
      if event.None? then Scoped(next, path) && OpenIn(next) == {}
      else if event.value.kind.SubagentStarted? then
        var child := event.value.owner;
        && path < child
        && next.Then? && Closing(next.second) && next.second.event.value.owner == child
        && Scoped(next.first, child) && OpenIn(next.first) == {}
        && next.second.next.Await? && Scoped(next.second.next, path)
      else
        !event.value.kind.SubagentFinished? && event.value.owner == path && Scoped(next, path)
        && OpenIn(next) == {}
    case Then(first, second) =>
      if Closing(second) then
        path < second.event.value.owner && Scoped(first, second.event.value.owner)
        && second.next.Await? && Scoped(second.next, path)
      else (Finished(first) || (Scoped(first, path) && OpenIn(second) == {})) && Scoped(second, path)
    case All(tasks) => forall t | t in tasks :: Scoped(t, path)
  }

  lemma {:induction false} FinishedOpensNothing(p: Process)
    requires Finished(p)
    ensures OpenIn(p) == {}
  {
    match p
    case Over =>
    case Then(first, second) => FinishedOpensNothing(first); FinishedOpensNothing(second);
    case All(tasks) =>
      forall t | t in tasks
        ensures OpenIn(t) == {}
      {
        FinishedOpensNothing(t);
      }
  }

  lemma {:induction false} OpenBelow(p: Process, path: Path)
    requires Scoped(p, path)
    ensures forall c | c in OpenIn(p) :: path < c
  {
    match p
    case Then(first, second) =>
      if Closing(second) {
        OpenBelow(first, second.event.value.owner);
      } else {
        if Finished(first) {
          FinishedOpensNothing(first);
        } else {
          OpenBelow(first, path);
        }
        OpenBelow(second, path);
      }
    case All(tasks) =>
      forall t | t in tasks
        ensures forall c | c in OpenIn(t) :: path < c
      {
        OpenBelow(t, path);
      }
    case _ =>
  }

  lemma {:induction false} SilentOpensNothing(p: Process)
    requires Silent(Bracket, p)
    ensures OpenIn(p) == {}
  {
    match p
    case Then(first, second) => SilentOpensNothing(first); SilentOpensNothing(second);
    case All(tasks) =>
      forall t | t in tasks
        ensures OpenIn(t) == {}
      {
        SilentOpensNothing(t);
      }
    case _ =>
  }

  /** How an event changes the open brackets; a failure may forget some. */
  predicate Opens(before: set<Path>, event: Option<Event>, after: set<Path>) {
    if event.None? then after <= before
    else match event.value.kind
      case SubagentStarted => after <= before + {event.value.owner}
      case SubagentFinished => event.value.owner in before && after <= before - {event.value.owner}
      case _ => after <= before
  }

  /** An event of the process's own run, or of an open subagent. */
  predicate Inside(event: Option<Event>, path: Path, open: set<Path>) {
    event.Some? && !Bracket(event.value) ==> event.value.owner == path || event.value.owner in open
  }

  /** A step from `p` to `q` stays within the scope and accounts for the brackets. */
  predicate StaysScoped(p: Process, path: Path, event: Option<Event>, q: Process) {
    Scoped(q, path) && Opens(OpenIn(p), event, OpenIn(q)) && Inside(event, path, OpenIn(p))
  }

  lemma {:induction false} StepScoped(p: Process, path: Path, at: Choice)
    requires Scoped(p, path) && Single(Bracket, p) && Step(p, at).Some?
    ensures StaysScoped(p, path, Step(p, at).value.event, Step(p, at).value.process)
  {
    match p
    case Await(_, _) =>
    case Then(first, second) =>
      if at.First? {
        FinishedHasNoStep(first, at.inner);
        StepScoped(first, if Closing(second) then second.event.value.owner else path, at.inner);
        FirstScoped(first, second, path, Step(first, at.inner).value.event, Step(first, at.inner).value.process);
      } else {
        FinishedOpensNothing(first);
        if !Closing(second) {
          StepScoped(second, path, at.inner);
          SecondScoped(first, second, path, at.inner);
        }
      }
    case All(tasks) =>
      assert tasks[at.index] in tasks;
      StepScoped(tasks[at.index], path, at.inner);
      TaskScoped(p, path, at);
  }

  lemma FirstScoped(first: Process, second: Process, path: Path, event: Option<Event>, after: Process)
    requires Scoped(Then(first, second), path) && !Finished(first)
    requires StaysScoped(first, if Closing(second) then second.event.value.owner else path, event, after)
    ensures StaysScoped(Then(first, second), path, event, Then(after, second))
  {
    if Closing(second) {
      OpenBelow(first, second.event.value.owner);
    }
  }

  /** A process in scope never starts with an end bracket. */
  lemma NeverStartsClosing(p: Process, path: Path)
    requires Scoped(p, path)
    ensures !Closing(p)
  {
  }

  lemma SecondScoped(first: Process, second: Process, path: Path, at: Choice)
    requires Scoped(Then(first, second), path) && Finished(first) && !Closing(second) && Step(second, at).Some?
    requires StaysScoped(second, path, Step(second, at).value.event, Step(second, at).value.process)
    ensures StaysScoped(Then(first, second), path, Step(second, at).value.event, Then(first, Step(second, at).value.process))
  {
    FinishedOpensNothing(first);
    NeverStartsClosing(Step(second, at).value.process, path);
  }

  lemma TaskScoped(p: Process, path: Path, at: Choice)
    requires p.All? && Scoped(p, path) && Single(Bracket, p) && Step(p, at).Some?
    requires var inner := Step(p.tasks[at.index], at.inner).value; StaysScoped(p.tasks[at.index], path, inner.event, inner.process)
    ensures StaysScoped(p, path, Step(p, at).value.event, Step(p, at).value.process)
  {
    var i, tasks := at.index, p.tasks;
    var inner := Step(tasks[i], at.inner).value;
    var q := All(tasks[i := inner.process]);
    assert tasks[i] in tasks;
    assert OpenIn(tasks[i]) <= OpenIn(p);
    if inner.event.Some? && inner.event.value.kind.SubagentFinished? {
      if Silent(Bracket, tasks[i]) {
        SilentOpensNothing(tasks[i]);
      }
      forall j | 0 <= j < |tasks| && j != i
        ensures OpenIn(tasks[j]) == {}
      {
        if j < i {
          assert Silent(Bracket, tasks[i]) || Silent(Bracket, tasks[j]);
        }
        SilentOpensNothing(tasks[j]);
      }
    }
    forall c | c in OpenIn(q)
      ensures c in OpenIn(inner.process) || c in OpenIn(p)
      ensures c !in OpenIn(inner.process) ==> exists j :: 0 <= j < |tasks| && j != i && c in OpenIn(tasks[j])
    {
      var t :| t in q.tasks && c in OpenIn(t);
      var j :| 0 <= j < |q.tasks| && q.tasks[j] == t;
      if j != i {
        assert tasks[j] in tasks;
        assert OpenIn(tasks[j]) <= OpenIn(p);
      }
    }
  }

  lemma {:induction false} FinishedHasNoStep(p: Process, at: Choice)
    requires Step(p, at).Some?
    ensures !Finished(p)
  {
    match p
    case Await(_, _) =>
    case Then(first, second) => FinishedHasNoStep(if at.First? then first else second, at.inner);
    case All(tasks) => FinishedHasNoStep(tasks[at.index], at.inner);
  }

  // ----- the tasks of a run are scoped --------------------------------------------------------

  lemma {:induction false} PutsScoped(events: seq<Event>, path: Path)
    requires forall e | e in events :: e.owner == path && !Bracket(e)
    ensures Scoped(Puts(events), path) && OpenIn(Puts(events)) == {}
  {
    if events != [] {
      PutsScoped(events[1..], path);
    }
  }

  lemma MessageScoped(path: Path, m: Model)
    ensures Scoped(ConsumeMessage(path, m), path) && OpenIn(ConsumeMessage(path, m)) == {}
  {
    var deltas, thoughts, done := TextDeltas(path, m.messageId, m.text), ThinkingDeltas(path, m.messageId, m.reasoning), Completion(path, m);
    TextDeltasAre(path, m.messageId, m.text);
    ThinkingDeltasAre(path, m.messageId, m.reasoning);
    PutsScoped(deltas, path);
    PutsScoped(thoughts, path);
    PutsScoped(done, path);
    PutsScoped([], path);
    AllScoped([Puts(deltas), Puts(thoughts)], path);
    AllScoped([Drain, Drain], path);
    NeverStartsClosing(Puts(done), path);
  }

  lemma AllScoped(tasks: seq<Process>, path: Path)
    requires forall t | t in tasks :: Scoped(t, path) && OpenIn(t) == {}
    ensures Scoped(All(tasks), path) && OpenIn(All(tasks)) == {}
  {
  }

  lemma {:induction false} MessagesScoped(path: Path, messages: seq<Model>)
    ensures Scoped(ConsumeMessages(path, messages), path) && OpenIn(ConsumeMessages(path, messages)) == {}
  {
    if messages != [] {
      MessageScoped(path, messages[0]);
      MessagesScoped(path, messages[1..]);
      NeverStartsClosing(ConsumeMessages(path, messages[1..]), path);
    }
  }

  lemma {:induction false} SubagentsScoped(path: Path, run: AgentRun, k: nat)
    requires k <= |run.subagents|
    ensures Scoped(ConsumeSubagents(path, run, k), path) && OpenIn(ConsumeSubagents(path, run, k)) == {}
    decreases run, |run.subagents| - k
  {
    if k < |run.subagents| {
      SubagentsScoped(path + [k], run.subagents[k], 0);
      ConsumeScoped(path + [k], run.subagents[k]);
      SubagentsScoped(path, run, k + 1);
      assert path < path + [k];
    }
  }

  lemma ConsumeScoped(path: Path, run: AgentRun)
    requires Scoped(ConsumeSubagents(path, run, 0), path) && OpenIn(ConsumeSubagents(path, run, 0)) == {}
    ensures Scoped(Consume(path, run), path) && OpenIn(Consume(path, run)) == {}
  {
    MessagesScoped(path, run.messages);
    ToolsEventsAre(path, run.tools);
    PutsScoped(ToolsEvents(path, run.tools), path);
    PutsScoped([], path);
    AllScoped(Consume(path, run).tasks, path);
  }

  // ----- every schedule ----------------------------------------------------------------------

  /** Every event that is not the main run's comes while its subagent is open. */
  ghost predicate InOwnBracket(trace: seq<Event>) {
    forall k | 0 <= k < |trace| && !Bracket(trace[k]) && trace[k].owner != [] :: trace[k].owner in OpenAfter(trace[..k])
  }

  ghost predicate Nested(s: Pump) {
    Scoped(s.tasks, []) && Single(Bracket, s.tasks) && OpenIn(s.tasks) <= OpenAfter(s.put) && InOwnBracket(s.put)
  }

  lemma ActKeepsNested(s: Pump, action: Action)
    requires Nested(s)
    ensures Nested(Act(s, action))
  {
    if action.Produce? && Step(s.tasks, action.at).Some? && !s.sealed {
      var stepped := Step(s.tasks, action.at).value;
      StepKeepsSingle(Bracket, s.tasks, action.at);
      StepScoped(s.tasks, [], action.at);
      if stepped.event.Some? {
        TraceNested(s.put, stepped.event.value, OpenIn(s.tasks), OpenIn(stepped.process));
      }
    }
  }

  lemma TraceNested(put: seq<Event>, e: Event, open: set<Path>, after: set<Path>)
    requires open <= OpenAfter(put) && InOwnBracket(put) && Opens(open, Some(e), after) && Inside(Some(e), [], open)
    ensures after <= OpenAfter(put + [e]) && InOwnBracket(put + [e])
  {
    var trace := put + [e];
    assert trace[..|put|] == put;
    forall k | 0 <= k < |trace| && !Bracket(trace[k]) && trace[k].owner != []
      ensures trace[k].owner in OpenAfter(trace[..k])
    {
      if k < |put| {
        assert trace[..k] == put[..k];
      }
    }
  }

  lemma {:induction false} PumpedNested(run: AgentRun, actions: seq<Action>)
    ensures Nested(Pumped(run, actions))
  {
    if actions != [] {
      PumpedNested(run, actions[..|actions| - 1]);
      ActKeepsNested(Pumped(run, actions[..|actions| - 1]), actions[|actions| - 1]);
    } else {
      SubagentsScoped([], run, 0);
      ConsumeScoped([], run);
      BracketsAreTraversal([], run, 0);
      DeafConsume(Bracket, [], run);
    }
  }

  /**
   In every schedule, an event of a subagent that the publisher takes comes after that
   subagent's start and before its end.
   */
  lemma EventsInsideBrackets(run: AgentRun, actions: seq<Action>, k: nat)
    requires k < |Pumped(run, actions).taken|
    requires var e := Pumped(run, actions).taken[k]; !Bracket(e) && e.owner != []
    ensures var taken := Pumped(run, actions).taken;
      exists i :: 0 <= i < k && taken[i] == Event(taken[k].owner, SubagentStarted)
                  && forall j | i < j < k :: taken[j] != Event(taken[k].owner, SubagentFinished)
  {
    var s := Pumped(run, actions);
    PumpedNested(run, actions);
    PumpedQueue(run, actions);
    assert s.put[k] == s.taken[k] && s.put[..k] == s.taken[..k];
    var before := s.taken[..k];
    OpenMeans(before, s.taken[k].owner);
    var i :| 0 <= i < |before| && before[i] == Event(s.taken[k].owner, SubagentStarted)
             && forall j | i < j < |before| :: before[j] != Event(s.taken[k].owner, SubagentFinished);
    assert s.taken[i] == before[i];
    assert forall j | i < j < k :: s.taken[j] == before[j];
  }
}
