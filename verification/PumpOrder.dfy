/**
 Whatever the schedule, each channel of the pump keeps its order: the events of a channel
 that were put are a prefix of what the channel's tasks produce, and all of it when
 nothing failed. The brackets of the subagents are one such channel.
 */
module PumpOrder {
  import opened Wrappers
  import opened ProjectionPump

  /** A channel: the events a predicate selects. */
  type Channel = Event -> bool

  function Select(channel: Channel, events: seq<Event>): seq<Event> {
    if events == [] then []
    else (if channel(events[0]) then [events[0]] else []) + Select(channel, events[1..])
  }

  function One(channel: Channel, event: Option<Event>): seq<Event> {
    if event.Some? && channel(event.value) then [event.value] else []
  }

  /** No task of the process has an event of the channel left. */
  predicate Silent(channel: Channel, p: Process) {
    match p
    case Over => true
    case Broken => true
    case Await(event, next) => One(channel, event) == [] && Silent(channel, next)
    case Then(first, second) => Silent(channel, first) && Silent(channel, second)
    case All(tasks) => forall t | t in tasks :: Silent(channel, t)
  }

  /** Concurrent tasks never share the channel. */
  predicate Single(channel: Channel, p: Process) {
    match p
    case Over => true
    case Broken => true
    case Await(_, next) => Single(channel, next)
    case Then(first, second) => Single(channel, first) && Single(channel, second)
    case All(tasks) =>
      && (forall t | t in tasks :: Single(channel, t))
      && forall i, j | 0 <= i < j < |tasks| :: Silent(channel, tasks[i]) || Silent(channel, tasks[j])
  }

  /** A failure has happened that the process cannot recover from. */
  predicate Doomed(p: Process) {
    match p
    case Over => false
    case Broken => true
    case Await(_, _) => false
    case Then(first, second) => Doomed(first) || Doomed(second)
    case All(tasks) => exists t | t in tasks :: Doomed(t)
  }

  /** The events of the channel still to come, in order, if nothing more fails. */
  function Future(channel: Channel, p: Process): seq<Event>
    decreases p
  {
    match p
    case Over => []
    case Broken => []
    case Await(event, next) => One(channel, event) + Future(channel, next)
    case Then(first, second) => Future(channel, first) + (if Doomed(first) then [] else Future(channel, second))
    case All(tasks) => Futures(channel, p, 0)
  }

  /** The channel's events of the tasks from `k` on. */
  function Futures(channel: Channel, p: Process, k: nat): seq<Event>
    requires p.All? && k <= |p.tasks|
    decreases p, |p.tasks| - k
  {
    if k == |p.tasks| then [] else Future(channel, p.tasks[k]) + Futures(channel, p, k + 1)
  }

  // ----- one step ---------------------------------------------------------------------------

  lemma {:induction false} SilentFuture(channel: Channel, p: Process)
    requires Silent(channel, p)
    ensures Future(channel, p) == []
    decreases p
  {
    match p
    case Over =>
    case Broken =>
    case Await(_, next) => SilentFuture(channel, next);
    case Then(first, second) => SilentFuture(channel, first); SilentFuture(channel, second);
    case All(tasks) => SilentFutures(channel, p, 0);
  }

  lemma {:induction false} SilentFutures(channel: Channel, p: Process, k: nat)
    requires p.All? && k <= |p.tasks| && Silent(channel, p)
    ensures Futures(channel, p, k) == []
    decreases p, |p.tasks| - k
  {
    if k < |p.tasks| {
      assert p.tasks[k] in p.tasks;
      SilentFuture(channel, p.tasks[k]);
      SilentFutures(channel, p, k + 1);
    }
  }

  ghost predicate OthersSilent(channel: Channel, p: Process, i: nat)
    requires p.All?
  {
    forall j | 0 <= j < |p.tasks| && j != i :: Silent(channel, p.tasks[j])
  }

  /** When only task `i` may use the channel, its future is the future of them all. */
  lemma {:induction false} OnlyTask(channel: Channel, p: Process, i: nat, k: nat)
    requires p.All? && i < |p.tasks| && k <= |p.tasks| && OthersSilent(channel, p, i)
    ensures Futures(channel, p, k) == if k <= i then Future(channel, p.tasks[i]) else []
    decreases |p.tasks| - k
  {
    if k < |p.tasks| {
      OnlyTask(channel, p, i, k + 1);
      NextTask(channel, p, i, k);
    }
  }

  lemma NextTask(channel: Channel, p: Process, i: nat, k: nat)
    requires p.All? && i < |p.tasks| && k < |p.tasks| && OthersSilent(channel, p, i)
    ensures k != i ==> Futures(channel, p, k) == Futures(channel, p, k + 1)
    ensures k == i && Futures(channel, p, k + 1) == [] ==> Futures(channel, p, k) == Future(channel, p.tasks[i])
  {
    if k != i {
      SilentFuture(channel, p.tasks[k]);
      assert [] + Futures(channel, p, k + 1) == Futures(channel, p, k + 1);
    } else {
      assert Future(channel, p.tasks[i]) + [] == Future(channel, p.tasks[i]);
    }
  }

  lemma {:induction false} SameFutures(channel: Channel, p: Process, q: Process, k: nat)
    requires p.All? && q.All? && |p.tasks| == |q.tasks| && k <= |p.tasks|
    requires forall j | 0 <= j < |p.tasks| :: Future(channel, p.tasks[j]) == Future(channel, q.tasks[j])
    ensures Futures(channel, p, k) == Futures(channel, q, k)
    decreases |p.tasks| - k
  {
    if k < |p.tasks| {
      SameFutures(channel, p, q, k + 1);
    }
  }

  lemma {:induction false} FinishedHasNoFuture(channel: Channel, p: Process)
    requires Finished(p)
    ensures Silent(channel, p) && !Doomed(p)
  {
    match p
    case Over =>
    case Then(first, second) => FinishedHasNoFuture(channel, first); FinishedHasNoFuture(channel, second);
    case All(tasks) =>
      forall t | t in tasks
        ensures Silent(channel, t) && !Doomed(t)
      {
        FinishedHasNoFuture(channel, t);
      }
  }

  lemma {:induction false} StepKeepsSilent(channel: Channel, p: Process, at: Choice)
    requires Silent(channel, p) && Step(p, at).Some?
    ensures Silent(channel, Step(p, at).value.process) && One(channel, Step(p, at).value.event) == []
  {
    match p
    case Await(_, _) =>
    case Then(first, second) => StepKeepsSilent(channel, if at.First? then first else second, at.inner);
    case All(tasks) =>
      assert tasks[at.index] in tasks;
      StepKeepsSilent(channel, tasks[at.index], at.inner);
  }

  lemma {:induction false} StepKeepsSingle(channel: Channel, p: Process, at: Choice)
    requires Single(channel, p) && Step(p, at).Some?
    ensures Single(channel, Step(p, at).value.process)
  {
    match p
    case Await(_, _) =>
    case Then(first, second) => StepKeepsSingle(channel, if at.First? then first else second, at.inner);
    case All(tasks) =>
      var i := at.index;
      var q := Step(tasks[i], at.inner).value.process;
      assert tasks[i] in tasks;
      StepKeepsSingle(channel, tasks[i], at.inner);
      var after := tasks[i := q];
      forall j, k | 0 <= j < k < |after|
        ensures Silent(channel, after[j]) || Silent(channel, after[k])
      {
        assert Silent(channel, tasks[j]) || Silent(channel, tasks[k]);
        if Silent(channel, tasks[i]) {
          StepKeepsSilent(channel, tasks[i], at.inner);
        }
      }
  }

  /** `q`, after `event`, has the rest of what `p` had to come, or less when a failure cuts it off. */
  predicate Advances(channel: Channel, p: Process, event: Option<Event>, q: Process) {
    && One(channel, event) + Future(channel, q) <= Future(channel, p)
    && (!Doomed(q) ==> !Doomed(p) && One(channel, event) + Future(channel, q) == Future(channel, p))
  }

  lemma {:induction false} StepAdvances(channel: Channel, p: Process, at: Choice)
    requires Single(channel, p) && Step(p, at).Some?
    ensures Advances(channel, p, Step(p, at).value.event, Step(p, at).value.process)
  {
    match p
    case Await(_, _) =>
    case Then(first, second) =>
      if at.First? {
        StepAdvances(channel, first, at.inner);
        FirstAdvances(channel, first, second, Step(first, at.inner).value.event, Step(first, at.inner).value.process);
      } else {
        FinishedHasNoFuture(channel, first);
        SilentFuture(channel, first);
        StepAdvances(channel, second, at.inner);
      }
    case All(tasks) =>
      assert tasks[at.index] in tasks;
      StepAdvances(channel, tasks[at.index], at.inner);
      TaskAdvances(channel, p, at);
  }

  lemma PrefixOfLonger(a: seq<Event>, b: seq<Event>, c: seq<Event>)
    requires a <= b
    ensures a <= b + c
  {
  }

  lemma Associates<T>(a: seq<T>, b: seq<T>, c: seq<T>)
    ensures a + (b + c) == (a + b) + c
  {
  }

  lemma FirstAdvances(channel: Channel, first: Process, second: Process, event: Option<Event>, after: Process)
    requires Advances(channel, first, event, after)
    ensures Advances(channel, Then(first, second), event, Then(after, second))
  {
    var one, left, rest := One(channel, event), Future(channel, after), Future(channel, second);
    ThenFuture(channel, first, second);
    ThenFuture(channel, after, second);
    if Doomed(after) {
      PrefixOfLonger(one + left, Future(channel, first), rest);
    } else {
      Associates(one, left, rest);
    }
  }

  lemma ThenFuture(channel: Channel, first: Process, second: Process)
    ensures Future(channel, Then(first, second)) ==
            if Doomed(first) then Future(channel, first) else Future(channel, first) + Future(channel, second)
    ensures Doomed(Then(first, second)) <==> Doomed(first) || Doomed(second)
  {
  }

  /** The other tasks are silent when one is not. */
  lemma OthersAreSilent(channel: Channel, p: Process, i: nat)
    requires p.All? && Single(channel, p) && i < |p.tasks| && !Silent(channel, p.tasks[i])
    ensures OthersSilent(channel, p, i)
  {
    forall j | 0 <= j < |p.tasks| && j != i
      ensures Silent(channel, p.tasks[j])
    {
      if j < i {
        assert Silent(channel, p.tasks[i]) || Silent(channel, p.tasks[j]);
      }
    }
  }

  lemma TaskDooms(p: Process, i: nat, after: Process)
    requires p.All? && i < |p.tasks| && !Doomed(All(p.tasks[i := after]))
    requires !Doomed(after) ==> !Doomed(p.tasks[i])
    ensures !Doomed(p) && !Doomed(after)
  {
    var q := All(p.tasks[i := after]);
    assert q.tasks[i] in q.tasks;
    forall t | t in p.tasks
      ensures !Doomed(t)
    {
      var j :| 0 <= j < |p.tasks| && p.tasks[j] == t;
      assert q.tasks[j] in q.tasks;
    }
  }

  /** What becomes of the futures of gathered tasks when one of them takes a step. */
  lemma TaskFutures(channel: Channel, p: Process, i: nat, event: Option<Event>, after: Process)
    requires p.All? && Single(channel, p) && i < |p.tasks| && Advances(channel, p.tasks[i], event, after)
    requires Silent(channel, p.tasks[i]) ==> Silent(channel, after) && One(channel, event) == []
    ensures One(channel, event) + Futures(channel, All(p.tasks[i := after]), 0) <= Futures(channel, p, 0)
    ensures !Doomed(after) ==> One(channel, event) + Futures(channel, All(p.tasks[i := after]), 0) == Futures(channel, p, 0)
  {
    var q := All(p.tasks[i := after]);
    if Silent(channel, p.tasks[i]) {
      SilentFuture(channel, p.tasks[i]);
      SilentFuture(channel, after);
      SameFutures(channel, p, q, 0);
      assert [] + Futures(channel, q, 0) == Futures(channel, q, 0);
    } else {
      OthersAreSilent(channel, p, i);
      OnlyTask(channel, p, i, 0);
      OnlyTask(channel, q, i, 0);
    }
  }

  lemma TaskAdvances(channel: Channel, p: Process, at: Choice)
    requires p.All? && Single(channel, p) && Step(p, at).Some?
    requires var inner := Step(p.tasks[at.index], at.inner).value; Advances(channel, p.tasks[at.index], inner.event, inner.process)
    ensures Advances(channel, p, Step(p, at).value.event, Step(p, at).value.process)
  {
    var i := at.index;
    var inner := Step(p.tasks[i], at.inner).value;
    if Silent(channel, p.tasks[i]) {
      StepKeepsSilent(channel, p.tasks[i], at.inner);
    }
    TaskFutures(channel, p, i, inner.event, inner.process);
    if !Doomed(All(p.tasks[i := inner.process])) {
      TaskDooms(p, i, inner.process);
    }
  }
}
