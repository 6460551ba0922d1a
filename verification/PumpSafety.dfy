/**
 The pump over every schedule: queue order, the depth-first brackets, the order of every
 channel, and every subagent's events inside its own bracket.
 */
module PumpSafety {
  import opened Wrappers
  import opened ProjectionPump
  import opened PumpOrder
  import opened PumpChannels

  // ----- the queue -----------------------------------------------------------------------

  /** The events in a queue, without the end mark. */
  function Events(queue: seq<Option<Event>>): seq<Event> {
    if queue == [] then [] else (if queue[0].Some? then [queue[0].value] else []) + Events(queue[1..])
  }

  lemma {:induction false} EventsAppend(a: seq<Option<Event>>, b: seq<Option<Event>>)
    ensures Events(a + b) == Events(a) + Events(b)
  {
    if a == [] {
      assert a + b == b;
    } else {
      EventsAppend(a[1..], b);
      assert (a + b)[0] == a[0] && (a + b)[1..] == a[1..] + b;
      Associates(if a[0].Some? then [a[0].value] else [], Events(a[1..]), Events(b));
    }
  }

  /** The events that are marked, in order. */
  function Marked(events: seq<Event>, marks: seq<bool>): seq<Event>
    requires |events| == |marks|
  {
    if events == [] then []
    else
      var n := |events| - 1;
      Marked(events[..n], marks[..n]) + if marks[n] then [events[n]] else []
  }

  lemma MarkedAppend(events: seq<Event>, marks: seq<bool>, e: Event, mark: bool)
    requires |events| == |marks|
    ensures Marked(events + [e], marks + [mark]) == Marked(events, marks) + if mark then [e] else []
  {
    assert (events + [e])[..|events|] == events && (marks + [mark])[..|marks|] == marks;
  }

  /** The publisher takes what was put, in order, and stops at the end mark. */
  predicate QueueOk(s: Pump) {
    && s.put == s.taken + Events(s.queue)
    && (forall i | 0 <= i < |s.queue| :: s.queue[i].None? ==> i == |s.queue| - 1 && s.sealed)
    && (s.sealed ==> Halted(s.tasks))
    && (s.publisher.Stopped? ==> s.sealed && s.queue == [])
    && (s.sealed && s.queue == [] ==> s.publisher.Stopped?)
    && (s.sealed && s.queue != [] ==> s.queue[|s.queue| - 1].None?)
  }

  lemma ProduceKeepsQueue(s: Pump, at: Choice)
    requires QueueOk(s)
    ensures QueueOk(Act(s, Produce(at)))
  {
    var stepped := Step(s.tasks, at);
    if stepped.Some? && stepped.value.event.Some? {
      EventsAppend(s.queue, [stepped.value.event]);
      assert Events([stepped.value.event]) == [stepped.value.event.value];
    }
  }

  lemma SealKeepsQueue(s: Pump)
    requires QueueOk(s)
    ensures QueueOk(Act(s, Seal))
  {
    EventsAppend(s.queue, [None]);
    assert Events([None]) == [];
  }

  lemma TakeKeepsQueue(s: Pump, action: Action)
    requires QueueOk(s) && (action.Publish? || action.Drop?)
    ensures QueueOk(Act(s, action))
  {
    if s.publisher.Draining? && s.queue != [] && s.queue[0].Some? {
      assert s.taken + ([s.queue[0].value] + Events(s.queue[1..])) == (s.taken + [s.queue[0].value]) + Events(s.queue[1..]);
    }
  }

  lemma ActKeepsQueue(s: Pump, action: Action)
    requires QueueOk(s)
    ensures QueueOk(Act(s, action))
  {
    match action
    case Produce(at) => ProduceKeepsQueue(s, at);
    case Seal => SealKeepsQueue(s);
    case Raise =>
    case _ => TakeKeepsQueue(s, action);
  }

  /** The wire is what was taken, less exactly what a failed publication dropped. */
  predicate WireOk(s: Pump) {
    |s.kept| == |s.taken| && s.wire == Marked(s.taken, s.kept)
  }

  lemma ActKeepsWire(s: Pump, action: Action)
    requires WireOk(s)
    ensures WireOk(Act(s, action))
  {
    if s.queue != [] && s.queue[0].Some? {
      MarkedAppend(s.taken, s.kept, s.queue[0].value, true);
      MarkedAppend(s.taken, s.kept, s.queue[0].value, false);
    }
  }

  lemma {:induction false} WireIsTakenLessDropped(run: AgentRun, actions: seq<Action>)
    ensures WireOk(Pumped(run, actions))
  {
    if actions != [] {
      WireIsTakenLessDropped(run, actions[..|actions| - 1]);
      ActKeepsWire(Pumped(run, actions[..|actions| - 1]), actions[|actions| - 1]);
    }
  }

  /** When nothing is dropped, the wire is what was taken. */
  lemma {:induction false} NothingDropped(run: AgentRun, actions: seq<Action>)
    requires forall i | 0 <= i < |actions| :: actions[i] != Drop
    ensures Pumped(run, actions).wire == Pumped(run, actions).taken
  {
    if actions != [] {
      NothingDropped(run, actions[..|actions| - 1]);
      assert actions[|actions| - 1] != Drop;
    }
  }

  // ----- channels over whole schedules ----------------------------------------------------------

  /** What was put on the channel, and what is still to come, make up what the run produces. */
  predicate ChannelOk(channel: Channel, s: Pump, all: seq<Event>) {
    && Single(channel, s.tasks)
    && Select(channel, s.put) + Future(channel, s.tasks) <= all
    && (!Doomed(s.tasks) ==> Select(channel, s.put) + Future(channel, s.tasks) == all)
  }

  lemma ActKeepsChannel(channel: Channel, s: Pump, action: Action, all: seq<Event>)
    requires ChannelOk(channel, s, all)
    ensures ChannelOk(channel, Act(s, action), all)
  {
    if action.Produce? && Step(s.tasks, action.at).Some? && !s.sealed {
      var stepped := Step(s.tasks, action.at).value;
      StepKeepsSingle(channel, s.tasks, action.at);
      StepAdvances(channel, s.tasks, action.at);
      PutOne(channel, s.put, stepped.event);
      MovesOn(Select(channel, s.put), One(channel, stepped.event), Future(channel, stepped.process), Future(channel, s.tasks), all);
    }
  }

  function Put(put: seq<Event>, event: Option<Event>): seq<Event> {
    if event.Some? then put + [event.value] else put
  }

  lemma PutOne(channel: Channel, put: seq<Event>, event: Option<Event>)
    ensures Select(channel, Put(put, event)) == Select(channel, put) + One(channel, event)
  {
    if event.Some? {
      SelectAppend(channel, put, [event.value]);
      assert Select(channel, [event.value]) == One(channel, event);
    }
  }

  /** Moving `one` from what is to come to what was put. */
  lemma MovesOn(done: seq<Event>, one: seq<Event>, left: seq<Event>, before: seq<Event>, all: seq<Event>)
    requires done + before <= all && one + left <= before
    ensures (done + one) + left <= all
    ensures one + left == before ==> (done + one) + left == done + before
  {
    assert (done + one) + left == done + (one + left);
    assert before == (one + left) + before[|one + left|..];
    assert done + before == (done + (one + left)) + before[|one + left|..];
  }

  lemma {:induction false} PumpedQueue(run: AgentRun, actions: seq<Action>)
    ensures QueueOk(Pumped(run, actions))
  {
    if actions != [] {
      PumpedQueue(run, actions[..|actions| - 1]);
      ActKeepsQueue(Pumped(run, actions[..|actions| - 1]), actions[|actions| - 1]);
    }
  }

  lemma {:induction false} PumpedChannel(channel: Channel, run: AgentRun, actions: seq<Action>, all: seq<Event>)
    requires Single(channel, Consume([], run)) && Future(channel, Consume([], run)) == all
    ensures ChannelOk(channel, Pumped(run, actions), all)
  {
    if actions != [] {
      PumpedChannel(channel, run, actions[..|actions| - 1], all);
      ActKeepsChannel(channel, Pumped(run, actions[..|actions| - 1]), actions[|actions| - 1], all);
    } else {
      assert Select(channel, []) + all == all;
    }
  }

  lemma {:induction false} SelectPrefix(channel: Channel, a: seq<Event>, b: seq<Event>)
    requires a <= b
    ensures Select(channel, a) <= Select(channel, b)
  {
    SelectAppend(channel, a, b[|a|..]);
    assert b == a + b[|a|..];
  }

  /** The pump came to its end and no task failed. */
  predicate Completed(s: Pump) {
    s.publisher.Stopped? && Finished(s.tasks)
  }

  /** On a channel the publisher takes a prefix of what the run produces, and all of it at a regular end. */
  lemma ChannelInOrder(channel: Channel, run: AgentRun, actions: seq<Action>, all: seq<Event>)
    requires Single(channel, Consume([], run)) && Future(channel, Consume([], run)) == all
    ensures var s := Pumped(run, actions);
      && Select(channel, s.taken) <= Select(channel, s.put) <= all
      && (Completed(s) ==> Select(channel, s.taken) == all)
  {
    var s := Pumped(run, actions);
    PumpedQueue(run, actions);
    PumpedChannel(channel, run, actions, all);
    SelectPrefix(channel, s.taken, s.put);
    if Completed(s) {
      FinishedHasNoFuture(channel, s.tasks);
      SilentFuture(channel, s.tasks);
      assert s.taken == s.put;
    }
  }

  /**
   In every schedule the brackets are a prefix of the depth-first traversal of the subagent
   tree, and the whole traversal when the pump ends without a failure.
   */
  lemma BracketsAreDepthFirst(run: AgentRun, actions: seq<Action>)
    ensures var s := Pumped(run, actions);
      && Select(Bracket, s.taken) <= Traversal([], run, 0)
      && (Completed(s) ==> Select(Bracket, s.taken) == Traversal([], run, 0))
  {
    BracketsAreTraversal([], run, 0);
    DeafConsume(Bracket, [], run);
    ChannelInOrder(Bracket, run, actions, Traversal([], run, 0));
  }

  /** The text events of every run of the tree keep their order, and are complete at a regular end. */
  lemma TextInOrder(run: AgentRun, actions: seq<Action>, q: Path)
    requires NodeAt(run, q).Some?
    ensures var s, all := Pumped(run, actions), Texts(q, NodeAt(run, q).value.messages);
      Select(TextOf(q), s.taken) <= all && (Completed(s) ==> Select(TextOf(q), s.taken) == all)
  {
    RunText(q, NodeAt(run, q).value);
    OwnedInOrder(TextOf(q), q, run, actions, Texts(q, NodeAt(run, q).value.messages));
  }

  /** So do its thinking events. */
  lemma ThinkingInOrder(run: AgentRun, actions: seq<Action>, q: Path)
    requires NodeAt(run, q).Some?
    ensures var s, all := Pumped(run, actions), Thinking(q, NodeAt(run, q).value.messages);
      Select(ThinkingOf(q), s.taken) <= all && (Completed(s) ==> Select(ThinkingOf(q), s.taken) == all)
  {
    RunThinking(q, NodeAt(run, q).value);
    OwnedInOrder(ThinkingOf(q), q, run, actions, Thinking(q, NodeAt(run, q).value.messages));
  }

  /** And its tool events. */
  lemma ToolsInOrder(run: AgentRun, actions: seq<Action>, q: Path)
    requires NodeAt(run, q).Some?
    ensures var s, all := Pumped(run, actions), ToolsEvents(q, NodeAt(run, q).value.tools);
      Select(ToolsOf(q), s.taken) <= all && (Completed(s) ==> Select(ToolsOf(q), s.taken) == all)
  {
    RunTools(q, NodeAt(run, q).value);
    OwnedInOrder(ToolsOf(q), q, run, actions, ToolsEvents(q, NodeAt(run, q).value.tools));
  }

  /** A channel that one run of the tree owns. */
  lemma OwnedInOrder(channel: Channel, q: Path, run: AgentRun, actions: seq<Action>, all: seq<Event>)
    requires Owned(channel, q) && NodeAt(run, q).Some?
    requires Single(channel, Consume(q, NodeAt(run, q).value)) && Future(channel, Consume(q, NodeAt(run, q).value)) == all
    ensures var s := Pumped(run, actions);
      && Select(channel, s.taken) <= all
      && (Completed(s) ==> Select(channel, s.taken) == all)
  {
    assert q[0..] == q;
    DownToOwner(channel, q, [], run);
    ChannelInOrder(channel, run, actions, all);
  }
}
