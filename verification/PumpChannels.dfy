/**
 The channels of the pump: the brackets of the subagents, and for each run of the tree its
 text, its thinking and its tools. What each one carries is stated without the tasks.
 */
module PumpChannels {
  import opened Wrappers
  import opened ProjectionPump
  import opened PumpOrder

  predicate Bracket(e: Event) {
    e.kind.SubagentStarted? || e.kind.SubagentFinished?
  }

  function TextOf(q: Path): Channel {
    (e: Event) => e.owner == q && (e.kind.TextDelta? || e.kind.TextCompleted?)
  }

  function ThinkingOf(q: Path): Channel {
    (e: Event) => e.owner == q && e.kind.ThinkingDelta?
  }

  predicate ToolKind(kind: Kind) {
    kind.ToolInvoked? || kind.ToolOutput? || kind.ToolReturned? || kind.TodoUpdated? || kind.DeliveryCreated?
  }

  function ToolsOf(q: Path): Channel {
    (e: Event) => e.owner == q && ToolKind(e.kind)
  }

  // ----- what the channels carry, without tasks -----------------------------------------------

  /** The depth-first traversal of the subagents from the `k`-th on. */
  function Traversal(path: Path, run: AgentRun, k: nat): seq<Event>
    requires k <= |run.subagents|
    decreases run, |run.subagents| - k
  {
    if k == |run.subagents| then []
    else
      [Event(path + [k], SubagentStarted)] + Traversal(path + [k], run.subagents[k], 0)
      + [Event(path + [k], SubagentFinished)] + Traversal(path, run, k + 1)
  }

  function Texts(path: Path, messages: seq<Model>): seq<Event> {
    if messages == [] then []
    else
      (if messages[0].onModelNode
       then TextDeltas(path, messages[0].messageId, messages[0].text) + Completion(path, messages[0]) else [])
      + Texts(path, messages[1..])
  }

  function Thinking(path: Path, messages: seq<Model>): seq<Event> {
    if messages == [] then []
    else
      (if messages[0].onModelNode then ThinkingDeltas(path, messages[0].messageId, messages[0].reasoning) else [])
      + Thinking(path, messages[1..])
  }

  /** The run at a path of the tree. */
  function NodeAt(run: AgentRun, path: Path): Option<AgentRun>
    decreases path
  {
    if path == [] then Some(run)
    else if path[0] < |run.subagents| then NodeAt(run.subagents[path[0]], path[1..])
    else None
  }

  // ----- tasks that only put events --------------------------------------------------------------

  lemma {:induction false} SelectAppend(channel: Channel, a: seq<Event>, b: seq<Event>)
    ensures Select(channel, a + b) == Select(channel, a) + Select(channel, b)
  {
    if a == [] {
      assert a + b == b;
    } else {
      SelectAppend(channel, a[1..], b);
      assert (a + b)[0] == a[0] && (a + b)[1..] == a[1..] + b;
      Associates(if channel(a[0]) then [a[0]] else [], Select(channel, a[1..]), Select(channel, b));
    }
  }

  lemma {:induction false} PutsMeans(channel: Channel, events: seq<Event>)
    ensures Future(channel, Puts(events)) == Select(channel, events)
    ensures Single(channel, Puts(events)) && !Doomed(Puts(events))
    ensures Select(channel, events) == [] ==> Silent(channel, Puts(events))
  {
    if events != [] {
      PutsMeans(channel, events[1..]);
    }
  }

  lemma {:induction false} SelectAll(channel: Channel, events: seq<Event>)
    requires forall e | e in events :: channel(e)
    ensures Select(channel, events) == events
  {
    if events != [] {
      SelectAll(channel, events[1..]);
    }
  }

  lemma {:induction false} SelectNone(channel: Channel, events: seq<Event>)
    requires forall e | e in events :: !channel(e)
    ensures Select(channel, events) == []
  {
    if events != [] {
      SelectNone(channel, events[1..]);
    }
  }

  lemma {:induction false} TextDeltasAre(path: Path, segment: string, deltas: seq<string>)
    ensures forall e | e in TextDeltas(path, segment, deltas) :: e.owner == path && e.kind.TextDelta?
  {
    if deltas != [] {
      TextDeltasAre(path, segment, deltas[1..]);
    }
  }

  lemma {:induction false} ThinkingDeltasAre(path: Path, segment: string, deltas: seq<string>)
    ensures forall e | e in ThinkingDeltas(path, segment, deltas) :: e.owner == path && e.kind.ThinkingDelta?
  {
    if deltas != [] {
      ThinkingDeltasAre(path, segment, deltas[1..]);
    }
  }

  lemma {:induction false} OutputDeltasAre(path: Path, tool: string, chunks: seq<string>, sent: nat)
    ensures forall e | e in OutputDeltas(path, tool, chunks, sent) :: e.owner == path && e.kind.ToolOutput?
  {
    if chunks != [] {
      if sent >= TOOL_RESULT_MAX_CHARS || chunks[0] == "" {
        OutputDeltasAre(path, tool, chunks[1..], sent);
      } else {
        OutputDeltasAre(path, tool, chunks[1..], sent + |Clipped(chunks[0], TOOL_RESULT_MAX_CHARS - sent)|);
      }
    }
  }

  lemma {:induction false} ToolsEventsAre(path: Path, tools: seq<Tool>)
    ensures forall e | e in ToolsEvents(path, tools) :: e.owner == path && ToolKind(e.kind)
  {
    if tools != [] {
      ToolsEventsAre(path, tools[1..]);
      OutputDeltasAre(path, tools[0].id, tools[0].chunks, 0);
    }
  }

  // ----- a channel that one run owns, or none -------------------------------------------------------

  /** The channel carries no message or tool event of the run at `path`. */
  ghost predicate Deaf(channel: Channel, path: Path) {
    forall e: Event | e.owner == path && !Bracket(e) :: !channel(e)
  }

  ghost predicate DeafToMessages(channel: Channel, path: Path) {
    forall e: Event | e.owner == path && (e.kind.TextDelta? || e.kind.ThinkingDelta? || e.kind.TextCompleted?) :: !channel(e)
  }

  lemma DeafMessage(channel: Channel, path: Path, m: Model)
    requires DeafToMessages(channel, path)
    ensures Silent(channel, ConsumeMessage(path, m))
  {
    var deltas, thoughts, done := TextDeltas(path, m.messageId, m.text), ThinkingDeltas(path, m.messageId, m.reasoning), Completion(path, m);
    TextDeltasAre(path, m.messageId, m.text);
    ThinkingDeltasAre(path, m.messageId, m.reasoning);
    SelectNone(channel, deltas);
    SelectNone(channel, thoughts);
    SelectNone(channel, done);
    PutsMeans(channel, deltas);
    PutsMeans(channel, thoughts);
    PutsMeans(channel, done);
    assert Silent(channel, All([Puts(deltas), Puts(thoughts)]));
  }

  lemma {:induction false} DeafMessages(channel: Channel, path: Path, messages: seq<Model>)
    requires DeafToMessages(channel, path)
    ensures Silent(channel, ConsumeMessages(path, messages))
  {
    if messages != [] {
      DeafMessage(channel, path, messages[0]);
      DeafMessages(channel, path, messages[1..]);
    }
  }

  lemma DeafTools(channel: Channel, path: Path, tools: seq<Tool>)
    requires Deaf(channel, path)
    ensures Silent(channel, Puts(ToolsEvents(path, tools)))
  {
    ToolsEventsAre(path, tools);
    SelectNone(channel, ToolsEvents(path, tools));
    PutsMeans(channel, ToolsEvents(path, tools));
  }

  lemma SilentIsSingle(channel: Channel, p: Process)
    requires Silent(channel, p)
    ensures Single(channel, p)
  {
  }

  /** Only the subagents of a run use the channel. */
  lemma DeafConsume(channel: Channel, path: Path, run: AgentRun)
    requires Deaf(channel, path)
    ensures Future(channel, Consume(path, run)) == Future(channel, ConsumeSubagents(path, run, 0))
    ensures Single(channel, ConsumeSubagents(path, run, 0)) ==> Single(channel, Consume(path, run))
    ensures Silent(channel, ConsumeSubagents(path, run, 0)) ==> Silent(channel, Consume(path, run))
  {
    DeafMessages(channel, path, run.messages);
    DeafTools(channel, path, run.tools);
    SilentIsSingle(channel, ConsumeMessages(path, run.messages));
    SilentIsSingle(channel, Puts(ToolsEvents(path, run.tools)));
    ThirdOfFour(channel, ConsumeMessages(path, run.messages), Puts(ToolsEvents(path, run.tools)), ConsumeSubagents(path, run, 0));
  }

  /** Four gathered tasks of which only the third may use the channel. */
  lemma ThirdOfFour(channel: Channel, first: Process, second: Process, third: Process)
    requires Silent(channel, first) && Silent(channel, second) && Single(channel, first) && Single(channel, second)
    ensures Future(channel, All([first, second, third, Drain])) == Future(channel, third)
    ensures Single(channel, third) ==> Single(channel, All([first, second, third, Drain]))
    ensures Silent(channel, third) ==> Silent(channel, All([first, second, third, Drain]))
  {
    OnlyTask(channel, All([first, second, third, Drain]), 2, 0);
  }

  // ----- brackets --------------------------------------------------------------------------------

  lemma NotDoomed(path: Path, run: AgentRun)
    ensures !Doomed(Consume(path, run))
  {
    MessagesNotDoomed(path, run.messages);
    PutsMeans(Bracket, ToolsEvents(path, run.tools));
    var p := Consume(path, run);
    forall i | 0 <= i < 4
      ensures !Doomed(p.tasks[i])
    {
      assert p.tasks[i] == [ConsumeMessages(path, run.messages), Puts(ToolsEvents(path, run.tools)), ConsumeSubagents(path, run, 0), Drain][i];
      assert !Doomed(ConsumeSubagents(path, run, 0)) && !Doomed(Drain);
    }
  }

  lemma TwoNotDoomed(a: Process, b: Process)
    requires !Doomed(a) && !Doomed(b)
    ensures !Doomed(All([a, b])) && !Doomed(Then(a, b))
  {
  }

  lemma MessageNotDoomed(path: Path, m: Model)
    ensures !Doomed(ConsumeMessage(path, m))
  {
    var deltas, thoughts, done := TextDeltas(path, m.messageId, m.text), ThinkingDeltas(path, m.messageId, m.reasoning), Completion(path, m);
    PutsMeans(Bracket, deltas);
    PutsMeans(Bracket, thoughts);
    PutsMeans(Bracket, done);
    TwoNotDoomed(Drain, Drain);
    TwoNotDoomed(Puts(deltas), Puts(thoughts));
    TwoNotDoomed(All([Puts(deltas), Puts(thoughts)]), Puts(done));
  }

  lemma {:induction false} MessagesNotDoomed(path: Path, messages: seq<Model>)
    ensures !Doomed(ConsumeMessages(path, messages))
  {
    if messages != [] {
      MessageNotDoomed(path, messages[0]);
      MessagesNotDoomed(path, messages[1..]);
      TwoNotDoomed(ConsumeMessage(path, messages[0]), ConsumeMessages(path, messages[1..]));
    }
  }

  /** The brackets a run has to come are the depth-first traversal of its subagents. */
  lemma {:induction false} BracketsAreTraversal(path: Path, run: AgentRun, k: nat)
    requires k <= |run.subagents|
    ensures Single(Bracket, ConsumeSubagents(path, run, k))
    ensures Future(Bracket, ConsumeSubagents(path, run, k)) == Traversal(path, run, k)
    decreases run, |run.subagents| - k
  {
    if k < |run.subagents| {
      var child, sub := path + [k], run.subagents[k];
      BracketsAreTraversal(child, sub, 0);
      DeafConsume(Bracket, child, sub);
      BracketsAreTraversal(path, run, k + 1);
      OneSubagent(Bracket, path, run, k);
    }
  }

  /** The first subagent between its brackets, then the others. */
  lemma OneSubagent(channel: Channel, path: Path, run: AgentRun, k: nat)
    requires k < |run.subagents|
    requires Single(channel, Consume(path + [k], run.subagents[k])) && Single(channel, ConsumeSubagents(path, run, k + 1))
    ensures Single(channel, ConsumeSubagents(path, run, k))
    ensures Future(channel, ConsumeSubagents(path, run, k)) ==
            One(channel, Some(Event(path + [k], SubagentStarted))) + Future(channel, Consume(path + [k], run.subagents[k]))
            + One(channel, Some(Event(path + [k], SubagentFinished))) + Future(channel, ConsumeSubagents(path, run, k + 1))
  {
    var child, sub := path + [k], run.subagents[k];
    var rest := Await(Some(Event(child, SubagentFinished)), ConsumeSubagents(path, run, k + 1));
    NotDoomed(child, sub);
    assert Future(channel, Then(Consume(child, sub), rest)) == Future(channel, Consume(child, sub)) + Future(channel, rest);
  }

  // ----- the channels of one run of the tree ----------------------------------------------------

  /** The channel carries message and tool events of the run at `q` only. */
  ghost predicate Owned(channel: Channel, q: Path) {
    forall e: Event | channel(e) :: e.owner == q && !Bracket(e)
  }

  lemma OnTheWay(path: Path, k: nat, q: Path)
    ensures path + [k] <= q <==> path < q && q[|path|] == k
  {
    if path + [k] <= q {
      assert q[|path|] == (path + [k])[|path|];
      assert path == (path + [k])[..|path|] == q[..|path|];
    }
    if path < q && q[|path|] == k {
      assert q[..|path| + 1] == path + [k];
    }
  }

  /** A subtree that `q` is not in does not use the channels of `q`. */
  lemma {:induction false} ElsewhereSilent(channel: Channel, q: Path, path: Path, run: AgentRun, k: nat)
    requires Owned(channel, q) && k <= |run.subagents|
    requires !(path < q) || q[|path|] < k || q[|path|] >= |run.subagents|
    ensures Silent(channel, ConsumeSubagents(path, run, k))
    decreases run, |run.subagents| - k
  {
    if k < |run.subagents| {
      var child := path + [k];
      OnTheWay(path, k, q);
      ElsewhereSilent(channel, q, child, run.subagents[k], 0);
      DeafConsume(channel, child, run.subagents[k]);
      ElsewhereSilent(channel, q, path, run, k + 1);
    }
  }

  /** The way from `path` down to `q` leaves a channel of `q` to the run at `q`. */
  lemma {:induction false} DownToOwner(channel: Channel, q: Path, path: Path, run: AgentRun)
    requires Owned(channel, q) && path <= q
    requires NodeAt(run, q[|path|..]).Some? ==> Single(channel, Consume(q, NodeAt(run, q[|path|..]).value))
    ensures Single(channel, Consume(path, run))
    ensures Future(channel, Consume(path, run)) ==
            if NodeAt(run, q[|path|..]).Some? then Future(channel, Consume(q, NodeAt(run, q[|path|..]).value)) else []
    decreases run
  {
    if path != q {
      var k := q[|path|];
      DeafConsume(channel, path, run);
      if k < |run.subagents| {
        assert q[|path|..][1..] == q[|path + [k]|..];
        DownToOwner(channel, q, path + [k], run.subagents[k]);
        ThroughChild(channel, q, path, run, k, 0);
      } else {
        ElsewhereSilent(channel, q, path, run, 0);
        SilentIsSingle(channel, ConsumeSubagents(path, run, 0));
        SilentFuture(channel, ConsumeSubagents(path, run, 0));
      }
    } else {
      assert q[|path|..] == [];
    }
  }

  /** Of the subagents, only the one on the way to `q` uses the channel. */
  lemma {:induction false} ThroughChild(channel: Channel, q: Path, path: Path, run: AgentRun, k: nat, j: nat)
    requires Owned(channel, q) && path < q && q[|path|] == k && j <= k < |run.subagents|
    requires Single(channel, Consume(path + [k], run.subagents[k]))
    ensures Single(channel, ConsumeSubagents(path, run, j))
    ensures Future(channel, ConsumeSubagents(path, run, j)) == Future(channel, Consume(path + [k], run.subagents[k]))
    decreases k - j
  {
    var child, sub := path + [j], run.subagents[j];
    if j == k {
      ElsewhereSilent(channel, q, path, run, k + 1);
      SilentFuture(channel, ConsumeSubagents(path, run, k + 1));
      SilentIsSingle(channel, ConsumeSubagents(path, run, k + 1));
    } else {
      OnTheWay(path, j, q);
      ElsewhereSilent(channel, q, child, sub, 0);
      DeafConsume(channel, child, sub);
      SilentFuture(channel, Consume(child, sub));
      SilentIsSingle(channel, Consume(child, sub));
      ThroughChild(channel, q, path, run, k, j + 1);
    }
    OneSubagent(channel, path, run, j);
  }

  // ----- what a run puts on its own channels ---------------------------------------------------------

  /** The text of one message: its deltas, then its completion. */
  lemma TextOfMessage(q: Path, m: Model)
    requires m.onModelNode
    ensures Single(TextOf(q), ConsumeMessage(q, m))
    ensures Future(TextOf(q), ConsumeMessage(q, m)) == TextDeltas(q, m.messageId, m.text) + Completion(q, m)
  {
    var channel := TextOf(q);
    var deltas, thoughts, done := TextDeltas(q, m.messageId, m.text), ThinkingDeltas(q, m.messageId, m.reasoning), Completion(q, m);
    TextDeltasAre(q, m.messageId, m.text);
    ThinkingDeltasAre(q, m.messageId, m.reasoning);
    SelectAll(channel, deltas);
    SelectNone(channel, thoughts);
    SelectAll(channel, done);
    PutsMeans(channel, deltas);
    PutsMeans(channel, thoughts);
    PutsMeans(channel, done);
    OneOfTwo(channel, Puts(deltas), Puts(thoughts));
    ThenFuture(channel, All([Puts(deltas), Puts(thoughts)]), Puts(done));
  }

  /** The thinking of one message. */
  lemma ThinkingOfMessage(q: Path, m: Model)
    requires m.onModelNode
    ensures Single(ThinkingOf(q), ConsumeMessage(q, m))
    ensures Future(ThinkingOf(q), ConsumeMessage(q, m)) == ThinkingDeltas(q, m.messageId, m.reasoning)
  {
    var channel := ThinkingOf(q);
    var deltas, thoughts, done := TextDeltas(q, m.messageId, m.text), ThinkingDeltas(q, m.messageId, m.reasoning), Completion(q, m);
    TextDeltasAre(q, m.messageId, m.text);
    ThinkingDeltasAre(q, m.messageId, m.reasoning);
    SelectNone(channel, deltas);
    SelectAll(channel, thoughts);
    SelectNone(channel, done);
    PutsMeans(channel, deltas);
    PutsMeans(channel, thoughts);
    PutsMeans(channel, done);
    OneOfTwo(channel, Puts(thoughts), Puts(deltas));
    ThenFuture(channel, All([Puts(deltas), Puts(thoughts)]), Puts(done));
    assert thoughts + [] == thoughts;
  }

  lemma {:induction false} TextOfMessages(q: Path, messages: seq<Model>)
    ensures Single(TextOf(q), ConsumeMessages(q, messages))
    ensures Future(TextOf(q), ConsumeMessages(q, messages)) == Texts(q, messages)
  {
    if messages != [] {
      if messages[0].onModelNode {
        TextOfMessage(q, messages[0]);
      } else {
        OneOfTwo(TextOf(q), Drain, Drain);
      }
      TextOfMessages(q, messages[1..]);
      MessageNotDoomed(q, messages[0]);
      ThenFuture(TextOf(q), ConsumeMessage(q, messages[0]), ConsumeMessages(q, messages[1..]));
    }
  }

  lemma {:induction false} ThinkingOfMessages(q: Path, messages: seq<Model>)
    ensures Single(ThinkingOf(q), ConsumeMessages(q, messages))
    ensures Future(ThinkingOf(q), ConsumeMessages(q, messages)) == Thinking(q, messages)
  {
    if messages != [] {
      if messages[0].onModelNode {
        ThinkingOfMessage(q, messages[0]);
      } else {
        OneOfTwo(ThinkingOf(q), Drain, Drain);
      }
      ThinkingOfMessages(q, messages[1..]);
      MessageNotDoomed(q, messages[0]);
      ThenFuture(ThinkingOf(q), ConsumeMessage(q, messages[0]), ConsumeMessages(q, messages[1..]));
    }
  }

  /** Two gathered tasks of which the other is silent, in either order. */
  lemma OneOfTwo(channel: Channel, user: Process, other: Process)
    requires Single(channel, user) && Silent(channel, other) && !Doomed(user) && !Doomed(other)
    ensures Single(channel, All([user, other])) && Single(channel, All([other, user]))
    ensures Future(channel, All([user, other])) == Future(channel, user) == Future(channel, All([other, user]))
    ensures !Doomed(All([user, other])) && !Doomed(All([other, user]))
  {
    SilentIsSingle(channel, other);
    OnlyTask(channel, All([user, other]), 0, 0);
    OnlyTask(channel, All([other, user]), 1, 0);
  }

  /** The subagents and the drain do not use a channel of the run itself. */
  lemma OwnSubagents(channel: Channel, q: Path, run: AgentRun)
    requires Owned(channel, q)
    ensures Silent(channel, ConsumeSubagents(q, run, 0)) && Single(channel, ConsumeSubagents(q, run, 0))
  {
    ElsewhereSilent(channel, q, q, run, 0);
    SilentIsSingle(channel, ConsumeSubagents(q, run, 0));
  }

  /** Four gathered tasks of which only the first, or only the second, may use the channel. */
  lemma FirstOfFour(channel: Channel, first: Process, second: Process, third: Process)
    requires Single(channel, first) && Silent(channel, second) && Silent(channel, third) && Single(channel, second) && Single(channel, third)
    ensures Future(channel, All([first, second, third, Drain])) == Future(channel, first)
    ensures Single(channel, All([first, second, third, Drain]))
  {
    OnlyTask(channel, All([first, second, third, Drain]), 0, 0);
  }

  lemma SecondOfFour(channel: Channel, first: Process, second: Process, third: Process)
    requires Silent(channel, first) && Single(channel, second) && Silent(channel, third) && Single(channel, first) && Single(channel, third)
    ensures Future(channel, All([first, second, third, Drain])) == Future(channel, second)
    ensures Single(channel, All([first, second, third, Drain]))
  {
    OnlyTask(channel, All([first, second, third, Drain]), 1, 0);
  }

  lemma UsedByMessages(channel: Channel, q: Path, run: AgentRun)
    requires Owned(channel, q) && Silent(channel, Puts(ToolsEvents(q, run.tools))) && Single(channel, ConsumeMessages(q, run.messages))
    ensures Single(channel, Consume(q, run)) && Future(channel, Consume(q, run)) == Future(channel, ConsumeMessages(q, run.messages))
  {
    OwnSubagents(channel, q, run);
    SilentIsSingle(channel, Puts(ToolsEvents(q, run.tools)));
    FirstOfFour(channel, ConsumeMessages(q, run.messages), Puts(ToolsEvents(q, run.tools)), ConsumeSubagents(q, run, 0));
  }

  lemma UsedByTools(channel: Channel, q: Path, run: AgentRun)
    requires Owned(channel, q) && Silent(channel, ConsumeMessages(q, run.messages))
    ensures Single(channel, Consume(q, run)) && Future(channel, Consume(q, run)) == Select(channel, ToolsEvents(q, run.tools))
  {
    OwnSubagents(channel, q, run);
    SilentIsSingle(channel, ConsumeMessages(q, run.messages));
    PutsMeans(channel, ToolsEvents(q, run.tools));
    SecondOfFour(channel, ConsumeMessages(q, run.messages), Puts(ToolsEvents(q, run.tools)), ConsumeSubagents(q, run, 0));
  }

  lemma RunText(q: Path, run: AgentRun)
    ensures Single(TextOf(q), Consume(q, run)) && Future(TextOf(q), Consume(q, run)) == Texts(q, run.messages)
  {
    ToolsEventsAre(q, run.tools);
    SelectNone(TextOf(q), ToolsEvents(q, run.tools));
    PutsMeans(TextOf(q), ToolsEvents(q, run.tools));
    TextOfMessages(q, run.messages);
    UsedByMessages(TextOf(q), q, run);
  }

  lemma RunThinking(q: Path, run: AgentRun)
    ensures Single(ThinkingOf(q), Consume(q, run)) && Future(ThinkingOf(q), Consume(q, run)) == Thinking(q, run.messages)
  {
    ToolsEventsAre(q, run.tools);
    SelectNone(ThinkingOf(q), ToolsEvents(q, run.tools));
    PutsMeans(ThinkingOf(q), ToolsEvents(q, run.tools));
    ThinkingOfMessages(q, run.messages);
    UsedByMessages(ThinkingOf(q), q, run);
  }

  lemma RunTools(q: Path, run: AgentRun)
    ensures Single(ToolsOf(q), Consume(q, run)) && Future(ToolsOf(q), Consume(q, run)) == ToolsEvents(q, run.tools)
  {
    ToolsEventsAre(q, run.tools);
    SelectAll(ToolsOf(q), ToolsEvents(q, run.tools));
    DeafMessages(ToolsOf(q), q, run.messages);
    UsedByTools(ToolsOf(q), q, run);
  }
}
