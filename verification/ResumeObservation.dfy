/**
 Observing whether a resume was consumed: the resume vectors of the planned tasks are
 compared with the plan, and the checkpoints after each paused one are walked along their
 parent links. Digests are modelled by the value digested.
 */
module ResumeObservation {
  import opened Wrappers

  type Id = nat

  type Json = nat

  datatype Data = Vector(values: seq<Json>) | OtherData

  datatype Channel = Resume | Error | OtherChannel

  datatype Write = Write(task: Id, channel: Channel, data: Data)

  /** The run, generation, command and attempt a checkpoint was written for. */
  datatype Attribution = Attribution(run: Id, generation: nat, command: Id, attempt: Id)

  datatype Checkpoint = Checkpoint(
    id: Id, parent: Option<Id>, attribution: Option<Attribution>, writes: seq<Write>,
    taskErrors: bool, taskIds: seq<Id>, interruptIds: seq<Id>)

  datatype TaskPlan = TaskPlan(task: Id, preLength: nat, pre: seq<Json>, appended: seq<Json>)

  /** One paused checkpoint: its writes now, its planned tasks, and the stored checkpoints of its namespace. */
  datatype Group = Group(checkpoint: Id, writes: seq<Write>, tasks: seq<TaskPlan>, stored: seq<Checkpoint>)

  datatype ObserveError = AmbiguousVector | CyclicAncestry

  const MAX_CANDIDATES: nat := 256

  // ----- resume vectors ------------------------------------------------------------------

  function Vectors(writes: seq<Write>, task: Id): seq<Data> {
    if writes == [] then []
    else (if writes[0].task == task && writes[0].channel == Resume then [writes[0].data] else []) + Vectors(writes[1..], task)
  }

  /** The one resume vector of a task; a task without one has the empty vector. */
  function ResumeVector(writes: seq<Write>, task: Id): Result<seq<Json>, ObserveError> {
    var vectors := Vectors(writes, task);
    if vectors == [] then Ok([])
    else if |vectors| != 1 || !vectors[0].Vector? then Err(AmbiguousVector)
    else Ok(vectors[0].values)
  }

  /** What is planned for a task whose vector is `pre` and that is resumed with `value`. */
  function PlanFor(task: Id, pre: seq<Json>, value: Json): TaskPlan {
    TaskPlan(task, |pre|, pre, pre + [value])
  }

  predicate HasError(writes: seq<Write>, task: Id) {
    exists i :: 0 <= i < |writes| && writes[i].task == task && writes[i].channel == Error
  }

  /** The checks on one task's vector. */
  predicate TaskConsumed(writes: seq<Write>, plan: TaskPlan, vector: seq<Json>) {
    && !HasError(writes, plan.task)
    && |vector| == plan.preLength + 1
    && vector[..plan.preLength] == plan.pre
    && vector == plan.appended
  }

  // ----- the walk ---------------------------------------------------------------------------

  /** The candidates whose parent is `id`, in the order read. */
  function Children(candidates: seq<Checkpoint>, id: Id): seq<Checkpoint> {
    if candidates == [] then []
    else (if candidates[0].parent == Some(id) then [candidates[0]] else []) + Children(candidates[1..], id)
  }

  lemma {:induction false} ChildrenAre(candidates: seq<Checkpoint>, id: Id, c: Checkpoint)
    ensures c in Children(candidates, id) <==> c in candidates && c.parent == Some(id)
  {
    if candidates != [] {
      ChildrenAre(candidates[1..], id, c);
      assert c in candidates <==> c == candidates[0] || c in candidates[1..];
    }
  }

  /** The checkpoint reached after `n` steps of a path from `start`. */
  function NodeOf(start: Id, path: seq<Checkpoint>, n: nat): Id
    requires n <= |path|
  {
    if n == 0 then start else path[n - 1].id
  }

  /** The `i`-th checkpoint of the path is the only child of the one before, and written by the observed attempt. */
  predicate Link(candidates: seq<Checkpoint>, mark: Attribution, start: Id, path: seq<Checkpoint>, i: nat)
    requires i < |path|
  {
    Children(candidates, NodeOf(start, path, i)) == [path[i]] && path[i].attribution == Some(mark)
  }

  ghost predicate Unbranched(candidates: seq<Checkpoint>, mark: Attribution, start: Id, path: seq<Checkpoint>) {
    forall i | 0 <= i < |path| :: Link(candidates, mark, start, path, i)
  }

  ghost predicate Simple(start: Id, path: seq<Checkpoint>) {
    forall i, j | 0 <= i < j <= |path| :: NodeOf(start, path, i) != NodeOf(start, path, j)
  }

  /** Why the walk stops after `path`. */
  datatype End = Leaf | Branched | Unattributed | Cycle

  ghost predicate StopsAt(candidates: seq<Checkpoint>, mark: Attribution, start: Id, path: seq<Checkpoint>, end: End) {
    var children := Children(candidates, NodeOf(start, path, |path|));
    match end
    case Leaf => children == []
    case Branched => |children| > 1
    case Unattributed => |children| == 1 && children[0].attribution != Some(mark)
    case Cycle =>
      && |children| == 1 && children[0].attribution == Some(mark)
      && exists i :: 0 <= i <= |path| && NodeOf(start, path, i) == children[0].id
  }

  ghost predicate IsWalk(candidates: seq<Checkpoint>, mark: Attribution, start: Id, path: seq<Checkpoint>, end: End) {
    Unbranched(candidates, mark, start, path) && Simple(start, path) && StopsAt(candidates, mark, start, path, end)
  }

  predicate Faulty(c: Checkpoint) {
    c.taskErrors || exists i :: 0 <= i < |c.writes| && c.writes[i].channel == Error
  }

  function Ids(start: Id, candidates: seq<Checkpoint>): set<Id> {
    {start} + set i | 0 <= i < |candidates| :: candidates[i].id
  }

  /** Groups the candidates by parent. */
  method ByParent(candidates: seq<Checkpoint>) returns (children: map<Id, seq<Checkpoint>>)
    ensures forall id :: id in children <==> Children(candidates, id) != []
    ensures forall id | id in children :: children[id] == Children(candidates, id)
  {
    children := map[];
    var i := |candidates|;
    while i > 0
      invariant 0 <= i <= |candidates|
      invariant forall id :: id in children <==> Children(candidates[i..], id) != []
      invariant forall id | id in children :: children[id] == Children(candidates[i..], id)
    {
      i := i - 1;
      var c := candidates[i];
      assert candidates[i..][0] == c && candidates[i..][1..] == candidates[i + 1..];
      if c.parent.Some? {
        var parent := c.parent.value;
        children := children[parent := [c] + (if parent in children then children[parent] else [])];
      }
    }
    assert candidates[0..] == candidates;
  }

  function Visited(start: Id, path: seq<Checkpoint>): (r: set<Id>)
    ensures forall id :: id in r <==> exists i :: 0 <= i <= |path| && NodeOf(start, path, i) == id
  {
    set i | 0 <= i <= |path| :: NodeOf(start, path, i)
  }

  lemma OneFurther(candidates: seq<Checkpoint>, mark: Attribution, start: Id, path: seq<Checkpoint>, c: Checkpoint)
    requires Unbranched(candidates, mark, start, path) && Simple(start, path) && c.id !in Visited(start, path)
    requires Children(candidates, NodeOf(start, path, |path|)) == [c] && c.attribution == Some(mark)
    ensures Unbranched(candidates, mark, start, path + [c]) && Simple(start, path + [c])
    ensures Visited(start, path + [c]) == Visited(start, path) + {c.id}
  {
    var longer := path + [c];
    LongerNodes(start, path, c);
    forall i | 0 <= i < |longer|
      ensures Link(candidates, mark, start, longer, i)
    {
      if i < |path| {
        assert Link(candidates, mark, start, path, i);
        assert longer[i] == path[i];
      }
    }
  }

  lemma LongerNodes(start: Id, path: seq<Checkpoint>, c: Checkpoint)
    ensures forall i | 0 <= i <= |path| :: NodeOf(start, path + [c], i) == NodeOf(start, path, i)
    ensures NodeOf(start, path + [c], |path| + 1) == c.id
  {
  }

  /** Follows the only children from `start` on; the walk always ends. */
  method Walk(candidates: seq<Checkpoint>, mark: Attribution, start: Id) returns (path: seq<Checkpoint>, end: End, faulty: bool)
    ensures IsWalk(candidates, mark, start, path, end)
    ensures faulty <==> exists c :: c in path && Faulty(c)
  {
    var children := ByParent(candidates);
    path, faulty := [], false;
    var cursor := start;
    var seen := {start};
    while cursor in children
      invariant cursor == NodeOf(start, path, |path|)
      invariant Unbranched(candidates, mark, start, path) && Simple(start, path)
      invariant seen == Visited(start, path) && seen <= Ids(start, candidates)
      invariant faulty <==> exists c :: c in path && Faulty(c)
      decreases Ids(start, candidates) - seen
    {
      var branches := children[cursor];
      if |branches| != 1 {
        return path, Branched, faulty;
      }
      var candidate := branches[0];
      if candidate.attribution != Some(mark) {
        return path, Unattributed, faulty;
      }
      ChildrenAre(candidates, cursor, candidate);
      if candidate.id in seen {
        return path, Cycle, faulty;
      }
      OneFurther(candidates, mark, start, path, candidate);
      path, cursor, seen := path + [candidate], candidate.id, seen + {candidate.id};
      faulty := faulty || Faulty(candidate);
    }
    return path, Leaf, faulty;
  }

  // ----- the observation ------------------------------------------------------------------------

  /** At most one more than the limit is read. */
  function Read(stored: seq<Checkpoint>): seq<Checkpoint> {
    if |stored| <= MAX_CANDIDATES + 1 then stored else stored[..MAX_CANDIDATES + 1]
  }

  predicate Idle(path: seq<Checkpoint>) {
    path != [] && path[|path| - 1].taskIds == [] && path[|path| - 1].interruptIds == []
  }

  ghost predicate TasksReadable(g: Group) {
    forall i | 0 <= i < |g.tasks| :: ResumeVector(g.writes, g.tasks[i].task).Ok?
  }

  /** Every planned task got exactly its planned value, without an error. */
  ghost predicate TasksConsumed(g: Group) {
    forall i | 0 <= i < |g.tasks| ::
      ResumeVector(g.writes, g.tasks[i].task).Ok?
      && TaskConsumed(g.writes, g.tasks[i], ResumeVector(g.writes, g.tasks[i].task).value)
  }

  /** The descendants form one attributed, error-free chain that ends idle, or at a new pause. */
  ghost predicate ChainConsumed(g: Group, mark: Attribution, paused: bool) {
    && |g.stored| <= MAX_CANDIDATES
    && exists path :: IsWalk(g.stored, mark, g.checkpoint, path, Leaf) && (forall c | c in path :: !Faulty(c)) && (paused || Idle(path))
  }

  ghost predicate Cyclic(g: Group, mark: Attribution) {
    exists path :: IsWalk(Read(g.stored), mark, g.checkpoint, path, Cycle)
  }

  ghost predicate GroupReadable(g: Group, mark: Attribution) {
    TasksReadable(g) && !Cyclic(g, mark)
  }

  ghost predicate GroupConsumed(g: Group, mark: Attribution, paused: bool) {
    TasksConsumed(g) && ChainConsumed(g, mark, paused)
  }

  /** The task part of one group. */
  method ObserveTasks(g: Group) returns (r: Result<bool, ObserveError>)
    ensures r.Ok? <==> TasksReadable(g)
    ensures r.Ok? ==> (r.value <==> TasksConsumed(g))
    ensures r.Err? ==> r.error == AmbiguousVector
  {
    var complete := true;
    var i := 0;
    while i < |g.tasks|
      invariant 0 <= i <= |g.tasks|
      invariant forall j | 0 <= j < i :: ResumeVector(g.writes, g.tasks[j].task).Ok?
      invariant complete <==> forall j | 0 <= j < i ::
        TaskConsumed(g.writes, g.tasks[j], ResumeVector(g.writes, g.tasks[j].task).value)
    {
      var vector := ResumeVector(g.writes, g.tasks[i].task);
      if vector.Err? {
        return Err(vector.error);
      }
      complete := complete && TaskConsumed(g.writes, g.tasks[i], vector.value);
      i := i + 1;
    }
    return Ok(complete);
  }

  // ----- the walk is determined by its input -----------------------------------------------------

  lemma SameNodes(start: Id, a: seq<Checkpoint>, b: seq<Checkpoint>, n: nat)
    requires n <= |a| && n <= |b| && a[..n] == b[..n]
    ensures forall i | 0 <= i <= n :: NodeOf(start, a, i) == NodeOf(start, b, i)
  {
    forall i | 0 <= i <= n
      ensures NodeOf(start, a, i) == NodeOf(start, b, i)
    {
      if i > 0 {
        assert a[i - 1] == a[..n][i - 1] == b[..n][i - 1] == b[i - 1];
      }
    }
  }

  /** Of two unbranched paths from the same start, one continues the other. */
  lemma {:induction false} PathsAgree(candidates: seq<Checkpoint>, mark: Attribution, start: Id, a: seq<Checkpoint>, b: seq<Checkpoint>, n: nat)
    requires Unbranched(candidates, mark, start, a) && Unbranched(candidates, mark, start, b) && n <= |a| && n <= |b|
    ensures a[..n] == b[..n]
    decreases n
  {
    if n > 0 {
      PathsAgree(candidates, mark, start, a, b, n - 1);
      assert a[..n - 1] == b[..n - 1];
      SameNodes(start, a, b, n - 1);
      assert Link(candidates, mark, start, a, n - 1) && Link(candidates, mark, start, b, n - 1);
      assert [a[n - 1]] == [b[n - 1]];
    }
  }

  /** Where a longer simple path goes on, the shorter one could too. */
  lemma GoesOn(candidates: seq<Checkpoint>, mark: Attribution, start: Id, a: seq<Checkpoint>, b: seq<Checkpoint>)
    requires Unbranched(candidates, mark, start, a) && Unbranched(candidates, mark, start, b) && Simple(start, b) && |a| < |b|
    ensures Children(candidates, NodeOf(start, a, |a|)) == [b[|a|]] && b[|a|].attribution == Some(mark)
    ensures forall i | 0 <= i <= |a| :: NodeOf(start, a, i) != b[|a|].id
  {
    PathsAgree(candidates, mark, start, a, b, |a|);
    SameNodes(start, a, b, |a|);
    assert Link(candidates, mark, start, b, |a|);
    assert NodeOf(start, b, |a| + 1) == b[|a|].id;
    forall i | 0 <= i <= |a|
      ensures NodeOf(start, a, i) != b[|a|].id
    {
      assert NodeOf(start, b, i) != NodeOf(start, b, |a| + 1);
    }
  }

  /** A walk that stopped cannot be continued by a simple path. */
  lemma StoppedCannotContinue(candidates: seq<Checkpoint>, mark: Attribution, start: Id, a: seq<Checkpoint>, end: End, b: seq<Checkpoint>)
    requires IsWalk(candidates, mark, start, a, end) && Unbranched(candidates, mark, start, b) && Simple(start, b)
    ensures |b| <= |a|
  {
    if |b| > |a| {
      GoesOn(candidates, mark, start, a, b);
    }
  }

  /** There is one walk: the same path and the same reason to stop, however it is found. */
  lemma WalkIsUnique(candidates: seq<Checkpoint>, mark: Attribution, start: Id, a: seq<Checkpoint>, ea: End, b: seq<Checkpoint>, eb: End)
    requires IsWalk(candidates, mark, start, a, ea) && IsWalk(candidates, mark, start, b, eb)
    ensures a == b && ea == eb
  {
    StoppedCannotContinue(candidates, mark, start, a, ea, b);
    StoppedCannotContinue(candidates, mark, start, b, eb, a);
    PathsAgree(candidates, mark, start, a, b, |a|);
    assert a[..|a|] == a && b[..|b|] == b;
  }

  /** One group: vectors first, then the walk. */
  method ObserveGroup(g: Group, mark: Attribution, paused: bool) returns (r: Result<bool, ObserveError>)
    ensures r.Ok? <==> GroupReadable(g, mark)
    ensures r.Ok? ==> (r.value <==> GroupConsumed(g, mark, paused))
    ensures r.Err? ==> r.error == if TasksReadable(g) then CyclicAncestry else AmbiguousVector
  {
    var complete :- ObserveTasks(g);
    var candidates := Read(g.stored);
    if |candidates| > MAX_CANDIDATES {
      complete := false;
    }
    var path, end, faulty := Walk(candidates, mark, g.checkpoint);
    WalkDecides(g, mark, paused, path, end);
    if end == Cycle {
      return Err(CyclicAncestry);
    }
    if end != Leaf || faulty {
      complete := false;
    }
    if !paused && !Idle(path) {
      complete := false;
    }
    return Ok(complete);
  }

  /** What the one walk says about the group. */
  lemma WalkDecides(g: Group, mark: Attribution, paused: bool, path: seq<Checkpoint>, end: End)
    requires IsWalk(Read(g.stored), mark, g.checkpoint, path, end)
    ensures Cyclic(g, mark) <==> end == Cycle
    ensures ChainConsumed(g, mark, paused) <==>
      |Read(g.stored)| <= MAX_CANDIDATES && end == Leaf && (forall c | c in path :: !Faulty(c)) && (paused || Idle(path))
  {
    var candidates := Read(g.stored);
    forall other, otherEnd | IsWalk(candidates, mark, g.checkpoint, other, otherEnd)
      ensures other == path && otherEnd == end
    {
      WalkIsUnique(candidates, mark, g.checkpoint, path, end, other, otherEnd);
    }
    if |g.stored| <= MAX_CANDIDATES {
      assert candidates == g.stored;
    }
  }

  /**
   The observation of a resume: it reports completion exactly when every group was
   consumed, and fails exactly when a vector is ambiguous or an ancestry is cyclic.
   */
  method Observe(groups: seq<Group>, mark: Attribution, paused: bool) returns (r: Result<bool, ObserveError>)
    ensures r.Ok? <==> forall i | 0 <= i < |groups| :: GroupReadable(groups[i], mark)
    ensures r.Ok? ==> (r.value <==> forall i | 0 <= i < |groups| :: GroupConsumed(groups[i], mark, paused))
  {
    var complete := true;
    var i := 0;
    while i < |groups|
      invariant 0 <= i <= |groups|
      invariant forall j | 0 <= j < i :: GroupReadable(groups[j], mark)
      invariant complete <==> forall j | 0 <= j < i :: GroupConsumed(groups[j], mark, paused)
    {
      var one :- ObserveGroup(groups[i], mark, paused);
      complete := complete && one;
      i := i + 1;
    }
    return Ok(complete);
  }

  // ----- what completion means ------------------------------------------------------------------

  /** A task counts as consumed exactly when its vector is the old one with the planned value appended. */
  lemma ConsumedMeansAppended(writes: seq<Write>, task: Id, pre: seq<Json>, value: Json, vector: seq<Json>)
    ensures TaskConsumed(writes, PlanFor(task, pre, value), vector) <==> !HasError(writes, task) && vector == pre + [value]
  {
  }

  predicate Descent(stored: seq<Checkpoint>, start: Id, links: seq<Checkpoint>, i: nat)
    requires i < |links|
  {
    links[i] in stored && links[i].parent == Some(NodeOf(start, links, i))
  }

  /** `links` is a line of stored descendants of `start`. */
  ghost predicate Descends(stored: seq<Checkpoint>, start: Id, links: seq<Checkpoint>) {
    forall i | 0 <= i < |links| :: Descent(stored, start, links, i)
  }

  /** A child of a node on a walk that ends at a leaf is the next one on the walk. */
  lemma NextIsOnWalk(stored: seq<Checkpoint>, mark: Attribution, start: Id, path: seq<Checkpoint>, n: nat, c: Checkpoint)
    requires IsWalk(stored, mark, start, path, Leaf) && n <= |path|
    requires c in stored && c.parent == Some(NodeOf(start, path, n))
    ensures n < |path| && c == path[n]
  {
    ChildrenAre(stored, NodeOf(start, path, n), c);
    if n < |path| {
      assert Link(stored, mark, start, path, n);
    }
  }

  /** A walk that ends at a leaf is all there is below the start: every line of descent is a part of it. */
  lemma {:induction false} LeafWalkIsEverything(stored: seq<Checkpoint>, mark: Attribution, start: Id, path: seq<Checkpoint>, links: seq<Checkpoint>, n: nat)
    requires IsWalk(stored, mark, start, path, Leaf) && Descends(stored, start, links) && n <= |links|
    ensures n <= |path| && links[..n] == path[..n]
    decreases n
  {
    if n > 0 {
      LeafWalkIsEverything(stored, mark, start, path, links, n - 1);
      SameNodes(start, links, path, n - 1);
      assert Descent(stored, start, links, n - 1);
      NextIsOnWalk(stored, mark, start, path, n - 1, links[n - 1]);
      assert links[..n] == links[..n - 1] + [links[n - 1]];
      assert path[..n] == path[..n - 1] + [path[n - 1]];
    }
  }
}
