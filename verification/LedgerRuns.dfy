/**
 Whole runs of the model-call ledger: any sequence of transactions and lease movements,
 by any callers, with a clock that does not go back.
 */
module LedgerRuns {
  import opened Wrappers
  import opened ModelCallLedger
  import opened LedgerSafety

  datatype Step =
    | DoPrepare(command: PrepareCommand)
    | DoBegin(attempt: nat, lease: Lease, request: nat)
    | DoGrant(attempt: nat, lease: Lease, request: nat, admission: nat, expected: Authorization)
    | DoDispatch(attempt: nat, lease: Lease, request: nat, admission: nat)
    | DoAppend(attempt: nat, lease: Lease, authorization: Authorization, planned: nat, evidence: Evidence)
    | DoTerminate(authority: Authority, ids: seq<nat>, events: map<nat, nat>)
    | DoRenew(lease: Lease, expires: nat)
    | DoPause(lease: Lease)
    | DoAdopt(owner: nat, expires: nat)
    | DoReclaim(owner: nat, expires: nat)

  /** A closure visits every attempt once and has an event id for each. */
  ghost predicate Enabled(s: Ledger, step: Step) {
    step.DoTerminate? ==> Visits(s, step.ids) && forall id | id in step.ids :: id in step.events
  }

  function Apply(s: Ledger, step: Step, now: nat): (Ledger, Reply)
    requires Enabled(s, step)
  {
    match step
    case DoPrepare(c) => Prepare(s, c, now)
    case DoBegin(id, lease, request) => Begin(s, id, lease, request, now)
    case DoGrant(id, lease, request, admission, expected) => Grant(s, id, lease, request, admission, expected, now)
    case DoDispatch(id, lease, request, admission) => StartDispatch(s, id, lease, request, admission, now)
    case DoAppend(id, lease, authorization, planned, e) => Append(s, id, lease, authorization, planned, e, now)
    case DoTerminate(authority, ids, events) => Terminate(s, authority, ids, events, now)
    case DoRenew(lease, expires) => (Renew(s, lease, expires, now), Ok(LeaseMoved))
    case DoPause(lease) => (Pause(s, lease, now), Ok(LeaseMoved))
    case DoAdopt(owner, expires) => (Adopt(s, owner, expires), Ok(LeaseMoved))
    case DoReclaim(owner, expires) => (Reclaim(s, owner, expires, now), Ok(LeaseMoved))
  }

  /** The invariant of every reachable state. */
  ghost predicate Inv(s: Ledger, clock: nat) {
    RowsOk(s, clock) && RestOk(s) && s.counters == Recount(s)
  }

  /** A claimed run before its first model call. */
  predicate Initial(s: Ledger) {
    s.attempts == map[] && s.evidence == map[] && !s.terminal && s.counters == Counters(0, 0, 0, 0, NoAttempts)
  }

  lemma InitialInv(s: Ledger, clock: nat)
    requires Initial(s)
    ensures Inv(s, clock)
  {
    assert DispatchedIds(s) == {} && SealedIds(s) == {} && UnknownIds(s) == {} && PartialIds(s) == {};
  }

  predicate MovesLease(step: Step) {
    step.DoRenew? || step.DoPause? || step.DoAdopt? || step.DoReclaim?
  }

  lemma LeaseMovesOnly(s: Ledger, step: Step, now: nat)
    requires MovesLease(step)
    ensures var t := Apply(s, step, now).0;
      && t.attempts == s.attempts && t.evidence == s.evidence && t.counters == s.counters
      && t.terminal == s.terminal && s.generation <= t.generation
  {
  }

  lemma LeaseMoveKeepsInv(s: Ledger, step: Step, now: nat)
    requires Inv(s, now) && MovesLease(step)
    ensures Inv(Apply(s, step, now).0, now)
  {
    var t := Apply(s, step, now).0;
    LeaseMovesOnly(s, step, now);
    SameRows(s, t, now);
    SameRest(s, t);
    SameCounters(s, t);
  }

  /** Every step keeps the invariant, and with it the cached counters equal to a full recount. */
  lemma StepKeepsInv(s: Ledger, step: Step, now: nat)
    requires Inv(s, now) && Enabled(s, step)
    ensures Inv(Apply(s, step, now).0, now)
  {
    match step
    case DoPrepare(c) => PrepareKeepsInv(s, c, now);
    case DoBegin(id, lease, request) => BeginKeepsInv(s, id, lease, request, now);
    case DoGrant(id, lease, request, admission, expected) => GrantKeepsInv(s, id, lease, request, admission, expected, now);
    case DoDispatch(id, lease, request, admission) => DispatchKeepsInv(s, id, lease, request, admission, now);
    case DoAppend(id, lease, authorization, planned, e) => AppendKeepsInv(s, id, lease, authorization, planned, e, now);
    case DoTerminate(authority, ids, events) => TerminateKeepsInv(s, authority, ids, events, now);
    case _ => LeaseMoveKeepsInv(s, step, now);
  }

  // ----- what a step may change -----------------------------------------------------------------

  /** Frozen facts stay, the authorization only advances, the dispatch instant and revisions stay. */
  ghost predicate AttemptGrows(a: Attempt, b: Attempt) {
    && b.binding == a.binding && b.planned == a.planned && b.finalRequest == a.finalRequest && b.preparedAt == a.preparedAt
    && (a.dispatchAt.Some? ==> b.dispatchAt == a.dispatchAt)
    && (a.authorization.Granted? ==> b.authorization == a.authorization)
    && (a.authorization.Requested? ==>
          (b.authorization.Requested? || b.authorization.Granted?) && b.authorization.request == a.authorization.request)
    && a.latestRevision <= b.latestRevision
  }

  ghost predicate Grows(s: Ledger, t: Ledger) {
    && (forall id | id in s.attempts :: id in t.attempts && AttemptGrows(s.attempts[id], t.attempts[id]))
    && (forall key | key in s.evidence :: key in t.evidence && t.evidence[key] == s.evidence[key])
    && s.generation <= t.generation
    && (s.terminal ==> t.terminal && t.attempts == s.attempts && t.evidence == s.evidence && t.counters == s.counters)
  }

  lemma GrowsTransitive(s: Ledger, mid: Ledger, t: Ledger)
    requires Grows(s, mid) && Grows(mid, t)
    ensures Grows(s, t)
  {
    forall id | id in s.attempts
      ensures id in t.attempts && AttemptGrows(s.attempts[id], t.attempts[id])
    {
      assert AttemptGrows(s.attempts[id], mid.attempts[id]) && AttemptGrows(mid.attempts[id], t.attempts[id]);
    }
  }

  lemma HeadGrows(s: Ledger, id: nat, e: Evidence, now: nat)
    requires RowsOk(s, now) && !s.terminal && id in s.attempts && e.revision == s.attempts[id].latestRevision + 1
    ensures Grows(s, Recounted(WithHead(s, id, e, StatusOf(e.outcome))))
  {
    assert AttemptOk(s.evidence, id, s.attempts[id], now);
    assert (id, e.revision) !in s.evidence;
  }

  lemma AppendGrows(s: Ledger, id: nat, lease: Lease, authorization: Authorization, planned: nat, e: Evidence, now: nat)
    requires RowsOk(s, now)
    ensures Grows(s, Append(s, id, lease, authorization, planned, e, now).0)
  {
    var t := Append(s, id, lease, authorization, planned, e, now).0;
    AppendCases(s, id, lease, authorization, planned, e, now, t);
    if t != s {
      HeadGrows(s, id, e, now);
    }
  }

  lemma SealingGrows(s: Ledger, closed: Ledger, ids: set<nat>, authority: Authority)
    requires Sealing(s, closed, ids) && !s.terminal
    ensures Grows(s, Ended(Recounted(closed), authority))
  {
    var t := Ended(Recounted(closed), authority);
    forall id | id in s.attempts
      ensures id in t.attempts && AttemptGrows(s.attempts[id], t.attempts[id])
    {
      assert t.attempts[id] == closed.attempts[id];
    }
  }

  lemma TerminateGrows(s: Ledger, authority: Authority, ids: seq<nat>, events: map<nat, nat>, now: nat)
    requires Inv(s, now) && Visits(s, ids) && forall id | id in ids :: id in events
    ensures Grows(s, Terminate(s, authority, ids, events, now).0)
  {
    TerminateUnchanged(s, authority, ids, events, now);
    if !s.terminal && Terminate(s, authority, ids, events, now).1.Ok? {
      var closed := TerminateResult(s, authority, ids, events, now);
      SealingGrows(s, closed, Members(ids), authority);
    }
  }

  lemma PutGrows(s: Ledger, id: nat, b: Attempt)
    requires !s.terminal && (id in s.attempts ==> AttemptGrows(s.attempts[id], b))
    ensures Grows(s, PutAttempt(s, id, b)) && Grows(s, Recounted(PutAttempt(s, id, b)))
  {
  }

  lemma PrepareGrows(s: Ledger, c: PrepareCommand, now: nat)
    ensures Grows(s, Prepare(s, c, now).0)
  {
    var t := Prepare(s, c, now).0;
    if t != s {
      PutGrows(s, c.attempt, t.attempts[c.attempt]);
    }
  }

  lemma BeginGrows(s: Ledger, id: nat, lease: Lease, request: nat, now: nat)
    requires RowsOk(s, now)
    ensures Grows(s, Begin(s, id, lease, request, now).0)
  {
    var t := Begin(s, id, lease, request, now).0;
    if t != s {
      PutGrows(s, id, t.attempts[id]);
    }
  }

  lemma GrantGrows(s: Ledger, id: nat, lease: Lease, request: nat, admission: nat, expected: Authorization, now: nat)
    ensures Grows(s, Grant(s, id, lease, request, admission, expected, now).0)
  {
    var t := Grant(s, id, lease, request, admission, expected, now).0;
    if t != s {
      PutGrows(s, id, t.attempts[id]);
    }
  }

  lemma DispatchGrows(s: Ledger, id: nat, lease: Lease, request: nat, admission: nat, now: nat)
    requires RowsOk(s, now)
    ensures Grows(s, StartDispatch(s, id, lease, request, admission, now).0)
  {
    var t := StartDispatch(s, id, lease, request, admission, now).0;
    if t != s {
      assert AttemptOk(s.evidence, id, s.attempts[id], now);
      PutGrows(s, id, t.attempts[id]);
    }
  }

  /** Every step only adds: no attempt fact and no evidence row is lost, and a terminal ledger is frozen. */
  lemma StepGrows(s: Ledger, step: Step, now: nat)
    requires Inv(s, now) && Enabled(s, step)
    ensures Grows(s, Apply(s, step, now).0)
  {
    match step
    case DoPrepare(c) => PrepareGrows(s, c, now);
    case DoBegin(id, lease, request) => BeginGrows(s, id, lease, request, now);
    case DoGrant(id, lease, request, admission, expected) => GrantGrows(s, id, lease, request, admission, expected, now);
    case DoDispatch(id, lease, request, admission) => DispatchGrows(s, id, lease, request, admission, now);
    case DoAppend(id, lease, authorization, planned, e) => AppendGrows(s, id, lease, authorization, planned, e, now);
    case DoTerminate(authority, ids, events) => TerminateGrows(s, authority, ids, events, now);
    case _ => LeaseMovesOnly(s, step, now);
  }

  /** The lease a step acts under, if it acts under one. */
  function Actor(step: Step): Option<Lease> {
    match step
    case DoBegin(_, lease, _) => Some(lease)
    case DoGrant(_, lease, _, _, _) => Some(lease)
    case DoDispatch(_, lease, _, _) => Some(lease)
    case DoAppend(_, lease, _, _, _) => Some(lease)
    case _ => None
  }

  /**
   Outside the terminal closure, an attempt row changes only under the lease that
   prepared it, while that lease is still the run's live lease.
   */
  lemma OnlyThePreparingLeaseAdvances(s: Ledger, step: Step, now: nat, id: nat)
    requires Enabled(s, step) && !step.DoTerminate? && id in s.attempts
    requires Apply(s, step, now).0.attempts[id] != s.attempts[id]
    ensures Actor(step) == Some(s.attempts[id].binding.lease)
    ensures Fenced(s, s.attempts[id].binding.lease, now)
  {
  }

  // ----- runs -------------------------------------------------------------------------------------

  /** `states[i+1]` is what `steps[i]`, taken at `clock[i]`, makes of `states[i]`. */
  datatype Run = Run(states: seq<Ledger>, steps: seq<Step>, clock: seq<nat>)

  ghost predicate ValidRun(run: Run) {
    && |run.states| == |run.steps| + 1 && |run.clock| == |run.steps|
    && Initial(run.states[0])
    && (forall i, j | 0 <= i < j < |run.clock| :: run.clock[i] <= run.clock[j])
    && forall i | 0 <= i < |run.steps| :: Stepped(run, i)
  }

  ghost predicate Stepped(run: Run, i: nat)
    requires i < |run.steps| < |run.states| && |run.clock| == |run.steps|
  {
    Enabled(run.states[i], run.steps[i]) && run.states[i + 1] == Apply(run.states[i], run.steps[i], run.clock[i]).0
  }

  function OutcomeAt(run: Run, i: nat): Reply
    requires i < |run.steps| < |run.states| && |run.clock| == |run.steps| && Enabled(run.states[i], run.steps[i])
  {
    Apply(run.states[i], run.steps[i], run.clock[i]).1
  }

  /** Every state of every run satisfies the invariant, as of any later clock reading. */
  lemma {:induction false} RunKeepsInv(run: Run, i: nat, now: nat)
    requires ValidRun(run) && i < |run.states| && (i > 0 ==> run.clock[i - 1] <= now)
    ensures Inv(run.states[i], now)
  {
    if i == 0 {
      InitialInv(run.states[0], now);
    } else {
      var before := run.clock[i - 1];
      RunKeepsInv(run, i - 1, before);
      assert Stepped(run, i - 1);
      StepKeepsInv(run.states[i - 1], run.steps[i - 1], before);
      TimePasses(run.states[i], before, now);
    }
  }

  // ----- reachable states -------------------------------------------------------------------------

  ghost predicate EndsAt(run: Run, s: Ledger, clock: nat) {
    && run.states != [] && run.states[|run.states| - 1] == s
    && forall i | 0 <= i < |run.clock| :: run.clock[i] <= clock
  }

  /** Some run ends in this state, with no step later than the clock reading. */
  ghost predicate Reached(s: Ledger, clock: nat) {
    exists run: Run :: ValidRun(run) && EndsAt(run, s, clock)
  }

  lemma StartReached(s: Ledger, clock: nat)
    requires Initial(s)
    ensures Reached(s, clock)
  {
    var run := Run([s], [], []);
    assert ValidRun(run) && EndsAt(run, s, clock);
  }

  lemma StepReached(s: Ledger, step: Step, now: nat)
    requires Enabled(s, step)
    ensures Reached(s, now) ==> Reached(Apply(s, step, now).0, now)
  {
    if Reached(s, now) {
      var run: Run :| ValidRun(run) && EndsAt(run, s, now);
      var t := Apply(s, step, now).0;
      var longer := Run(run.states + [t], run.steps + [step], run.clock + [now]);
      forall i | 0 <= i < |longer.steps|
        ensures Stepped(longer, i)
      {
        assert i < |run.steps| ==> Stepped(run, i);
      }
      assert ValidRun(longer) && EndsAt(longer, t, now);
    }
  }

  /** A reached state satisfies the invariant, and stays reached as the clock goes on. */
  lemma ReachedKeepsInv(s: Ledger, before: nat, clock: nat)
    requires Reached(s, before) && before <= clock
    ensures Inv(s, clock) && Reached(s, clock)
  {
    var run: Run :| ValidRun(run) && EndsAt(run, s, before);
    RunKeepsInv(run, |run.states| - 1, clock);
    assert EndsAt(run, s, clock);
  }

  lemma {:induction false} RunGrows(run: Run, i: nat, j: nat)
    requires ValidRun(run) && i <= j < |run.states|
    ensures Grows(run.states[i], run.states[j])
    decreases j
  {
    if i < j {
      RunGrows(run, i, j - 1);
      assert Stepped(run, j - 1);
      RunKeepsInv(run, j - 1, run.clock[j - 1]);
      StepGrows(run.states[j - 1], run.steps[j - 1], run.clock[j - 1]);
      GrowsTransitive(run.states[i], run.states[j - 1], run.states[j]);
    }
  }

  /** A permit reports the dispatch instant the attempt then has, and is new only if it had none. */
  lemma PermitMeaning(s: Ledger, id: nat, lease: Lease, request: nat, admission: nat, now: nat, t: Ledger, at: nat, isNew: bool)
    requires RowsOk(s, now) && StartDispatch(s, id, lease, request, admission, now) == (t, Ok(Permit(at, isNew)))
    ensures id in s.attempts && id in t.attempts && t.attempts[id].dispatchAt == Some(at)
    ensures isNew <==> s.attempts[id].dispatchAt.None?
    ensures !isNew ==> s.attempts[id].dispatchAt == Some(at)
    ensures s.attempts[id].authorization == Granted(request, admission) && s.attempts[id].binding.lease == lease
  {
    assert AttemptOk(s.evidence, id, s.attempts[id], now);
  }

  /** Step `i` dispatches attempt `id`, with the given permit. */
  ghost predicate Dispatches(run: Run, i: nat, id: nat, at: nat, isNew: bool)
    requires ValidRun(run) && i < |run.steps|
  {
    var step := run.steps[i];
    && step.DoDispatch? && step.attempt == id
    && StartDispatch(run.states[i], id, step.lease, step.request, step.admission, run.clock[i])
       == (run.states[i + 1], Ok(Permit(at, isNew)))
  }

  /** That is what the run's step does. */
  lemma DispatchIsStep(run: Run, i: nat)
    requires ValidRun(run) && i < |run.steps| && run.steps[i].DoDispatch?
    ensures var step := run.steps[i];
      StartDispatch(run.states[i], step.attempt, step.lease, step.request, step.admission, run.clock[i])
      == (run.states[i + 1], OutcomeAt(run, i))
  {
    assert Stepped(run, i);
  }

  /**
   In a whole run at most one dispatch of an attempt is reported as newly started, and
   every later report names the same instant.
   */
  lemma DispatchedOnce(run: Run, i: nat, j: nat, id: nat, at: nat, isNew: bool, later: nat, again: bool)
    requires ValidRun(run) && i < j < |run.steps|
    requires Dispatches(run, i, id, at, isNew) && Dispatches(run, j, id, later, again)
    ensures !again && later == at
  {
    AfterDispatch(run, i, id, at, isNew);
    RunGrows(run, i + 1, j);
    assert AttemptGrows(run.states[i + 1].attempts[id], run.states[j].attempts[id]);
    AfterDispatch(run, j, id, later, again);
  }

  lemma AfterDispatch(run: Run, i: nat, id: nat, at: nat, isNew: bool)
    requires ValidRun(run) && i < |run.steps| && Dispatches(run, i, id, at, isNew)
    ensures var (s, t) := (run.states[i], run.states[i + 1]);
      && id in s.attempts && id in t.attempts
      && t.attempts[id].dispatchAt == Some(at)
      && (isNew <==> s.attempts[id].dispatchAt.None?)
      && (!isNew ==> s.attempts[id].dispatchAt == Some(at))
      && s.attempts[id].authorization == Granted(run.steps[i].request, run.steps[i].admission)
  {
    RunKeepsInv(run, i, run.clock[i]);
    var step := run.steps[i];
    PermitMeaning(run.states[i], id, step.lease, step.request, step.admission, run.clock[i], run.states[i + 1], at, isNew);
  }

  ghost predicate NoNewGrants(s: Ledger, t: Ledger) {
    forall id | id in t.attempts && t.attempts[id].authorization.Granted? ::
      id in s.attempts && t.attempts[id].authorization == s.attempts[id].authorization
  }

  lemma PrepareGrantsNothing(s: Ledger, c: PrepareCommand, now: nat)
    ensures NoNewGrants(s, Prepare(s, c, now).0)
  {
  }

  lemma BeginGrantsNothing(s: Ledger, id: nat, lease: Lease, request: nat, now: nat)
    ensures NoNewGrants(s, Begin(s, id, lease, request, now).0)
  {
  }

  lemma DispatchGrantsNothing(s: Ledger, id: nat, lease: Lease, request: nat, admission: nat, now: nat)
    ensures NoNewGrants(s, StartDispatch(s, id, lease, request, admission, now).0)
  {
  }

  lemma AppendGrantsNothing(s: Ledger, id: nat, lease: Lease, authorization: Authorization, planned: nat, e: Evidence, now: nat)
    ensures NoNewGrants(s, Append(s, id, lease, authorization, planned, e, now).0)
  {
    AppendCases(s, id, lease, authorization, planned, e, now, Append(s, id, lease, authorization, planned, e, now).0);
  }

  lemma SealingGrantsNothing(s: Ledger, closed: Ledger, ids: set<nat>, authority: Authority)
    requires Sealing(s, closed, ids)
    ensures NoNewGrants(s, Ended(Recounted(closed), authority))
  {
  }

  lemma TerminateGrantsNothing(s: Ledger, authority: Authority, ids: seq<nat>, events: map<nat, nat>, now: nat)
    requires Inv(s, now) && Visits(s, ids) && forall id | id in ids :: id in events
    ensures NoNewGrants(s, Terminate(s, authority, ids, events, now).0)
  {
    TerminateUnchanged(s, authority, ids, events, now);
    if !s.terminal && Terminate(s, authority, ids, events, now).1.Ok? {
      var closed := TerminateResult(s, authority, ids, events, now);
      SealingGrantsNothing(s, closed, Members(ids), authority);
    }
  }

  /** Only a grant makes an authorization granted. */
  lemma OthersGrantNothing(s: Ledger, step: Step, now: nat)
    requires Inv(s, now) && Enabled(s, step) && !step.DoGrant?
    ensures NoNewGrants(s, Apply(s, step, now).0)
  {
    match step
    case DoPrepare(c) => PrepareGrantsNothing(s, c, now);
    case DoBegin(id, lease, request) => BeginGrantsNothing(s, id, lease, request, now);
    case DoDispatch(id, lease, request, admission) => DispatchGrantsNothing(s, id, lease, request, admission, now);
    case DoAppend(id, lease, authorization, planned, e) => AppendGrantsNothing(s, id, lease, authorization, planned, e, now);
    case DoTerminate(authority, ids, events) => TerminateGrantsNothing(s, authority, ids, events, now);
    case _ => LeaseMovesOnly(s, step, now);
  }

  /** A newly granted authorization is the one the grant names, given under the preparing lease. */
  lemma GrantMeaning(s: Ledger, step: Step, now: nat, t: Ledger, id: nat)
    requires RowsOk(s, now) && step.DoGrant?
    requires t == Grant(s, step.attempt, step.lease, step.request, step.admission, step.expected, now).0
    requires id in t.attempts && t.attempts[id].authorization.Granted?
    requires id in s.attempts ==> !s.attempts[id].authorization.Granted?
    ensures step.attempt == id && step.lease == t.attempts[id].binding.lease
    ensures t.attempts[id].authorization == Granted(step.request, step.admission)
    ensures Grant(s, step.attempt, step.lease, step.request, step.admission, step.expected, now).1 == Ok(AuthorizationRecorded(true))
  {
  }

  /** Step `k` records the grant of `request` and `admission` to attempt `id`. */
  ghost predicate Grants(run: Run, k: nat, id: nat, request: nat, admission: nat)
    requires ValidRun(run) && k < |run.steps|
  {
    var step := run.steps[k];
    && step.DoGrant? && step.attempt == id && step.request == request && step.admission == admission
    && Grant(run.states[k], id, step.lease, request, admission, step.expected, run.clock[k])
       == (run.states[k + 1], Ok(AuthorizationRecorded(true)))
  }

  lemma GrantIsStep(run: Run, i: nat)
    requires ValidRun(run) && i < |run.steps| && run.steps[i].DoGrant?
    ensures var step := run.steps[i];
      Grant(run.states[i], step.attempt, step.lease, step.request, step.admission, step.expected, run.clock[i])
      == (run.states[i + 1], OutcomeAt(run, i))
  {
    assert Stepped(run, i);
  }

  lemma NewGrantAt(run: Run, i: nat, id: nat)
    requires ValidRun(run) && i < |run.steps| && id in run.states[i + 1].attempts
    requires run.states[i + 1].attempts[id].authorization.Granted?
    requires id in run.states[i].attempts ==> !run.states[i].attempts[id].authorization.Granted?
    ensures var a := run.states[i + 1].attempts[id].authorization; Grants(run, i, id, a.request, a.admission)
  {
    assert Stepped(run, i);
    RunKeepsInv(run, i, run.clock[i]);
    if run.steps[i].DoGrant? {
      GrantIsStep(run, i);
      GrantMeaning(run.states[i], run.steps[i], run.clock[i], run.states[i + 1], id);
    } else {
      OthersGrantNothing(run.states[i], run.steps[i], run.clock[i]);
    }
  }

  lemma {:induction false} GrantedEarlier(run: Run, i: nat, id: nat) returns (k: nat)
    requires ValidRun(run) && i < |run.states| && id in run.states[i].attempts && run.states[i].attempts[id].authorization.Granted?
    ensures k < i && Grants(run, k, id, run.states[i].attempts[id].authorization.request, run.states[i].attempts[id].authorization.admission)
  {
    assert i > 0;
    var s := run.states[i - 1];
    if id in s.attempts && s.attempts[id].authorization.Granted? {
      k := GrantedEarlier(run, i - 1, id);
      RunGrows(run, i - 1, i);
      assert AttemptGrows(s.attempts[id], run.states[i].attempts[id]);
    } else {
      NewGrantAt(run, i - 1, id);
      k := i - 1;
    }
  }

  /** Every dispatch is preceded by the grant of the same request and admission. */
  lemma DispatchAfterGrant(run: Run, i: nat, id: nat, at: nat, isNew: bool) returns (k: nat)
    requires ValidRun(run) && i < |run.steps| && Dispatches(run, i, id, at, isNew)
    ensures k < i && Grants(run, k, id, run.steps[i].request, run.steps[i].admission)
  {
    AfterDispatch(run, i, id, at, isNew);
    k := GrantedEarlier(run, i, id);
  }
}
