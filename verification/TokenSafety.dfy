/**
 The single flight over every interleaving: waiter counts are exact, an exchange is only
 cancelled by its last waiter or by closing, and per tenant the credential generations of
 returned tokens never go down.
 */
module TokenSafety {
  import opened Wrappers
  import opened TokenFlights

  // ----- waiters ----------------------------------------------------------------------

  function WaitersOf(callers: map<nat, Caller>, f: nat): set<nat> {
    set id | id in callers && callers[id].Waiting? && callers[id].flight == f
  }

  /** The flight's count is the number of callers suspended on it; while it has any it is registered. */
  predicate FlightOk(p: Provider, f: nat)
    requires f < |p.flights|
  {
    && p.flights[f].waiters == |WaitersOf(p.callers, f)|
    && (p.flights[f].waiters > 0 ==> IsRegistered(p, f))
    && (p.flights[f].waiters == 0 ==> !IsRegistered(p, f))
    && (p.flights[f].task == Running(true) ==> p.flights[f].waiters == 0 || p.closed)
  }

  ghost predicate FlightsOk(p: Provider) {
    && (forall f | 0 <= f < |p.flights| :: FlightOk(p, f))
    && (forall c | c in p.registered :: p.registered[c] < |p.flights| && p.flights[p.registered[c]].credential == c)
    && (forall id | id in p.callers && p.callers[id].Waiting? ::
          p.callers[id].flight < |p.flights| && p.flights[p.callers[id].flight].credential == p.callers[id].credential)
    && (forall id | id in p.callers && p.callers[id].Leaving? :: p.callers[id].flight < |p.flights|)
  }

  lemma OneMoreWaiter(callers: map<nat, Caller>, id: nat, credential: Credential, f: nat)
    requires id !in callers
    ensures |WaitersOf(callers[id := Waiting(credential, f)], f)| == |WaitersOf(callers, f)| + 1
    ensures forall g | g != f :: WaitersOf(callers[id := Waiting(credential, f)], g) == WaitersOf(callers, g)
  {
    assert WaitersOf(callers[id := Waiting(credential, f)], f) == WaitersOf(callers, f) + {id};
  }

  /** A caller that is not waiting, before and after, changes no count. */
  lemma NotAWaiter(callers: map<nat, Caller>, id: nat, after: Caller)
    requires id in callers ==> !callers[id].Waiting?
    requires !after.Waiting?
    ensures forall g :: WaitersOf(callers[id := after], g) == WaitersOf(callers, g)
  {
  }

  lemma OneLessWaiter(callers: map<nat, Caller>, id: nat, after: Caller)
    requires id in callers && callers[id].Waiting? && !after.Waiting?
    ensures |WaitersOf(callers[id := after], callers[id].flight)| == |WaitersOf(callers, callers[id].flight)| - 1
    ensures forall g | g != callers[id].flight :: WaitersOf(callers[id := after], g) == WaitersOf(callers, g)
  {
    var f := callers[id].flight;
    assert WaitersOf(callers, f) == WaitersOf(callers[id := after], f) + {id};
  }

  /** Nothing about flights depends on the marks, the cache or the logs. */
  lemma SameFlights(p: Provider, q: Provider)
    requires FlightsOk(p) && q.flights == p.flights && q.registered == p.registered && q.callers == p.callers && q.closed == p.closed
    ensures FlightsOk(q)
  {
    forall f | 0 <= f < |q.flights|
      ensures FlightOk(q, f)
    {
      assert FlightOk(p, f);
    }
  }

  lemma EndCaller(p: Provider, id: nat, ending: Ending)
    requires FlightsOk(p) && (id in p.callers ==> !p.callers[id].Waiting?)
    ensures FlightsOk(p.(callers := p.callers[id := Done(ending)]))
  {
    var q := p.(callers := p.callers[id := Done(ending)]);
    NotAWaiter(p.callers, id, Done(ending));
    forall f | 0 <= f < |q.flights|
      ensures FlightOk(q, f)
    {
      assert FlightOk(p, f);
    }
  }

  lemma JoinKeeps(p: Provider, id: nat, credential: Credential)
    requires FlightsOk(p) && id !in p.callers
    ensures FlightsOk(Join(p, id, credential))
  {
    var q := Join(p, id, credential);
    if credential in p.registered {
      var f := p.registered[credential];
      OneMoreWaiter(p.callers, id, credential, f);
      assert FlightOk(p, f) && IsRegistered(p, f);
      forall g | 0 <= g < |q.flights|
        ensures FlightOk(q, g)
      {
        assert FlightOk(p, g);
      }
    } else {
      var f := |p.flights|;
      OneMoreWaiter(p.callers, id, credential, f);
      assert WaitersOf(p.callers, f) == {};
      forall g | 0 <= g < |q.flights|
        ensures FlightOk(q, g)
      {
        if g < f {
          assert FlightOk(p, g);
        }
      }
    }
  }

  /** What leaving does, whatever becomes of the caller and the task. */
  lemma LeaveMeans(p: Provider, id: nat, ending: Ending)
    requires id in p.callers && p.callers[id].Waiting? && p.callers[id].flight < |p.flights|
    ensures var (f, q) := (p.callers[id].flight, Leave(p, id, p.callers[id].flight, ending));
      && |q.flights| == |p.flights| && q.closed == p.closed
      && (forall g | 0 <= g < |p.flights| && g != f :: q.flights[g] == p.flights[g])
      && q.flights[f].credential == p.flights[f].credential
      && q.flights[f].waiters == p.flights[f].waiters - 1
      && (q.flights[f].task == p.flights[f].task || (q.flights[f].waiters == 0 && q.flights[f].task == Running(true)))
      && q.registered == (if q.flights[f].waiters == 0 then p.registered - {p.flights[f].credential} else p.registered)
      && q.callers == p.callers[id := q.callers[id]]
      && (q.callers[id].Done? || q.callers[id] == Leaving(f, ending))
  {
  }

  lemma LeaveKeeps(p: Provider, id: nat, ending: Ending)
    requires FlightsOk(p) && id in p.callers && p.callers[id].Waiting?
    ensures FlightsOk(Leave(p, id, p.callers[id].flight, ending))
  {
    var f := p.callers[id].flight;
    var q := Leave(p, id, f, ending);
    LeaveMeans(p, id, ending);
    assert FlightOk(p, f) && id in WaitersOf(p.callers, f);
    OneLessWaiter(p.callers, id, q.callers[id]);
    LeftFlights(p, q, id);
  }

  lemma LeftFlights(p: Provider, q: Provider, id: nat)
    requires FlightsOk(p) && id in p.callers && p.callers[id].Waiting?
    requires var f := p.callers[id].flight;
      && |q.flights| == |p.flights| && q.closed == p.closed
      && (forall g | 0 <= g < |p.flights| && g != f :: q.flights[g] == p.flights[g])
      && q.flights[f].credential == p.flights[f].credential
      && q.flights[f].waiters == p.flights[f].waiters - 1
      && (q.flights[f].task == p.flights[f].task || (q.flights[f].waiters == 0 && q.flights[f].task == Running(true)))
      && q.registered == (if q.flights[f].waiters == 0 then p.registered - {p.flights[f].credential} else p.registered)
      && id in q.callers && q.callers == p.callers[id := q.callers[id]]
      && (q.callers[id].Done? || (q.callers[id].Leaving? && q.callers[id].flight == f))
    requires |WaitersOf(q.callers, p.callers[id].flight)| == |WaitersOf(p.callers, p.callers[id].flight)| - 1
    requires forall g | g != p.callers[id].flight :: WaitersOf(q.callers, g) == WaitersOf(p.callers, g)
    requires id in WaitersOf(p.callers, p.callers[id].flight) && FlightOk(p, p.callers[id].flight)
    ensures FlightsOk(q)
  {
    forall g | 0 <= g < |q.flights|
      ensures FlightOk(q, g)
    {
      assert FlightOk(p, g);
    }
  }

  /** The task of a flight may change when that cancels nothing. */
  lemma TaskKeeps(p: Provider, f: nat, task: Task)
    requires FlightsOk(p) && f < |p.flights| && task != Running(true)
    ensures FlightsOk(WithFlight(p, f, p.flights[f].(task := task)))
  {
    var q := WithFlight(p, f, p.flights[f].(task := task));
    forall g | 0 <= g < |q.flights|
      ensures FlightOk(q, g)
    {
      assert FlightOk(p, g);
    }
  }

  lemma CloseKeeps(p: Provider)
    requires FlightsOk(p)
    ensures FlightsOk(CloseAll(p))
  {
    var q := CloseAll(p);
    forall g | 0 <= g < |q.flights|
      ensures FlightOk(q, g)
    {
      assert FlightOk(p, g);
    }
  }

  lemma EnterKeeps(p: Provider, id: nat, tenant: string, file: File, now: int)
    requires FlightsOk(p) && id !in p.callers
    ensures FlightsOk(Enter(p, id, tenant, file, now))
  {
    if p.closed {
      EndCaller(p, id, Raised(ProviderClosed));
    } else {
      var snapshot := TakeSnapshot(p.observed, file, tenant);
      var q := p.(observed := snapshot.observed);
      SameFlights(p, q);
      if snapshot.credential.Err? {
        EndCaller(q, id, Raised(snapshot.credential.error));
      } else {
        var credential := snapshot.credential.value;
        if tenant in q.cache && q.cache[tenant].credential == credential && q.cache[tenant].expires - now > 5 {
          EndCaller(q, id, Returned(q.cache[tenant].token, credential));
          SameFlights(q.(callers := q.callers[id := Done(Returned(q.cache[tenant].token, credential))]), Enter(p, id, tenant, file, now));
        } else {
          SameFlights(q, q.(cache := q.cache - {tenant}));
          JoinKeeps(q.(cache := q.cache - {tenant}), id, credential);
        }
      }
    }
  }

  lemma FinishKeeps(p: Provider, f: nat, token: Option<string>, expires: int, file: File, now: int)
    requires FlightsOk(p) && f < |p.flights|
    ensures FlightsOk(Finish(p, f, token, expires, file, now))
  {
    var q := Finish(p, f, token, expires, file, now);
    TaskKeeps(p, f, q.flights[f].task);
    SameFlights(WithFlight(p, f, p.flights[f].(task := q.flights[f].task)), q);
  }

  lemma WakeKeeps(p: Provider, id: nat, file: File)
    requires FlightsOk(p) && id in p.callers && p.callers[id].Waiting? && !p.flights[p.callers[id].flight].task.Running?
    ensures FlightsOk(Wake(p, id, p.callers[id].credential, p.callers[id].flight, file))
  {
    var credential, f := p.callers[id].credential, p.callers[id].flight;
    var snapshot := TakeSnapshot(p.observed, file, credential.tenant);
    var q := p.(observed := snapshot.observed);
    var r := q.(returned := q.returned + [credential]);
    SameFlights(p, q);
    SameFlights(p, r);
    LeaveKeeps(p, id, Raised(ExchangeFailed));
    LeaveKeeps(p, id, Raised(ProviderClosed));
    LeaveKeeps(q, id, Raised(CredentialsChanged));
    if snapshot.credential.Err? {
      LeaveKeeps(q, id, Raised(snapshot.credential.error));
    }
    if p.flights[f].task.Succeeded? {
      LeaveKeeps(r, id, Returned(p.flights[f].task.token, credential));
    }
  }

  lemma HappenKeeps(p: Provider, e: Event)
    requires FlightsOk(p)
    ensures FlightsOk(Happen(p, e))
  {
    match e
    case Call(id, tenant, file, now) =>
      if id !in p.callers {
        EnterKeeps(p, id, tenant, file, now);
      }
    case Exchanged(f, token, expires, file, now) =>
      if f < |p.flights| {
        FinishKeeps(p, f, token, expires, file, now);
      }
    case Stopped(f) =>
      if f < |p.flights| {
        TaskKeeps(p, f, Failed);
      }
    case Resumed(id, file) =>
      if id in p.callers && p.callers[id].Waiting? && !p.flights[p.callers[id].flight].task.Running? {
        WakeKeeps(p, id, file);
      }
    case CancelCaller(id) =>
      if id in p.callers && p.callers[id].Waiting? {
        LeaveKeeps(p, id, Cancelled);
      } else if id in p.callers && p.callers[id].Leaving? {
        EndCaller(p, id, Cancelled);
      }
    case Drained(id) =>
      if id in p.callers && p.callers[id].Leaving? {
        EndCaller(p, id, p.callers[id].ending);
      }
    case Close => CloseKeeps(p);
    case Clear => SameFlights(p, Happen(p, e));
  }

  lemma {:induction false} HappenedOk(events: seq<Event>)
    ensures FlightsOk(Happened(events))
  {
    if events != [] {
      HappenedOk(events[..|events| - 1]);
      HappenKeeps(Happened(events[..|events| - 1]), events[|events| - 1]);
    }
  }

  /** At every moment a registered flight has as many waiters as callers are suspended on it, and at least one. */
  lemma RegisteredFlightsAreAwaited(events: seq<Event>, credential: Credential)
    requires credential in Happened(events).registered
    ensures var p := Happened(events);
      var f := p.registered[credential];
      && f < |p.flights| && p.flights[f].credential == credential
      && p.flights[f].waiters == |WaitersOf(p.callers, f)| > 0
  {
    HappenedOk(events);
    var p := Happened(events);
    assert FlightOk(p, p.registered[credential]);
  }

  /** Callers that wait for the same credential share one exchange. */
  lemma OneFlightPerCredential(events: seq<Event>, a: nat, b: nat)
    requires var p := Happened(events);
      && a in p.callers && b in p.callers && p.callers[a].Waiting? && p.callers[b].Waiting?
      && p.callers[a].credential == p.callers[b].credential
    ensures Happened(events).callers[a].flight == Happened(events).callers[b].flight
  {
    HappenedOk(events);
    var p := Happened(events);
    var f, g := p.callers[a].flight, p.callers[b].flight;
    assert FlightOk(p, f) && FlightOk(p, g);
    assert a in WaitersOf(p.callers, f) && b in WaitersOf(p.callers, g);
  }

  // ----- cancellation -------------------------------------------------------------------------

  /** No exchange that was left to run is being cancelled now. */
  ghost predicate CancelsNothing(p: Provider, q: Provider) {
    |p.flights| <= |q.flights| &&
    forall f | 0 <= f < |p.flights| && p.flights[f].task == Running(false) :: q.flights[f].task != Running(true)
  }

  lemma EnterCancelsNothing(p: Provider, id: nat, tenant: string, file: File, now: int)
    ensures CancelsNothing(p, Enter(p, id, tenant, file, now))
  {
  }

  lemma FinishCancelsNothing(p: Provider, f: nat, token: Option<string>, expires: int, file: File, now: int)
    requires f < |p.flights|
    ensures CancelsNothing(p, Finish(p, f, token, expires, file, now))
  {
  }

  lemma WakeCancelsNothing(p: Provider, id: nat, credential: Credential, f: nat, file: File)
    requires f < |p.flights| && !p.flights[f].task.Running?
    ensures CancelsNothing(p, Wake(p, id, credential, f, file))
  {
  }

  lemma OthersCancelNothing(p: Provider, e: Event)
    requires !e.CancelCaller? && e != Close
    ensures CancelsNothing(p, Happen(p, e))
  {
    match e
    case Call(id, tenant, file, now) => EnterCancelsNothing(p, id, tenant, file, now);
    case Exchanged(f, token, expires, file, now) =>
      if f < |p.flights| {
        FinishCancelsNothing(p, f, token, expires, file, now);
      }
    case Resumed(id, file) =>
      if id in p.callers && p.callers[id].Waiting? && p.callers[id].flight < |p.flights| && !p.flights[p.callers[id].flight].task.Running? {
        WakeCancelsNothing(p, id, p.callers[id].credential, p.callers[id].flight, file);
      }
    case _ =>
  }

  /** An event that cancels a running exchange is the closing, or the cancellation of its only waiter. */
  lemma CancelledByLastWaiterOrClosing(p: Provider, e: Event, f: nat)
    requires FlightsOk(p) && f < |p.flights| && p.flights[f].task == Running(false)
    requires f < |Happen(p, e).flights| && Happen(p, e).flights[f].task == Running(true)
    ensures e == Close || (e.CancelCaller? && WaitersOf(p.callers, f) == {e.id})
    ensures e == Close ==> WaitersOf(p.callers, f) != {}
  {
    assert FlightOk(p, f);
    if e.CancelCaller? {
      CancelledFlight(p, e.id, f);
    } else if e == Close {
      assert IsRegistered(p, f);
    } else {
      OthersCancelNothing(p, e);
    }
  }

  lemma CancelledFlight(p: Provider, id: nat, f: nat)
    requires FlightsOk(p) && f < |p.flights| && p.flights[f].task == Running(false) && FlightOk(p, f)
    requires Happen(p, CancelCaller(id)).flights[f].task == Running(true)
    ensures WaitersOf(p.callers, f) == {id}
  {
    assert id in p.callers && p.callers[id].Waiting? && p.callers[id].flight == f;
    assert id in WaitersOf(p.callers, f);
    OnlyOne(WaitersOf(p.callers, f), id);
  }

  lemma OnlyOne(s: set<nat>, x: nat)
    requires |s| == 1 && x in s
    ensures s == {x}
  {
    assert |s - {x}| == 0;
  }

  // ----- generations --------------------------------------------------------------------------

  /** The marks only go up, and within a generation the credential stays the same. */
  ghost predicate MarksRise(before: map<string, Credential>, after: map<string, Credential>) {
    forall t | t in before :: t in after && (after[t] == before[t] || after[t].generation > before[t].generation)
  }

  predicate MarksOk(observed: map<string, Credential>) {
    forall t | t in observed :: observed[t].tenant == t
  }

  /** A successful snapshot is the new mark of its tenant. */
  lemma SnapshotRaises(observed: map<string, Credential>, file: File, tenant: string)
    requires MarksOk(observed)
    ensures var s := TakeSnapshot(observed, file, tenant);
      && MarksOk(s.observed) && MarksRise(observed, s.observed)
      && (s.credential.Ok? ==> tenant in s.observed && s.observed[tenant] == s.credential.value && s.credential.value.tenant == tenant)
  {
  }

  /** Every returned credential is at or below the mark of its tenant, and returns of a tenant rise. */
  ghost predicate ReturnsOk(observed: map<string, Credential>, returned: seq<Credential>) {
    && (forall i | 0 <= i < |returned| :: AtMost(returned[i], observed))
    && (forall i, j | 0 <= i < j < |returned| && returned[i].tenant == returned[j].tenant ::
          returned[i] == returned[j] || returned[i].generation < returned[j].generation)
  }

  predicate AtMost(c: Credential, observed: map<string, Credential>) {
    c.tenant in observed && (c == observed[c.tenant] || c.generation < observed[c.tenant].generation)
  }

  lemma MarksKeepReturns(before: map<string, Credential>, after: map<string, Credential>, returned: seq<Credential>)
    requires ReturnsOk(before, returned) && MarksRise(before, after)
    ensures ReturnsOk(after, returned)
  {
    forall i | 0 <= i < |returned|
      ensures AtMost(returned[i], after)
    {
      assert AtMost(returned[i], before);
    }
  }

  lemma ReturnCurrent(observed: map<string, Credential>, returned: seq<Credential>, c: Credential)
    requires ReturnsOk(observed, returned) && c.tenant in observed && observed[c.tenant] == c
    ensures ReturnsOk(observed, returned + [c])
  {
    forall i | 0 <= i < |returned|
      ensures returned[i].tenant == c.tenant ==> returned[i] == c || returned[i].generation < c.generation
    {
      assert AtMost(returned[i], observed);
    }
  }

  ghost predicate GenerationsOk(p: Provider) {
    MarksOk(p.observed) && ReturnsOk(p.observed, p.returned)
  }

  /** Leaving touches neither the marks nor the log. */
  lemma LeaveKeepsMarks(p: Provider, id: nat, f: nat, ending: Ending)
    requires f < |p.flights|
    ensures Leave(p, id, f, ending).observed == p.observed && Leave(p, id, f, ending).returned == p.returned
  {
  }

  lemma EnterKeepsGenerations(p: Provider, id: nat, tenant: string, file: File, now: int)
    requires GenerationsOk(p)
    ensures GenerationsOk(Enter(p, id, tenant, file, now))
  {
    var s := TakeSnapshot(p.observed, file, tenant);
    SnapshotRaises(p.observed, file, tenant);
    MarksKeepReturns(p.observed, s.observed, p.returned);
    if s.credential.Ok? {
      ReturnCurrent(s.observed, p.returned, s.credential.value);
    }
  }

  lemma FinishKeepsGenerations(p: Provider, f: nat, token: Option<string>, expires: int, file: File, now: int)
    requires GenerationsOk(p) && f < |p.flights|
    ensures GenerationsOk(Finish(p, f, token, expires, file, now))
  {
    var tenant := p.flights[f].credential.tenant;
    SnapshotRaises(p.observed, file, tenant);
    MarksKeepReturns(p.observed, TakeSnapshot(p.observed, file, tenant).observed, p.returned);
  }

  /** What waking does to the marks and the log. */
  lemma WakeMeans(p: Provider, id: nat, credential: Credential, f: nat, file: File)
    requires f < |p.flights|
    ensures var (s, q) := (TakeSnapshot(p.observed, file, credential.tenant), Wake(p, id, credential, f, file));
      || (q.observed == p.observed && q.returned == p.returned)
      || (q.observed == s.observed && q.returned == p.returned)
      || (s.credential == Ok(credential) && q.observed == s.observed && q.returned == p.returned + [credential])
  {
    var task := p.flights[f].task;
    var s := TakeSnapshot(p.observed, file, credential.tenant);
    var q := p.(observed := s.observed);
    if !task.Succeeded? {
      LeaveKeepsMarks(p, id, f, Raised(ExchangeFailed));
    } else if p.closed {
      LeaveKeepsMarks(p, id, f, Raised(ProviderClosed));
    } else if s.credential.Err? {
      LeaveKeepsMarks(q, id, f, Raised(s.credential.error));
    } else if s.credential.value != credential {
      LeaveKeepsMarks(q, id, f, Raised(CredentialsChanged));
    } else {
      LeaveKeepsMarks(q.(returned := q.returned + [credential]), id, f, Returned(task.token, credential));
    }
  }

  lemma WakeKeepsGenerations(p: Provider, id: nat, credential: Credential, f: nat, file: File)
    requires GenerationsOk(p) && f < |p.flights|
    ensures GenerationsOk(Wake(p, id, credential, f, file))
  {
    var s, q := TakeSnapshot(p.observed, file, credential.tenant), Wake(p, id, credential, f, file);
    WakeMeans(p, id, credential, f, file);
    RaisedGenerations(p, s, credential, file, q);
  }

  lemma RaisedGenerations(p: Provider, s: Snapshot, credential: Credential, file: File, q: Provider)
    requires GenerationsOk(p) && s == TakeSnapshot(p.observed, file, credential.tenant)
    requires
      || (q.observed == p.observed && q.returned == p.returned)
      || (q.observed == s.observed && q.returned == p.returned)
      || (s.credential == Ok(credential) && q.observed == s.observed && q.returned == p.returned + [credential])
    ensures GenerationsOk(q)
  {
    SnapshotRaises(p.observed, file, credential.tenant);
    MarksKeepReturns(p.observed, s.observed, p.returned);
    if s.credential == Ok(credential) {
      ReturnCurrent(s.observed, p.returned, credential);
    }
  }

  lemma HappenKeepsGenerations(p: Provider, e: Event)
    requires GenerationsOk(p)
    ensures GenerationsOk(Happen(p, e))
  {
    match e
    case Call(id, tenant, file, now) => EnterKeepsGenerations(p, id, tenant, file, now);
    case Exchanged(f, token, expires, file, now) =>
      if f < |p.flights| {
        FinishKeepsGenerations(p, f, token, expires, file, now);
      }
    case Resumed(id, file) =>
      if id in p.callers && p.callers[id].Waiting? && p.callers[id].flight < |p.flights| {
        WakeKeepsGenerations(p, id, p.callers[id].credential, p.callers[id].flight, file);
      }
    case _ =>
  }

  lemma {:induction false} HappenedGenerations(events: seq<Event>)
    ensures GenerationsOk(Happened(events))
  {
    if events != [] {
      HappenedGenerations(events[..|events| - 1]);
      HappenKeepsGenerations(Happened(events[..|events| - 1]), events[|events| - 1]);
    }
  }

  /**
   However calls, cancellations and file changes interleave: in the order of their last
   check, tokens of one tenant stand for credentials that never go back, and two of the
   same generation stand for the same credential.
   */
  lemma GenerationsNeverGoDown(events: seq<Event>, i: nat, j: nat)
    requires i < j < |Happened(events).returned|
    requires Happened(events).returned[i].tenant == Happened(events).returned[j].tenant
    ensures var (a, b) := (Happened(events).returned[i], Happened(events).returned[j]);
      a.generation <= b.generation && (a.generation == b.generation ==> a == b)
  {
    HappenedGenerations(events);
  }

  /** A caller that got a token got it for a credential in the log. */
  lemma {:induction false} ReturnsAreLogged(events: seq<Event>, id: nat)
    requires var p := Happened(events);
      id in p.callers && ((p.callers[id].Done? && p.callers[id].ending.Returned?) || (p.callers[id].Leaving? && p.callers[id].ending.Returned?))
    ensures Happened(events).callers[id].ending.credential in Happened(events).returned
  {
    var n := |events| - 1;
    var before := Happened(events[..n]);
    LoggedStep(before, events[n], id);
    if id in before.callers && !before.callers[id].Waiting? && before.callers[id].ending.Returned? {
      ReturnsAreLogged(events[..n], id);
    }
  }

  /** A leaving caller has the ending it was given; nobody else changes. */
  lemma LeaveEnds(p: Provider, id: nat, f: nat, ending: Ending)
    requires f < |p.flights|
    ensures var q := Leave(p, id, f, ending);
      && q.returned == p.returned && q.callers == p.callers[id := q.callers[id]]
      && !q.callers[id].Waiting? && q.callers[id].ending == ending
  {
  }

  /** A returned token of the caller, if it has one now, is in the log, or it had it before. */
  ghost predicate Logged(p: Provider, q: Provider, id: nat) {
    && p.returned <= q.returned
    && (id in q.callers && !q.callers[id].Waiting? && q.callers[id].ending.Returned? ==>
          || q.callers[id].ending.credential in q.returned
          || (id in p.callers && !p.callers[id].Waiting? && p.callers[id].ending == q.callers[id].ending))
  }

  lemma WakeLogged(p: Provider, who: nat, credential: Credential, f: nat, file: File, id: nat)
    requires f < |p.flights|
    ensures Logged(p, Wake(p, who, credential, f, file), id)
  {
    var task := p.flights[f].task;
    var s := TakeSnapshot(p.observed, file, credential.tenant);
    var q := p.(observed := s.observed);
    var r := q.(returned := q.returned + [credential]);
    if !task.Succeeded? {
      LeaveEnds(p, who, f, Raised(ExchangeFailed));
    } else if p.closed {
      LeaveEnds(p, who, f, Raised(ProviderClosed));
    } else if s.credential.Err? {
      LeaveEnds(q, who, f, Raised(s.credential.error));
    } else if s.credential.value != credential {
      LeaveEnds(q, who, f, Raised(CredentialsChanged));
    } else {
      LeaveEnds(r, who, f, Returned(task.token, credential));
      assert credential in r.returned;
    }
  }

  lemma EnterLogged(p: Provider, who: nat, tenant: string, file: File, now: int, id: nat)
    ensures Logged(p, Enter(p, who, tenant, file, now), id)
  {
    var s := TakeSnapshot(p.observed, file, tenant);
    if s.credential.Ok? {
      assert s.credential.value in p.returned + [s.credential.value];
    }
  }

  lemma LoggedStep(p: Provider, e: Event, id: nat)
    ensures Logged(p, Happen(p, e), id)
  {
    match e
    case Call(who, tenant, file, now) => EnterLogged(p, who, tenant, file, now, id);
    case Resumed(who, file) =>
      if who in p.callers && p.callers[who].Waiting? && p.callers[who].flight < |p.flights| {
        WakeLogged(p, who, p.callers[who].credential, p.callers[who].flight, file, id);
      }
    case CancelCaller(who) =>
      if who in p.callers && p.callers[who].Waiting? && p.callers[who].flight < |p.flights| {
        LeaveEnds(p, who, p.callers[who].flight, Cancelled);
      }
    case _ =>
  }

  // ----- reachable states ---------------------------------------------------------------------

  /** The provider is what some events have made of a new one. */
  ghost predicate Reached(p: Provider) {
    exists events: seq<Event> :: Happened(events) == p
  }

  lemma StartReached(p: Provider)
    requires p == Provider(false, map[], map[], map[], [], map[], [])
    ensures Reached(p)
  {
    assert Happened([]) == p;
  }

  lemma StepReached(p: Provider, e: Event)
    ensures Reached(p) ==> Reached(Happen(p, e))
  {
    if Reached(p) {
      var events: seq<Event> :| Happened(events) == p;
      assert (events + [e])[..|events|] == events;
      assert Happened(events + [e]) == Happen(p, e);
    }
  }

  /** Cancelling a waiting caller is an event. */
  lemma CancelReached(p: Provider, id: nat, f: nat)
    requires id in p.callers && p.callers[id].Waiting? && p.callers[id].flight == f < |p.flights|
    ensures Reached(p) ==> Reached(Leave(p, id, f, Cancelled))
  {
    StepReached(p, CancelCaller(id));
  }

  /** What holds of a reached provider: exact waiters, registered flights, returns in order. */
  lemma ReachedProper(p: Provider)
    requires Reached(p)
    ensures FlightsOk(p) && GenerationsOk(p)
  {
    var events: seq<Event> :| Happened(events) == p;
    HappenedOk(events);
    HappenedGenerations(events);
  }
}
