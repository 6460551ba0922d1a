/**
 The repository that holds one run's rows and updates them in place, one method per
 database transaction. Each method does exactly what its transaction function says.
 */
module LedgerRepository {
  import opened Wrappers
  import M = ModelCallLedger
  import R = LedgerRuns

  class Repository {
    var request: nat
    var owner: nat
    var generation: nat
    var expires: Option<nat>
    var terminal: bool
    var counters: M.Counters
    var attempts: map<nat, M.Attempt>
    var evidence: map<(nat, nat), M.Evidence>

    function State(): M.Ledger
      reads this
    {
      M.Ledger(request, owner, generation, expires, terminal, counters, attempts, evidence)
    }

    /**
     The rows are those of some run whose steps are all before the clock reading, so that
     every property of runs holds of them (`Proper` names the invariant).
     */
    ghost predicate Valid(clock: nat)
      reads this
    {
      R.Reached(State(), clock)
    }

    /** What a caller may use: the row invariants, and counters that equal a full recount. */
    lemma Proper(before: nat, clock: nat)
      requires Valid(before) && before <= clock
      ensures R.Inv(State(), clock) && counters == M.Recount(State()) && Valid(clock)
    {
      R.ReachedKeepsInv(State(), before, clock);
    }

    constructor (request: nat, owner: nat, expires: nat)
      ensures State() == M.Ledger(request, owner, 1, Some(expires), false, M.Counters(0, 0, 0, 0, M.NoAttempts), map[], map[])
      ensures forall clock :: Valid(clock)
    {
      this.request, this.owner, this.generation := request, owner, 1;
      this.expires, this.terminal := Some(expires), false;
      this.counters := M.Counters(0, 0, 0, 0, M.NoAttempts);
      this.attempts, this.evidence := map[], map[];
      new;
      forall clock ensures Valid(clock) {
        R.StartReached(State(), clock);
      }
    }

    method Recompute()
      modifies this`counters
      ensures State() == M.Recounted(old(State()))
    {
      counters := M.Recount(State());
    }

    method Prepare(c: M.PrepareCommand, now: nat) returns (r: M.Reply)
      modifies this`attempts, this`counters
      ensures (State(), r) == M.Prepare(old(State()), c, now)
      ensures old(Valid(now)) ==> Valid(now)
    {
      R.StepReached(State(), R.DoPrepare(c), now);
      if !M.Fenced(State(), c.lease, now) || request != c.request {
        return Err(M.AuthorityLost);
      }
      if c.attempt in attempts {
        var a := attempts[c.attempt];
        if a.binding != M.Binding(c.attempt, c.call, a.binding.ordinal, c.lease, c.request)
           || a.planned != c.planned || a.finalRequest != c.finalRequest {
          return Err(M.IdentityConflict);
        }
        return Ok(M.PreparedCall(a.binding.ordinal, true));
      }
      var largest := M.Largest(M.OrdinalsOf(attempts, c.call));
      if largest >= M.MAX_INT64 {
        return Err(M.OrdinalExhausted);
      }
      attempts := attempts[c.attempt := M.Attempt(
        M.Binding(c.attempt, c.call, largest + 1, c.lease, c.request), c.planned, c.finalRequest,
        M.NotRequested, M.Prepared, M.Stored(now), None, None, 0, None)];
      Recompute();
      return Ok(M.PreparedCall(largest + 1, false));
    }

    method BeginAuthorization(id: nat, lease: M.Lease, authorization: nat, now: nat) returns (r: M.Reply)
      modifies this`attempts
      ensures (State(), r) == M.Begin(old(State()), id, lease, authorization, now)
      ensures old(Valid(now)) ==> Valid(now)
    {
      R.StepReached(State(), R.DoBegin(id, lease, authorization), now);
      var locked := M.LockAttempt(State(), id, lease, now);
      if locked.Err? {
        return Err(locked.error);
      }
      var a := locked.value;
      if a.status == M.Prepared {
        if a.authorization != M.NotRequested {
          return Err(M.IdentityConflict);
        }
        attempts := attempts[id := a.(authorization := M.Requested(authorization), status := M.AuthorizationPending)];
        return Ok(M.Pending(true));
      }
      if a.status == M.AuthorizationPending {
        return if a.authorization != M.Requested(authorization) then Err(M.IdentityConflict) else Ok(M.Pending(false));
      }
      if !a.authorization.Granted? || a.authorization.request != authorization {
        return Err(M.IdentityConflict);
      }
      return Ok(M.Pending(false));
    }

    method GrantAuthorization(id: nat, lease: M.Lease, authorization: nat, admission: nat, expected: M.Authorization, now: nat)
      returns (r: M.Reply)
      modifies this`attempts
      ensures (State(), r) == M.Grant(old(State()), id, lease, authorization, admission, expected, now)
      ensures old(Valid(now)) ==> Valid(now)
    {
      R.StepReached(State(), R.DoGrant(id, lease, authorization, admission, expected), now);
      var locked := M.LockAttempt(State(), id, lease, now);
      if locked.Err? {
        return Err(locked.error);
      }
      var a := locked.value;
      if a.status == M.AuthorizationPending {
        if a.authorization != M.Requested(authorization) || expected != M.Requested(authorization) {
          return Err(M.IdentityConflict);
        }
        attempts := attempts[id := a.(authorization := M.Granted(authorization, admission), status := M.Authorized)];
        return Ok(M.AuthorizationRecorded(true));
      }
      if a.authorization != M.Granted(authorization, admission) {
        return Err(M.IdentityConflict);
      }
      return Ok(M.AuthorizationRecorded(false));
    }

    method StartDispatch(id: nat, lease: M.Lease, authorization: nat, admission: nat, now: nat) returns (r: M.Reply)
      modifies this`attempts, this`counters
      ensures (State(), r) == M.StartDispatch(old(State()), id, lease, authorization, admission, now)
      ensures old(Valid(now)) ==> Valid(now)
    {
      R.StepReached(State(), R.DoDispatch(id, lease, authorization, admission), now);
      var locked := M.LockAttempt(State(), id, lease, now);
      if locked.Err? {
        return Err(locked.error);
      }
      var a := locked.value;
      if a.authorization != M.Granted(authorization, admission) {
        return Err(M.IdentityConflict);
      }
      if a.status == M.Authorized {
        attempts := attempts[id := a.(status := M.DispatchStarted, dispatchAt := Some(M.Stored(now)))];
        Recompute();
        return Ok(M.Permit(M.Stored(now), true));
      }
      if a.dispatchAt.None? {
        return Err(M.AuthorityLost);
      }
      return Ok(M.Permit(a.dispatchAt.value, false));
    }

    method AppendEvidence(id: nat, lease: M.Lease, authorization: M.Authorization, planned: nat, e: M.Evidence, now: nat)
      returns (r: M.Reply)
      modifies this`attempts, this`evidence, this`counters
      ensures (State(), r) == M.Append(old(State()), id, lease, authorization, planned, e, now)
      ensures old(Valid(now)) ==> Valid(now)
    {
      R.StepReached(State(), R.DoAppend(id, lease, authorization, planned, e), now);
      if !terminal && !M.Fenced(State(), lease, now) {
        return Err(M.AuthorityLost);
      }
      if id !in attempts {
        return Err(M.AuthorityLost);
      }
      var a := attempts[id];
      if a.binding.lease != lease || a.planned != planned || a.authorization != authorization {
        return Err(M.IdentityConflict);
      }
      var bound := M.BindEvidence(a, e, M.Truncated(now));
      if bound.Err? {
        return Err(bound.error);
      }
      if e.revision <= a.latestRevision {
        return M.ReplayEvidence(State(), id, e);
      }
      if terminal {
        return Err(M.AuthorityLost);
      }
      if e.revision != a.latestRevision + 1 || !M.Follows(State(), id, e) {
        return Err(M.IdentityConflict);
      }
      if !M.TableAccepts(e) {
        return Err(M.CheckViolation);
      }
      if !M.FreshEvent(State(), e.event) {
        return Err(M.UniqueViolation);
      }
      evidence := evidence[(id, e.revision) := e];
      attempts := attempts[id := M.SealAttempt(a, e, M.StatusOf(e.outcome))];
      Recompute();
      return Ok(M.EvidenceReceipt(e.event, e.revision, false));
    }

    /** Closes the attempts in order; on an error the rows may be half closed, and the transaction undoes them. */
    method CloseAttempts(ids: seq<nat>, events: map<nat, nat>, now: nat) returns (r: Result<(), M.LedgerError>)
      requires forall id | id in ids :: id in attempts && id in events
      modifies this`attempts, this`evidence
      ensures match M.CloseAll(old(State()), ids, events, now)
              case Ok(closed) => r == Ok(()) && State() == closed
              case Err(error) => r == Err(error)
    {
      var i := 0;
      while i < |ids|
        invariant 0 <= i <= |ids|
        invariant attempts.Keys == old(attempts.Keys)
        invariant M.CloseAll(old(State()), ids, events, now) == M.CloseAll(State(), ids[i..], events, now)
      {
        var id := ids[i];
        assert ids[i..][0] == id && ids[i..][1..] == ids[i + 1..];
        var a := attempts[id];
        ghost var one := M.CloseOne(State(), id, events[id], now);
        if a.latestRevision > 0 {
          if !M.SealedHeadOk(State(), id, now) {
            return Err(M.IdentityConflict);
          }
        } else if terminal || !M.ClosableState(a) {
          return Err(M.IdentityConflict);
        } else {
          var e := M.ClosureEvidence(a, events[id], now);
          var bound := M.BindEvidence(a, e, M.Truncated(now));
          if bound.Err? {
            return Err(bound.error);
          }
          if !M.FreshEvent(State(), events[id]) {
            return Err(M.UniqueViolation);
          }
          evidence := evidence[(id, 1) := e];
          attempts := attempts[id := M.SealAttempt(a, e, if e.outcome == M.UnknownOutcome then M.UnknownStatus else M.NotDispatchedStatus)];
        }
        assert one == Ok(State());
        i := i + 1;
      }
      assert ids[i..] == [];
      return Ok(());
    }

    method FinalizeTerminal(authority: M.Authority, ids: seq<nat>, events: map<nat, nat>, now: nat) returns (r: M.Reply)
      requires M.Visits(State(), ids) && forall id | id in ids :: id in events
      modifies this
      ensures (State(), r) == M.Terminate(old(State()), authority, ids, events, now)
      ensures old(Valid(now)) ==> Valid(now)
    {
      R.StepReached(State(), R.DoTerminate(authority, ids, events), now);
      if !M.MayTerminate(State(), authority, now) {
        return Err(M.AuthorityLost);
      }
      var attemptsBefore, evidenceBefore, countersBefore := attempts, evidence, counters;
      var closed := CloseAttempts(ids, events, now);
      if closed.Err? {
        attempts, evidence := attemptsBefore, evidenceBefore;
        return Err(closed.error);
      }
      if terminal {
        M.TerminalWritesNothing(old(State()), ids, events, now);
        return Ok(M.Closed);
      }
      if ids != [] {
        Recompute();
      }
      if counters.attempts != counters.sealed {
        attempts, evidence, counters := attemptsBefore, evidenceBefore, countersBefore;
        return Err(M.IdentityConflict);
      }
      terminal, expires := true, None;
      if authority.Takeover? {
        owner, generation := authority.owner, generation + 1;
      }
      return Ok(M.Closed);
    }

    method Renew(lease: M.Lease, until: nat, now: nat) returns (renewed: bool)
      modifies this`expires
      ensures State() == M.Renew(old(State()), lease, until, now)
      ensures old(Valid(now)) ==> Valid(now)
      ensures renewed == M.Fenced(old(State()), lease, now)
    {
      R.StepReached(State(), R.DoRenew(lease, until), now);
      renewed := M.Fenced(State(), lease, now);
      if renewed {
        expires := Some(until);
      }
    }

    method Pause(lease: M.Lease, now: nat) returns (paused: bool)
      modifies this`expires
      ensures State() == M.Pause(old(State()), lease, now)
      ensures old(Valid(now)) ==> Valid(now)
      ensures paused == M.Fenced(old(State()), lease, now)
    {
      R.StepReached(State(), R.DoPause(lease), now);
      paused := M.Fenced(State(), lease, now);
      if paused {
        expires := None;
      }
    }

    method Adopt(newOwner: nat, until: nat) returns (lease: Option<M.Lease>)
      modifies this`owner, this`generation, this`expires
      ensures State() == M.Adopt(old(State()), newOwner, until)
      ensures forall now | old(Valid(now)) :: Valid(now)
      ensures lease.Some? ==> lease.value == M.Lease(owner, generation) && generation == old(generation) + 1
      ensures lease.None? <==> old(terminal) || old(expires).Some?
    {
      forall now: nat {
        R.StepReached(State(), R.DoAdopt(newOwner, until), now);
      }
      if terminal || expires.Some? {
        return None;
      }
      owner, generation, expires := newOwner, generation + 1, Some(until);
      return Some(M.Lease(owner, generation));
    }

    method ReclaimExpired(newOwner: nat, until: nat, now: nat) returns (lease: Option<M.Lease>)
      modifies this`owner, this`generation, this`expires
      ensures State() == M.Reclaim(old(State()), newOwner, until, now)
      ensures old(Valid(now)) ==> Valid(now)
      ensures lease.Some? ==> lease.value == M.Lease(owner, generation) && generation == old(generation) + 1
      ensures lease.Some? <==> !old(terminal) && old(expires).Some? && old(expires).value <= now
    {
      R.StepReached(State(), R.DoReclaim(newOwner, until), now);
      if terminal || expires.None? || expires.value > now {
        return None;
      }
      owner, generation, expires := newOwner, generation + 1, Some(until);
      return Some(M.Lease(owner, generation));
    }
  }
}
