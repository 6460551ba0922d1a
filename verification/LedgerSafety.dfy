/**
 What holds in every reachable state of the model-call ledger, and over whole runs of
 transactions and lease movements.
 */
module LedgerSafety {
  import opened Wrappers
  import opened ModelCallLedger

  // ----- the invariant of one attempt ------------------------------------------------

  /** Status, authorization, dispatch time and revision fit together. */
  ghost predicate StateOk(a: Attempt) {
    match a.status
    case Prepared => a.authorization.NotRequested? && a.dispatchAt.None? && a.latestRevision == 0
    case AuthorizationPending => a.authorization.Requested? && a.dispatchAt.None? && a.latestRevision == 0
    case AuthorizationDenied => false
    case Authorized => a.authorization.Granted? && a.dispatchAt.None? && a.latestRevision == 0
    case DispatchStarted => a.authorization.Granted? && a.dispatchAt.Some? && a.latestRevision == 0
    case Observed => a.authorization.Granted? && a.dispatchAt.Some? && a.latestRevision > 0
    case UnknownStatus => a.authorization.Granted? && a.dispatchAt.Some? && a.latestRevision > 0
    case NotDispatchedStatus => !a.authorization.Denied? && a.dispatchAt.None? && a.latestRevision > 0
  }

  ghost predicate TimesOk(a: Attempt, clock: nat) {
    && a.preparedAt <= Stored(clock)
    && (a.dispatchAt.Some? ==> a.preparedAt <= a.dispatchAt.value <= Stored(clock))
  }

  ghost predicate RowOk(a: Attempt, e: Evidence, r: nat, clock: nat) {
    && WellFormed(e) && TableAccepts(e) && e.revision == r <= MAX_INT64
    && e.binding == a.binding && e.planned == a.planned && e.authorization == a.authorization
    && e.preparedAt == a.preparedAt && e.dispatchAt == a.dispatchAt
    && a.preparedAt <= e.observedAt <= Truncated(clock)
    && (a.dispatchAt.Some? ==> a.dispatchAt.value <= e.observedAt)
  }

  /** Revisions are exactly 1..latest, each bound to the attempt, each later one a valid successor. */
  ghost predicate ChainOk(evidence: map<(nat, nat), Evidence>, id: nat, a: Attempt, clock: nat) {
    && (forall r: nat :: (id, r) in evidence <==> 1 <= r <= a.latestRevision)
    && (forall r: nat | 1 <= r <= a.latestRevision :: RowOk(a, evidence[(id, r)], r, clock))
    && (forall r: nat, q: nat | 1 <= r && q == r + 1 && q <= a.latestRevision :: Successor(evidence[(id, r)], evidence[(id, q)]))
  }

  ghost predicate HeadOk(evidence: map<(nat, nat), Evidence>, id: nat, a: Attempt) {
    if a.latestRevision == 0 then a.sealedAt.None? && a.latest.None?
    else
      && (id, a.latestRevision) in evidence
      && var e := evidence[(id, a.latestRevision)];
      && a.latest == Some(e)
      && a.sealedAt == Some(e.observedAt)
      && a.status == (if e.outcome == UnknownOutcome then UnknownStatus
                      else if e.outcome == NotDispatched then NotDispatchedStatus else Observed)
  }

  ghost predicate AttemptOk(evidence: map<(nat, nat), Evidence>, id: nat, a: Attempt, clock: nat) {
    && a.binding.attempt == id
    && StateOk(a)
    && TimesOk(a, clock)
    && ChainOk(evidence, id, a, clock)
    && HeadOk(evidence, id, a)
  }

  // ----- the invariant of the ledger ----------------------------------------------------

  ghost predicate RowsOk(s: Ledger, clock: nat) {
    && (forall id | id in s.attempts :: AttemptOk(s.evidence, id, s.attempts[id], clock))
    && (forall key | key in s.evidence :: key.0 in s.attempts)
  }

  /** Event ids identify evidence rows. */
  ghost predicate EventsDistinct(s: Ledger) {
    forall k, m | k in s.evidence && m in s.evidence && s.evidence[k].event == s.evidence[m].event :: k == m
  }

  /** The ordinals used for one call, without gaps or repeats, start at 1. */
  ghost predicate OrdinalsOk(attempts: map<nat, Attempt>) {
    && (forall id, other | id in attempts && other in attempts && id != other
          && attempts[id].binding.call == attempts[other].binding.call ::
          attempts[id].binding.ordinal != attempts[other].binding.ordinal)
    && (forall id, o: nat | id in attempts && 1 <= o <= attempts[id].binding.ordinal ::
          o in OrdinalsOf(attempts, attempts[id].binding.call))
    && (forall id | id in attempts :: attempts[id].binding.ordinal >= 1)
  }

  ghost predicate RestOk(s: Ledger) {
    && EventsDistinct(s)
    && OrdinalsOk(s.attempts)
    && (s.terminal ==> forall id | id in s.attempts :: s.attempts[id].latestRevision > 0)
    && (forall id | id in s.attempts :: s.attempts[id].binding.lease.generation <= s.generation)
  }

  // ----- frames ---------------------------------------------------------------------------

  lemma TimePasses(s: Ledger, before: nat, now: nat)
    requires RowsOk(s, before) && before <= now
    ensures RowsOk(s, now)
  {
    forall id | id in s.attempts
      ensures AttemptOk(s.evidence, id, s.attempts[id], now)
    {
      assert AttemptOk(s.evidence, id, s.attempts[id], before);
      StoredMonotone(before, now);
    }
  }

  lemma StoredMonotone(before: nat, now: nat)
    requires before <= now
    ensures Stored(before) <= Stored(now) && Truncated(before) <= Truncated(now)
  {
  }

  /** Evidence of other attempts does not matter to this one. */
  lemma OtherEvidence(evidence: map<(nat, nat), Evidence>, id: nat, a: Attempt, clock: nat, key: (nat, nat), e: Evidence)
    requires AttemptOk(evidence, id, a, clock) && key.0 != id
    ensures AttemptOk(evidence[key := e], id, a, clock)
  {
    var after := evidence[key := e];
    forall r: nat
      ensures (id, r) in after <==> (id, r) in evidence
      ensures (id, r) in evidence ==> after[(id, r)] == evidence[(id, r)]
    {
    }
  }

  lemma PutKeepsRows(s: Ledger, id: nat, a: Attempt, clock: nat)
    requires RowsOk(s, clock) && AttemptOk(s.evidence, id, a, clock)
    ensures RowsOk(PutAttempt(s, id, a), clock)
  {
  }

  /** A new head row together with the attempt row that points at it. */
  lemma SealKeepsRows(s: Ledger, id: nat, e: Evidence, status: Status, clock: nat)
    requires RowsOk(s, clock) && id in s.attempts
    requires var a := s.attempts[id];
      && e.revision == a.latestRevision + 1
      && RowOk(a, e, e.revision, clock)
      && (a.latestRevision > 0 ==> Successor(s.evidence[(id, a.latestRevision)], e))
      && StateOk(SealAttempt(a, e, status))
      && status == (if e.outcome == UnknownOutcome then UnknownStatus
                    else if e.outcome == NotDispatched then NotDispatchedStatus else Observed)
    ensures RowsOk(PutAttempt(s, id, SealAttempt(s.attempts[id], e, status)).(evidence := s.evidence[(id, e.revision) := e]), clock)
  {
    var a := s.attempts[id];
    var evidence := s.evidence[(id, e.revision) := e];
    assert AttemptOk(s.evidence, id, a, clock);
    SealedAttempt(s.evidence, id, a, e, status, clock);
    forall other | other in s.attempts && other != id
      ensures AttemptOk(evidence, other, s.attempts[other], clock)
    {
      OtherEvidence(s.evidence, other, s.attempts[other], clock, (id, e.revision), e);
    }
  }

  lemma SealedAttempt(evidence: map<(nat, nat), Evidence>, id: nat, a: Attempt, e: Evidence, status: Status, clock: nat)
    requires AttemptOk(evidence, id, a, clock) && e.revision == a.latestRevision + 1 && RowOk(a, e, e.revision, clock)
    requires a.latestRevision > 0 ==> Successor(evidence[(id, a.latestRevision)], e)
    requires StateOk(SealAttempt(a, e, status))
    requires status == (if e.outcome == UnknownOutcome then UnknownStatus
                        else if e.outcome == NotDispatched then NotDispatchedStatus else Observed)
    ensures AttemptOk(evidence[(id, e.revision) := e], id, SealAttempt(a, e, status), clock)
  {
    SealedChain(evidence, id, a, e, status, clock);
  }

  lemma SealedChain(evidence: map<(nat, nat), Evidence>, id: nat, a: Attempt, e: Evidence, status: Status, clock: nat)
    requires ChainOk(evidence, id, a, clock) && e.revision == a.latestRevision + 1
    requires RowOk(a, e, e.revision, clock)
    requires a.latestRevision > 0 ==> Successor(evidence[(id, a.latestRevision)], e)
    ensures ChainOk(evidence[(id, e.revision) := e], id, SealAttempt(a, e, status), clock)
  {
    var after, b := evidence[(id, e.revision) := e], SealAttempt(a, e, status);
    forall r: nat
      ensures (id, r) in after <==> 1 <= r <= b.latestRevision
    {
    }
    forall r: nat | 1 <= r <= b.latestRevision
      ensures RowOk(b, after[(id, r)], r, clock)
    {
      if r < e.revision {
        assert RowOk(a, evidence[(id, r)], r, clock);
      }
    }
    forall r: nat, q: nat | 1 <= r && q == r + 1 && q <= b.latestRevision
      ensures Successor(after[(id, r)], after[(id, q)])
    {
      if q < e.revision {
        assert Successor(evidence[(id, r)], evidence[(id, q)]);
      }
    }
  }

  // ----- counters ----------------------------------------------------------------------------

  /** The parts of two ledgers that the counters look at agree. */
  ghost predicate SameShape(s: Ledger, t: Ledger) {
    && s.attempts.Keys == t.attempts.Keys
    && s.evidence == t.evidence
    && forall id | id in s.attempts ::
      && s.attempts[id].binding == t.attempts[id].binding
      && s.attempts[id].dispatchAt == t.attempts[id].dispatchAt
      && s.attempts[id].sealedAt == t.attempts[id].sealedAt
      && s.attempts[id].latestRevision == t.attempts[id].latestRevision
  }

  lemma SameHeads(s: Ledger, t: Ledger)
    requires SameShape(s, t)
    ensures UnknownIds(s) == UnknownIds(t) && PartialIds(s) == PartialIds(t)
  {
    forall id | id in s.attempts
      ensures CountsUnknown(s, id) == CountsUnknown(t, id) && CountsPartial(s, id) == CountsPartial(t, id)
    {
      assert Head(s, id) == Head(t, id);
    }
  }

  lemma SameCounters(s: Ledger, t: Ledger)
    requires SameShape(s, t)
    ensures Recount(s) == Recount(t)
  {
    SameHeads(s, t);
    assert DispatchedIds(s) == DispatchedIds(t) && SealedIds(s) == SealedIds(t);
    assert |s.attempts| == |s.attempts.Keys| && |t.attempts| == |t.attempts.Keys|;
  }

  /** In every state that satisfies the invariant a sealed attempt's head exists and is its own. */
  lemma HeadNeverMissing(s: Ledger, clock: nat, id: nat)
    requires RowsOk(s, clock) && id in s.attempts && s.attempts[id].sealedAt.Some?
    ensures Head(s, id).Some? && Head(s, id).value.binding == s.attempts[id].binding
    ensures s.attempts[id].latest == Head(s, id)
  {
    assert AttemptOk(s.evidence, id, s.attempts[id], clock);
  }

  // ----- every transaction keeps the invariant ------------------------------------------------

  lemma RecountedIs(s: Ledger)
    ensures Recounted(s).counters == Recount(Recounted(s))
  {
    SameCounters(s, Recounted(s));
  }

  /** Replacing one attempt row by one with the same binding changes no ordinal. */
  lemma PutKeepsOrdinals(attempts: map<nat, Attempt>, id: nat, a: Attempt)
    requires OrdinalsOk(attempts) && id in attempts && a.binding == attempts[id].binding
    ensures OrdinalsOk(attempts[id := a])
  {
    var after := attempts[id := a];
    forall call: nat
      ensures OrdinalsOf(after, call) == OrdinalsOf(attempts, call)
    {
      forall o: nat
        ensures o in OrdinalsOf(after, call) <==> o in OrdinalsOf(attempts, call)
      {
        if o in OrdinalsOf(attempts, call) {
          var x :| x in attempts && attempts[x].binding.call == call && attempts[x].binding.ordinal == o;
          assert after[x].binding == attempts[x].binding;
        }
        if o in OrdinalsOf(after, call) {
          var x :| x in after && after[x].binding.call == call && after[x].binding.ordinal == o;
          assert after[x].binding == attempts[x].binding;
        }
      }
    }
  }

  /** A new attempt takes no ordinal away from any call, and adds its own. */
  lemma OrdinalsKept(attempts: map<nat, Attempt>, id: nat, a: Attempt, call: nat, o: nat)
    requires id !in attempts && o in OrdinalsOf(attempts, call)
    ensures o in OrdinalsOf(attempts[id := a], call)
  {
    var x :| x in attempts && attempts[x].binding.call == call && attempts[x].binding.ordinal == o;
    assert attempts[id := a][x] == attempts[x];
  }

  /** The next ordinal of a call extends 1..n to 1..n+1. */
  lemma NextOrdinal(attempts: map<nat, Attempt>, id: nat, a: Attempt)
    requires OrdinalsOk(attempts) && id !in attempts
    requires a.binding.ordinal == Largest(OrdinalsOf(attempts, a.binding.call)) + 1
    ensures OrdinalsOk(attempts[id := a])
  {
    var call, after := a.binding.call, attempts[id := a];
    var used := OrdinalsOf(attempts, call);
    forall x, c: nat | x in attempts && attempts[x].binding.call == c
      ensures attempts[x].binding.ordinal in OrdinalsOf(attempts, c)
    {
    }
    forall c: nat, o: nat | o in OrdinalsOf(attempts, c)
      ensures o in OrdinalsOf(after, c)
    {
      OrdinalsKept(attempts, id, a, c, o);
    }
    forall o: nat | 1 <= o <= a.binding.ordinal
      ensures o in OrdinalsOf(after, call)
    {
      if o < a.binding.ordinal {
        assert used != {};
        var x :| x in attempts && attempts[x].binding.call == call && attempts[x].binding.ordinal == Largest(used);
        assert o in OrdinalsOf(attempts, attempts[x].binding.call);
      } else {
        assert after[id].binding.ordinal in OrdinalsOf(after, call);
      }
    }
  }

  lemma PrepareKeepsInv(s: Ledger, c: PrepareCommand, now: nat)
    requires RowsOk(s, now) && RestOk(s) && s.counters == Recount(s)
    ensures var t := Prepare(s, c, now).0; RowsOk(t, now) && RestOk(t) && t.counters == Recount(t)
  {
    var t := Prepare(s, c, now).0;
    if t != s {
      var a := t.attempts[c.attempt];
      FirstRow(s, c.attempt, a, now);
      FirstRest(s, c.attempt, a);
      RecountedIs(PutAttempt(s, c.attempt, a));
    }
  }

  lemma FirstRest(s: Ledger, id: nat, a: Attempt)
    requires RestOk(s) && !s.terminal && id !in s.attempts && a.binding.lease.generation == s.generation
    requires a.binding.ordinal == Largest(OrdinalsOf(s.attempts, a.binding.call)) + 1
    ensures RestOk(PutAttempt(s, id, a))
  {
    NextOrdinal(s.attempts, id, a);
  }

  /** A newly prepared attempt has no evidence, whatever its id. */
  lemma FirstRow(s: Ledger, id: nat, a: Attempt, now: nat)
    requires RowsOk(s, now) && id !in s.attempts
    requires a.binding.attempt == id && a.preparedAt == Stored(now) && a.status == Prepared && a.authorization == NotRequested
    requires a.dispatchAt.None? && a.sealedAt.None? && a.latestRevision == 0 && a.latest.None?
    ensures RowsOk(PutAttempt(s, id, a), now)
  {
    forall r: nat
      ensures (id, r) !in s.evidence
    {
    }
    assert AttemptOk(s.evidence, id, a, now);
    PutKeepsRows(s, id, a, now);
  }

  /** A transition of an attempt that has no evidence yet. */
  lemma UnsealedOk(evidence: map<(nat, nat), Evidence>, id: nat, a: Attempt, b: Attempt, clock: nat)
    requires AttemptOk(evidence, id, a, clock) && a.latestRevision == 0
    requires b == a.(status := b.status, authorization := b.authorization, dispatchAt := b.dispatchAt)
    requires StateOk(b) && TimesOk(b, clock)
    ensures AttemptOk(evidence, id, b, clock)
  {
  }

  lemma PutKeepsRest(s: Ledger, id: nat, a: Attempt)
    requires RestOk(s) && id in s.attempts
    requires a.binding == s.attempts[id].binding && a.latestRevision == s.attempts[id].latestRevision
    ensures RestOk(PutAttempt(s, id, a))
  {
    PutKeepsOrdinals(s.attempts, id, a);
  }

  lemma TransitionKeeps(s: Ledger, id: nat, b: Attempt, now: nat)
    requires RowsOk(s, now) && RestOk(s) && id in s.attempts && s.attempts[id].latestRevision == 0
    requires b == s.attempts[id].(status := b.status, authorization := b.authorization, dispatchAt := b.dispatchAt)
    requires StateOk(b) && TimesOk(b, now)
    ensures RowsOk(PutAttempt(s, id, b), now) && RestOk(PutAttempt(s, id, b))
  {
    UnsealedOk(s.evidence, id, s.attempts[id], b, now);
    PutKeepsRows(s, id, b, now);
    PutKeepsRest(s, id, b);
  }

  /** Status and authorization are not counted. */
  lemma QuietTransition(s: Ledger, id: nat, b: Attempt)
    requires id in s.attempts && b == s.attempts[id].(status := b.status, authorization := b.authorization)
    ensures Recount(PutAttempt(s, id, b)) == Recount(s)
  {
    SameCounters(s, PutAttempt(s, id, b));
  }

  lemma BeginKeepsInv(s: Ledger, id: nat, lease: Lease, request: nat, now: nat)
    requires RowsOk(s, now) && RestOk(s) && s.counters == Recount(s)
    ensures var t := Begin(s, id, lease, request, now).0; RowsOk(t, now) && RestOk(t) && t.counters == Recount(t)
  {
    var t := Begin(s, id, lease, request, now).0;
    if t != s {
      assert AttemptOk(s.evidence, id, s.attempts[id], now);
      TransitionKeeps(s, id, t.attempts[id], now);
      QuietTransition(s, id, t.attempts[id]);
    }
  }

  lemma GrantKeepsInv(s: Ledger, id: nat, lease: Lease, request: nat, admission: nat, expected: Authorization, now: nat)
    requires RowsOk(s, now) && RestOk(s) && s.counters == Recount(s)
    ensures var t := Grant(s, id, lease, request, admission, expected, now).0; RowsOk(t, now) && RestOk(t) && t.counters == Recount(t)
  {
    var t := Grant(s, id, lease, request, admission, expected, now).0;
    if t != s {
      assert AttemptOk(s.evidence, id, s.attempts[id], now);
      TransitionKeeps(s, id, t.attempts[id], now);
      QuietTransition(s, id, t.attempts[id]);
    }
  }

  lemma DispatchKeepsInv(s: Ledger, id: nat, lease: Lease, request: nat, admission: nat, now: nat)
    requires RowsOk(s, now) && RestOk(s) && s.counters == Recount(s)
    ensures var t := StartDispatch(s, id, lease, request, admission, now).0; RowsOk(t, now) && RestOk(t) && t.counters == Recount(t)
  {
    var t := StartDispatch(s, id, lease, request, admission, now).0;
    if t != s {
      assert AttemptOk(s.evidence, id, s.attempts[id], now);
      TransitionKeeps(s, id, t.attempts[id], now);
      RecountedIs(PutAttempt(s, id, t.attempts[id]));
    }
  }

  /** What `BindEvidence` and the table accept is a row of the attempt. */
  lemma BoundRow(a: Attempt, e: Evidence, now: nat)
    requires BindEvidence(a, e, Truncated(now)).Ok? && TableAccepts(e)
    ensures RowOk(a, e, e.revision, now)
  {
  }

  lemma NewEventDistinct(s: Ledger, key: (nat, nat), e: Evidence)
    requires EventsDistinct(s) && FreshEvent(s, e.event)
    ensures EventsDistinct(s.(evidence := s.evidence[key := e]))
  {
    var after := s.evidence[key := e];
    forall k, m | k in after && m in after && k != m
      ensures after[k].event != after[m].event
    {
    }
  }

  /** Sealing an attempt with a fresh, bound row that continues its chain. */
  lemma SealKeepsInv(s: Ledger, id: nat, e: Evidence, status: Status, now: nat)
    requires RowsOk(s, now) && RestOk(s) && id in s.attempts && FreshEvent(s, e.event)
    requires var a := s.attempts[id];
      && e.revision == a.latestRevision + 1
      && RowOk(a, e, e.revision, now)
      && (a.latestRevision > 0 ==> Successor(s.evidence[(id, a.latestRevision)], e))
      && StateOk(SealAttempt(a, e, status))
      && status == (if e.outcome == UnknownOutcome then UnknownStatus
                    else if e.outcome == NotDispatched then NotDispatchedStatus else Observed)
    ensures var t := PutAttempt(s, id, SealAttempt(s.attempts[id], e, status)).(evidence := s.evidence[(id, e.revision) := e]);
      RowsOk(t, now) && RestOk(t)
  {
    SealKeepsRows(s, id, e, status, now);
    NewEventDistinct(s, (id, e.revision), e);
    PutKeepsOrdinals(s.attempts, id, SealAttempt(s.attempts[id], e, status));
  }

  function WithHead(s: Ledger, id: nat, e: Evidence, status: Status): Ledger
    requires id in s.attempts
  {
    PutAttempt(s, id, SealAttempt(s.attempts[id], e, status)).(evidence := s.evidence[(id, e.revision) := e])
  }

  /** An append changes nothing, or puts a bound, fresh row on top of the attempt's chain. */
  lemma AppendCases(s: Ledger, id: nat, lease: Lease, authorization: Authorization, planned: nat, e: Evidence, now: nat, t: Ledger)
    requires t == Append(s, id, lease, authorization, planned, e, now).0
    ensures t != s ==>
      && !s.terminal && id in s.attempts && BindEvidence(s.attempts[id], e, Truncated(now)).Ok?
      && e.revision == s.attempts[id].latestRevision + 1 && Follows(s, id, e) && TableAccepts(e) && FreshEvent(s, e.event)
      && t == Recounted(WithHead(s, id, e, StatusOf(e.outcome)))
    ensures Append(s, id, lease, authorization, planned, e, now).1 == Ok(EvidenceReceipt(e.event, e.revision, false)) ==>
      && id in s.attempts && e.revision == s.attempts[id].latestRevision + 1 && Follows(s, id, e)
      && t == Recounted(WithHead(s, id, e, StatusOf(e.outcome)))
  {
  }

  lemma AppendKeepsInv(s: Ledger, id: nat, lease: Lease, authorization: Authorization, planned: nat, e: Evidence, now: nat)
    requires RowsOk(s, now) && RestOk(s) && s.counters == Recount(s)
    ensures var t := Append(s, id, lease, authorization, planned, e, now).0; RowsOk(t, now) && RestOk(t) && t.counters == Recount(t)
  {
    var t := Append(s, id, lease, authorization, planned, e, now).0;
    AppendCases(s, id, lease, authorization, planned, e, now, t);
    if t != s {
      HeadKeepsInv(s, id, e, now);
    }
  }

  /** A followed, bound and fresh row keeps the invariant. */
  lemma HeadKeepsInv(s: Ledger, id: nat, e: Evidence, now: nat)
    requires RowsOk(s, now) && RestOk(s) && id in s.attempts && BindEvidence(s.attempts[id], e, Truncated(now)).Ok?
    requires e.revision == s.attempts[id].latestRevision + 1 && Follows(s, id, e) && TableAccepts(e) && FreshEvent(s, e.event)
    ensures var t := Recounted(WithHead(s, id, e, StatusOf(e.outcome))); RowsOk(t, now) && RestOk(t) && t.counters == Recount(t)
  {
    assert AttemptOk(s.evidence, id, s.attempts[id], now);
    BoundRow(s.attempts[id], e, now);
    SealKeepsInv(s, id, e, StatusOf(e.outcome), now);
    RecountedIs(WithHead(s, id, e, StatusOf(e.outcome)));
    var put := WithHead(s, id, e, StatusOf(e.outcome));
    SameRows(put, Recounted(put), now);
    SameRest(put, Recounted(put));
  }

  // ----- terminal closure ------------------------------------------------------------------

  /** The stored instants of an attempt are not after the closing clock reading. */
  predicate Timely(a: Attempt, now: nat) {
    a.preparedAt <= Truncated(now) && (a.dispatchAt.Some? ==> a.dispatchAt.value <= Truncated(now))
  }

  predicate Open(s: Ledger, id: nat)
    requires id in s.attempts
  {
    s.attempts[id].latestRevision == 0
  }

  /** How closing an open attempt leaves it: unknown if it was dispatched, otherwise not dispatched. */
  ghost predicate ClosedFrom(a: Attempt, b: Attempt) {
    && b.binding == a.binding && b.planned == a.planned && b.finalRequest == a.finalRequest
    && b.authorization == a.authorization && b.preparedAt == a.preparedAt && b.dispatchAt == a.dispatchAt
    && b.latestRevision == 1
    && b.status == (if a.dispatchAt.Some? then UnknownStatus else NotDispatchedStatus)
  }

  /** The effect of closing the attempts `ids`. */
  ghost predicate Sealing(s: Ledger, t: Ledger, ids: set<nat>) {
    && t == s.(attempts := t.attempts, evidence := t.evidence)
    && t.attempts.Keys == s.attempts.Keys
    && (forall id | id in s.attempts :: if Open(s, id) && id in ids then ClosedFrom(s.attempts[id], t.attempts[id])
                                         else t.attempts[id] == s.attempts[id])
    && (forall key | key in s.evidence :: key in t.evidence && t.evidence[key] == s.evidence[key])
  }

  /** A sealed head always passes its check. */
  lemma SealedHeadPasses(s: Ledger, id: nat, now: nat)
    requires RowsOk(s, now) && id in s.attempts && !Open(s, id)
    ensures SealedHeadOk(s, id, now)
  {
    var a := s.attempts[id];
    assert AttemptOk(s.evidence, id, a, now);
    assert RowOk(a, s.evidence[(id, a.latestRevision)], a.latestRevision, now);
  }

  lemma ClosureBinds(a: Attempt, event: nat, now: nat)
    requires StateOk(a) && a.latestRevision == 0
    ensures ClosableState(a) && TableAccepts(ClosureEvidence(a, event, now))
    ensures BindEvidence(a, ClosureEvidence(a, event, now), Truncated(now)).Ok? <==> Timely(a, now)
  {
  }

  function ClosingStatus(e: Evidence): Status {
    if e.outcome == UnknownOutcome then UnknownStatus else NotDispatchedStatus
  }

  lemma CloseOneOpen(s: Ledger, id: nat, event: nat, now: nat)
    requires id in s.attempts && Open(s, id) && StateOk(s.attempts[id]) && !s.terminal
    ensures var r := CloseOne(s, id, event, now);
      && (r.Ok? <==> Timely(s.attempts[id], now) && FreshEvent(s, event))
      && (r.Ok? ==> var e := ClosureEvidence(s.attempts[id], event, now); r.value == WithHead(s, id, e, ClosingStatus(e)))
  {
    ClosureBinds(s.attempts[id], event, now);
  }

  lemma WithHeadSeals(s: Ledger, id: nat, event: nat, now: nat)
    requires id in s.attempts && Open(s, id) && StateOk(s.attempts[id]) && (id, 1) !in s.evidence
    ensures var e := ClosureEvidence(s.attempts[id], event, now);
      && Sealing(s, WithHead(s, id, e, ClosingStatus(e)), {id})
      && forall other | other != event && FreshEvent(s, other) :: FreshEvent(WithHead(s, id, e, ClosingStatus(e)), other)
  {
  }

  lemma ClosureKeeps(s: Ledger, id: nat, event: nat, now: nat)
    requires RowsOk(s, now) && RestOk(s) && id in s.attempts && Open(s, id)
    requires Timely(s.attempts[id], now) && FreshEvent(s, event)
    ensures var e := ClosureEvidence(s.attempts[id], event, now); var t := WithHead(s, id, e, ClosingStatus(e));
      RowsOk(t, now) && RestOk(t)
  {
    var a := s.attempts[id];
    var e := ClosureEvidence(a, event, now);
    assert AttemptOk(s.evidence, id, a, now);
    ClosureBinds(a, event, now);
    BoundRow(a, e, now);
    SealKeepsInv(s, id, e, ClosingStatus(e), now);
  }

  lemma CloseOneResult(s: Ledger, id: nat, event: nat, now: nat)
    requires RowsOk(s, now) && RestOk(s) && id in s.attempts && (s.terminal ==> !Open(s, id))
    ensures var r := CloseOne(s, id, event, now);
      && (!Open(s, id) ==> r == Ok(s))
      && (Open(s, id) ==> (r.Ok? <==> Timely(s.attempts[id], now) && FreshEvent(s, event)))
      && (r.Ok? ==> RowsOk(r.value, now) && RestOk(r.value) && Sealing(s, r.value, {id}))
      && (r.Ok? && Open(s, id) ==> forall other | other != event && FreshEvent(s, other) :: FreshEvent(r.value, other))
  {
    assert AttemptOk(s.evidence, id, s.attempts[id], now);
    if Open(s, id) {
      CloseOneOpen(s, id, event, now);
      if CloseOne(s, id, event, now).Ok? {
        WithHeadSeals(s, id, event, now);
        ClosureKeeps(s, id, event, now);
      }
    } else {
      SealedHeadPasses(s, id, now);
    }
  }

  lemma SealingComposes(s: Ledger, mid: Ledger, t: Ledger, id: nat, rest: set<nat>)
    requires Sealing(s, mid, {id}) && Sealing(mid, t, rest)
    ensures Sealing(s, t, {id} + rest)
  {
    forall other | other in s.attempts
      ensures if Open(s, other) && other in {id} + rest then ClosedFrom(s.attempts[other], t.attempts[other])
              else t.attempts[other] == s.attempts[other]
    {
      assert other in mid.attempts;
      if Open(s, other) && other == id {
        assert !Open(mid, id);
      }
    }
  }

  /** Event ids generated for a closure are new, and differ from each other. */
  ghost predicate NewEvents(s: Ledger, ids: seq<nat>, events: map<nat, nat>) {
    && (forall id | id in ids :: id in events && FreshEvent(s, events[id]))
    && (forall i, j | 0 <= i < j < |ids| :: events[ids[i]] != events[ids[j]])
  }

  ghost predicate Closing(s: Ledger, ids: seq<nat>, events: map<nat, nat>) {
    && (forall id | id in ids :: id in s.attempts && id in events)
    && (forall i, j | 0 <= i < j < |ids| :: ids[i] != ids[j])
    && (s.terminal ==> forall id | id in ids :: !Open(s, id))
  }

  predicate AllTimely(s: Ledger, ids: seq<nat>, now: nat)
    requires forall id | id in ids :: id in s.attempts
  {
    forall id | id in ids && Open(s, id) :: Timely(s.attempts[id], now)
  }

  function Members(ids: seq<nat>): set<nat> {
    set id | id in ids
  }

  /** After the first attempt the others are as they were. */
  lemma ClosingRest(s: Ledger, mid: Ledger, ids: seq<nat>, events: map<nat, nat>, now: nat)
    requires Closing(s, ids, events) && ids != [] && Sealing(s, mid, {ids[0]})
    ensures Closing(mid, ids[1..], events)
    ensures AllTimely(s, ids, now) <==> (Open(s, ids[0]) ==> Timely(s.attempts[ids[0]], now)) && AllTimely(mid, ids[1..], now)
    ensures Members(ids) == {ids[0]} + Members(ids[1..])
  {
    var rest := ids[1..];
    forall x | x in rest
      ensures x in ids && x != ids[0] && mid.attempts[x] == s.attempts[x]
    {
      var i :| 0 <= i < |rest| && rest[i] == x;
      assert ids[i + 1] == x;
    }
    forall x | x in ids
      ensures x == ids[0] || x in rest
    {
      var i :| 0 <= i < |ids| && ids[i] == x;
      assert i == 0 || rest[i - 1] == x;
    }
  }

  /** The ledger after closing the first attempt, when the whole closure succeeds. */
  lemma FirstClosed(s: Ledger, ids: seq<nat>, events: map<nat, nat>, now: nat) returns (mid: Ledger)
    requires RowsOk(s, now) && RestOk(s) && Closing(s, ids, events) && ids != []
    requires CloseAll(s, ids, events, now).Ok?
    ensures RowsOk(mid, now) && RestOk(mid) && Closing(mid, ids[1..], events) && Sealing(s, mid, {ids[0]})
    ensures CloseAll(mid, ids[1..], events, now) == CloseAll(s, ids, events, now)
    ensures Open(s, ids[0]) ==> Timely(s.attempts[ids[0]], now)
    ensures AllTimely(s, ids, now) <==> (Open(s, ids[0]) ==> Timely(s.attempts[ids[0]], now)) && AllTimely(mid, ids[1..], now)
    ensures Members(ids) == {ids[0]} + Members(ids[1..])
  {
    CloseOneResult(s, ids[0], events[ids[0]], now);
    mid := CloseOne(s, ids[0], events[ids[0]], now).value;
    ClosingRest(s, mid, ids, events, now);
  }

  lemma {:induction false} CloseAllKeeps(s: Ledger, ids: seq<nat>, events: map<nat, nat>, now: nat, t: Ledger)
    requires RowsOk(s, now) && RestOk(s) && Closing(s, ids, events)
    requires CloseAll(s, ids, events, now) == Ok(t)
    ensures RowsOk(t, now) && RestOk(t) && Sealing(s, t, Members(ids)) && AllTimely(s, ids, now)
    decreases |ids|
  {
    if ids != [] {
      var mid := FirstClosed(s, ids, events, now);
      CloseAllKeeps(mid, ids[1..], events, now, t);
      SealingComposes(s, mid, t, ids[0], Members(ids[1..]));
    }
  }

  lemma {:induction false} CloseAllSucceeds(s: Ledger, ids: seq<nat>, events: map<nat, nat>, now: nat)
    requires RowsOk(s, now) && RestOk(s) && Closing(s, ids, events)
    requires NewEvents(s, ids, events) && AllTimely(s, ids, now)
    ensures CloseAll(s, ids, events, now).Ok?
    decreases |ids|
  {
    if ids != [] {
      var one := CloseOne(s, ids[0], events[ids[0]], now);
      assert ids[0] in ids;
      CloseOneResult(s, ids[0], events[ids[0]], now);
      ClosingRest(s, one.value, ids, events, now);
      NewEventsRest(s, one.value, ids, events);
      CloseAllSucceeds(one.value, ids[1..], events, now);
    }
  }

  lemma NewEventsRest(s: Ledger, mid: Ledger, ids: seq<nat>, events: map<nat, nat>)
    requires ids != [] && NewEvents(s, ids, events)
    requires mid == s || forall other | other != events[ids[0]] && FreshEvent(s, other) :: FreshEvent(mid, other)
    ensures NewEvents(mid, ids[1..], events)
  {
    var rest := ids[1..];
    forall i | 0 <= i < |rest|
      ensures FreshEvent(mid, events[rest[i]])
    {
      assert rest[i] == ids[i + 1];
      assert events[ids[0]] != events[ids[i + 1]];
    }
  }

  lemma SealedAll(s: Ledger, now: nat)
    requires RowsOk(s, now) && forall id | id in s.attempts :: !Open(s, id)
    ensures SealedIds(s) == s.attempts.Keys
  {
    forall id | id in s.attempts
      ensures s.attempts[id].sealedAt.Some?
    {
      assert AttemptOk(s.evidence, id, s.attempts[id], now);
    }
  }

  /** Closing every attempt makes every attempt count as sealed. */
  lemma ClosedCounts(s: Ledger, ids: seq<nat>, closed: Ledger, now: nat)
    requires Visits(s, ids) && Sealing(s, closed, Members(ids)) && RowsOk(closed, now)
    ensures Recount(closed).attempts == Recount(closed).sealed
    ensures forall id | id in closed.attempts :: !Open(closed, id)
  {
    forall id | id in closed.attempts
      ensures !Open(closed, id)
    {
      assert id in s.attempts && id in ids;
    }
    SealedAll(closed, now);
    assert |closed.attempts| == |closed.attempts.Keys|;
  }

  /** The attempts counter of a ledger with no attempts to visit. */
  lemma NothingToClose(s: Ledger)
    requires Visits(s, [])
    ensures Recount(s).attempts == 0 && Recount(s).sealed == 0
  {
    forall id
      ensures id !in s.attempts
    {
      assert id in s.attempts <==> id in [];
    }
    assert s.attempts == map[];
    assert SealedIds(s) == {};
  }

  lemma VisitsClosing(s: Ledger, ids: seq<nat>, events: map<nat, nat>)
    requires RestOk(s) && Visits(s, ids) && forall id | id in ids :: id in events
    ensures Closing(s, ids, events)
  {
  }

  /** The final counter check of a closure never fails. */
  lemma ClosureComplete(s: Ledger, ids: seq<nat>, events: map<nat, nat>, now: nat, closed: Ledger)
    requires RowsOk(s, now) && RestOk(s) && s.counters == Recount(s) && Visits(s, ids) && Closing(s, ids, events)
    requires CloseAll(s, ids, events, now) == Ok(closed)
    ensures var counters := if ids == [] then closed.counters else Recount(closed); counters.attempts == counters.sealed
  {
    CloseAllKeeps(s, ids, events, now, closed);
    if ids == [] {
      NothingToClose(s);
    } else {
      ClosedCounts(s, ids, closed, now);
    }
  }

  /**
   Terminal closure succeeds exactly when the caller may terminate and no open attempt
   was stored as later than the closing instant.
   */
  lemma TerminateSucceeds(s: Ledger, authority: Authority, ids: seq<nat>, events: map<nat, nat>, now: nat)
    requires RowsOk(s, now) && RestOk(s) && s.counters == Recount(s) && Visits(s, ids) && NewEvents(s, ids, events)
    ensures Terminate(s, authority, ids, events, now).1.Ok?
            <==> MayTerminate(s, authority, now) && forall id | id in s.attempts && Open(s, id) :: Timely(s.attempts[id], now)
  {
    VisitsClosing(s, ids, events);
    var r := CloseAll(s, ids, events, now);
    assert AllTimely(s, ids, now) <==> forall id | id in s.attempts && Open(s, id) :: Timely(s.attempts[id], now);
    if AllTimely(s, ids, now) {
      CloseAllSucceeds(s, ids, events, now);
      if !s.terminal {
        ClosureComplete(s, ids, events, now, r.value);
      }
    } else if r.Ok? {
      CloseAllKeeps(s, ids, events, now, r.value);
    }
  }

  /** Rows are judged without the run row. */
  lemma SameRows(s: Ledger, t: Ledger, now: nat)
    requires RowsOk(s, now) && t.attempts == s.attempts && t.evidence == s.evidence
    ensures RowsOk(t, now)
  {
  }

  lemma SameRest(s: Ledger, t: Ledger)
    requires RestOk(s) && t.attempts == s.attempts && t.evidence == s.evidence && s.generation <= t.generation
    requires t.terminal && !s.terminal ==> forall id | id in s.attempts :: !Open(s, id)
    ensures RestOk(t)
  {
    assert OrdinalsOk(t.attempts);
    assert EventsDistinct(t);
  }

  lemma EndedKeeps(s: Ledger, authority: Authority, now: nat)
    requires RowsOk(s, now) && RestOk(s) && forall id | id in s.attempts :: !Open(s, id)
    ensures RowsOk(Ended(Recounted(s), authority), now) && RestOk(Ended(Recounted(s), authority))
  {
    SameRows(s, Ended(Recounted(s), authority), now);
    SameRest(s, Ended(Recounted(s), authority));
  }

  lemma EndedCounts(s: Ledger, authority: Authority)
    ensures var t := Ended(Recounted(s), authority); t.counters == Recount(t)
  {
    SameCounters(s, Ended(Recounted(s), authority));
  }

  /** The ledger a successful first closure ends in. */
  lemma TerminateResult(s: Ledger, authority: Authority, ids: seq<nat>, events: map<nat, nat>, now: nat) returns (closed: Ledger)
    requires RowsOk(s, now) && RestOk(s) && s.counters == Recount(s) && Visits(s, ids) && forall id | id in ids :: id in events
    requires !s.terminal && Terminate(s, authority, ids, events, now).1.Ok?
    ensures Terminate(s, authority, ids, events, now).0 == Ended(Recounted(closed), authority)
    ensures RowsOk(closed, now) && RestOk(closed) && Sealing(s, closed, Members(ids))
    ensures forall id | id in closed.attempts :: !Open(closed, id)
  {
    VisitsClosing(s, ids, events);
    closed := CloseAll(s, ids, events, now).value;
    CloseAllKeeps(s, ids, events, now, closed);
    ClosedCounts(s, ids, closed, now);
    if ids == [] {
      assert closed == s;
    }
  }

  /** A terminal run, and a closure that fails, leave every row as it was. */
  lemma TerminateUnchanged(s: Ledger, authority: Authority, ids: seq<nat>, events: map<nat, nat>, now: nat)
    requires Visits(s, ids) && forall id | id in ids :: id in events
    ensures s.terminal || Terminate(s, authority, ids, events, now).1.Err? ==> Terminate(s, authority, ids, events, now).0 == s
  {
  }

  lemma TerminateKeepsInv(s: Ledger, authority: Authority, ids: seq<nat>, events: map<nat, nat>, now: nat)
    requires RowsOk(s, now) && RestOk(s) && s.counters == Recount(s) && Visits(s, ids) && forall id | id in ids :: id in events
    ensures var t := Terminate(s, authority, ids, events, now).0; RowsOk(t, now) && RestOk(t) && t.counters == Recount(t)
  {
    TerminateUnchanged(s, authority, ids, events, now);
    if !s.terminal && Terminate(s, authority, ids, events, now).1.Ok? {
      var closed := TerminateResult(s, authority, ids, events, now);
      EndedKeeps(closed, authority, now);
      EndedCounts(closed, authority);
    }
  }

  /** The first closure seals every attempt: dispatched ones as unknown, the others as not dispatched. */
  lemma TerminateSeals(s: Ledger, authority: Authority, ids: seq<nat>, events: map<nat, nat>, now: nat)
    requires RowsOk(s, now) && RestOk(s) && s.counters == Recount(s) && Visits(s, ids) && forall id | id in ids :: id in events
    requires !s.terminal && Terminate(s, authority, ids, events, now).1.Ok?
    ensures var t := Terminate(s, authority, ids, events, now).0;
      && t.terminal && t.expires.None?
      && t.attempts.Keys == s.attempts.Keys
      && t.counters.sealed == t.counters.attempts == |s.attempts|
      && forall id | id in s.attempts ::
           if Open(s, id) then ClosedFrom(s.attempts[id], t.attempts[id]) && t.attempts[id].sealedAt.Some?
           else t.attempts[id] == s.attempts[id]
  {
    var closed := TerminateResult(s, authority, ids, events, now);
    ClosedCounts(s, ids, closed, now);
    SealedAll(closed, now);
    assert |s.attempts| == |s.attempts.Keys| == |closed.attempts.Keys| == |closed.attempts|;
    forall id | id in s.attempts && Open(s, id)
      ensures closed.attempts[id].sealedAt.Some?
    {
      assert id in SealedIds(closed);
    }
  }

  /** Closing a terminal run succeeds for the lease that holds it and writes nothing. */
  lemma SecondClosureChangesNothing(s: Ledger, authority: Authority, ids: seq<nat>, events: map<nat, nat>, now: nat)
    requires RowsOk(s, now) && RestOk(s) && s.terminal && Visits(s, ids) && forall id | id in ids :: id in events
    ensures var (t, outcome) := Terminate(s, authority, ids, events, now);
      t == s && (outcome.Ok? <==> MayTerminate(s, authority, now))
  {
    VisitsClosing(s, ids, events);
    NothingOpenNothingWritten(s, ids, events, now);
  }

  lemma {:induction false} NothingOpenNothingWritten(s: Ledger, ids: seq<nat>, events: map<nat, nat>, now: nat)
    requires RowsOk(s, now) && Closing(s, ids, events) && s.terminal
    ensures CloseAll(s, ids, events, now) == Ok(s)
    decreases |ids|
  {
    if ids != [] {
      SealedHeadPasses(s, ids[0], now);
      assert forall x | x in ids[1..] :: x in ids;
      NothingOpenNothingWritten(s, ids[1..], events, now);
    }
  }
}
