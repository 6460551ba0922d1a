/**
 What the rows of a reachable ledger say: the evidence chain of an attempt only gains
 knowledge, the completeness label has a plain meaning, and ordinals number the attempts
 of a call.
 */
module LedgerMeaning {
  import opened Wrappers
  import opened ModelCallLedger
  import opened LedgerSafety
  import opened LedgerRuns

  // ----- the evidence chain ------------------------------------------------------------

  lemma KeepsKnowledgeTransitive(a: Evidence, b: Evidence, c: Evidence)
    requires KeepsKnowledge(a, b) && KeepsKnowledge(b, c)
    ensures KeepsKnowledge(a, c)
  {
  }

  /** Between any two revisions of an attempt nothing that was known is lost or changed. */
  lemma {:induction false} ChainKeepsKnowledge(s: Ledger, clock: nat, id: nat, r: nat, q: nat)
    requires RowsOk(s, clock) && id in s.attempts && 1 <= r <= q <= s.attempts[id].latestRevision
    ensures (id, r) in s.evidence && (id, q) in s.evidence
    ensures KeepsKnowledge(s.evidence[(id, r)], s.evidence[(id, q)])
    decreases q
  {
    var a := s.attempts[id];
    assert AttemptOk(s.evidence, id, a, clock);
    if r < q {
      ChainKeepsKnowledge(s, clock, id, r, q - 1);
      assert Successor(s.evidence[(id, q - 1)], s.evidence[(id, q)]);
      KeepsKnowledgeTransitive(s.evidence[(id, r)], s.evidence[(id, q - 1)], s.evidence[(id, q)]);
    }
  }

  /** The chain can be walked back from the head: revisions are 1..latest and each names the row before it. */
  lemma ChainIsLinked(s: Ledger, clock: nat, id: nat, r: nat)
    requires RowsOk(s, clock) && id in s.attempts
    ensures (id, r) in s.evidence <==> 1 <= r <= s.attempts[id].latestRevision
    ensures (id, r) in s.evidence ==>
      var e := s.evidence[(id, r)];
      && e.revision == r && e.binding == s.attempts[id].binding
      && (r == 1 <==> e.predecessor.None?)
      && (r > 1 ==> (id, r - 1) in s.evidence
                    && e.predecessor == Some(Predecessor(s.evidence[(id, r - 1)].event, s.evidence[(id, r - 1)])))
  {
    var a := s.attempts[id];
    assert AttemptOk(s.evidence, id, a, clock);
    if 1 <= r <= a.latestRevision {
      assert RowOk(a, s.evidence[(id, r)], r, clock);
      if r > 1 {
        assert Successor(s.evidence[(id, r - 1)], s.evidence[(id, r)]);
      }
    }
  }

  /** An appended document never says the call was not dispatched. */
  lemma AppendedWasDispatched(s: Ledger, id: nat, lease: Lease, authorization: Authorization, planned: nat, e: Evidence, now: nat)
    requires RowsOk(s, now) && Append(s, id, lease, authorization, planned, e, now).0 != s
    ensures e.outcome != NotDispatched && e.dispatchAt.Some?
    ensures s.attempts[id].status in {DispatchStarted, Observed, UnknownStatus}
  {
    AppendCases(s, id, lease, authorization, planned, e, now, Append(s, id, lease, authorization, planned, e, now).0);
    assert AttemptOk(s.evidence, id, s.attempts[id], now);
  }

  // ----- later evidence resolves, never unresolves ------------------------------------------

  /** A usage report that is classified stays classified when only knowledge is added. */
  lemma ClassifiedStays(previous: Evidence, next: Evidence)
    requires KeepsKnowledge(previous, next)
    requires previous.outcome != UnknownOutcome && Classify(previous.usage) == Partial
    ensures next.outcome == previous.outcome && Classify(next.usage) == Partial
  {
  }

  lemma UnknownNeverReturns(s: Ledger, id: nat, e: Evidence, status: Status, now: nat, other: nat)
    requires RowsOk(s, now) && id in s.attempts && s.attempts[id].latestRevision > 0
    requires Successor(s.evidence[(id, s.attempts[id].latestRevision)], e) && e.revision == s.attempts[id].latestRevision + 1
    requires other in s.attempts && CountsUnknown(WithHead(s, id, e, status), other)
    ensures CountsUnknown(s, other)
  {
    assert AttemptOk(s.evidence, id, s.attempts[id], now) && AttemptOk(s.evidence, other, s.attempts[other], now);
    if other != id {
      assert Head(WithHead(s, id, e, status), other) == Head(s, other);
    } else if !CountsUnknown(s, id) {
      var previous := s.evidence[(id, s.attempts[id].latestRevision)];
      if previous.outcome != NotDispatched {
        ClassifiedStays(previous, e);
      }
    }
  }

  lemma SubsetSize<T>(a: set<T>, b: set<T>)
    requires a <= b
    ensures |a| <= |b|
  {
    assert b == a + (b - a);
  }

  /** Replacing a head by a valid successor never raises the number of unknown attempts. */
  lemma LaterEvidenceResolves(s: Ledger, id: nat, lease: Lease, authorization: Authorization, planned: nat, e: Evidence, now: nat)
    requires Inv(s, now) && id in s.attempts && s.attempts[id].latestRevision > 0
    requires Append(s, id, lease, authorization, planned, e, now).1 == Ok(EvidenceReceipt(e.event, e.revision, false))
    ensures var t := Append(s, id, lease, authorization, planned, e, now).0; t.counters.unknown <= s.counters.unknown
  {
    var t := Append(s, id, lease, authorization, planned, e, now).0;
    var put := WithHead(s, id, e, StatusOf(e.outcome));
    AppendCases(s, id, lease, authorization, planned, e, now, t);
    SameCounters(put, t);
    UnknownShrinks(s, id, e, StatusOf(e.outcome), now);
    SubsetSize(UnknownIds(put), UnknownIds(s));
  }

  lemma UnknownShrinks(s: Ledger, id: nat, e: Evidence, status: Status, now: nat)
    requires RowsOk(s, now) && id in s.attempts && s.attempts[id].latestRevision > 0
    requires (id, s.attempts[id].latestRevision) in s.evidence
    requires Successor(s.evidence[(id, s.attempts[id].latestRevision)], e) && e.revision == s.attempts[id].latestRevision + 1
    ensures UnknownIds(WithHead(s, id, e, status)) <= UnknownIds(s)
  {
    forall other | other in UnknownIds(WithHead(s, id, e, status))
      ensures other in UnknownIds(s)
    {
      assert other in s.attempts;
      UnknownNeverReturns(s, id, e, status, now, other);
    }
  }

  // ----- the completeness label ------------------------------------------------------------------

  /** The head of an attempt says that the call completed its accounting. */
  ghost predicate Settled(s: Ledger, id: nat)
    requires id in s.attempts
  {
    var head := Head(s, id);
    head.Some? && head.value.outcome != UnknownOutcome
    && (head.value.outcome == NotDispatched || Classify(head.value.usage) == Partial)
  }

  lemma SettledIs(s: Ledger, clock: nat, id: nat)
    requires RowsOk(s, clock) && id in s.attempts
    ensures Settled(s, id) <==> s.attempts[id].sealedAt.Some? && !CountsUnknown(s, id)
    ensures CountsPartial(s, id) && Settled(s, id) ==> s.attempts[id].dispatchAt.Some?
    ensures Settled(s, id) ==> (CountsPartial(s, id) <==> s.attempts[id].dispatchAt.Some?)
  {
    var a := s.attempts[id];
    assert AttemptOk(s.evidence, id, a, clock);
    if a.latestRevision > 0 {
      assert RowOk(a, s.evidence[(id, a.latestRevision)], a.latestRevision, clock);
    } else {
      assert (id, 0) !in s.evidence;
    }
  }

  lemma AllSettled(s: Ledger, clock: nat)
    requires RowsOk(s, clock)
    ensures (forall id | id in s.attempts :: Settled(s, id))
            <==> |SealedIds(s)| == |s.attempts| && |UnknownIds(s)| == 0
  {
    assert SealedIds(s) <= s.attempts.Keys && |s.attempts.Keys| == |s.attempts|;
    forall id | id in s.attempts
      ensures Settled(s, id) <==> id in SealedIds(s) && id !in UnknownIds(s)
    {
      SettledIs(s, clock, id);
    }
    if forall id | id in s.attempts :: Settled(s, id) {
      assert SealedIds(s) == s.attempts.Keys;
      assert UnknownIds(s) == {};
    }
    if |SealedIds(s)| == |s.attempts| {
      SameSize(SealedIds(s), s.attempts.Keys);
    }
  }

  lemma SameSize<T>(a: set<T>, b: set<T>)
    requires a <= b && |a| == |b|
    ensures a == b
  {
    assert b == a + (b - a);
  }

  /**
   The cached label in plain words. In particular a run is labelled complete only when
   no attempt was dispatched at all: a dispatched attempt is partial at best.
   */
  lemma LabelMeaning(s: Ledger, clock: nat)
    requires Inv(s, clock)
    ensures s.counters.completeness.NoAttempts? <==> s.attempts == map[]
    ensures s.counters.completeness.UnknownUsage? <==> exists id :: id in s.attempts && !Settled(s, id)
    ensures s.counters.completeness.PartialUsage? <==>
      (forall id | id in s.attempts :: Settled(s, id)) && exists id :: id in s.attempts && s.attempts[id].dispatchAt.Some?
    ensures s.counters.completeness.CompleteUsage? <==>
      s.attempts != map[] && forall id | id in s.attempts :: Settled(s, id) && s.attempts[id].dispatchAt.None?
  {
    AllSettled(s, clock);
    LabelCases(s);
    SubsetSize(SealedIds(s), s.attempts.Keys);
    assert |s.attempts.Keys| == |s.attempts|;
    if forall id | id in s.attempts :: Settled(s, id) {
      forall id | id in s.attempts
        ensures id in PartialIds(s) <==> s.attempts[id].dispatchAt.Some?
      {
        SettledIs(s, clock, id);
      }
      if PartialIds(s) != {} {
        var id :| id in PartialIds(s);
        assert s.attempts[id].dispatchAt.Some?;
      }
    }
  }

  lemma LabelCases(s: Ledger)
    requires s.counters == Recount(s)
    ensures s.attempts == map[] <==> |s.attempts| == 0
    ensures s.counters.completeness ==
      if s.attempts == map[] then NoAttempts
      else if |SealedIds(s)| < |s.attempts| || |UnknownIds(s)| > 0 then UnknownUsage
      else if PartialIds(s) != {} then PartialUsage else CompleteUsage
  {
    if |s.attempts| == 0 {
      assert s.attempts == map[];
    }
  }

  // ----- the table constraints -----------------------------------------------------------------

  /** The CHECK of the run row on the cached counters. */
  predicate RunRowOk(c: Counters) {
    && c.dispatched <= c.attempts && c.sealed <= c.attempts && c.unknown <= c.sealed
    && match c.completeness
       case NoAttempts => c.attempts == c.dispatched == c.sealed == c.unknown == 0
       case UnknownUsage => c.attempts > 0 && (c.sealed < c.attempts || c.unknown > 0)
       case _ => c.attempts > 0 && c.sealed == c.attempts && c.unknown == 0
  }

  /** The CHECKs of an attempt row. */
  predicate AttemptRowOk(a: Attempt) {
    && a.binding.ordinal > 0
    && (if a.latestRevision == 0 then a.latest.None? && a.sealedAt.None? else a.latest.Some? && a.sealedAt.Some?)
    && (match a.status
        case Prepared => a.authorization.NotRequested? && a.dispatchAt.None? && a.latestRevision == 0
        case AuthorizationPending => a.authorization.Requested? && a.dispatchAt.None? && a.latestRevision == 0
        case AuthorizationDenied => a.authorization.Denied? && a.dispatchAt.None? && a.latestRevision > 0
        case Authorized => a.authorization.Granted? && a.dispatchAt.None? && a.latestRevision == 0
        case DispatchStarted => a.authorization.Granted? && a.dispatchAt.Some? && a.latestRevision == 0
        case NotDispatchedStatus => !a.authorization.Denied? && a.dispatchAt.None? && a.latestRevision > 0
        case _ => a.authorization.Granted? && a.dispatchAt.Some? && a.latestRevision > 0)
    && (a.dispatchAt.Some? ==> a.dispatchAt.value >= a.preparedAt)
    && (a.sealedAt.Some? ==> a.sealedAt.value >= a.preparedAt)
    && (a.sealedAt.Some? && a.dispatchAt.Some? ==> a.sealedAt.value >= a.dispatchAt.value)
  }

  /** The CHECKs of an evidence row. */
  predicate EvidenceRowOk(e: Evidence) {
    e.revision > 0 && (e.revision == 1 <==> e.predecessor.None?) && TableAccepts(e)
  }

  /** Every row of a reachable ledger meets the constraints of its table, so no update of a step violates one. */
  lemma TableConstraintsHold(s: Ledger, clock: nat)
    requires Inv(s, clock)
    ensures RunRowOk(s.counters)
    ensures forall id | id in s.attempts :: AttemptRowOk(s.attempts[id])
    ensures forall key | key in s.evidence :: EvidenceRowOk(s.evidence[key])
  {
    CountersInOrder(s);
    forall id | id in s.attempts
      ensures AttemptRowOk(s.attempts[id])
    {
      AttemptRowHolds(s, clock, id);
    }
    forall key | key in s.evidence
      ensures EvidenceRowOk(s.evidence[key])
    {
      EvidenceRowHolds(s, clock, key);
    }
  }

  lemma CountersInOrder(s: Ledger)
    requires s.counters == Recount(s)
    ensures RunRowOk(s.counters)
  {
    assert |s.attempts.Keys| == |s.attempts|;
    SubsetSize(DispatchedIds(s), s.attempts.Keys);
    SubsetSize(SealedIds(s), s.attempts.Keys);
    SubsetSize(UnknownIds(s), SealedIds(s));
  }

  lemma AttemptRowHolds(s: Ledger, clock: nat, id: nat)
    requires RowsOk(s, clock) && OrdinalsOk(s.attempts) && id in s.attempts
    ensures AttemptRowOk(s.attempts[id])
  {
    var a := s.attempts[id];
    assert AttemptOk(s.evidence, id, a, clock);
    if a.latestRevision > 0 {
      assert RowOk(a, s.evidence[(id, a.latestRevision)], a.latestRevision, clock);
    }
  }

  lemma EvidenceRowHolds(s: Ledger, clock: nat, key: (nat, nat))
    requires RowsOk(s, clock) && key in s.evidence
    ensures EvidenceRowOk(s.evidence[key])
  {
    var a := s.attempts[key.0];
    assert AttemptOk(s.evidence, key.0, a, clock);
    assert (key.0, key.1) in s.evidence;
    assert RowOk(a, s.evidence[(key.0, key.1)], key.1, clock);
  }

  /**
   An append that passes every validation fails in the table exactly when the document has
   known totals that the outcome or the profile leaves unclassified.
   */
  lemma TableRefusesUnclassified(s: Ledger, id: nat, lease: Lease, authorization: Authorization, planned: nat, e: Evidence, now: nat)
    requires RowsOk(s, now) && Fenced(s, lease, now) && id in s.attempts && FreshEvent(s, e.event)
    requires var a := s.attempts[id];
      && a.binding.lease == lease && a.planned == planned && a.authorization == authorization
      && BindEvidence(a, e, Truncated(now)).Ok? && e.revision == a.latestRevision + 1 && Follows(s, id, e)
    ensures var r := Append(s, id, lease, authorization, planned, e, now).1;
      && (r.Ok? || r == Err(CheckViolation))
      && (r == Err(CheckViolation) <==>
            TotalsKnown(e.usage) && (e.outcome == UnknownOutcome || !e.usage.supported))
  {
    assert AttemptOk(s.evidence, id, s.attempts[id], now);
  }

  const HOLDER := Lease(7, 1)

  /** A run just claimed: no attempt and no evidence yet. */
  const CLAIMED := Ledger(0, 7, 1, Some(9000), false, Counters(0, 0, 0, 0, NoAttempts), map[], map[])
  const ONE_CALL := PrepareCommand(3, 4, HOLDER, 0, 5, 6)

  /** A run whose only attempt was prepared, authorized and dispatched at time 0. */
  function OneDispatched(): (Ledger, seq<Reply>) {
    var prepared := Prepare(CLAIMED, ONE_CALL, 0);
    var begun := Begin(prepared.0, 3, HOLDER, 9, 0);
    var granted := Grant(begun.0, 3, HOLDER, 9, 10, Requested(9), 0);
    var started := StartDispatch(granted.0, 3, HOLDER, 9, 10, 0);
    (started.0, [prepared.1, begun.1, granted.1, started.1])
  }

  /** Its first evidence: all three totals are known, the outcome is not. */
  const UNCLASSIFIED := Evidence(
    8, Binding(3, 4, 1, HOLDER, 0), 5, None, Granted(9, 10), UnknownOutcome, true, 0, Some(0),
    Normalized(None, OpenAi, true, map[InputTotal := 1, OutputTotal := 1, Total := 2]), 1, None, 0)

  lemma OneDispatchedRow()
    ensures OneDispatched().1 == [Ok(PreparedCall(1, false)), Ok(Pending(true)), Ok(AuthorizationRecorded(true)), Ok(Permit(0, true))]
    ensures var s := OneDispatched().0;
      && Fenced(s, HOLDER, 0) && s.evidence == map[] && 3 in s.attempts
      && s.attempts[3] == Attempt(Binding(3, 4, 1, HOLDER, 0), 5, 6, Granted(9, 10), DispatchStarted, 0, Some(0), None, 0, None)
  {
    assert OrdinalsOf(CLAIMED.attempts, 4) == {};
    var prepared := Prepare(CLAIMED, ONE_CALL, 0);
    assert prepared.1 == Ok(PreparedCall(1, false));
    assert prepared.0.attempts[3] == Attempt(Binding(3, 4, 1, HOLDER, 0), 5, 6, NotRequested, Prepared, 0, None, None, 0, None);
  }

  lemma OneDispatchedReached()
    ensures Reached(OneDispatched().0, 0)
  {
    var s := CLAIMED;
    StartReached(s, 0);
    StepReached(s, DoPrepare(ONE_CALL), 0);
    s := Prepare(s, ONE_CALL, 0).0;
    StepReached(s, DoBegin(3, HOLDER, 9), 0);
    s := Begin(s, 3, HOLDER, 9, 0).0;
    StepReached(s, DoGrant(3, HOLDER, 9, 10, Requested(9)), 0);
    s := Grant(s, 3, HOLDER, 9, 10, Requested(9), 0).0;
    StepReached(s, DoDispatch(3, HOLDER, 9, 10), 0);
  }

  /** A reachable ledger and a document that passes every validation and is refused by its table. */
  lemma UnclassifiedRefused()
    ensures var s := OneDispatched().0;
      && Reached(s, 0)
      && BindEvidence(s.attempts[3], UNCLASSIFIED, 0) == Ok(()) && Follows(s, 3, UNCLASSIFIED) && FreshEvent(s, UNCLASSIFIED.event)
      && Append(s, 3, HOLDER, Granted(9, 10), 5, UNCLASSIFIED, 0) == (s, Err(CheckViolation))
  {
    OneDispatchedReached();
    OneDispatchedRow();
    assert WellFormed(UNCLASSIFIED);
    assert TotalsKnown(UNCLASSIFIED.usage) && !TableAccepts(UNCLASSIFIED);
  }

  /**
   An attempt prepared in the same half millisecond as the closure blocks it, in a reachable
   ledger: the database rounds 1.5 ms up to 2 ms and the closure truncates it to 1 ms.
   */
  lemma RoundedTimeBlocksClosure()
    ensures var (s, outcome) := Prepare(CLAIMED, ONE_CALL, 1500);
      && outcome == Ok(PreparedCall(1, false))
      && Reached(s, 1500)
      && Visits(s, [3])
      && Terminate(s, Execution(HOLDER), [3], map[3 := 8], 1500) == (s, Err(InputInvalid))
  {
    StartReached(CLAIMED, 1500);
    StepReached(CLAIMED, DoPrepare(ONE_CALL), 1500);
    assert OrdinalsOf(CLAIMED.attempts, 4) == {};
    var (s, outcome) := Prepare(CLAIMED, ONE_CALL, 1500);
    assert outcome == Ok(PreparedCall(1, false));
    assert s.attempts == map[3 := s.attempts[3]];
    var a := s.attempts[3];
    assert a.preparedAt == 2 && Truncated(1500) == 1;
    assert BindEvidence(a, ClosureEvidence(a, 8, 1500), 1) == Err(InputInvalid);
    assert CloseOne(s, 3, 8, 1500) == Err(InputInvalid);
    assert CloseAll(s, [3], map[3 := 8], 1500) == Err(InputInvalid);
  }

  // ----- ordinals -------------------------------------------------------------------------------

  /** The attempts of one call. */
  function AttemptsOf(attempts: map<nat, Attempt>, call: nat): set<nat> {
    set id | id in attempts && attempts[id].binding.call == call
  }

  /** The numbers 1..n. */
  function UpTo(n: nat): (r: set<nat>)
    ensures |r| == n && forall o :: o in r <==> 1 <= o <= n
  {
    if n == 0 then {} else UpTo(n - 1) + {n}
  }

  lemma {:induction false} ImageSize(ids: set<nat>, attempts: map<nat, Attempt>)
    requires forall id | id in ids :: id in attempts
    requires forall x, y | x in ids && y in ids && attempts[x].binding.ordinal == attempts[y].binding.ordinal :: x == y
    ensures |set id | id in ids :: attempts[id].binding.ordinal| == |ids|
    decreases |ids|
  {
    var image := set id | id in ids :: attempts[id].binding.ordinal;
    if ids != {} {
      var x :| x in ids;
      var rest := ids - {x};
      ImageSize(rest, attempts);
      var smaller := set id | id in rest :: attempts[id].binding.ordinal;
      assert image == smaller + {attempts[x].binding.ordinal};
    } else {
      assert image == {};
    }
  }

  /** The ordinals of a call are exactly 1..n, where n is the number of its attempts, each used once. */
  lemma OrdinalsNumberAttempts(s: Ledger, clock: nat, call: nat)
    requires Inv(s, clock)
    ensures OrdinalsOf(s.attempts, call) == UpTo(|AttemptsOf(s.attempts, call)|)
  {
    OrdinalsAreRange(s.attempts, call);
    OrdinalsAreImage(s.attempts, call);
  }

  /** Distinct ordinals are as many as the attempts. */
  lemma OrdinalsAreImage(attempts: map<nat, Attempt>, call: nat)
    requires OrdinalsOk(attempts)
    ensures |OrdinalsOf(attempts, call)| == |AttemptsOf(attempts, call)|
  {
    var ids := AttemptsOf(attempts, call);
    assert OrdinalsOf(attempts, call) == set id | id in ids :: attempts[id].binding.ordinal;
    ImageSize(ids, attempts);
  }

  lemma OrdinalsAreRange(attempts: map<nat, Attempt>, call: nat)
    requires OrdinalsOk(attempts)
    ensures OrdinalsOf(attempts, call) == UpTo(Largest(OrdinalsOf(attempts, call)))
  {
    var used := OrdinalsOf(attempts, call);
    var n := Largest(used);
    if used != {} {
      var top :| top in attempts && attempts[top].binding.call == call && attempts[top].binding.ordinal == n;
      forall o: nat | 1 <= o <= n
        ensures o in used
      {
        assert o in OrdinalsOf(attempts, attempts[top].binding.call);
      }
    }
  }

  // ----- after the end --------------------------------------------------------------------------

  /** Once a run is terminal, no later step of any kind changes an attempt, an evidence row or a counter. */
  lemma TerminalIsFrozen(run: Run, i: nat, j: nat)
    requires ValidRun(run) && i <= j < |run.states| && run.states[i].terminal
    ensures run.states[j].terminal
    ensures run.states[j].attempts == run.states[i].attempts && run.states[j].evidence == run.states[i].evidence
    ensures run.states[j].counters == run.states[i].counters
  {
    RunGrows(run, i, j);
  }

  /** From half a millisecond after the last step on, closing any reachable run succeeds for whoever may terminate it. */
  lemma ClosureSucceedsSoon(run: Run, i: nat, authority: Authority, ids: seq<nat>, events: map<nat, nat>, last: nat, now: nat)
    requires ValidRun(run) && i < |run.states| && (i > 0 ==> run.clock[i - 1] <= last) && last + 500 <= now
    requires Visits(run.states[i], ids) && NewEvents(run.states[i], ids, events)
    ensures Terminate(run.states[i], authority, ids, events, now).1.Ok? <==> MayTerminate(run.states[i], authority, now)
  {
    var s := run.states[i];
    RunKeepsInv(run, i, last);
    RunKeepsInv(run, i, now);
    forall id | id in s.attempts && Open(s, id)
      ensures Timely(s.attempts[id], now)
    {
      assert AttemptOk(s.evidence, id, s.attempts[id], last);
      assert Stored(last) <= Truncated(now);
    }
    TerminateSucceeds(s, authority, ids, events, now);
  }
}
