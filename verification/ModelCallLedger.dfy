/**
 The ledger of model-call attempts of one run: the rows, and each database transaction
 as a function from the rows before it to the rows after it and its outcome. A
 transaction that fails leaves every row as it was.

 Clock readings are microseconds. Stored instants are milliseconds, which the database
 rounds to (`Stored`) and the closure truncates to (`Truncated`). Digests are injective:
 the digest of an artifact is the artifact.
 */
module ModelCallLedger {
  import opened Wrappers

  const MAX_INT64: nat := 0x7FFF_FFFF_FFFF_FFFF

  datatype Lease = Lease(owner: nat, generation: nat)

  datatype Authorization = NotRequested | Requested(request: nat) | Denied(request: nat) | Granted(request: nat, admission: nat)

  datatype Status =
    | Prepared | AuthorizationPending | AuthorizationDenied | Authorized
    | DispatchStarted | Observed | UnknownStatus | NotDispatchedStatus

  datatype Outcome = NotDispatched | Completed | Failed | Cancelled | UnknownOutcome

  datatype Protocol = OpenAi | OllamaOpenAi

  /** Profile, unit and aggregation have one value each; `counts` holds the reported token counts by name. */
  datatype Usage =
    | Unresolved(rawDigest: Option<nat>)
    | Normalized(rawDigest: Option<nat>, source: Protocol, supported: bool, counts: map<CountName, nat>)

  datatype CountName = InputTotal | OutputTotal | Total | CacheRead | Reasoning

  datatype Classification = Partial | UnknownClass

  datatype Binding = Binding(attempt: nat, call: nat, ordinal: nat, lease: Lease, request: nat)

  datatype Predecessor = Predecessor(event: nat, digest: Evidence)

  datatype Evidence = Evidence(
    event: nat, binding: Binding, planned: nat, verified: Option<nat>, authorization: Authorization,
    outcome: Outcome, sealed: bool, preparedAt: nat, dispatchAt: Option<nat>, usage: Usage,
    revision: nat, predecessor: Option<Predecessor>, observedAt: nat)

  datatype Attempt = Attempt(
    binding: Binding, planned: nat, finalRequest: nat, authorization: Authorization, status: Status,
    preparedAt: nat, dispatchAt: Option<nat>, sealedAt: Option<nat>,
    latestRevision: nat, latest: Option<Evidence>)

  datatype Completeness = NoAttempts | UnknownUsage | PartialUsage | CompleteUsage

  datatype Counters = Counters(attempts: nat, dispatched: nat, sealed: nat, unknown: nat, completeness: Completeness)

  datatype Ledger = Ledger(
    request: nat, owner: nat, generation: nat, expires: Option<nat>, terminal: bool, counters: Counters,
    attempts: map<nat, Attempt>, evidence: map<(nat, nat), Evidence>)

  datatype LedgerError = AuthorityLost | IdentityConflict | InputInvalid | OrdinalExhausted | CheckViolation | UniqueViolation

  datatype Receipt =
    | PreparedCall(ordinal: nat, replayed: bool)
    | Pending(newlyRequested: bool)
    | AuthorizationRecorded(newlyRecorded: bool)
    | Permit(dispatchedAt: nat, newlyStarted: bool)
    | EvidenceReceipt(event: nat, revision: nat, replayedEvidence: bool)
    | Closed
    | LeaseMoved

  type Reply = Result<Receipt, LedgerError>

  function Stored(clock: nat): nat {
    (clock + 500) / 1000
  }

  function Truncated(clock: nat): nat {
    clock / 1000
  }

  // ----- evidence documents -------------------------------------------------------

  predicate TotalsKnown(u: Usage) {
    u.Normalized? && InputTotal in u.counts && OutputTotal in u.counts && Total in u.counts
  }

  /** All three totals are reported under a supported profile: the finest classification a source reaches. */
  function Classify(u: Usage): Classification {
    if TotalsKnown(u) && u.supported then Partial else UnknownClass
  }

  /** A part is not more than the total that includes it. */
  predicate WithinTotal(counts: map<CountName, nat>, part: CountName, total: CountName) {
    part in counts && total in counts ==> counts[part] <= counts[total]
  }

  predicate UsageOk(u: Usage) {
    u.Normalized? ==>
      && (TotalsKnown(u) ==> u.counts[InputTotal] + u.counts[OutputTotal] == u.counts[Total])
      && (u.source == OllamaOpenAi ==> CacheRead !in u.counts && Reasoning !in u.counts)
      && WithinTotal(u.counts, CacheRead, InputTotal)
      && WithinTotal(u.counts, Reasoning, OutputTotal)
  }

  /** What parsing demands of one document by itself. */
  predicate WellFormed(e: Evidence) {
    && e.revision >= 1
    && (e.revision == 1 <==> e.predecessor.None?)
    && (e.predecessor.Some? ==> e.predecessor.value.event != e.event)
    && (e.dispatchAt.Some? ==> e.authorization.Granted?)
    && (e.outcome == NotDispatched ==> e.dispatchAt.None?)
    && (e.outcome in {Completed, Failed} ==> e.dispatchAt.Some?)
    && (e.usage.Normalized? ==> e.dispatchAt.Some?)
    && UsageOk(e.usage)
  }

  /** What the evidence table itself demands of a row. */
  predicate TableAccepts(e: Evidence) {
    && e.sealed
    && (e.usage.Normalized? ==> (TotalsKnown(e.usage) <==> Classify(e.usage) == Partial))
    && (e.outcome == NotDispatched ==> e.usage.Unresolved?)
    && (e.outcome == UnknownOutcome ==> !TotalsKnown(e.usage))
  }

  /** The document repeats the attempt's frozen facts, and was observed between them and `now`. */
  function BindEvidence(a: Attempt, e: Evidence, now: nat): Result<(), LedgerError> {
    if !WellFormed(e) || e.revision > MAX_INT64 || !e.sealed then Err(InputInvalid)
    else if e.binding != a.binding || e.planned != a.planned || e.authorization != a.authorization then Err(IdentityConflict)
    else if e.preparedAt != a.preparedAt || e.dispatchAt != a.dispatchAt then Err(IdentityConflict)
    else if e.observedAt < a.preparedAt || e.observedAt > now then Err(InputInvalid)
    else if a.dispatchAt.Some? && e.observedAt < a.dispatchAt.value then Err(InputInvalid)
    else Ok(())
  }

  /** Nothing known in `previous` is lost or changed in `next`. */
  predicate KeepsKnowledge(previous: Evidence, next: Evidence) {
    && (previous.usage.rawDigest.Some? ==> next.usage.rawDigest == previous.usage.rawDigest)
    && (previous.verified.Some? ==> next.verified == previous.verified)
    && (previous.outcome != UnknownOutcome ==> next.outcome == previous.outcome)
    && next.preparedAt == previous.preparedAt
    && (previous.dispatchAt.Some? ==> next.dispatchAt == previous.dispatchAt)
    && (previous.sealed ==> next.sealed)
    && (previous.authorization.Granted? || previous.authorization.Denied? ==> next.authorization == previous.authorization)
    && (previous.authorization.Requested? ==>
          !next.authorization.NotRequested? && next.authorization.request == previous.authorization.request)
    && (previous.usage.Normalized? ==>
          && next.usage.Normalized?
          && next.usage.source == previous.usage.source
          && next.usage.supported == previous.usage.supported
          && forall n | n in previous.usage.counts :: n in next.usage.counts && next.usage.counts[n] == previous.usage.counts[n])
  }

  predicate Successor(previous: Evidence, next: Evidence) {
    && next.binding == previous.binding
    && next.planned == previous.planned
    && next.revision == previous.revision + 1
    && next.predecessor == Some(Predecessor(previous.event, previous))
    && next.event != previous.event
    && KeepsKnowledge(previous, next)
  }

  // ----- counters -------------------------------------------------------------------

  /** The evidence row the counters join to an attempt: the one at its latest revision. */
  function Head(s: Ledger, id: nat): Option<Evidence>
    requires id in s.attempts
  {
    var key := (id, s.attempts[id].latestRevision);
    if key in s.evidence then Some(s.evidence[key]) else None
  }

  predicate CountsUnknown(s: Ledger, id: nat)
    requires id in s.attempts
  {
    var a, head := s.attempts[id], Head(s, id);
    a.sealedAt.Some? && (
      || head.None?
      || head.value.binding.call != a.binding.call
      || (head.value.outcome != NotDispatched &&
          (head.value.outcome == UnknownOutcome || head.value.usage.Unresolved? || Classify(head.value.usage) == UnknownClass)))
  }

  predicate CountsPartial(s: Ledger, id: nat)
    requires id in s.attempts
  {
    var head := Head(s, id);
    head.Some? && head.value.outcome != NotDispatched && Classify(head.value.usage) == Partial
  }

  function DispatchedIds(s: Ledger): set<nat> {
    set id | id in s.attempts && s.attempts[id].dispatchAt.Some?
  }

  function SealedIds(s: Ledger): set<nat> {
    set id | id in s.attempts && s.attempts[id].sealedAt.Some?
  }

  function UnknownIds(s: Ledger): set<nat> {
    set id | id in s.attempts && CountsUnknown(s, id)
  }

  function PartialIds(s: Ledger): set<nat> {
    set id | id in s.attempts && CountsPartial(s, id)
  }

  /** The full recount over attempts and evidence heads. */
  function Recount(s: Ledger): Counters {
    var total, sealed, unknown := |s.attempts|, |SealedIds(s)|, |UnknownIds(s)|;
    Counters(total, |DispatchedIds(s)|, sealed, unknown,
      if total == 0 then NoAttempts
      else if sealed < total || unknown > 0 then UnknownUsage
      else if |PartialIds(s)| > 0 then PartialUsage
      else CompleteUsage)
  }

  function Recounted(s: Ledger): Ledger {
    s.(counters := Recount(s))
  }

  // ----- transactions ---------------------------------------------------------------

  /** The lease of the command is the run's live lease. */
  predicate Fenced(s: Ledger, lease: Lease, now: nat) {
    s.owner == lease.owner && s.generation == lease.generation && !s.terminal && s.expires.Some? && s.expires.value > now
  }

  datatype PrepareCommand = PrepareCommand(attempt: nat, call: nat, lease: Lease, request: nat, planned: nat, finalRequest: nat)

  function OrdinalsOf(attempts: map<nat, Attempt>, call: nat): set<nat> {
    set id | id in attempts && attempts[id].binding.call == call :: attempts[id].binding.ordinal
  }

  lemma {:induction false} LargestExists(s: set<nat>)
    requires s != {}
    ensures exists m :: m in s && forall x | x in s :: x <= m
    decreases |s|
  {
    var x :| x in s;
    if s != {x} {
      assert s - {x} != {};
      LargestExists(s - {x});
      var m :| m in s - {x} && forall y | y in s - {x} :: y <= m;
      var top := if x > m then x else m;
      forall y | y in s
        ensures y <= top
      {
        assert y == x || y in s - {x};
      }
      assert top in s;
    } else {
      assert x in s && forall y | y in s :: y <= x;
    }
  }

  /** SQL's `max`, with 0 for the missing maximum of no rows. */
  function Largest(s: set<nat>): (m: nat)
    ensures s == {} ==> m == 0
    ensures s != {} ==> m in s
    ensures forall x | x in s :: x <= m
  {
    if s == {} then 0
    else
      LargestExists(s);
      var m :| m in s && forall x | x in s :: x <= m;
      m
  }

  function Prepare(s: Ledger, c: PrepareCommand, now: nat): (Ledger, Reply) {
    if !Fenced(s, c.lease, now) || s.request != c.request then (s, Err(AuthorityLost))
    else if c.attempt in s.attempts then
      var a := s.attempts[c.attempt];
      if a.binding == Binding(c.attempt, c.call, a.binding.ordinal, c.lease, c.request) && a.planned == c.planned && a.finalRequest == c.finalRequest
      then (s, Ok(PreparedCall(a.binding.ordinal, true)))
      else (s, Err(IdentityConflict))
    else
      var largest := Largest(OrdinalsOf(s.attempts, c.call));
      if largest >= MAX_INT64 then (s, Err(OrdinalExhausted))
      else
        var a := Attempt(Binding(c.attempt, c.call, largest + 1, c.lease, c.request), c.planned, c.finalRequest,
                         NotRequested, Prepared, Stored(now), None, None, 0, None);
        (Recounted(s.(attempts := s.attempts[c.attempt := a])), Ok(PreparedCall(largest + 1, false)))
  }

  /** What locking an attempt for a transition checks. */
  function LockAttempt(s: Ledger, id: nat, lease: Lease, now: nat): Result<Attempt, LedgerError> {
    if !Fenced(s, lease, now) || id !in s.attempts then Err(AuthorityLost)
    else if s.attempts[id].binding.lease != lease then Err(IdentityConflict)
    else Ok(s.attempts[id])
  }

  function PutAttempt(s: Ledger, id: nat, a: Attempt): Ledger {
    s.(attempts := s.attempts[id := a])
  }

  function Begin(s: Ledger, id: nat, lease: Lease, request: nat, now: nat): (Ledger, Reply) {
    match LockAttempt(s, id, lease, now)
    case Err(error) => (s, Err(error))
    case Ok(a) =>
      if a.status == Prepared then
        if a.authorization != NotRequested then (s, Err(IdentityConflict))
        else (PutAttempt(s, id, a.(authorization := Requested(request), status := AuthorizationPending)), Ok(Pending(true)))
      else if a.status == AuthorizationPending then
        if a.authorization != Requested(request) then (s, Err(IdentityConflict))
        else (s, Ok(Pending(false)))
      else if !a.authorization.Granted? || a.authorization.request != request then (s, Err(IdentityConflict))
      else (s, Ok(Pending(false)))
  }

  function Grant(s: Ledger, id: nat, lease: Lease, request: nat, admission: nat, expected: Authorization, now: nat): (Ledger, Reply) {
    match LockAttempt(s, id, lease, now)
    case Err(error) => (s, Err(error))
    case Ok(a) =>
      if a.status == AuthorizationPending then
        if a.authorization != Requested(request) || expected != Requested(request) then (s, Err(IdentityConflict))
        else (PutAttempt(s, id, a.(authorization := Granted(request, admission), status := Authorized)), Ok(AuthorizationRecorded(true)))
      else if a.authorization != Granted(request, admission) then (s, Err(IdentityConflict))
      else (s, Ok(AuthorizationRecorded(false)))
  }

  function StartDispatch(s: Ledger, id: nat, lease: Lease, request: nat, admission: nat, now: nat): (Ledger, Reply) {
    match LockAttempt(s, id, lease, now)
    case Err(error) => (s, Err(error))
    case Ok(a) =>
      if a.authorization != Granted(request, admission) then (s, Err(IdentityConflict))
      else if a.status == Authorized then
        (Recounted(PutAttempt(s, id, a.(status := DispatchStarted, dispatchAt := Some(Stored(now))))), Ok(Permit(Stored(now), true)))
      else if a.dispatchAt.Some? then (s, Ok(Permit(a.dispatchAt.value, false)))
      else (s, Err(AuthorityLost))
  }

  predicate FreshEvent(s: Ledger, event: nat) {
    forall key | key in s.evidence :: s.evidence[key].event != event
  }

  /** The status an attempt takes from a newly appended head. */
  function StatusOf(outcome: Outcome): Status {
    if outcome == UnknownOutcome then UnknownStatus else Observed
  }

  function SealAttempt(a: Attempt, e: Evidence, status: Status): Attempt {
    a.(status := status, sealedAt := Some(e.observedAt), latestRevision := e.revision, latest := Some(e))
  }

  function Append(s: Ledger, id: nat, lease: Lease, authorization: Authorization, planned: nat, e: Evidence, now: nat): (Ledger, Reply) {
    if !s.terminal && !Fenced(s, lease, now) then (s, Err(AuthorityLost))
    else if id !in s.attempts then (s, Err(AuthorityLost))
    else
      var a := s.attempts[id];
      if a.binding.lease != lease || a.planned != planned || a.authorization != authorization then (s, Err(IdentityConflict))
      else match BindEvidence(a, e, Truncated(now))
        case Err(error) => (s, Err(error))
        case Ok(_) =>
          if e.revision <= a.latestRevision then (s, ReplayEvidence(s, id, e))
          else if s.terminal then (s, Err(AuthorityLost))
          else if e.revision != a.latestRevision + 1 then (s, Err(IdentityConflict))
          else if !Follows(s, id, e) then (s, Err(IdentityConflict))
          else if !TableAccepts(e) then (s, Err(CheckViolation))
          else if !FreshEvent(s, e.event) then (s, Err(UniqueViolation))
          else
            (Recounted(PutAttempt(s, id, SealAttempt(a, e, StatusOf(e.outcome))).(evidence := s.evidence[(id, e.revision) := e])),
             Ok(EvidenceReceipt(e.event, e.revision, false)))
  }

  /** A first revision needs a dispatched attempt; a later one a head it is the successor of. */
  predicate Follows(s: Ledger, id: nat, e: Evidence)
    requires id in s.attempts
  {
    var a := s.attempts[id];
    if a.latestRevision == 0 then a.status == DispatchStarted && e.revision == 1 && e.predecessor.None?
    else
      && a.status in {Observed, UnknownStatus}
      && (id, a.latestRevision) in s.evidence
      && Successor(s.evidence[(id, a.latestRevision)], e)
  }

  function ReplayEvidence(s: Ledger, id: nat, e: Evidence): Reply {
    if (id, e.revision) in s.evidence && s.evidence[(id, e.revision)] == e then Ok(EvidenceReceipt(e.event, e.revision, true))
    else if (id, e.revision) !in s.evidence && s.terminal then Err(AuthorityLost)
    else Err(IdentityConflict)
  }

  // ----- terminal closure ---------------------------------------------------------------

  /** The document that closes an attempt no evidence was ever appended to. */
  function ClosureEvidence(a: Attempt, event: nat, now: nat): Evidence {
    Evidence(event, a.binding, a.planned, None, a.authorization,
             if a.status == DispatchStarted then UnknownOutcome else NotDispatched,
             true, a.preparedAt, a.dispatchAt, Unresolved(None), 1, None, Truncated(now))
  }

  predicate ClosableState(a: Attempt) {
    && (match a.status
        case Prepared => a.authorization.NotRequested?
        case AuthorizationPending => a.authorization.Requested?
        case Authorized => a.authorization.Granted?
        case DispatchStarted => a.authorization.Granted?
        case _ => false)
    && (a.status == DispatchStarted <==> a.dispatchAt.Some?)
  }

  /** The sealed head of an attempt still says what the attempt row says. */
  predicate SealedHeadOk(s: Ledger, id: nat, now: nat)
    requires id in s.attempts
  {
    var a, head := s.attempts[id], Head(s, id);
    head.Some? && (
      var e := head.value;
      && BindEvidence(a, e, Truncated(now)).Ok?
      && e.revision == a.latestRevision
      && a.latest == Some(e)
      && a.sealedAt == Some(e.observedAt)
      && a.status == if e.outcome == UnknownOutcome then UnknownStatus
                     else if e.outcome == NotDispatched then
                       (if a.authorization.Denied? then AuthorizationDenied else NotDispatchedStatus)
                     else Observed)
  }

  /** Closing one attempt: a sealed head is checked, an open attempt gets its closing document. */
  function CloseOne(s: Ledger, id: nat, event: nat, now: nat): Result<Ledger, LedgerError>
    requires id in s.attempts
  {
    var a := s.attempts[id];
    if a.latestRevision > 0 then
      if SealedHeadOk(s, id, now) then Ok(s) else Err(IdentityConflict)
    else if s.terminal || !ClosableState(a) then Err(IdentityConflict)
    else
      var e := ClosureEvidence(a, event, now);
      var _ :- BindEvidence(a, e, Truncated(now));
      if !FreshEvent(s, event) then Err(UniqueViolation)
      else
        var status := if e.outcome == UnknownOutcome then UnknownStatus else NotDispatchedStatus;
        Ok(PutAttempt(s, id, SealAttempt(a, e, status)).(evidence := s.evidence[(id, 1) := e]))
  }

  /** Closing attempts in order; `events` supplies the generated event ids. */
  function CloseAll(s: Ledger, ids: seq<nat>, events: map<nat, nat>, now: nat): Result<Ledger, LedgerError>
    requires forall id | id in ids :: id in s.attempts && id in events
    decreases |ids|
  {
    if ids == [] then Ok(s)
    else
      var next :- CloseOne(s, ids[0], events[ids[0]], now);
      CloseAll(next, ids[1..], events, now)
  }

  /** Closing a run that is already terminal checks its heads and inserts nothing. */
  lemma {:induction false} TerminalWritesNothing(s: Ledger, ids: seq<nat>, events: map<nat, nat>, now: nat)
    requires s.terminal && forall id | id in ids :: id in s.attempts && id in events
    ensures CloseAll(s, ids, events, now).Ok? ==> CloseAll(s, ids, events, now).value == s
    decreases |ids|
  {
    if ids != [] && CloseOne(s, ids[0], events[ids[0]], now).Ok? {
      TerminalWritesNothing(s, ids[1..], events, now);
    }
  }

  /** The attempts a closure visits: every attempt of the run, each once. */
  ghost predicate Visits(s: Ledger, ids: seq<nat>) {
    && (forall id :: id in ids <==> id in s.attempts)
    && forall i, j | 0 <= i < j < |ids| :: ids[i] != ids[j]
  }

  /** Who commits the terminal state: the executing lease, or a command or quarantine that takes the run over. */
  datatype Authority = Execution(lease: Lease) | Takeover(owner: nat)

  predicate MayTerminate(s: Ledger, authority: Authority, now: nat) {
    authority.Execution? ==>
      && s.owner == authority.lease.owner && s.generation == authority.lease.generation
      && (!s.terminal ==> s.expires.Some? && Truncated(s.expires.value) > Truncated(now))
  }

  function Ended(s: Ledger, authority: Authority): Ledger {
    var ended := s.(terminal := true, expires := None);
    if authority.Execution? then ended else ended.(owner := authority.owner, generation := s.generation + 1)
  }

  /** Committing the terminal state, or replaying a commit already made. */
  function Terminate(s: Ledger, authority: Authority, ids: seq<nat>, events: map<nat, nat>, now: nat): (Ledger, Reply)
    requires Visits(s, ids) && forall id | id in ids :: id in events
  {
    if !MayTerminate(s, authority, now) then (s, Err(AuthorityLost))
    else match CloseAll(s, ids, events, now)
      case Err(error) => (s, Err(error))
      case Ok(closed) =>
        if s.terminal then (s, Ok(Closed))
        else
          var counted := if ids == [] then closed else Recounted(closed);
          if counted.counters.attempts != counted.counters.sealed then (s, Err(IdentityConflict))
          else (Ended(counted, authority), Ok(Closed))
  }

  // ----- the lease ------------------------------------------------------------------------

  function Renew(s: Ledger, lease: Lease, expires: nat, now: nat): Ledger {
    if Fenced(s, lease, now) then s.(expires := Some(expires)) else s
  }

  function Pause(s: Ledger, lease: Lease, now: nat): Ledger {
    if Fenced(s, lease, now) then s.(expires := None) else s
  }

  /** A paused run is picked up by a new generation. */
  function Adopt(s: Ledger, owner: nat, expires: nat): Ledger {
    if !s.terminal && s.expires.None? then s.(owner := owner, generation := s.generation + 1, expires := Some(expires)) else s
  }

  /** A run whose lease has expired is taken over by a new generation. */
  function Reclaim(s: Ledger, owner: nat, expires: nat, now: nat): Ledger {
    if !s.terminal && s.expires.Some? && s.expires.value <= now
    then s.(owner := owner, generation := s.generation + 1, expires := Some(expires)) else s
  }
}
