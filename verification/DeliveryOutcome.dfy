/**
 Delivery against an owner that answers equal requests equally: every delivery of one tool
 call reports the same artifact, and a recovery with a durable selection always finishes.
 */
module DeliveryOutcome {
  import opened Wrappers
  import opened StorageDelivery
  import opened DeliverySafety

  /** The asset an upload becomes, and the artifact a creation command names. */
  datatype Owner = Owner(asset: string -> string, artifact: Command -> string)

  predicate Honest(owner: Owner, call: Call, a: Answer) {
    match call
    case GetStatus(upload, _) => a.Status? && a.upload == upload && a.asset != "" ==> a.asset == owner.asset(upload)
    case CompleteUpload(_, upload, _, _, _) => a.Completed? && a.upload == upload ==> a.asset == owner.asset(upload)
    case CreateArtifact(command, _, _, _, _, _) => a.ArtifactCreated? ==> a.artifact == owner.artifact(command)
    case _ => true
  }

  function AssetOf(owner: Owner, i: Intent): string
    requires !i.Frozen?
  {
    owner.asset(i.upload)
  }

  function ArtifactId(owner: Owner, i: Intent): string
    requires !i.Frozen?
  {
    owner.artifact(ArtifactOf(i.base, AssetOf(owner, i)).command)
  }

  /** The one receipt a tool call can have. */
  function ReceiptOf(owner: Owner, i: Intent): Receipt
    requires !i.Frozen?
  {
    Receipt(ArtifactId(owner, i), AssetOf(owner, i), KindOf(i.base.mime), i.base.digest, i.base.size, i.base.mime)
  }

  predicate CallFits(owner: Owner, i: Intent, call: Call) {
    match call
    case GetScan(asset) => !i.Frozen? && asset == AssetOf(owner, i)
    case CreateArtifact(_, _, _, _, _, _) => !i.Frozen? && call == ArtifactOf(i.base, AssetOf(owner, i))
    case FinalizeArtifact(_, _, _, _) => !i.Frozen? && call == FinalizeOf(i.base, AssetOf(owner, i), ArtifactId(owner, i))
    case _ => true
  }

  /** The asset and artifact a delivery works with are the owner's for the recorded upload. */
  predicate Fits(owner: Owner, w: Worker) {
    match w.pc
    case Checking(call) => w.intent.Some? && CallFits(owner, w.intent.value, call)
    case Sending(call) => w.intent.Some? && CallFits(owner, w.intent.value, call)
    case Awaiting(call) => w.intent.Some? && CallFits(owner, w.intent.value, call)
    case Confirming => w.intent.Some? && !w.intent.value.Frozen? && w.asset == AssetOf(owner, w.intent.value)
    case Done(Delivered(receipt)) => w.intent.Some? && !w.intent.value.Frozen? && receipt == ReceiptOf(owner, w.intent.value)
    case _ => true
  }

  ghost predicate AllFit(owner: Owner, s: System) {
    && (forall id | id in s.workers :: Fits(owner, s.workers[id]))
    && (forall call | call in s.sent :: s.journal.intent.Some? && CallFits(owner, s.journal.intent.value, call))
  }

  lemma StatusFitsOwner(owner: Owner, w: Worker, j: Journal, upload: string, aborting: bool, a: Answer)
    requires WorkerOk(w, j) && w.pc == Awaiting(GetStatus(upload, aborting)) && Honest(owner, w.pc.call, a)
    ensures Fits(owner, AfterAnswer(w, w.pc.call, a))
  {
    var i := w.intent.value;
    if a.Status? && !aborting {
      StatusNext(w, i, a);
      if AfterStatus(w, i, a) == Scanning(w, a.asset) {
        assert StatusFits(Facts(w, i), i, a);
        assert a.asset != "";
      }
    }
  }

  /** The states of a delivery before it knows an asset. */
  predicate Early(w: Worker) {
    match w.pc
    case Checking(call) => w.intent.Some? && (call.GetStatus? || call.CreateUpload? || call.AbortUpload? || call.PutBytes? || call.CompleteUpload?)
    case Reading => true
    case Resuming(_) => true
    case Recording(_, _) => true
    case Done(outcome) => !outcome.Delivered?
    case _ => false
  }

  lemma EarlyFits(owner: Owner, w: Worker)
    requires Early(w)
    ensures Fits(owner, w)
  {
  }

  lemma EnterEarly(w: Worker)
    ensures Early(Enter(w))
  {
  }

  lemma ReadEarly(w: Worker, j: Journal)
    ensures Early(AfterRead(w, j))
  {
  }

  lemma ResumeEarly(w: Worker, read: Intent)
    ensures Early(AfterResume(w, read))
  {
  }

  lemma RecordEarly(w: Worker, proposed: Intent, purpose: Purpose)
    ensures Early(AfterRecord(w, proposed, purpose))
  {
  }

  lemma UploadAnswerEarly(w: Worker, call: Call, a: Answer)
    requires call.CreateUpload? || call.PutBytes? || call.AbortUpload?
    ensures w.intent.None? || Early(AfterAnswer(w, call, a))
  {
  }

  lemma CompletedFits(owner: Owner, w: Worker, j: Journal, a: Answer)
    requires WorkerOk(w, j) && w.pc.Awaiting? && w.pc.call.CompleteUpload? && Honest(owner, w.pc.call, a)
    ensures Fits(owner, AfterAnswer(w, w.pc.call, a))
  {
  }

  lemma ScannedFits(owner: Owner, w: Worker, j: Journal, a: Answer)
    requires WorkerOk(w, j) && Fits(owner, w) && w.pc.Awaiting? && w.pc.call.GetScan?
    ensures Fits(owner, AfterAnswer(w, w.pc.call, a))
  {
  }

  lemma CreatedFits(owner: Owner, w: Worker, j: Journal, a: Answer)
    requires WorkerOk(w, j) && Fits(owner, w) && w.pc.Awaiting? && w.pc.call.CreateArtifact? && Honest(owner, w.pc.call, a)
    ensures Fits(owner, AfterAnswer(w, w.pc.call, a))
  {
  }

  lemma FinalFits(owner: Owner, w: Worker, j: Journal, a: Answer)
    requires WorkerOk(w, j) && Fits(owner, w) && w.pc.Awaiting? && w.pc.call.FinalizeArtifact?
    ensures Fits(owner, AfterAnswer(w, w.pc.call, a))
  {
  }

  lemma AnswerFits(owner: Owner, w: Worker, j: Journal, a: Answer)
    requires WorkerOk(w, j) && Fits(owner, w) && w.pc.Awaiting? && Honest(owner, w.pc.call, a)
    ensures Fits(owner, AfterAnswer(w, w.pc.call, a))
  {
    match w.pc.call
    case GetStatus(upload, aborting) => StatusFitsOwner(owner, w, j, upload, aborting, a);
    case CompleteUpload(_, _, _, _, _) => CompletedFits(owner, w, j, a);
    case GetScan(_) => ScannedFits(owner, w, j, a);
    case CreateArtifact(_, _, _, _, _, _) => CreatedFits(owner, w, j, a);
    case FinalizeArtifact(_, _, _, _) => FinalFits(owner, w, j, a);
    case _ =>
      UploadAnswerEarly(w, w.pc.call, a);
      EarlyFits(owner, AfterAnswer(w, w.pc.call, a));
  }

  lemma MoveFits(owner: Owner, s: System, id: nat)
    requires Inv(s) && AllFit(owner, s) && id in s.workers
    ensures Fits(owner, Move(s, id).workers[id])
  {
    var w := s.workers[id];
    assert WorkerOk(w, s.journal) && Fits(owner, w);
    match w.pc
    case Entering => EnterEarly(w); EarlyFits(owner, Enter(w));
    case Reading => ReadEarly(w, s.journal); EarlyFits(owner, AfterRead(w, s.journal));
    case Resuming(read) => ResumeEarly(w, read); EarlyFits(owner, AfterResume(w, read));
    case Recording(proposed, purpose) => RecordEarly(w, proposed, purpose); EarlyFits(owner, AfterRecord(w, proposed, purpose));
    case _ => LateMoveFits(owner, s, id);
  }

  lemma LateMoveFits(owner: Owner, s: System, id: nat)
    requires id in s.workers && WorkerOk(s.workers[id], s.journal) && Fits(owner, s.workers[id])
    requires var pc := s.workers[id].pc; pc.Checking? || pc.Sending? || pc.Awaiting? || pc.Confirming? || pc.Done?
    ensures Fits(owner, Move(s, id).workers[id])
  {
  }

  lemma SentFits(owner: Owner, s: System, t: System)
    requires AllFit(owner, s) && JournalGrows(s.journal, t.journal) && t.sent == s.sent
    ensures forall call | call in t.sent :: t.journal.intent.Some? && CallFits(owner, t.journal.intent.value, call)
  {
  }

  lemma SendFits(owner: Owner, s: System, id: nat, call: Call)
    requires Inv(s) && AllFit(owner, s) && id in s.workers && s.workers[id].pc == Sending(call)
    ensures s.journal.intent.Some? && CallFits(owner, s.journal.intent.value, call)
  {
    assert WorkerOk(s.workers[id], s.journal);
    assert Fits(owner, s.workers[id]);
  }

  lemma StepFits(owner: Owner, s: System, event: Event)
    requires Inv(s) && AllFit(owner, s)
    requires event.Answered? && event.id in s.workers && s.workers[event.id].pc.Awaiting?
             ==> Honest(owner, s.workers[event.id].pc.call, event.answer)
    ensures AllFit(owner, Step(s, event))
  {
    var t := Step(s, event);
    StepGrows(s, event);
    if t.sent == s.sent {
      SentFits(owner, s, t);
    } else {
      SendFits(owner, s, event.id, s.workers[event.id].pc.call);
    }
    forall id | id in t.workers
      ensures Fits(owner, t.workers[id])
    {
      WorkerFits(owner, s, event, id);
    }
  }

  lemma WorkerFits(owner: Owner, s: System, event: Event, id: nat)
    requires Inv(s) && AllFit(owner, s) && id in Step(s, event).workers
    requires event.Answered? && id == event.id && id in s.workers && s.workers[id].pc.Awaiting?
             ==> Honest(owner, s.workers[id].pc.call, event.answer)
    ensures Fits(owner, Step(s, event).workers[id])
  {
    if id in s.workers {
      assert WorkerOk(s.workers[id], s.journal) && Fits(owner, s.workers[id]);
    }
    if event.Advance? && event.id == id {
      MoveFits(owner, s, id);
    } else if event.Answered? && event.id == id && id in s.workers && s.workers[id].pc.Awaiting? {
      AnswerFits(owner, s.workers[id], s.journal, event.answer);
    }
  }

  ghost predicate HonestRun(owner: Owner, s: System, events: seq<Event>) {
    forall n | 0 <= n < |events| && events[n].Answered? ::
      var before := Run(s, events[..n]);
      events[n].id in before.workers && before.workers[events[n].id].pc.Awaiting?
      ==> Honest(owner, before.workers[events[n].id].pc.call, events[n].answer)
  }

  lemma {:induction false} RunFits(owner: Owner, s: System, events: seq<Event>)
    requires Initial(s) && HonestRun(owner, s, events)
    ensures AllFit(owner, Run(s, events))
  {
    if events != [] {
      var n := |events| - 1;
      var before := events[..n];
      forall k | 0 <= k < n
        ensures before[..k] == events[..k]
      {
      }
      RunFits(owner, s, before);
      RunKeepsInv(s, before);
      StepFits(owner, Run(s, before), events[n]);
    }
  }

  /** However often a tool call is delivered and recovered, there is one receipt: the journaled upload's. */
  lemma OneReceipt(owner: Owner, s: System, events: seq<Event>, id: nat)
    requires Initial(s) && HonestRun(owner, s, events)
    requires id in Run(s, events).workers && Run(s, events).workers[id].pc.Done?
    requires Run(s, events).workers[id].pc.outcome.Delivered?
    ensures var j := Run(s, events).journal;
      && j.intent.Some? && j.intent.value.Selected?
      && Run(s, events).workers[id].pc.outcome.receipt == ReceiptOf(owner, j.intent.value)
  {
    RunFits(owner, s, events);
    RunKeepsInv(s, events);
    var t := Run(s, events);
    assert WorkerOk(t.workers[id], t.journal) && Fits(owner, t.workers[id]);
  }

  /** Every artifact creation, and every finalization, is the same request. */
  lemma OneArtifact(owner: Owner, s: System, events: seq<Event>, a: Call, b: Call)
    requires Initial(s) && HonestRun(owner, s, events) && a in Run(s, events).sent && b in Run(s, events).sent
    ensures a.CreateArtifact? && b.CreateArtifact? ==> a == b
    ensures a.FinalizeArtifact? && b.FinalizeArtifact? ==> a == b
  {
    RunFits(owner, s, events);
  }

  // ----- recovery finishes ------------------------------------------------------------------

  /** An owner that holds the recorded upload, pending or completed, and finds it clean. */
  function Cooperative(owner: Owner, i: Intent, completed: bool, call: Call): Answer
    requires i.Selected?
  {
    match call
    case GetStatus(upload, _) =>
      Status(upload, i.base.digest, i.base.size, i.base.mime,
             if completed then UploadCompleted else UploadPending, if completed then Some(i.source) else None,
             if completed then owner.asset(upload) else "")
    case CompleteUpload(_, upload, _, _, _) => Completed(upload, owner.asset(upload))
    case GetScan(asset) => Scanned(asset, Clean)
    case CreateArtifact(command, asset, digest, kind, title, run) =>
      ArtifactCreated(owner.artifact(command), asset, digest, kind, title, run)
    case FinalizeArtifact(_, asset, artifact, digest) => ArtifactFinal(artifact, asset, digest, true)
    case _ => CallFailed
  }

  lemma RunStep(s: System, events: seq<Event>, event: Event)
    ensures Run(s, events + [event]) == Step(Run(s, events), event)
  {
    assert (events + [event])[..|events|] == events;
  }

  /** Delivery `id` is at `w` in a state that agrees with `s` on lease and journal. */
  predicate At(s: System, events: seq<Event>, id: nat, w: Worker) {
    var t := Run(s, events);
    id in t.workers && t.workers[id] == w && t.generation == s.generation && t.live == s.live && t.journal == s.journal
  }

  /** One owner call: the fence check, the request and the answer. */
  lemma Ask(s: System, events: seq<Event>, id: nat, w: Worker, answer: Answer) returns (after: seq<Event>)
    requires At(s, events, id, w) && Canonical(s, w) && w.pc.Checking?
    ensures At(s, after, id, AfterAnswer(To(w, Awaiting(w.pc.call)), w.pc.call, answer))
  {
    RunStep(s, events, Advance(id));
    RunStep(s, events + [Advance(id)], Advance(id));
    after := events + [Advance(id)] + [Advance(id)];
    assert At(s, after, id, To(w, Awaiting(w.pc.call)));
    RunStep(s, after, Answered(id, answer));
    after := after + [Answered(id, answer)];
  }

  /** What the two artifact answers lead to. */
  lemma ArtifactAnswers(w: Worker, owner: Owner, i: Intent)
    requires i.Selected? && w.intent == Some(i) && Facts(w, i) == i.base && w.asset == AssetOf(owner, i) && ArtifactId(owner, i) != ""
    ensures var create, finalize := ArtifactOf(i.base, w.asset), FinalizeOf(i.base, w.asset, ArtifactId(owner, i));
      && AfterAnswer(w, create, Cooperative(owner, i, false, create)) == To(w, Checking(finalize))
      && AfterAnswer(w, finalize, Cooperative(owner, i, false, finalize)) == To(w, Done(Delivered(ReceiptOf(owner, i))))
  {
  }

  lemma Confirm(s: System, events: seq<Event>, id: nat, w: Worker, i: Intent)
    requires At(s, events, id, w) && Canonical(s, w) && w.pc.Confirming? && w.intent == Some(i)
    ensures At(s, events + [Advance(id)], id, To(w, Checking(ArtifactOf(Facts(w, i), w.asset))))
  {
    RunStep(s, events, Advance(id));
  }

  /** From the clean scan on: confirm, create and finalize the artifact. */
  lemma Finish(s: System, events: seq<Event>, id: nat, w: Worker, owner: Owner, i: Intent) returns (after: seq<Event>)
    requires i.Selected? && At(s, events, id, w) && Canonical(s, w) && w.pc.Confirming?
    requires w.intent == Some(i) && Facts(w, i) == i.base && w.asset == AssetOf(owner, i) && ArtifactId(owner, i) != ""
    ensures At(s, after, id, To(w, Done(Delivered(ReceiptOf(owner, i)))))
  {
    var create, finalize := ArtifactOf(i.base, w.asset), FinalizeOf(i.base, w.asset, ArtifactId(owner, i));
    Confirm(s, events, id, w, i);
    after := events + [Advance(id)];
    ArtifactAnswers(To(w, Awaiting(create)), owner, i);
    ArtifactAnswers(To(w, Awaiting(finalize)), owner, i);
    after := Ask(s, after, id, To(w, Checking(create)), Cooperative(owner, i, false, create));
    after := Ask(s, after, id, To(w, Checking(finalize)), Cooperative(owner, i, false, finalize));
  }

  /** A new recovery reads the journal and asks for the status of the recorded upload. */
  lemma BeginRecovery(s: System, id: nat, request: Base, i: Intent) returns (events: seq<Event>, w: Worker)
    requires Inv(s) && s.live && id !in s.workers && s.journal == Journal(Started, Some(i)) && i.Selected?
    requires SameArguments(request, i.base)
    ensures At(s, events, id, w) && Canonical(s, w) && w.mode == Recover
    ensures w.pc == Checking(GetStatus(i.upload, false)) && w.intent == Some(i) && Facts(w, i) == i.base
  {
    var start := Worker(s.generation, Recover, request, true, true, None, "", 0, Reading);
    events := [Spawn(id, s.generation, Recover, request, true, true)];
    assert events[..0] == [];
    assert At(s, events, id, start);
    RunStep(s, events, Advance(id));
    events := events + [Advance(id)];
    assert At(s, events, id, To(start, Resuming(i)));
    RunStep(s, events, Advance(id));
    events := events + [Advance(id)];
    w := AfterResume(To(start, Resuming(i)), i);
  }

  /**
   Once a source version is durably selected, a recovery alone delivers the artifact,
   without the workspace and whether or not the upload was already completed.
   */
  lemma RecoveryDelivers(s: System, id: nat, request: Base, owner: Owner, i: Intent, completed: bool) returns (events: seq<Event>)
    requires Inv(s) && s.live && id !in s.workers && s.journal == Journal(Started, Some(i)) && i.Selected?
    requires SameArguments(request, i.base) && AssetOf(owner, i) != "" && ArtifactId(owner, i) != ""
    ensures id in Run(s, events).workers && Run(s, events).workers[id].pc == Done(Delivered(ReceiptOf(owner, i)))
    ensures Run(s, events).journal == s.journal
  {
    var w;
    events, w := BeginRecovery(s, id, request, i);
    events := Ask(s, events, id, w, Cooperative(owner, i, completed, w.pc.call));
    if !completed {
      var complete := To(w, Checking(CompleteOf(i)));
      assert At(s, events, id, complete);
      events := Ask(s, events, id, complete, Cooperative(owner, i, completed, complete.pc.call));
    }
    var scanning := Scanning(w, AssetOf(owner, i));
    assert At(s, events, id, scanning);
    events := Ask(s, events, id, scanning, Cooperative(owner, i, completed, scanning.pc.call));
    assert At(s, events, id, To(scanning, Confirming));
    events := Finish(s, events, id, To(scanning, Confirming), owner, i);
  }
}
