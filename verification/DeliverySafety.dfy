/**
 What holds over every interleaving of deliveries for one tool call: the journal only
 grows, every completion and creation sent to the owner is the journaled one, and with an
 owner that answers equal requests equally there is one artifact.
 */
module DeliverySafety {
  import opened Wrappers
  import opened StorageDelivery

  // ----- the invariant -----------------------------------------------------------------

  /** `i` is recorded, possibly with more stages by now. */
  predicate Recorded(j: Journal, i: Intent) {
    j.intent.Some? && Extends(i, j.intent.value)
  }

  /** A call a delivery that knows `i` may have in hand. */
  predicate CallOk(w: Worker, i: Intent, call: Call) {
    match call
    case GetStatus(upload, aborting) => !i.Frozen? && upload == i.upload && (aborting ==> w.mode == Publish)
    case CreateUpload(_) => w.mode == Publish && !i.Selected? && call == CreateOf(i.base)
    case AbortUpload(_, upload) => w.mode == Publish && !i.Frozen? && upload == i.upload
    case PutBytes(upload) => w.mode == Publish && i.Admitted? && upload == i.upload
    case CompleteUpload(_, _, _, _, _) => i.Selected? && call == CompleteOf(i)
    case GetScan(asset) => i.Selected? && asset == w.asset
    case CreateArtifact(_, _, _, _, _, _) => i.Selected? && call == ArtifactOf(i.base, w.asset)
    case FinalizeArtifact(_, _, artifact, _) => i.Selected? && call == FinalizeOf(i.base, w.asset, artifact)
  }

  predicate PcOk(w: Worker, j: Journal) {
    match w.pc
    case Entering => w.intent.None?
    case Reading => w.intent.None?
    case Resuming(read) => w.mode == Recover && w.intent.None? && Recorded(j, read)
    case Recording(proposed, purpose) =>
      && w.mode == Publish && proposed.base == w.request
      && (match purpose
          case First => proposed.Frozen? || Recorded(j, proposed)
          case Admission(_) => proposed.Admitted? && w.intent.Some? && !w.intent.value.Selected? && Extends(w.intent.value, proposed)
          case Selection =>
            proposed.Selected? && w.intent.Some? && w.intent.value.Admitted? && Extends(w.intent.value, proposed)
            && proposed.complete == CommandFor(proposed.base, CompleteFields(proposed.base, proposed.upload, proposed.source)))
    case Checking(call) => w.intent.Some? && CallOk(w, w.intent.value, call)
    case Sending(call) => w.intent.Some? && CallOk(w, w.intent.value, call)
    case Awaiting(call) => w.intent.Some? && CallOk(w, w.intent.value, call)
    case Confirming => w.intent.Some? && w.intent.value.Selected?
    case Done(outcome) => outcome.Delivered? ==> w.intent.Some? && w.intent.value.Selected?
  }

  predicate WorkerOk(w: Worker, j: Journal) {
    && PcOk(w, j)
    && (w.intent.Some? ==> Recorded(j, w.intent.value) && Facts(w, w.intent.value) == w.intent.value.base)
    && (w.mode == Publish && !w.pc.Entering? && !w.pc.Done? ==> w.request.mime != "")
  }

  /** What the journal must already say for a call to have been sent. */
  predicate SentOk(j: Journal, call: Call) {
    match call
    case GetStatus(upload, _) => j.intent.Some? && !j.intent.value.Frozen? && upload == j.intent.value.upload
    case CreateUpload(_) => j.intent.Some? && call == CreateOf(j.intent.value.base)
    case AbortUpload(_, upload) => j.intent.Some? && !j.intent.value.Frozen? && upload == j.intent.value.upload
    case PutBytes(upload) => j.intent.Some? && !j.intent.value.Frozen? && upload == j.intent.value.upload
    case CompleteUpload(_, _, _, _, _) => j.intent.Some? && j.intent.value.Selected? && call == CompleteOf(j.intent.value)
    case _ => j.intent.Some? && j.intent.value.Selected?
  }

  ghost predicate Inv(s: System) {
    && (s.journal.intent.Some? ==> IntentOk(s.journal.intent.value) && s.journal.intent.value.base.mime != "" && s.journal.status != Absent)
    && (forall id | id in s.workers :: WorkerOk(s.workers[id], s.journal))
    && (forall call | call in s.sent :: SentOk(s.journal, call))
  }

  // ----- the journal only grows --------------------------------------------------------------

  predicate JournalGrows(j: Journal, k: Journal) {
    && (j.intent.Some? ==> k.intent.Some? && Extends(j.intent.value, k.intent.value))
    && (j.status == Finished ==> k == j)
    && (j.status == Started ==> k.status != Absent)
  }

  lemma GrowthKeepsWorker(w: Worker, j: Journal, k: Journal)
    requires WorkerOk(w, j) && JournalGrows(j, k)
    ensures WorkerOk(w, k)
  {
  }

  lemma GrowthKeepsSent(call: Call, j: Journal, k: Journal)
    requires SentOk(j, call) && JournalGrows(j, k)
    ensures SentOk(k, call)
  {
  }

  /** Whatever happens, no recorded fact is lost or changed. */
  lemma StepGrows(s: System, event: Event)
    requires Inv(s)
    ensures JournalGrows(s.journal, Step(s, event).journal)
  {
    if event.Advance? && event.id in s.workers {
      assert WorkerOk(s.workers[event.id], s.journal);
    }
  }

  // ----- each transition keeps the delivery's own invariant ---------------------------------------

  lemma EnterKeeps(w: Worker, j: Journal)
    requires WorkerOk(w, j) && w.pc.Entering?
    ensures WorkerOk(Enter(w), j)
  {
  }

  lemma ReadKeeps(w: Worker, j: Journal)
    requires WorkerOk(w, j) && w.pc.Reading? && w.intent.None?
    ensures WorkerOk(AfterRead(w, j), j)
  {
  }

  lemma ResumeKeeps(w: Worker, j: Journal, read: Intent)
    requires WorkerOk(w, j) && w.pc == Resuming(read) && w.mode == Recover
    ensures WorkerOk(AfterResume(w, read), j)
  {
  }

  lemma RecordKeeps(w: Worker, j: Journal, proposed: Intent, purpose: Purpose)
    requires WorkerOk(w, j) && w.pc == Recording(proposed, purpose) && Accepts(j, proposed)
    ensures WorkerOk(AfterRecord(w, proposed, purpose), j.(intent := Some(proposed)))
  {
  }

  function Scanning(w: Worker, asset: string): Worker {
    w.(asset := asset, polls := 0, pc := Checking(GetScan(asset)))
  }

  /** The only ways on from a status answer. */
  lemma StatusNext(w: Worker, i: Intent, a: Answer)
    requires !i.Frozen? && a.Status?
    ensures var next := AfterStatus(w, i, a);
      || next == Fail(w)
      || next == To(w, Done(Nothing))
      || (i.Selected? && next == To(w, Checking(CompleteOf(i))))
      || (i.Selected? && next == Scanning(w, a.asset))
      || (w.mode == Publish && !i.Selected? && next == To(w, Checking(CreateOf(w.request))))
  {
  }

  lemma StatusKeeps(w: Worker, j: Journal, i: Intent, a: Answer)
    requires WorkerOk(w, j) && w.pc.Awaiting? && w.intent == Some(i) && !i.Frozen? && a.Status?
    ensures WorkerOk(AfterStatus(w, i, a), j)
  {
    StatusNext(w, i, a);
  }

  lemma ScanKeeps(w: Worker, j: Journal, asset: string, a: Answer)
    requires WorkerOk(w, j) && w.pc == Awaiting(GetScan(asset))
    ensures WorkerOk(AfterAnswer(w, GetScan(asset), a), j)
  {
    ScanNext(w, asset, a);
  }

  /** The only ways on from a scan answer. */
  lemma ScanNext(w: Worker, asset: string, a: Answer)
    requires w.intent.Some?
    ensures var next := AfterAnswer(w, GetScan(asset), a);
      next == Fail(w) || next == To(w, Confirming) || next == w.(polls := w.polls + 1, pc := Checking(GetScan(asset)))
  {
  }

  lemma UploadAnswerKeeps(w: Worker, j: Journal, a: Answer)
    requires WorkerOk(w, j) && w.pc.Awaiting? && (w.pc.call.CreateUpload? || w.pc.call.PutBytes? || w.pc.call.CompleteUpload?)
    requires w.mode == Publish || w.pc.call.CompleteUpload?
    ensures WorkerOk(AfterAnswer(w, w.pc.call, a), j)
  {
  }

  lemma CreatedKeeps(w: Worker, j: Journal, a: Answer)
    requires WorkerOk(w, j) && w.pc.Awaiting? && w.pc.call.CreateArtifact?
    ensures WorkerOk(AfterAnswer(w, w.pc.call, a), j)
  {
  }

  lemma FinalKeeps(w: Worker, j: Journal, a: Answer)
    requires WorkerOk(w, j) && w.pc.Awaiting? && w.pc.call.FinalizeArtifact?
    ensures WorkerOk(AfterAnswer(w, w.pc.call, a), j)
  {
  }

  lemma AnswerKeeps(w: Worker, j: Journal, a: Answer)
    requires WorkerOk(w, j) && w.pc.Awaiting?
    ensures WorkerOk(AfterAnswer(w, w.pc.call, a), j)
  {
    var i := w.intent.value;
    match w.pc.call
    case GetStatus(upload, aborting) =>
      if !aborting && a.Status? {
        StatusKeeps(w, j, i, a);
      }
    case GetScan(asset) => ScanKeeps(w, j, asset, a);
    case AbortUpload(_, _) =>
    case CreateArtifact(_, _, _, _, _, _) => CreatedKeeps(w, j, a);
    case FinalizeArtifact(_, _, _, _) => FinalKeeps(w, j, a);
    case _ => UploadAnswerKeeps(w, j, a);
  }

  // ----- every step ----------------------------------------------------------------------------

  /** Replacing one delivery, with a journal that has only grown. */
  lemma PutKeepsInv(s: System, id: nat, w: Worker, k: Journal)
    requires Inv(s) && JournalGrows(s.journal, k) && WorkerOk(w, k)
    requires k.intent.Some? ==> IntentOk(k.intent.value) && k.intent.value.base.mime != "" && k.status != Absent
    ensures Inv(Put(s, id, w).(journal := k))
  {
    forall other | other in s.workers && other != id
      ensures WorkerOk(s.workers[other], k)
    {
      GrowthKeepsWorker(s.workers[other], s.journal, k);
    }
    forall call | call in s.sent
      ensures SentOk(k, call)
    {
      GrowthKeepsSent(call, s.journal, k);
    }
  }

  lemma SameJournal(s: System, id: nat, w: Worker)
    requires Inv(s) && WorkerOk(w, s.journal)
    ensures Inv(Put(s, id, w))
  {
    PutKeepsInv(s, id, w, s.journal);
    assert Put(s, id, w).(journal := s.journal) == Put(s, id, w);
  }

  lemma FailKeeps(w: Worker, j: Journal)
    requires WorkerOk(w, j)
    ensures WorkerOk(Fail(w), j)
  {
  }

  lemma RecordingKeepsInv(s: System, id: nat, proposed: Intent, purpose: Purpose)
    requires Inv(s) && id in s.workers && s.workers[id].pc == Recording(proposed, purpose) && Accepts(s.journal, proposed)
    ensures Inv(Put(s, id, AfterRecord(s.workers[id], proposed, purpose)).(journal := s.journal.(intent := Some(proposed))))
  {
    RecordKeeps(s.workers[id], s.journal, proposed, purpose);
    PutKeepsInv(s, id, AfterRecord(s.workers[id], proposed, purpose), s.journal.(intent := Some(proposed)));
  }

  /** A delivery that may send a call knows enough of the journal for it. */
  lemma SendKeepsInv(s: System, id: nat, call: Call)
    requires Inv(s) && id in s.workers && s.workers[id].pc == Sending(call)
    ensures Inv(Put(s, id, To(s.workers[id], Awaiting(call))).(sent := s.sent + [call]))
  {
    var w := s.workers[id];
    assert WorkerOk(w, s.journal);
    SameJournal(s, id, To(w, Awaiting(call)));
    assert SentOk(s.journal, call);
  }

  lemma ConfirmKeeps(w: Worker, j: Journal)
    requires WorkerOk(w, j) && w.pc.Confirming?
    ensures WorkerOk(To(w, Checking(ArtifactOf(Facts(w, w.intent.value), w.asset))), j)
  {
  }

  lemma CheckKeeps(w: Worker, j: Journal, call: Call)
    requires WorkerOk(w, j) && w.pc == Checking(call)
    ensures WorkerOk(To(w, Sending(call)), j)
  {
  }

  lemma MoveKeepsInv(s: System, id: nat)
    requires Inv(s) && id in s.workers
    ensures Inv(Move(s, id))
  {
    var w := s.workers[id];
    assert WorkerOk(w, s.journal);
    FailKeeps(w, s.journal);
    SameJournal(s, id, Fail(w));
    match w.pc
    case Entering =>
      EnterKeeps(w, s.journal);
      SameJournal(s, id, Enter(w));
    case Reading =>
      ReadKeeps(w, s.journal);
      SameJournal(s, id, AfterRead(w, s.journal));
    case Resuming(read) =>
      ResumeKeeps(w, s.journal, read);
      SameJournal(s, id, AfterResume(w, read));
    case Recording(proposed, purpose) =>
      if Accepts(s.journal, proposed) {
        RecordingKeepsInv(s, id, proposed, purpose);
      }
    case Checking(call) =>
      CheckKeeps(w, s.journal, call);
      SameJournal(s, id, To(w, Sending(call)));
    case Sending(call) => SendKeepsInv(s, id, call);
    case Confirming =>
      ConfirmKeeps(w, s.journal);
      SameJournal(s, id, To(w, Checking(ArtifactOf(Facts(w, w.intent.value), w.asset))));
    case _ =>
  }

  lemma RowKeepsInv(s: System, k: Journal)
    requires Inv(s) && JournalGrows(s.journal, k)
    requires k.intent.Some? ==> IntentOk(k.intent.value) && k.intent.value.base.mime != "" && k.status != Absent
    ensures Inv(s.(journal := k))
  {
    forall id | id in s.workers
      ensures WorkerOk(s.workers[id], k)
    {
      GrowthKeepsWorker(s.workers[id], s.journal, k);
    }
    forall call | call in s.sent
      ensures SentOk(k, call)
    {
      GrowthKeepsSent(call, s.journal, k);
    }
  }

  lemma StepKeepsInv(s: System, event: Event)
    requires Inv(s)
    ensures Inv(Step(s, event))
  {
    match event
    case Spawn(id, generation, mode, request, authentic, bytesMatch) =>
      SameJournal(s, id, Worker(generation, mode, request, authentic, bytesMatch, None, "", 0, if mode == Publish then Entering else Reading));
    case Advance(id) =>
      if id in s.workers {
        MoveKeepsInv(s, id);
      }
    case Answered(id, answer) =>
      if id in s.workers && s.workers[id].pc.Awaiting? {
        AnswerKeeps(s.workers[id], s.journal, answer);
        SameJournal(s, id, AfterAnswer(s.workers[id], s.workers[id].pc.call, answer));
      }
    case StartRow(_) =>
      if s.journal.status == Absent {
        RowKeepsInv(s, Journal(Started, None));
      }
    case FinishRow(_) =>
      if s.journal.status == Started {
        RowKeepsInv(s, s.journal.(status := Finished));
      }
    case _ =>
  }

  /** A delivery of another generation, or of a lease that is gone, writes nothing and sends no new call. */
  lemma StaleDeliveryIsFenced(s: System, id: nat)
    requires id in s.workers && (s.workers[id].generation != s.generation || !s.live)
    ensures Move(s, id).journal == s.journal
    ensures Move(s, id).workers[id].pc.Sending? ==> s.workers[id].pc.Sending?
    ensures Move(s, id).sent != s.sent ==> s.workers[id].pc.Sending?
  {
  }

  // ----- whole runs ------------------------------------------------------------------------------

  predicate Initial(s: System) {
    s.journal == Journal(Absent, None) && s.workers == map[] && s.sent == []
  }

  function Run(s: System, events: seq<Event>): System {
    if events == [] then s else Step(Run(s, events[..|events| - 1]), events[|events| - 1])
  }

  lemma {:induction false} RunKeepsInv(s: System, events: seq<Event>)
    requires Initial(s)
    ensures Inv(Run(s, events))
  {
    if events != [] {
      RunKeepsInv(s, events[..|events| - 1]);
      StepKeepsInv(Run(s, events[..|events| - 1]), events[|events| - 1]);
    }
  }

  lemma GrowsTransitive(a: Journal, b: Journal, c: Journal)
    requires JournalGrows(a, b) && JournalGrows(b, c)
    ensures JournalGrows(a, c)
  {
  }

  /** Across any crashes, retries and takeovers the journal only grows. */
  lemma {:induction false} JournalOnlyGrows(s: System, events: seq<Event>, n: nat)
    requires Initial(s) && n <= |events|
    ensures JournalGrows(Run(s, events[..n]).journal, Run(s, events).journal)
    decreases |events|
  {
    if n < |events| {
      var before := events[..|events| - 1];
      JournalOnlyGrows(s, before, n);
      assert before[..n] == events[..n];
      RunKeepsInv(s, before);
      StepGrows(Run(s, before), events[|events| - 1]);
      GrowsTransitive(Run(s, events[..n]).journal, Run(s, before).journal, Run(s, events).journal);
    } else {
      assert events[..n] == events;
    }
  }

  /** Every completion ever sent is the journaled one: same upload, same source version, same command. */
  lemma CompletionsAreJournaled(s: System, events: seq<Event>, call: Call)
    requires Initial(s) && call in Run(s, events).sent && call.CompleteUpload?
    ensures var j := Run(s, events).journal;
      && j.intent.Some? && j.intent.value.Selected?
      && call == CompleteOf(j.intent.value)
      && call.command == CommandFor(j.intent.value.base, CompleteUploadFields(call.upload, call.digest, call.size, call.source))
      && SourceOk(call.source) && call.upload != ""
  {
    RunKeepsInv(s, events);
  }

  /** So any two completions are one and the same request, whoever sent them and when. */
  lemma OneCompletion(s: System, events: seq<Event>, a: Call, b: Call)
    requires Initial(s) && a in Run(s, events).sent && b in Run(s, events).sent
    requires a.CompleteUpload? && b.CompleteUpload?
    ensures a == b
  {
    CompletionsAreJournaled(s, events, a);
    CompletionsAreJournaled(s, events, b);
  }

  /** The same for the creation of the upload and for the upload that bytes are put to. */
  lemma OneCreationOneTarget(s: System, events: seq<Event>, a: Call, b: Call)
    requires Initial(s) && a in Run(s, events).sent && b in Run(s, events).sent
    ensures a.CreateUpload? && b.CreateUpload? ==> a == b
    ensures a.PutBytes? && b.PutBytes? ==> a == b
  {
    RunKeepsInv(s, events);
  }

  /** Nothing is completed, scanned or published before the selected source version is durable. */
  lemma SelectionComesFirst(s: System, events: seq<Event>, call: Call)
    requires Initial(s) && call in Run(s, events).sent
    ensures !call.CreateUpload? ==> Run(s, events).journal.intent.Some? && !Run(s, events).journal.intent.value.Frozen?
    ensures call.CompleteUpload? || call.GetScan? || call.CreateArtifact? || call.FinalizeArtifact?
            ==> Run(s, events).journal.intent.value.Selected?
  {
    RunKeepsInv(s, events);
  }
}
