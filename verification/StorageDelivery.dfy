/**
 Delivery of one artifact for one tool call, as an interleaving of deliveries.

 Every await of a delivery is a state of its own, so a delivery can crash, lose its lease
 or be overtaken between any two of them. The only shared memory is the tool journal,
 which accepts a write from the current lease only. The owner's answers are arbitrary.
 A digest is modelled by the value digested, so command identities are terms.
 */
module StorageDelivery {
  import opened Wrappers

  // ----- intents and commands ---------------------------------------------------------

  /** What is frozen when a delivery starts. */
  datatype Base = Base(
    run: string, session: string, tenant: string, subject: string, toolCall: string,
    path: string, title: string, note: string, mime: string, size: nat, digest: string)

  datatype Fields =
    | CreateUploadFields(filename: string, mime: string, size: nat, digest: string)
    | CompleteUploadFields(upload: string, digest: string, size: nat, source: string)
    | AbortUploadFields(upload: string)
    | CreateArtifactFields(asset: string, digest: string, kind: Kind, title: string, run: string)
    | FinalizeArtifactFields(asset: string, artifact: string, digest: string)

  /** A command is identified by its run, tool call and stage; its request digest covers the fields. */
  datatype Command = Command(run: string, toolCall: string, fields: Fields)

  datatype Intent =
    | Frozen(base: Base)
    | Admitted(base: Base, upload: string)
    | Selected(base: Base, upload: string, source: string, complete: Command)

  datatype Kind = Document | Code | Image | Audio | Video | Archive | Data | Other

  function Top(mime: string): string {
    if mime == "" || mime[0] == '/' then "" else [mime[0]] + Top(mime[1..])
  }

  function KindOf(mime: string): Kind {
    if Top(mime) == "image" then Image
    else if Top(mime) == "audio" then Audio
    else if Top(mime) == "video" then Video
    else if mime in {"application/zip", "application/x-tar", "application/gzip"} then Archive
    else if mime in {"application/json", "text/csv"} then Data
    else if "text/x-" <= mime || mime in {"text/javascript", "application/javascript"} then Code
    else if Top(mime) == "text" || mime in {
      "application/pdf", "application/rtf", "application/msword",
      "application/vnd.openxmlformats-officedocument.wordprocessingml.document",
      "application/vnd.oasis.opendocument.text", "application/vnd.ms-powerpoint",
      "application/vnd.openxmlformats-officedocument.presentationml.presentation"} then Document
    else Other
  }

  function AfterSlash(path: string): (r: string)
    ensures |r| <= |path|
  {
    if path == "" || path[|path| - 1] == '/' then "" else AfterSlash(path[..|path| - 1]) + [path[|path| - 1]]
  }

  /** The last component of a path that is neither empty nor a dot. */
  function FileName(path: string): string {
    var tail := AfterSlash(path);
    if tail != "" && tail != "." then tail
    else if |tail| == |path| then ""
    else FileName(path[..|path| - |tail| - 1])
  }

  function CommandFor(base: Base, fields: Fields): Command {
    Command(base.run, base.toolCall, fields)
  }

  function Stage(i: Intent): nat {
    if i.Frozen? then 0 else if i.Admitted? then 1 else 2
  }

  /** The white space that is not a control character. */
  predicate Blank(c: char) {
    c in {' ', '\U{0085}', '\U{00A0}', '\U{1680}', '\U{2028}', '\U{2029}', '\U{202F}', '\U{205F}', '\U{3000}'}
    || '\U{2000}' <= c <= '\U{200A}'
  }

  predicate SourceOk(source: string) {
    && source != "" && |source| <= 512 && source != "null"
    && (exists k :: 0 <= k < |source| && !Blank(source[k]))
    && forall k :: 0 <= k < |source| ==> source[k] as int >= 32 && source[k] as int != 127
  }

  /** What the journal demands of a document before it looks at the row. */
  predicate IntentOk(i: Intent) {
    && (!i.Frozen? ==> i.upload != "")
    && (i.Selected? ==> SourceOk(i.source) && i.complete == CommandFor(i.base, CompleteFields(i.base, i.upload, i.source)))
  }

  function CompleteFields(base: Base, upload: string, source: string): Fields {
    CompleteUploadFields(upload, base.digest, base.size, source)
  }

  /** Every fact of `prior` is in `next`. */
  predicate Extends(prior: Intent, next: Intent) {
    && next.base == prior.base
    && Stage(prior) <= Stage(next)
    && (!prior.Frozen? ==> next.upload == prior.upload)
    && (prior.Selected? ==> next == prior)
  }

  // ----- the journal ------------------------------------------------------------------

  datatype RowStatus = Absent | Started | Finished

  /** `intent` is the row's document while it is started; a finished row no longer shows it. */
  datatype Journal = Journal(status: RowStatus, intent: Option<Intent>)

  /** Keep-first: a write adds at most one stage and repeats everything already there. */
  predicate Accepts(j: Journal, proposed: Intent) {
    && IntentOk(proposed)
    && j.status == Started
    && (match j.intent
        case None => proposed.Frozen?
        case Some(prior) => Extends(prior, proposed) && Stage(proposed) <= Stage(prior) + 1)
  }

  // ----- calls and answers --------------------------------------------------------------

  datatype Call =
    | GetStatus(upload: string, aborting: bool)
    | CreateUpload(command: Command)
    | AbortUpload(command: Command, upload: string)
    | PutBytes(upload: string)
    | CompleteUpload(command: Command, upload: string, digest: string, size: nat, source: string)
    | GetScan(asset: string)
    | CreateArtifact(command: Command, asset: string, digest: string, kind: Kind, title: string, run: string)
    | FinalizeArtifact(command: Command, asset: string, artifact: string, digest: string)

  datatype UploadState = UploadPending | UploadCompleted | UploadOther

  datatype ScanState = ScanPending | Clean | Rejected

  datatype Reference = MissingReference | InvalidReference | UsableReference

  datatype Answer =
    | Status(upload: string, digest: string, size: nat, mime: string, state: UploadState, source: Option<string>, asset: string)
    | Created(upload: string, reference: Reference)
    | Aborted
    | Stored(version: string)
    | PutFailed(referenceInvalid: bool)
    | Completed(upload: string, asset: string)
    | Scanned(asset: string, scan: ScanState)
    | ArtifactCreated(artifact: string, asset: string, digest: string, kind: Kind, title: string, run: string)
    | ArtifactFinal(artifact: string, asset: string, digest: string, final: bool)
    | CallFailed

  // ----- deliveries ----------------------------------------------------------------------

  datatype Mode = Publish | Recover

  datatype Receipt = Receipt(artifact: string, asset: string, kind: Kind, digest: string, size: nat, mime: string)

  datatype Outcome = Delivered(receipt: Receipt) | Nothing | Failure

  datatype Purpose = First | Admission(reference: Reference) | Selection

  datatype Pc =
    | Entering
    | Reading
    | Resuming(read: Intent)
    | Recording(proposed: Intent, purpose: Purpose)
    | Checking(call: Call)
    | Sending(call: Call)
    | Awaiting(call: Call)
    | Confirming
    | Done(outcome: Outcome)

  /**
   `authentic`: the request's identity is the run's, and the run has a user and a session.
   `bytesMatch`: the content has the digest the request names.
   `intent` is the part of the journal this delivery knows to be recorded.
   */
  datatype Worker = Worker(
    generation: nat, mode: Mode, request: Base, authentic: bool, bytesMatch: bool,
    intent: Option<Intent>, asset: string, polls: nat, pc: Pc)

  datatype System = System(generation: nat, live: bool, journal: Journal, workers: map<nat, Worker>, sent: seq<Call>)

  function To(w: Worker, pc: Pc): Worker {
    w.(pc := pc)
  }

  function Fail(w: Worker): Worker {
    To(w, Done(Failure))
  }

  function CompleteOf(i: Intent): Call
    requires i.Selected?
  {
    CompleteUpload(i.complete, i.upload, i.base.digest, i.base.size, i.source)
  }

  function CreateOf(base: Base): Call {
    CreateUpload(CommandFor(base, CreateUploadFields(FileName(base.path), base.mime, base.size, base.digest)))
  }

  function ArtifactOf(base: Base, asset: string): Call {
    var fields := CreateArtifactFields(asset, base.digest, KindOf(base.mime), base.title, base.run);
    CreateArtifact(CommandFor(base, fields), asset, base.digest, KindOf(base.mime), base.title, base.run)
  }

  function FinalizeOf(base: Base, asset: string, artifact: string): Call {
    FinalizeArtifact(CommandFor(base, FinalizeArtifactFields(asset, artifact, base.digest)), asset, artifact, base.digest)
  }

  /** The lease and identity check in front of every owner call. */
  predicate Canonical(s: System, w: Worker) {
    w.generation == s.generation && s.live && w.authentic
  }

  /** Local checks of a publication once its run is known. */
  function Enter(w: Worker): Worker {
    if !w.bytesMatch || w.request.title == "" || w.request.mime == "" || w.request.path == "" || w.request.path[0] != '/'
    then Fail(w) else To(w, Reading)
  }

  function AfterRead(w: Worker, j: Journal): Worker {
    match w.mode
    case Publish =>
      if j.status == Absent then To(w, Recording(Frozen(w.request), First))
      else if j.status != Started then Fail(w)
      else if j.intent.None? then To(w, Recording(Frozen(w.request), First))
      else if j.intent.value.base != w.request then Fail(w)
      else To(w, Recording(j.intent.value, First))
    case Recover =>
      if j.status == Absent then To(w, Done(Nothing))
      else if j.status != Started then Fail(w)
      else if j.intent.None? then To(w, Done(Nothing))
      else To(w, Resuming(j.intent.value))
  }

  /** The tool arguments repeat the journal; size, digest and type come from the journal alone. */
  predicate SameArguments(request: Base, base: Base) {
    request == base.(mime := request.mime, size := request.size, digest := request.digest)
  }

  function AfterResume(w: Worker, read: Intent): Worker {
    if !SameArguments(w.request, read.base) then Fail(w)
    else if read.base.mime == "" then Fail(w)
    else if read.Frozen? then To(w, Done(Nothing))
    else if read.upload == "" then Fail(w)
    else if read.Selected? && !SourceOk(read.source) then Fail(w)
    else if read.Selected? && read.complete != CommandFor(read.base, CompleteFields(read.base, read.upload, read.source)) then Fail(w)
    else w.(intent := Some(read), pc := Checking(GetStatus(read.upload, false)))
  }

  /** The journal accepted `proposed`. */
  function AfterRecord(w: Worker, proposed: Intent, purpose: Purpose): Worker {
    var w := w.(intent := Some(proposed));
    match purpose
    case First =>
      if proposed.Selected? && (!SourceOk(proposed.source) ||
         proposed.complete != CommandFor(proposed.base, CompleteFields(proposed.base, proposed.upload, proposed.source)))
      then Fail(w)
      else if !proposed.Frozen? && proposed.upload != "" then To(w, Checking(GetStatus(proposed.upload, false)))
      else To(w, Checking(CreateOf(w.request)))
    case Admission(reference) =>
      if proposed.Frozen? then Fail(w)
      else if reference != UsableReference then To(w, Checking(GetStatus(proposed.upload, true)))
      else To(w, Checking(PutBytes(proposed.upload)))
    case Selection =>
      if proposed.Selected? then To(w, Checking(CompleteOf(proposed))) else Fail(w)
  }

  function KnownSource(i: Intent): Option<string> {
    if i.Selected? then Some(i.source) else None
  }

  /** The facts a delivery works with: a publication has its own, a recovery takes them from the journal. */
  function Facts(w: Worker, i: Intent): Base {
    if w.mode == Publish then w.request else w.request.(mime := i.base.mime, size := i.base.size, digest := i.base.digest)
  }

  /** The owner describes the upload that was recorded, with no other source version. */
  predicate StatusFits(facts: Base, i: Intent, a: Answer)
    requires a.Status? && !i.Frozen?
  {
    && a.upload == i.upload && a.digest == facts.digest && a.size == facts.size && a.mime == facts.mime
    && (a.source.Some? ==> SourceOk(a.source.value) && KnownSource(i) == a.source)
  }

  function AfterStatus(w: Worker, i: Intent, a: Answer): Worker
    requires a.Status? && !i.Frozen?
  {
    if !StatusFits(Facts(w, i), i, a) then Fail(w)
    else if w.mode == Publish then
      if a.state == UploadCompleted then
        if i.Admitted? || a.source != Some(i.source) then Fail(w)
        else if a.asset != "" then w.(asset := a.asset, polls := 0, pc := Checking(GetScan(a.asset)))
        else To(w, Checking(CompleteOf(i)))
      else if a.state != UploadPending then Fail(w)
      else if i.Selected? then To(w, Checking(CompleteOf(i)))
      else To(w, Checking(CreateOf(w.request)))
    else
      if a.state == UploadPending then
        if i.Selected? then To(w, Checking(CompleteOf(i))) else To(w, Done(Nothing))
      else if a.state != UploadCompleted || i.Admitted? || a.source != Some(i.source) || a.asset == "" then Fail(w)
      else w.(asset := a.asset, polls := 0, pc := Checking(GetScan(a.asset)))
  }

  /** What a delivery does with the answer to `call`. */
  function AfterAnswer(w: Worker, call: Call, a: Answer): Worker {
    if w.intent.None? then Fail(w)
    else
      var i := w.intent.value;
      match call
      case GetStatus(upload, aborting) =>
        if !a.Status? || i.Frozen? then Fail(w)
        else if !aborting then AfterStatus(w, i, a)
        else if a.upload != upload || a.digest != w.request.digest || a.size != w.request.size || a.mime != w.request.mime then Fail(w)
        else if a.state != UploadPending then Fail(w)
        else To(w, Checking(AbortUpload(CommandFor(w.request, AbortUploadFields(upload)), upload)))
      case AbortUpload(_, _) => Fail(w)
      case CreateUpload(_) =>
        if !a.Created? || a.upload == "" || i.Selected? || (i.Admitted? && a.upload != i.upload) then Fail(w)
        else To(w, Recording(Admitted(i.base, a.upload), Admission(a.reference)))
      case PutBytes(upload) =>
        if a.PutFailed? && a.referenceInvalid then To(w, Checking(GetStatus(upload, true)))
        else if !a.Stored? || !i.Admitted? then Fail(w)
        else
          var command := CommandFor(w.request, CompleteFields(w.request, upload, a.version));
          To(w, Recording(Selected(i.base, upload, a.version, command), Selection))
      case CompleteUpload(_, upload, _, _, _) =>
        if !a.Completed? || a.upload != upload || a.asset == "" then Fail(w)
        else w.(asset := a.asset, polls := 0, pc := Checking(GetScan(a.asset)))
      case GetScan(asset) =>
        if !a.Scanned? || w.polls >= 10 || a.asset != asset then Fail(w)
        else if a.scan == Clean then To(w, Confirming)
        else if a.scan == Rejected then Fail(w)
        else w.(polls := w.polls + 1, pc := Checking(GetScan(asset)))
      case CreateArtifact(_, asset, digest, kind, title, run) =>
        if !a.ArtifactCreated? || a.artifact == "" || a != ArtifactCreated(a.artifact, asset, digest, kind, title, run) then Fail(w)
        else To(w, Checking(FinalizeOf(Facts(w, i), asset, a.artifact)))
      case FinalizeArtifact(_, asset, artifact, digest) =>
        if a != ArtifactFinal(artifact, asset, digest, true) then Fail(w)
        else To(w, Done(Delivered(Receipt(artifact, asset, KindOf(Facts(w, i).mime), digest, Facts(w, i).size, Facts(w, i).mime))))
  }

  // ----- steps -----------------------------------------------------------------------------

  datatype Event =
    | Spawn(id: nat, generation: nat, mode: Mode, request: Base, authentic: bool, bytesMatch: bool)
    | Crash(id: nat)
    | Advance(id: nat)
    | Answered(id: nat, answer: Answer)
    | LeaseLost
    | LeaseTaken
    | StartRow(generation: nat)
    | FinishRow(generation: nat)

  /** The delivery moves on from its current await; an answered owner call moves on by `Answered`. */
  function Move(s: System, id: nat): System
    requires id in s.workers
  {
    var w := s.workers[id];
    match w.pc
    case Entering => Put(s, id, if Canonical(s, w) then Enter(w) else Fail(w))
    case Reading => Put(s, id, AfterRead(w, s.journal))
    case Resuming(read) => Put(s, id, if Canonical(s, w) then AfterResume(w, read) else Fail(w))
    case Recording(proposed, purpose) =>
      if w.generation == s.generation && s.live && Accepts(s.journal, proposed)
      then Put(s, id, AfterRecord(w, proposed, purpose)).(journal := s.journal.(intent := Some(proposed)))
      else Put(s, id, Fail(w))
    case Checking(call) => Put(s, id, if Canonical(s, w) then To(w, Sending(call)) else Fail(w))
    case Sending(call) => Put(s, id, To(w, Awaiting(call))).(sent := s.sent + [call])
    case Awaiting(_) => s
    case Confirming =>
      Put(s, id, if !Canonical(s, w) || w.intent.None? then Fail(w) else To(w, Checking(ArtifactOf(Facts(w, w.intent.value), w.asset))))
    case Done(_) => s
  }

  function Put(s: System, id: nat, w: Worker): System {
    s.(workers := s.workers[id := w])
  }

  function Step(s: System, event: Event): System {
    match event
    case Spawn(id, generation, mode, request, authentic, bytesMatch) =>
      if id in s.workers then s
      else Put(s, id, Worker(generation, mode, request, authentic, bytesMatch, None, "", 0, if mode == Publish then Entering else Reading))
    case Crash(id) => s.(workers := s.workers - {id})
    case Advance(id) => if id in s.workers then Move(s, id) else s
    case Answered(id, answer) =>
      if id in s.workers && s.workers[id].pc.Awaiting? then Put(s, id, AfterAnswer(s.workers[id], s.workers[id].pc.call, answer)) else s
    case LeaseLost => s.(live := false)
    case LeaseTaken => s.(generation := s.generation + 1, live := true)
    case StartRow(generation) =>
      if generation == s.generation && s.live && s.journal.status == Absent then s.(journal := Journal(Started, None)) else s
    case FinishRow(generation) =>
      if generation == s.generation && s.live && s.journal.status == Started then s.(journal := s.journal.(status := Finished)) else s
  }
}
