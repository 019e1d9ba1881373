/** The job protocol of one delivered message, call by call.

A handler is a program counter that names the remote call it is waiting on; `OpOf` says which call that
is, `NextPc` what the reply leads to. The processor's methods are proved to follow this protocol, and the
step machine interleaves any number of handlers that do. */
module Protocol {
  import opened Wrappers
  import opened ErrClass
  import opened Deployment
  import opened Types
  import opened Retry
  import Backoff

  /** One delivery: the entry's position and attempt, its payload, the clock reading (nanoseconds) and the
      jitter a retry would be scheduled with. */
  datatype Job = Job(entry: nat, attempt: int, payload: Payload, clock: int, jitter: real)

  /** Settings, and the local computations of the export pipeline. */
  datatype Config = Config(
    maxRetries: nat,
    backoff: Backoff.Policy,
    slugError: Record -> Option<Code>,
    manifestKey: (string, Record) -> string,
    objects: (string, Record, seq<File>) -> Result<seq<Object>, Code>,
    manifest: (string, Record, seq<File>, string) -> Result<Object, Code>,
    pointer: (string, Record, seq<File>, Object) -> Pointer,
    facts: (string, Record, seq<File>, Object) -> ReadyFacts,
    storedFacts: (string, Record, Bytes) -> Option<ReadyFacts>,
    date: (Fetched, string) -> string)   // of a manifest whose event has none

  datatype Op =
    | LoadRecord(dep: string)
    | FetchStored(key: string)
    | EmitReady(facts: ReadyFacts)
    | AcquireLock(dep: string)
    | Cas(dep: string, from: Status, to: Status)
    | RenderAndHarvest(dep: string, rec: Record)
    | AwaitUpload(objects: seq<Object>, left: set<nat>)
    | ChooseCreatedAt(key: string)
    | PutManifest(manifest: Object)
    | SubmitPointer(dep: string, pointer: Pointer)
    | SendDlq(payload: Payload, attempt: int, code: Code)
    | ScheduleRetry(envelope: Envelope)
    | AckMessage(entry: nat)

  /** Err: the call failed and changed nothing. Lost: it took effect, but reported an error. */
  datatype Reply =
    | Ok
    | Loaded(rec: Record)
    | Found(body: Bytes)
    | NotFound
    | LockHeld
    | Conflict(current: Status)
    | Harvested(files: seq<File>)
    | Uploaded(index: nat)
    | Skipped(index: nat)
    | UploadLost(index: nat, why: Code)
    | Expired
    | Prior(stored: Fetched, clock: string)
    | Err(code: Code)
    | Lost(code: Code)

  function ErrorOf(r: Reply): Option<Code> {
    match r
    case Err(code) => Some(code)
    case Lost(code) => Some(code)
    case UploadLost(_, code) => Some(code)
    case _ => None
  }

  datatype Outcome =
    | Succeeded | AckedTerminal | RetryScheduled | Dlq | FailedTerminal | LockConflict | StopSafe | NoAck

  /** Why a message is being acked. */
  datatype AckReason =
    | Exported          // the exporter returned nil
    | AlreadyTerminal   // the record was read as non-actionable
    | Stopped           // a 409 named a non-actionable status
    | Scheduled         // a retry envelope was written
    | DeadLettered      // a DLQ entry was written
    | MarkedFailed      // the record is EXPORT_FAILED or otherwise non-actionable
    | NoRecord          // non-retryable failure with no actionable record loaded

  datatype Pc =
    | UnparseableDlq
    | Loading
    | FetchingManifest(rec: Record)
    | Reemitting(facts: ReadyFacts)
    | Locking(rec: Record)
    | CasExporting(rec: Record)
    | Harvesting(rec: Record)
    | Uploading(rec: Record, files: seq<File>, objects: seq<Object>, left: set<nat>)
    | Dating(rec: Record, files: seq<File>)
    | PuttingManifest(rec: Record, files: seq<File>, manifest: Object)
    | Submitting(rec: Record, files: seq<File>, manifest: Object)
    | CasReady(rec: Record, files: seq<File>, manifest: Object)
    | Emitting(facts: ReadyFacts)
    | CasFailed(rec: Record, code: Code, exhausted: bool)
    | DeadLettering(code: Code)
    | Scheduling(code: Code)
    | Acking(why: AckReason)
    | Done(outcome: Outcome)

  function OutcomeOf(why: AckReason): Outcome {
    match why
    case Exported => Succeeded
    case AlreadyTerminal => AckedTerminal
    case Stopped => StopSafe
    case Scheduled => RetryScheduled
    case DeadLettered => Dlq
    case MarkedFailed => FailedTerminal
    case NoRecord => FailedTerminal
  }

  function DepOf(payload: Payload): string {
    match payload
    case Unparseable => ""
    case Invalid(dep) => dep
    case Valid(dep, _, _) => dep
  }

  function CreatedAtOf(payload: Payload): string {
    match payload
    case Valid(_, _, at) => at
    case _ => ""
  }

  function RetryEnvelope(c: Config, job: Job, code: Code): Envelope {
    var next := job.attempt + 1;
    var dep := DepOf(job.payload);
    Envelope(EnvelopeID(dep, next, code), dep, next, code,
             (job.clock + Backoff.Delay(c.backoff, next, job.jitter)) / 1_000_000, job.payload)
  }

  function Indices(n: nat): (s: set<nat>)
    ensures forall i: nat :: i in s <==> i < n
  {
    if n == 0 then {} else Indices(n - 1) + {n - 1}
  }

  // ---- The calls ----

  function OpOf(c: Config, job: Job, pc: Pc): Op {
    var dep := DepOf(job.payload);
    match pc
    case UnparseableDlq => SendDlq(job.payload, job.attempt, VALIDATION_FAILED)
    case Loading => LoadRecord(dep)
    case FetchingManifest(rec) => FetchStored(c.manifestKey(dep, rec))
    case Reemitting(facts) => EmitReady(facts)
    case Locking(_) => AcquireLock(dep)
    case CasExporting(_) => Cas(dep, ExportQueued, Exporting)
    case Harvesting(rec) => RenderAndHarvest(dep, rec)
    case Uploading(_, _, objects, left) => AwaitUpload(objects, left)
    case Dating(rec, _) => ChooseCreatedAt(c.manifestKey(dep, rec))
    case PuttingManifest(_, _, manifest) => PutManifest(manifest)
    case Submitting(rec, files, manifest) => SubmitPointer(dep, c.pointer(dep, rec, files, manifest))
    case CasReady(_, _, _) => Cas(dep, Exporting, ArtifactReady)
    case Emitting(facts) => EmitReady(facts)
    case CasFailed(rec, _, _) => Cas(dep, rec.status, ExportFailed)
    case DeadLettering(code) => SendDlq(job.payload, job.attempt, code)
    case Scheduling(code) => ScheduleRetry(RetryEnvelope(c, job, code))
    case Acking(_) => AckMessage(job.entry)
    case Done(_) => AckMessage(job.entry)
  }

  // ---- The decisions ----

  /** The classified failure branches. */
  function FailPc(c: Config, job: Job, rec: Option<Record>, code: Code): Pc {
    if Retryable(code) then
      if job.attempt < c.maxRetries then Scheduling(code)
      else if rec.Some? && Actionable(rec.value.status) then CasFailed(rec.value, code, true)
      else DeadLettering(code)
    else if rec.Some? && Actionable(rec.value.status) then CasFailed(rec.value, code, false)
    else if rec.Some? && NonActionable(rec.value.status) then Acking(MarkedFailed)
    else Acking(NoRecord)
  }

  function LoadedPc(c: Config, job: Job, rec: Record): Pc {
    match job.payload
    case Valid(_, hints, _) =>
      if NonActionable(rec.status) then
        if rec.status.ArtifactReady? then FetchingManifest(rec) else Acking(AlreadyTerminal)
      else if !Actionable(rec.status) then FailPc(c, job, Some(rec), QUEUE_TEMPORARY_FAILURE)
      else if Reconcile(rec, hints).Some? then FailPc(c, job, Some(rec), Reconcile(rec, hints).value)
      else Locking(rec)
    case _ => FailPc(c, job, Some(rec), VALIDATION_FAILED)
  }

  function ExportPc(c: Config, job: Job, rec: Record): Pc {
    if c.slugError(rec).Some? then FailPc(c, job, Some(rec), c.slugError(rec).value) else Harvesting(rec)
  }

  function UploadPc(c: Config, job: Job, rec: Record, files: seq<File>, objects: seq<Object>, left: set<nat>): Pc {
    if left != {} then Uploading(rec, files, objects, left) else ManifestPc(c, job, rec, files)
  }

  /** The manifest is dated by the event; only without a date are the stored manifest and the clock asked. */
  function ManifestPc(c: Config, job: Job, rec: Record, files: seq<File>): Pc {
    if CreatedAtOf(job.payload) == "" then Dating(rec, files)
    else DatedPc(c, job, rec, files, CreatedAtOf(job.payload))
  }

  function DatedPc(c: Config, job: Job, rec: Record, files: seq<File>, at: string): Pc {
    match c.manifest(DepOf(job.payload), rec, files, at)
    case Failure(code) => FailPc(c, job, Some(rec), code)
    case Success(manifest) => PuttingManifest(rec, files, manifest)
  }

  function CasFailedNext(job: Job, pc: Pc, r: Reply): Pc
    requires pc.CasFailed?
  {
    var settled := if pc.exhausted then DeadLettering(pc.code) else Acking(MarkedFailed);
    match r
    case Ok => settled
    case Conflict(current) => if NonActionable(current) then settled else Done(NoAck)
    case _ =>
      if ErrorOf(r).Some? && !Retryable(ErrorOf(r).value) then DeadLettering(pc.code) else Done(NoAck)
  }

  function NextPc(c: Config, job: Job, pc: Pc, r: Reply): Pc {
    var dep := DepOf(job.payload);
    match pc
    case UnparseableDlq => if r.Ok? then Acking(DeadLettered) else Done(NoAck)
    case Loading =>
      if r.Loaded? then LoadedPc(c, job, r.rec)
      else if ErrorOf(r).Some? then FailPc(c, job, None, ErrorOf(r).value)
      else Done(NoAck)
    case FetchingManifest(rec) =>
      if r.NotFound? then Acking(AlreadyTerminal)
      else if r.Found? && c.storedFacts(dep, rec, r.body).Some? then Reemitting(c.storedFacts(dep, rec, r.body).value)
      else Done(NoAck)
    case Reemitting(_) => if r.Ok? then Acking(AlreadyTerminal) else Done(NoAck)
    case Locking(rec) =>
      if r.LockHeld? then Done(LockConflict)
      else if r.Ok? then (if rec.status.ExportQueued? then CasExporting(rec) else ExportPc(c, job, rec))
      else FailPc(c, job, Some(rec), QUEUE_TEMPORARY_FAILURE)
    case CasExporting(rec) =>
      if r.Ok? then ExportPc(c, job, rec.(status := Exporting))
      else if r.Conflict? then (if NonActionable(r.current) then Acking(Stopped) else Done(StopSafe))
      else if ErrorOf(r).Some? then FailPc(c, job, Some(rec), ErrorOf(r).value)
      else Done(NoAck)
    case Harvesting(rec) =>
      if r.Harvested? then
        match c.objects(dep, rec, r.files)
        case Failure(code) => FailPc(c, job, Some(rec), code)
        case Success(objects) => UploadPc(c, job, rec, r.files, objects, Indices(|objects|))
      else if ErrorOf(r).Some? then FailPc(c, job, Some(rec), ErrorOf(r).value)
      else Done(NoAck)
    case Uploading(rec, files, objects, left) =>
      if r.Uploaded? || r.Skipped? then UploadPc(c, job, rec, files, objects, left - {r.index})
      else if r.Expired? then ManifestPc(c, job, rec, files)
      else if ErrorOf(r).Some? then FailPc(c, job, Some(rec), ErrorOf(r).value)
      else Done(NoAck)
    case Dating(rec, files) => if r.Prior? then DatedPc(c, job, rec, files, c.date(r.stored, r.clock)) else Done(NoAck)
    case PuttingManifest(rec, files, manifest) =>
      if r.Ok? then Submitting(rec, files, manifest)
      else if ErrorOf(r).Some? then FailPc(c, job, Some(rec), ErrorOf(r).value)
      else Done(NoAck)
    case Submitting(rec, files, manifest) =>
      if r.Ok? then CasReady(rec, files, manifest)
      else if ErrorOf(r).Some? then FailPc(c, job, Some(rec), ErrorOf(r).value)
      else Done(NoAck)
    case CasReady(rec, files, manifest) =>
      if r.Ok? then Emitting(c.facts(dep, rec, files, manifest))
      else if r.Conflict? then
        if r.current.ArtifactReady? then Emitting(c.facts(dep, rec, files, manifest))
        else if NonActionable(r.current) then Acking(Exported)
        else FailPc(c, job, Some(rec), VALIDATION_FAILED)
      else if ErrorOf(r).Some? then FailPc(c, job, Some(rec), ErrorOf(r).value)
      else Done(NoAck)
    case Emitting(_) => if r.Ok? then Acking(Exported) else Done(NoAck)
    case CasFailed(_, _, _) => CasFailedNext(job, pc, r)
    case DeadLettering(_) => if r.Ok? then Acking(DeadLettered) else Done(NoAck)
    case Scheduling(_) => if r.Ok? then Acking(Scheduled) else Done(NoAck)
    case Acking(why) => Done(OutcomeOf(why))
    case Done(outcome) => Done(outcome)
  }

  function StartPc(job: Job): Pc {
    if job.payload.Unparseable? then UnparseableDlq else Loading
  }

  /** The replies each kind of call can give. */
  predicate Fits(op: Op, r: Reply) {
    match op
    case LoadRecord(_) => r.Loaded? || r.Err?
    case FetchStored(_) => r.Found? || r.NotFound? || r.Err?
    case AcquireLock(_) => r.Ok? || r.LockHeld? || r.Err? || r.Lost?
    case Cas(_, _, _) => r.Ok? || r.Conflict? || r.Err? || r.Lost?
    case RenderAndHarvest(_, _) => r.Harvested? || r.Err?
    case AwaitUpload(_, left) =>
      ((r.Uploaded? || r.Skipped? || r.UploadLost?) && r.index in left) || r.Expired? || r.Err?
    case ChooseCreatedAt(_) => r.Prior?
    case _ => r.Ok? || r.Err? || r.Lost?
  }

  // ---- Conversations ----

  datatype Event = Event(op: Op, reply: Reply)

  /** The calls and replies `trace` lead from one program counter to the other. */
  ghost predicate Path(c: Config, job: Job, from: Pc, trace: seq<Event>, to: Pc)
    decreases |trace|
  {
    if trace == [] then from == to
    else
      && !from.Done? && trace[0].op == OpOf(c, job, from) && Fits(trace[0].op, trace[0].reply)
      && Path(c, job, NextPc(c, job, from, trace[0].reply), trace[1..], to)
  }

  lemma {:induction false} PathExtends(c: Config, job: Job, from: Pc, trace: seq<Event>, to: Pc, e: Event)
    requires Path(c, job, from, trace, to) && !to.Done? && e.op == OpOf(c, job, to) && Fits(e.op, e.reply)
    ensures Path(c, job, from, trace + [e], NextPc(c, job, to, e.reply))
    decreases |trace|
  {
    if trace == [] {
      assert [e][1..] == [];
      assert trace + [e] == [e];
    } else {
      assert (trace + [e])[1..] == trace[1..] + [e];
      PathExtends(c, job, NextPc(c, job, from, trace[0].reply), trace[1..], to, e);
    }
  }

  // ---- Write-then-ack ----

  /** The last thing learnt before an ack is a durable reason for it. */
  ghost predicate DurableReason(c: Config, job: Job, e: Event) {
    || (e.op.EmitReady? && e.reply.Ok?)
    || (e.op.LoadRecord? && e.reply.Loaded? && NonActionable(e.reply.rec.status)
        && !(job.payload.Valid? && e.reply.rec.status.ArtifactReady?))
    || (e.op.FetchStored? && e.reply.NotFound?)
    || (e.op.Cas? && e.reply.Conflict? && NonActionable(e.reply.current)
        && !(e.op.to.ArtifactReady? && e.reply.current.ArtifactReady?))
    || (e.op.Cas? && e.op.to.ExportFailed? && e.reply.Ok?)
    || (e.op.ScheduleRetry? && e.reply.Ok?)
    || (e.op.SendDlq? && e.reply.Ok?)
    || (e.op.LoadRecord? && e.reply.Err? && !Retryable(e.reply.code))
    || (e.op.LoadRecord? && e.reply.Loaded? && e.reply.rec.status.Pending? && !job.payload.Valid?)
  }

  /** Working program counters hold an actionable record. */
  ghost predicate WellFormed(job: Job, pc: Pc) {
    && (pc.Locking? || pc.CasExporting? || pc.CasFailed? ==> Actionable(pc.rec.status))
    && (pc.CasExporting? ==> pc.rec.status.ExportQueued?)
    && (InExport(pc) ==> pc.rec.status.Exporting?)
    && (pc.FetchingManifest? ==> pc.rec.status.ArtifactReady?)
    && (pc.UnparseableDlq? ==> job.payload.Unparseable?)
    && (job.payload.Unparseable? ==> pc.UnparseableDlq? || pc == Acking(DeadLettered) || pc.Done?)
    && (job.payload.Invalid? ==>
          pc.Loading? || pc.CasFailed? || pc.DeadLettering? || pc.Scheduling? || pc.Acking? || pc.Done?)
  }

  predicate InExport(pc: Pc) {
    pc.Harvesting? || pc.Uploading? || pc.Dating? || pc.PuttingManifest? || pc.Submitting? || pc.CasReady?
  }

  lemma ExportKeepsWellFormed(c: Config, job: Job, pc: Pc, r: Reply)
    requires WellFormed(job, pc) && Fits(OpOf(c, job, pc), r) && InExport(pc)
    ensures WellFormed(job, NextPc(c, job, pc, r))
  {
  }

  lemma StepKeepsWellFormed(c: Config, job: Job, pc: Pc, r: Reply)
    requires WellFormed(job, pc) && Fits(OpOf(c, job, pc), r)
    ensures WellFormed(job, NextPc(c, job, pc, r))
  {
    if InExport(pc) {
      ExportKeepsWellFormed(c, job, pc, r);
    }
  }

  /** The only ways into the program counters that emit a ready event. */
  lemma WaysToEmit(c: Config, job: Job, pc: Pc, r: Reply)
    ensures NextPc(c, job, pc, r).FetchingManifest? ==> pc.Loading? && r.Loaded? && r.rec.status.ArtifactReady?
    ensures NextPc(c, job, pc, r).Reemitting? ==> pc.FetchingManifest? && r.Found?
    ensures NextPc(c, job, pc, r).Emitting? ==> pc.CasReady? && (r.Ok? || (r.Conflict? && r.current.ArtifactReady?))
  {
  }

  predicate HasRecord(pc: Pc) {
    pc.FetchingManifest? || pc.Locking? || pc.CasExporting? || pc.CasFailed? || InExport(pc)
  }

  /** Where a handler's record comes from. */
  lemma CarriedRecord(c: Config, job: Job, pc: Pc, r: Reply)
    requires HasRecord(NextPc(c, job, pc, r))
    ensures (pc.Loading? && r.Loaded?) || HasRecord(pc)
    ensures pc.Loading? ==> r.Loaded? && NextPc(c, job, pc, r).rec == r.rec
    ensures HasRecord(pc) ==> NextPc(c, job, pc, r).rec in {pc.rec, pc.rec.(status := Exporting)}
  {
    if InExport(pc) {
      ExportCarriesRecord(c, job, pc, r);
    }
  }

  lemma ExportCarriesRecord(c: Config, job: Job, pc: Pc, r: Reply)
    requires InExport(pc) && HasRecord(NextPc(c, job, pc, r))
    ensures NextPc(c, job, pc, r).rec == pc.rec
  {
  }

  /** Where its manifest comes from. */
  lemma CarriedManifest(c: Config, job: Job, pc: Pc, r: Reply)
    ensures var next := NextPc(c, job, pc, r);
            next.PuttingManifest? ==>
                exists at :: c.manifest(DepOf(job.payload), next.rec, next.files, at) == Success(next.manifest)
    ensures var next := NextPc(c, job, pc, r);
            && (next.Submitting? ==> pc.PuttingManifest? && r.Ok? && next == Submitting(pc.rec, pc.files, pc.manifest))
            && (next.CasReady? ==> pc.Submitting? && r.Ok? && next == CasReady(pc.rec, pc.files, pc.manifest))
  {
  }

  /** The last outstanding object has been answered for, or there was none, or the upload's context expired. */
  ghost predicate UploadEnds(c: Config, job: Job, pc: Pc, r: Reply, files: seq<File>) {
    || (pc.Uploading? && (r.Uploaded? || r.Skipped?) && pc.left - {r.index} == {} && files == pc.files)
    || (pc.Harvesting? && r.Harvested? && c.objects(DepOf(job.payload), pc.rec, r.files) == Success([])
        && files == r.files)
    || (pc.Uploading? && r.Expired? && files == pc.files)
  }

  /** Where its files and objects come from. */
  lemma CarriedUpload(c: Config, job: Job, pc: Pc, r: Reply)
    ensures var next := NextPc(c, job, pc, r);
            next.Uploading? ==>
              (pc.Harvesting? && r.Harvested? && next.files == r.files && next.rec == pc.rec
               && c.objects(DepOf(job.payload), pc.rec, r.files) == Success(next.objects)
                   && next.left == Indices(|next.objects|))
              || (pc.Uploading? && (r.Uploaded? || r.Skipped?) && next == pc.(left := pc.left - {r.index}))
    ensures var next := NextPc(c, job, pc, r);
            next.Dating? ==>
                CreatedAtOf(job.payload) == "" && HasRecord(pc) && next.rec == pc.rec
                    && UploadEnds(c, job, pc, r, next.files)
  {
  }

  lemma CarriedDate(c: Config, job: Job, pc: Pc, r: Reply)
    ensures var next := NextPc(c, job, pc, r);
            next.PuttingManifest? ==>
              (CreatedAtOf(job.payload) != "" && UploadEnds(c, job, pc, r, next.files)
               && c.manifest(DepOf(job.payload), next.rec, next.files, CreatedAtOf(job.payload))
                   == Success(next.manifest))
              || (pc.Dating? && r.Prior? && next.files == pc.files
                  && c.manifest(DepOf(job.payload), next.rec, next.files, c.date(r.stored, r.clock))
                      == Success(next.manifest))
  {
  }

  /** Where its event comes from. */
  lemma CarriedFacts(c: Config, job: Job, pc: Pc, r: Reply)
    ensures var next := NextPc(c, job, pc, r);
            && (next.Reemitting? ==>
                  pc.FetchingManifest? && r.Found?
                      && c.storedFacts(DepOf(job.payload), pc.rec, r.body) == Some(next.facts))
            && (next.Emitting? ==>
                  pc.CasReady? && next.facts == c.facts(DepOf(job.payload), pc.rec, pc.files, pc.manifest))
  {
  }

  /** The only ways into scheduling a retry and into acking after one. */
  lemma WaysToSchedule(c: Config, job: Job, pc: Pc, r: Reply)
    ensures NextPc(c, job, pc, r).Scheduling? ==> job.attempt < c.maxRetries
    ensures NextPc(c, job, pc, r) == Acking(Scheduled) ==> pc.Scheduling? && r.Ok?
    ensures pc.Scheduling? || pc.Acking? ==>
              NextPc(c, job, pc, r).Done? || (pc.Scheduling? && r.Ok? && NextPc(c, job, pc, r) == Acking(Scheduled))
    ensures pc.Scheduling? <==> OpOf(c, job, pc).ScheduleRetry?
  {
  }

  /** Where a handler of a valid payload goes from the program counters of a finished deployment, when the
      service still answers ARTIFACT_READY and the manifest is there. */
  lemma FinishedHandlerSteps(c: Config, job: Job, pc: Pc, r: Reply)
    requires job.payload.Valid?
    ensures pc.Loading? && r.Loaded? && r.rec.status.ArtifactReady? ==> NextPc(c, job, pc, r).FetchingManifest?
    ensures pc.Loading? && r.Err? ==>
              var next := NextPc(c, job, pc, r); next.Scheduling? || next.DeadLettering? || next == Acking(NoRecord)
    ensures pc.FetchingManifest? && !r.NotFound? ==> NextPc(c, job, pc, r).Reemitting? || NextPc(c, job, pc, r).Done?
    ensures (pc.Reemitting? || pc.Emitting? || pc.DeadLettering? || pc.Scheduling?) && !r.Ok? ==>
              NextPc(c, job, pc, r).Done?
    ensures pc.CasFailed? && pc.exhausted ==> NextPc(c, job, pc, r).DeadLettering? || NextPc(c, job, pc, r).Done?
    ensures pc.CasReady? && (r.Ok? || (r.Lost? && Retryable(r.code))) ==>
              var next := NextPc(c, job, pc, r);
              next.Emitting? || next.Scheduling? || next.DeadLettering? || (next.CasFailed? && next.exhausted)
  {
  }

  lemma StepJustifiesAck(c: Config, job: Job, pc: Pc, r: Reply)
    requires WellFormed(job, pc) && Fits(OpOf(c, job, pc), r)
    requires !pc.Done? && NextPc(c, job, pc, r).Acking?
    ensures DurableReason(c, job, Event(OpOf(c, job, pc), r))
  {
    ClassOfDecisiveCodes();
  }

  lemma {:induction false} AckIsLastAndJustified(c: Config, job: Job, before: seq<Event>, from: Pc, trace: seq<Event>,
                                                 to: Pc)
    requires WellFormed(job, from) && Path(c, job, from, trace, to)
    requires from.Acking? ==> before != [] && DurableReason(c, job, before[|before| - 1])
    ensures forall k :: 0 <= k < |trace| && trace[k].op.AckMessage? ==>
              && k == |trace| - 1 && to.Done?
              && |before| + k >= 1 && DurableReason(c, job, (before + trace)[|before| + k - 1])
    ensures to.Acking? ==> before + trace != [] && DurableReason(c, job, (before + trace)[|before| + |trace| - 1])
    decreases |trace|
  {
    if trace != [] {
      var next := NextPc(c, job, from, trace[0].reply);
      StepKeepsWellFormed(c, job, from, trace[0].reply);
      if next.Acking? {
        StepJustifiesAck(c, job, from, trace[0].reply);
      }
      var longer := before + [trace[0]];
      assert before + trace == longer + trace[1..];
      AckIsLastAndJustified(c, job, longer, next, trace[1..], to);
      if from.Acking? {
        assert trace[1..] == [];
      }
    }
  }

  /** Outcomes after which the entry has been acked. */
  predicate AckOutcome(o: Outcome) {
    o.Succeeded? || o.AckedTerminal? || o.RetryScheduled? || o.Dlq? || o.FailedTerminal?
  }

  /** The write-then-ack contract of one delivery: an ack is the last call, made right after learning a
      durable reason for it. */
  lemma AckOnlyWithReason(c: Config, job: Job, trace: seq<Event>, to: Pc)
    requires Path(c, job, StartPc(job), trace, to)
    ensures forall k :: 0 <= k < |trace| && trace[k].op.AckMessage? ==>
              k == |trace| - 1 && k >= 1 && DurableReason(c, job, trace[k - 1])
  {
    AckIsLastAndJustified(c, job, [], StartPc(job), trace, to);
    assert [] + trace == trace;
  }

  /** The outcome tells whether the entry was acked; every outcome but the acking ones leaves it pending. */
  lemma OutcomeTellsAck(c: Config, job: Job, trace: seq<Event>, outcome: Outcome)
    requires Path(c, job, StartPc(job), trace, Done(outcome))
    ensures AckOutcome(outcome) ==> trace != [] && trace[|trace| - 1].op == AckMessage(job.entry)
    ensures outcome.NoAck? || outcome.LockConflict? ==> forall k :: 0 <= k < |trace| ==> !trace[k].op.AckMessage?
    ensures outcome.StopSafe? ==>
              trace != [] && var last := trace[|trace| - 1];
                             last.op.AckMessage? || (last.reply.Conflict? && !NonActionable(last.reply.current))
  {
    AckOnlyWithReason(c, job, trace, Done(outcome));
    LastStep(c, job, StartPc(job), trace, outcome);
    EndOfHandler(c, job, trace[|trace| - 1], outcome);
  }

  ghost predicate EndsHandler(c: Config, job: Job, last: Event, outcome: Outcome) {
    exists pc: Pc :: !pc.Done? && last.op == OpOf(c, job, pc) && Fits(last.op, last.reply)
                     && NextPc(c, job, pc, last.reply) == Done(outcome)
  }

  lemma EndOfHandler(c: Config, job: Job, last: Event, outcome: Outcome)
    requires EndsHandler(c, job, last, outcome)
    ensures AckOutcome(outcome) ==> last.op == AckMessage(job.entry)
    ensures outcome.NoAck? || outcome.LockConflict? ==> !last.op.AckMessage?
    ensures outcome.StopSafe? ==> last.op.AckMessage? || (last.reply.Conflict? && !NonActionable(last.reply.current))
  {
    var pc: Pc :| !pc.Done? && last.op == OpOf(c, job, pc) && Fits(last.op, last.reply)
                  && NextPc(c, job, pc, last.reply) == Done(outcome);
    FinalStep(c, job, pc, last.reply, outcome);
  }

  /** How a handler can end: by acking, or on the reply that makes it leave the entry alone. */
  lemma FinalStep(c: Config, job: Job, pc: Pc, r: Reply, outcome: Outcome)
    requires !pc.Done? && Fits(OpOf(c, job, pc), r) && NextPc(c, job, pc, r) == Done(outcome)
    ensures AckOutcome(outcome) ==> pc.Acking?
    ensures pc.Acking? <==> OpOf(c, job, pc) == AckMessage(job.entry)
    ensures pc.Acking? <==> OpOf(c, job, pc).AckMessage?
    ensures pc.Acking? ==> !outcome.NoAck? && !outcome.LockConflict?
    ensures outcome.StopSafe? && !pc.Acking? ==> r.Conflict? && !NonActionable(r.current)
  {
  }

  lemma {:induction false} LastStep(c: Config, job: Job, from: Pc, trace: seq<Event>, outcome: Outcome)
    requires Path(c, job, from, trace, Done(outcome)) && !from.Done?
    ensures trace != []
    ensures EndsHandler(c, job, trace[|trace| - 1], outcome)
    decreases |trace|
  {
    var next := NextPc(c, job, from, trace[0].reply);
    if next.Done? {
      assert trace[1..] == [];
    } else {
      LastStep(c, job, next, trace[1..], outcome);
    }
  }
}
