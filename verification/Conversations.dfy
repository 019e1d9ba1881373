/** The handler's decisions, told from its conversation alone: what each call of a delivery needs to have been said
    before it, and how a delivery may end. Nothing here mentions a program counter but the proof that whatever
    follows the protocol keeps these rules. */
module Conversations {
  import opened Wrappers
  import opened ErrClass
  import opened Deployment
  import opened Types
  import opened Retry
  import opened Protocol
  import Backoff

  // ---- What has been said ----

  function Last(t: seq<Event>): Event
    requires t != []
  {
    t[|t| - 1]
  }

  /** The record the first call read. */
  function RecordRead(t: seq<Event>): Option<Record> {
    if t != [] && t[0].op.LoadRecord? && t[0].reply.Loaded? then Some(t[0].reply.rec) else None
  }

  /** The record's next step is the worker's, and the event is about this version of it. */
  predicate Cleared(job: Job, rec: Record) {
    && job.payload.Valid? && (rec.status.ExportQueued? || rec.status.Exporting?)
    && job.payload.hints.renderMode == rec.renderMode && job.payload.hints.version == rec.version
    && job.payload.hints.slug == rec.slug
  }

  predicate Locked(job: Job, t: seq<Event>) {
    |t| >= 2 && t[1] == Event(AcquireLock(DepOf(job.payload)), Reply.Ok)
  }

  /** The call after the lock moved the record to EXPORTING. */
  predicate Moved(job: Job, t: seq<Event>) {
    |t| >= 3 && t[2] == Event(Cas(DepOf(job.payload), ExportQueued, Exporting), Reply.Ok)
  }

  /** The status the worker last knew the record to have, if it read one. */
  function Standing(job: Job, t: seq<Event>): Option<Status> {
    if RecordRead(t).None? then None else if Moved(job, t) then Some(Exporting) else Some(RecordRead(t).value.status)
  }

  predicate OwnsNextStep(job: Job, t: seq<Event>) {
    Standing(job, t) == Some(ExportQueued) || Standing(job, t) == Some(Exporting)
  }

  /** The record was read, cleared, locked and brought to EXPORTING, in this order. */
  predicate Claimed(job: Job, t: seq<Event>, rec: Record) {
    && RecordRead(t).Some? && Cleared(job, RecordRead(t).value) && Locked(job, t)
    && rec == RecordRead(t).value.(status := Exporting) && (RecordRead(t).value.status.ExportQueued? ==> Moved(job, t))
  }

  /** Where the export begins: after the lock, or after the status write where one was needed. */
  function ExportAt(t: seq<Event>): nat {
    if RecordRead(t).Some? && RecordRead(t).value.status.ExportQueued? then 3 else 2
  }

  predicate Rendered(job: Job, t: seq<Event>, rec: Record, files: seq<File>) {
    && Claimed(job, t, rec) && |t| > ExportAt(t)
    && t[ExportAt(t)] == Event(RenderAndHarvest(DepOf(job.payload), rec), Harvested(files))
  }

  ghost predicate Answered(t: seq<Event>, i: nat) {
    exists e :: e in t && e.op.AwaitUpload? && (e.reply == Uploaded(i) || e.reply == Skipped(i))
  }

  ghost predicate UploadExpired(t: seq<Event>) {
    exists e :: e in t && e.op.AwaitUpload? && e.reply.Expired?
  }

  /** Every object of the rendered files was answered for, or the upload's context expired. */
  ghost predicate UploadsOver(c: Config, job: Job, t: seq<Event>, rec: Record, files: seq<File>) {
    && Rendered(job, t, rec, files) && c.objects(DepOf(job.payload), rec, files).Success?
    && (UploadExpired(t) || forall i: nat :: i < |c.objects(DepOf(job.payload), rec, files).value| ==> Answered(t, i))
  }

  /** The manifest's date: the event's own, and only without one the answer of the one call that asks for it. */
  ghost predicate Dated(c: Config, job: Job, t: seq<Event>, rec: Record, at: string) {
    if CreatedAtOf(job.payload) != "" then at == CreatedAtOf(job.payload)
    else
      exists stored, clock ::
        Event(ChooseCreatedAt(c.manifestKey(DepOf(job.payload), rec)), Prior(stored, clock)) in t
        && at == c.date(stored, clock)
  }

  ghost predicate Built(c: Config, job: Job, t: seq<Event>, rec: Record, files: seq<File>, m: Result<Object, Code>) {
    UploadsOver(c, job, t, rec, files) &&
    exists at :: Dated(c, job, t, rec, at) && c.manifest(DepOf(job.payload), rec, files, at) == m
  }

  /** The manifest is stored and its pointer registered, by the last two calls. */
  ghost predicate Registered(c: Config, job: Job, t: seq<Event>, rec: Record, files: seq<File>, m: Object) {
    && |t| >= 2 && Built(c, job, t, rec, files, Success(m))
    && t[|t| - 2] == Event(PutManifest(m), Reply.Ok)
    && t[|t| - 1] == Event(SubmitPointer(DepOf(job.payload), c.pointer(DepOf(job.payload), rec, files, m)), Reply.Ok)
  }

  // ---- Failures ----

  /** A record that cannot be worked on, though it may be the worker's. */
  predicate Refused(job: Job, rec: Record, code: Code) {
    if !job.payload.Valid? then code == VALIDATION_FAILED
    else if rec.status.Pending? then code == QUEUE_TEMPORARY_FAILURE
    else Actionable(rec.status) && !Cleared(job, rec) && code == VALIDATION_FAILED
  }

  /** The status write that claims the record or the lock alone, on a record whose slug has no path. */
  predicate SlugFails(c: Config, job: Job, t: seq<Event>, code: Code) {
    && |t| == ExportAt(t) && RecordRead(t).Some? && Claimed(job, t, RecordRead(t).value.(status := Exporting))
    && c.slugError(RecordRead(t).value.(status := Exporting)) == Some(code)
  }

  ghost predicate BundleFails(c: Config, job: Job, t: seq<Event>, code: Code) {
    exists rec, files ::
      && |t| == ExportAt(t) + 1 && Rendered(job, t, rec, files)
      && c.objects(DepOf(job.payload), rec, files) == Failure(code)
  }

  ghost predicate ManifestFails(c: Config, job: Job, t: seq<Event>, code: Code) {
    && t != [] && (Last(t).op.RenderAndHarvest? || Last(t).op.AwaitUpload? || Last(t).op.ChooseCreatedAt?)
    && exists rec, files :: Built(c, job, t, rec, files, Failure(code))
  }

  /** The last call, or what was computed from its answer, failed with this code before anything was settled. */
  ghost predicate FailsWith(c: Config, job: Job, t: seq<Event>, code: Code) {
    t != [] &&
    var op, r := Last(t).op, Last(t).reply;
    || ((op.LoadRecord? || op.RenderAndHarvest? || op.AwaitUpload? || op.PutManifest? || op.SubmitPointer?
         || (op.Cas? && !op.to.ExportFailed?)) && ErrorOf(r) == Some(code))
    || (op.AcquireLock? && ErrorOf(r).Some? && code == QUEUE_TEMPORARY_FAILURE)
    || (op.LoadRecord? && r.Loaded? && Refused(job, r.rec, code))
    || (op.Cas? && op.to.ArtifactReady? && r.Conflict? && !NonActionable(r.current) && code == VALIDATION_FAILED)
    || SlugFails(c, job, t, code) || BundleFails(c, job, t, code) || ManifestFails(c, job, t, code)
  }

  /** The terminal status write ended well, or found a status nobody needs to act on. */
  predicate Settles(r: Reply) {
    r.Ok? || (r.Conflict? && NonActionable(r.current))
  }

  predicate FailsForGood(r: Reply) {
    ErrorOf(r).Some? && !Retryable(ErrorOf(r).value)
  }

  /** The last call was the terminal status write for this failure. */
  ghost predicate Marked(c: Config, job: Job, t: seq<Event>, code: Code) {
    && |t| >= 2 && Last(t).op.Cas? && Last(t).op.to.ExportFailed?
    && FailsWith(c, job, t[..|t| - 1], code)
  }

  // ---- What each call needs ----

  /** The retry of this failure, word for word but its due time. */
  predicate IsRetryOf(job: Job, env: Envelope, code: Code) {
    && env.dep == DepOf(job.payload) && env.attempt == job.attempt + 1 && env.code == code
    && env.payload == job.payload && env.id == EnvelopeID(env.dep, env.attempt, env.code)
  }

  ghost predicate MayRetry(c: Config, job: Job, t: seq<Event>, env: Envelope) {
    exists code ::
      && FailsWith(c, job, t, code) && Retryable(code) && job.attempt < c.maxRetries && IsRetryOf(job, env, code)
      && env.nextAttemptAt == (job.clock + Backoff.Delay(c.backoff, env.attempt, job.jitter)) / 1_000_000
  }

  ghost predicate MayMarkFailed(c: Config, job: Job, t: seq<Event>, from: Status) {
    && OwnsNextStep(job, t) && Standing(job, t) == Some(from)
    && exists code :: FailsWith(c, job, t, code) && (Retryable(code) ==> job.attempt >= c.maxRetries)
  }

  /** Dead letters: an unparseable message at once; a retryable failure of the last attempt, after the terminal
      status write where there is a record to mark; and any failure whose terminal write fails for good. */
  ghost predicate MayDeadLetter(c: Config, job: Job, t: seq<Event>, code: Code) {
    || (t == [] && job.payload.Unparseable? && code == VALIDATION_FAILED)
    || (FailsWith(c, job, t, code) && Retryable(code) && job.attempt >= c.maxRetries && !OwnsNextStep(job, t))
    || (Marked(c, job, t, code) && (FailsForGood(Last(t).reply) || (Retryable(code) && Settles(Last(t).reply))))
  }

  ghost predicate MayAnnounce(c: Config, job: Job, t: seq<Event>, facts: ReadyFacts) {
    var dep := DepOf(job.payload);
    || (exists rec, files, m ::
          && |t| >= 1 && Registered(c, job, t[..|t| - 1], rec, files, m) && facts == c.facts(dep, rec, files, m)
          && (Last(t) == Event(Cas(dep, Exporting, ArtifactReady), Reply.Ok)
              || Last(t) == Event(Cas(dep, Exporting, ArtifactReady), Conflict(ArtifactReady))))
    || (RecordRead(t).Some? && MayFetch(job, t[..1]) &&
        exists body ::
          && t == [t[0], Event(FetchStored(c.manifestKey(dep, RecordRead(t).value)), Found(body))]
          && c.storedFacts(dep, RecordRead(t).value, body) == Some(facts))
  }

  predicate MayFetch(job: Job, t: seq<Event>) {
    && |t| == 1 && job.payload.Valid? && RecordRead(t).Some? && RecordRead(t).value.status.ArtifactReady?
  }

  /** Why a message may be acked, by the outcome the ack stands for. */
  ghost predicate MayAck(c: Config, job: Job, t: seq<Event>, o: Outcome) {
    t != [] &&
    var op, r := Last(t).op, Last(t).reply;
    match o
    case Succeeded =>
      || (op.EmitReady? && r.Ok? && |t| >= 2 && t[|t| - 2].op.Cas?)
      || (op.Cas? && op.to.ArtifactReady? && r.Conflict? && NonActionable(r.current) && !r.current.ArtifactReady?)
    case AckedTerminal =>
      || (op.EmitReady? && r.Ok? && |t| >= 2 && t[|t| - 2].op.FetchStored?)
      || (op.FetchStored? && r.NotFound?)
      || (op.LoadRecord? && r.Loaded? && job.payload.Valid? && NonActionable(r.rec.status)
          && !r.rec.status.ArtifactReady?)
    case StopSafe => op.Cas? && op.to.Exporting? && r.Conflict? && NonActionable(r.current)
    case RetryScheduled => op.ScheduleRetry? && r.Ok?
    case Dlq => op.SendDlq? && r.Ok?
    case FailedTerminal =>
      exists code :: !Retryable(code) &&
        ((Marked(c, job, t, code) && Settles(r)) || (FailsWith(c, job, t, code) && !OwnsNextStep(job, t)))
    case _ => false
  }

  /** What must have been said before a call, and what the call then says. */
  ghost predicate IsDue(c: Config, job: Job, t: seq<Event>, op: Op) {
    var dep := DepOf(job.payload);
    match op
    case LoadRecord(d) => t == [] && d == dep && !job.payload.Unparseable?
    case FetchStored(key) => MayFetch(job, t) && key == c.manifestKey(dep, RecordRead(t).value)
    case AcquireLock(d) => d == dep && |t| == 1 && RecordRead(t).Some? && Cleared(job, RecordRead(t).value)
    case Cas(d, from, to) =>
      d == dep &&
      (match to
       case Exporting =>
         && from.ExportQueued? && |t| == 2 && RecordRead(t).Some? && Cleared(job, RecordRead(t).value)
         && RecordRead(t).value.status.ExportQueued? && Locked(job, t)
       case ArtifactReady => from.Exporting? && exists rec, files, m :: Registered(c, job, t, rec, files, m)
       case ExportFailed => MayMarkFailed(c, job, t, from)
       case _ => false)
    case RenderAndHarvest(d, rec) =>
      d == dep && Claimed(job, t, rec) && |t| == ExportAt(t) && c.slugError(rec).None?
    case AwaitUpload(objects, left) =>
      && left != {} && !UploadExpired(t)
      && (forall i: nat :: i in left <==> i < |objects| && !Answered(t, i))
      && exists rec, files :: Rendered(job, t, rec, files) && c.objects(dep, rec, files) == Success(objects)
    case ChooseCreatedAt(key) =>
      CreatedAtOf(job.payload) == "" &&
      exists rec, files :: UploadsOver(c, job, t, rec, files) && key == c.manifestKey(dep, rec)
    case PutManifest(m) => exists rec, files :: Built(c, job, t, rec, files, Success(m))
    case SubmitPointer(d, pointer) =>
      d == dep &&
      exists rec, files, m ::
        && Built(c, job, t, rec, files, Success(m)) && Last(t) == Event(PutManifest(m), Reply.Ok)
        && pointer == c.pointer(dep, rec, files, m)
    case EmitReady(facts) => MayAnnounce(c, job, t, facts)
    case SendDlq(payload, attempt, code) =>
      payload == job.payload && attempt == job.attempt && MayDeadLetter(c, job, t, code)
    case ScheduleRetry(env) => MayRetry(c, job, t, env)
    case AckMessage(entry) => entry == job.entry && exists o :: MayAck(c, job, t, o)
  }

  // ---- How a delivery may end ----

  /** The answers that leave the entry pending. */
  predicate LeavesPending(c: Config, job: Job, t: seq<Event>, o: Outcome)
    requires t != []
  {
    var op, r := Last(t).op, Last(t).reply;
    match o
    case LockConflict => op.AcquireLock? && r.LockHeld?
    case StopSafe => op.Cas? && op.to.Exporting? && r.Conflict? && !NonActionable(r.current)
    case NoAck =>
      || ((op.EmitReady? || op.SendDlq? || op.ScheduleRetry?) && !r.Ok?)
      || (op.FetchStored? && r.Err?)
      || (op.FetchStored? && r.Found? && RecordRead(t).Some?
          && c.storedFacts(DepOf(job.payload), RecordRead(t).value, r.body).None?)
      || (op.Cas? && op.to.ExportFailed? && !Settles(r) && !FailsForGood(r))
    case _ => false
  }

  ghost predicate MayEnd(c: Config, job: Job, t: seq<Event>, o: Outcome) {
    t != [] && if Last(t).op.AckMessage? then MayAck(c, job, t[..|t| - 1], o) else LeavesPending(c, job, t, o)
  }

  // ---- The protocol keeps the rules ----

  /** What has been said when the protocol is at this program counter. */
  ghost predicate Tells(c: Config, job: Job, t: seq<Event>, pc: Pc) {
    var dep := DepOf(job.payload);
    match pc
    case UnparseableDlq => t == [] && job.payload.Unparseable?
    case Loading => t == [] && !job.payload.Unparseable?
    case FetchingManifest(rec) => MayFetch(job, t) && RecordRead(t) == Some(rec)
    case Reemitting(facts) => MayAnnounce(c, job, t, facts) && |t| == 2 && t[1].op.FetchStored?
    case Locking(rec) => |t| == 1 && RecordRead(t) == Some(rec) && Cleared(job, rec)
    case CasExporting(rec) =>
      && |t| == 2 && RecordRead(t) == Some(rec) && Cleared(job, rec) && Locked(job, t) && rec.status.ExportQueued?
    case Harvesting(rec) => Claimed(job, t, rec) && |t| == ExportAt(t) && c.slugError(rec).None?
    case Uploading(rec, files, objects, left) =>
      && left != {} && !UploadExpired(t) && Rendered(job, t, rec, files)
      && c.objects(dep, rec, files) == Success(objects)
      && forall i: nat :: i in left <==> i < |objects| && !Answered(t, i)
    case Dating(rec, files) => UploadsOver(c, job, t, rec, files) && CreatedAtOf(job.payload) == ""
    case PuttingManifest(rec, files, m) => Built(c, job, t, rec, files, Success(m))
    case Submitting(rec, files, m) =>
      Built(c, job, t, rec, files, Success(m)) && Last(t) == Event(PutManifest(m), Reply.Ok)
    case CasReady(rec, files, m) => Registered(c, job, t, rec, files, m)
    case Emitting(facts) => MayAnnounce(c, job, t, facts) && t != [] && Last(t).op.Cas?
    case CasFailed(rec, code, exhausted) =>
      && FailsWith(c, job, t, code) && exhausted == Retryable(code) && (exhausted ==> job.attempt >= c.maxRetries)
      && OwnsNextStep(job, t) && Standing(job, t) == Some(rec.status)
    case DeadLettering(code) => MayDeadLetter(c, job, t, code)
    case Scheduling(code) => FailsWith(c, job, t, code) && Retryable(code) && job.attempt < c.maxRetries
    case Acking(why) => MayAck(c, job, t, OutcomeOf(why))
    case Done(o) => MayEnd(c, job, t, o)
  }

  lemma EnvelopeIsTheRetry(c: Config, job: Job, code: Code)
    ensures var env := RetryEnvelope(c, job, code);
            && IsRetryOf(job, env, code)
            && env.nextAttemptAt == (job.clock + Backoff.Delay(c.backoff, env.attempt, job.jitter)) / 1_000_000
  {
  }

  /** Whatever the protocol asks for is due. */
  lemma ToldIsDue(c: Config, job: Job, t: seq<Event>, pc: Pc)
    requires Tells(c, job, t, pc) && !pc.Done?
    ensures IsDue(c, job, t, OpOf(c, job, pc))
  {
    if pc.Scheduling? {
      EnvelopeIsTheRetry(c, job, pc.code);
    }
  }

  lemma FailureTells(c: Config, job: Job, t: seq<Event>, rec: Option<Record>, code: Code)
    requires FailsWith(c, job, t, code)
    requires Standing(job, t) == match rec case None => None case Some(r) => Some(r.status)
    ensures Tells(c, job, t, FailPc(c, job, rec, code))
  {
  }

  // ---- One more call ----

  lemma PrefixStays(job: Job, t: seq<Event>, e: Event)
    requires t != []
    ensures RecordRead(t + [e]) == RecordRead(t) && ExportAt(t + [e]) == ExportAt(t)
    ensures Locked(job, t) ==> Locked(job, t + [e])
    ensures Moved(job, t) ==> Moved(job, t + [e])
    ensures |t| >= 3 || !e.op.Cas? || !e.op.to.Exporting? || !e.reply.Ok? ==> (Moved(job, t + [e]) <==> Moved(job, t))
    ensures forall rec :: Claimed(job, t, rec) ==> Claimed(job, t + [e], rec)
    ensures forall rec, files :: Rendered(job, t, rec, files) ==> Rendered(job, t + [e], rec, files)
    ensures (t + [e])[..|t|] == t && Last(t + [e]) == e
  {
  }

  lemma AnswersStay(t: seq<Event>, e: Event, i: nat)
    ensures Answered(t + [e], i) <==>
              Answered(t, i) || (e.op.AwaitUpload? && (e.reply == Uploaded(i) || e.reply == Skipped(i)))
    ensures UploadExpired(t + [e]) <==> UploadExpired(t) || (e.op.AwaitUpload? && e.reply.Expired?)
  {
    assert e in t + [e];
    if x :| x in t && x.op.AwaitUpload? && (x.reply == Uploaded(i) || x.reply == Skipped(i)) {
      assert x in t + [e];
    }
    if x :| x in t && x.op.AwaitUpload? && x.reply.Expired? {
      assert x in t + [e];
    }
  }

  lemma UploadsStayOver(c: Config, job: Job, t: seq<Event>, e: Event, rec: Record, files: seq<File>)
    requires t != [] && UploadsOver(c, job, t, rec, files)
    ensures UploadsOver(c, job, t + [e], rec, files)
  {
    PrefixStays(job, t, e);
    forall i: nat
      ensures Answered(t, i) ==> Answered(t + [e], i)
      ensures UploadExpired(t) ==> UploadExpired(t + [e])
    {
      AnswersStay(t, e, i);
    }
  }

  lemma StaysBuilt(c: Config, job: Job, t: seq<Event>, e: Event, rec: Record, files: seq<File>, m: Result<Object, Code>)
    requires t != [] && Built(c, job, t, rec, files, m)
    ensures Built(c, job, t + [e], rec, files, m)
  {
    UploadsStayOver(c, job, t, e, rec, files);
    var at :| Dated(c, job, t, rec, at) && c.manifest(DepOf(job.payload), rec, files, at) == m;
    if CreatedAtOf(job.payload) == "" {
      var stored, clock :| Event(ChooseCreatedAt(c.manifestKey(DepOf(job.payload), rec)), Prior(stored, clock)) in t
                           && at == c.date(stored, clock);
      assert Event(ChooseCreatedAt(c.manifestKey(DepOf(job.payload), rec)), Prior(stored, clock)) in t + [e];
    }
    assert Dated(c, job, t + [e], rec, at);
  }

  // ---- Reading the record ----

  lemma LoadTells(c: Config, job: Job, r: Reply)
    requires !job.payload.Unparseable? && Fits(LoadRecord(DepOf(job.payload)), r)
    ensures Tells(c, job, [Event(LoadRecord(DepOf(job.payload)), r)], NextPc(c, job, Loading, r))
  {
    var t := [Event(LoadRecord(DepOf(job.payload)), r)];
    match r
    case Err(code) => FailureTells(c, job, t, None, code);
    case Loaded(rec) => LoadedTells(c, job, t, rec);
  }

  lemma LoadedTells(c: Config, job: Job, t: seq<Event>, rec: Record)
    requires !job.payload.Unparseable? && t == [Event(LoadRecord(DepOf(job.payload)), Loaded(rec))]
    ensures Tells(c, job, t, LoadedPc(c, job, rec))
  {
    var code := if job.payload.Valid? && rec.status.Pending? then QUEUE_TEMPORARY_FAILURE else VALIDATION_FAILED;
    if Refused(job, rec, code) {
      assert FailsWith(c, job, t, code);
      FailureTells(c, job, t, Some(rec), code);
    }
  }

  lemma ReemissionTells(c: Config, job: Job, t: seq<Event>, pc: Pc, r: Reply)
    requires Tells(c, job, t, pc) && Fits(OpOf(c, job, pc), r) && (pc.FetchingManifest? || pc.Reemitting?)
    ensures Tells(c, job, t + [Event(OpOf(c, job, pc), r)], NextPc(c, job, pc, r))
  {
    var e := Event(OpOf(c, job, pc), r);
    PrefixStays(job, t, e);
    if pc.FetchingManifest? && r.Found? {
      assert t + [e] == [(t + [e])[0], e] && (t + [e])[..1] == t;
    }
  }

  // ---- Claiming it ----

  lemma LockTells(c: Config, job: Job, t: seq<Event>, rec: Record, r: Reply)
    requires Tells(c, job, t, Locking(rec)) && Fits(AcquireLock(DepOf(job.payload)), r)
    ensures Tells(c, job, t + [Event(AcquireLock(DepOf(job.payload)), r)], NextPc(c, job, Locking(rec), r))
  {
    var longer := t + [Event(AcquireLock(DepOf(job.payload)), r)];
    PrefixStays(job, t, Event(AcquireLock(DepOf(job.payload)), r));
    if ErrorOf(r).Some? {
      FailureTells(c, job, longer, Some(rec), QUEUE_TEMPORARY_FAILURE);
    } else if r.Ok? && rec.status.Exporting? {
      assert rec.(status := Exporting) == rec;
      ClaimTells(c, job, longer, rec);
    }
  }

  lemma ClaimTells(c: Config, job: Job, t: seq<Event>, rec: Record)
    requires Claimed(job, t, rec) && |t| == ExportAt(t)
    ensures Tells(c, job, t, ExportPc(c, job, rec))
  {
    if c.slugError(rec).Some? {
      assert SlugFails(c, job, t, c.slugError(rec).value);
      assert Standing(job, t) == Some(rec.status);
      FailureTells(c, job, t, Some(rec), c.slugError(rec).value);
    }
  }

  lemma MoveTells(c: Config, job: Job, t: seq<Event>, rec: Record, r: Reply)
    requires Tells(c, job, t, CasExporting(rec)) && Fits(Cas(DepOf(job.payload), ExportQueued, Exporting), r)
    ensures Tells(c, job, t + [Event(Cas(DepOf(job.payload), ExportQueued, Exporting), r)],
                  NextPc(c, job, CasExporting(rec), r))
  {
    var e := Event(Cas(DepOf(job.payload), ExportQueued, Exporting), r);
    PrefixStays(job, t, e);
    if r.Ok? {
      ClaimTells(c, job, t + [e], rec.(status := Exporting));
    } else if ErrorOf(r).Some? {
      FailureTells(c, job, t + [e], Some(rec), ErrorOf(r).value);
    }
  }

  // ---- The export ----

  lemma WorkingStands(job: Job, t: seq<Event>, rec: Record)
    requires Claimed(job, t, rec)
    ensures Standing(job, t) == Some(Exporting) && rec.status == Exporting && t != []
  {
  }

  lemma HarvestTells(c: Config, job: Job, t: seq<Event>, rec: Record, r: Reply)
    requires Tells(c, job, t, Harvesting(rec)) && Fits(RenderAndHarvest(DepOf(job.payload), rec), r)
    ensures Tells(c, job, t + [Event(RenderAndHarvest(DepOf(job.payload), rec), r)], NextPc(c, job, Harvesting(rec), r))
  {
    var e := Event(RenderAndHarvest(DepOf(job.payload), rec), r);
    var longer := t + [e];
    PrefixStays(job, t, e);
    WorkingStands(job, longer, rec);
    assert forall x :: x in t ==> !x.op.AwaitUpload?;
    match r
    case Err(code) => FailureTells(c, job, longer, Some(rec), code);
    case Harvested(files) =>
      assert Rendered(job, longer, rec, files);
      match c.objects(DepOf(job.payload), rec, files) {
        case Failure(code) => FailureTells(c, job, longer, Some(rec), code);
        case Success(objects) =>
          forall i: nat
            ensures !Answered(longer, i) && !UploadExpired(longer)
          {
            AnswersStay(t, e, i);
          }
          UploadTells(c, job, longer, rec, files, objects, Indices(|objects|));
      }
  }

  /** Objects are left, or the uploads are over. */
  lemma UploadTells(c: Config, job: Job, t: seq<Event>, rec: Record, files: seq<File>, objects: seq<Object>,
                    left: set<nat>)
    requires Rendered(job, t, rec, files) && c.objects(DepOf(job.payload), rec, files) == Success(objects)
    requires forall i: nat :: i in left <==> i < |objects| && !Answered(t, i)
    requires !UploadExpired(t) && (Last(t).op.RenderAndHarvest? || Last(t).op.AwaitUpload?)
    ensures Tells(c, job, t, UploadPc(c, job, rec, files, objects, left))
  {
    if left == {} {
      forall i: nat | i < |objects|
        ensures Answered(t, i)
      {
        assert i !in left;
      }
      OverTells(c, job, t, rec, files);
    }
  }

  lemma OverTells(c: Config, job: Job, t: seq<Event>, rec: Record, files: seq<File>)
    requires UploadsOver(c, job, t, rec, files) && (Last(t).op.RenderAndHarvest? || Last(t).op.AwaitUpload?)
    ensures Tells(c, job, t, ManifestPc(c, job, rec, files))
  {
    if CreatedAtOf(job.payload) != "" {
      DateTells(c, job, t, rec, files, CreatedAtOf(job.payload));
    }
  }

  lemma DateTells(c: Config, job: Job, t: seq<Event>, rec: Record, files: seq<File>, at: string)
    requires UploadsOver(c, job, t, rec, files) && Dated(c, job, t, rec, at)
    requires Last(t).op.RenderAndHarvest? || Last(t).op.AwaitUpload? || Last(t).op.ChooseCreatedAt?
    ensures Tells(c, job, t, DatedPc(c, job, rec, files, at))
  {
    var m := c.manifest(DepOf(job.payload), rec, files, at);
    assert Built(c, job, t, rec, files, m);
    WorkingStands(job, t, rec);
    if m.Failure? {
      assert ManifestFails(c, job, t, m.error);
      FailureTells(c, job, t, Some(rec), m.error);
    }
  }

  lemma UploadingTells(c: Config, job: Job, t: seq<Event>, pc: Pc, r: Reply)
    requires pc.Uploading? && Tells(c, job, t, pc) && Fits(OpOf(c, job, pc), r)
    ensures Tells(c, job, t + [Event(OpOf(c, job, pc), r)], NextPc(c, job, pc, r))
  {
    var e := Event(OpOf(c, job, pc), r);
    PrefixStays(job, t, e);
    WorkingStands(job, t + [e], pc.rec);
    forall i: nat
      ensures Answered(t + [e], i) <==> Answered(t, i) || r == Uploaded(i) || r == Skipped(i)
      ensures UploadExpired(t + [e]) <==> r.Expired?
    {
      AnswersStay(t, e, i);
    }
    if ErrorOf(r).Some? {
      FailureTells(c, job, t + [e], Some(pc.rec), ErrorOf(r).value);
    } else if r.Expired? {
      OverTells(c, job, t + [e], pc.rec, pc.files);
    } else {
      UploadTells(c, job, t + [e], pc.rec, pc.files, pc.objects, pc.left - {r.index});
    }
  }

  lemma DatingTells(c: Config, job: Job, t: seq<Event>, rec: Record, files: seq<File>, r: Reply)
    requires Tells(c, job, t, Dating(rec, files)) && r.Prior?
    ensures Tells(c, job, t + [Event(ChooseCreatedAt(c.manifestKey(DepOf(job.payload), rec)), r)],
                  NextPc(c, job, Dating(rec, files), r))
  {
    var e := Event(ChooseCreatedAt(c.manifestKey(DepOf(job.payload), rec)), r);
    UploadsStayOver(c, job, t, e, rec, files);
    assert Event(ChooseCreatedAt(c.manifestKey(DepOf(job.payload), rec)), Prior(r.stored, r.clock)) in t + [e];
    DateTells(c, job, t + [e], rec, files, c.date(r.stored, r.clock));
  }

  lemma RegisterTells(c: Config, job: Job, t: seq<Event>, pc: Pc, r: Reply)
    requires (pc.PuttingManifest? || pc.Submitting?) && Tells(c, job, t, pc) && Fits(OpOf(c, job, pc), r)
    ensures Tells(c, job, t + [Event(OpOf(c, job, pc), r)], NextPc(c, job, pc, r))
  {
    var e := Event(OpOf(c, job, pc), r);
    PrefixStays(job, t, e);
    StaysBuilt(c, job, t, e, pc.rec, pc.files, Success(pc.manifest));
    WorkingStands(job, t + [e], pc.rec);
    if ErrorOf(r).Some? {
      FailureTells(c, job, t + [e], Some(pc.rec), ErrorOf(r).value);
    }
  }

  lemma AnnounceTells(c: Config, job: Job, t: seq<Event>, pc: Pc, r: Reply)
    requires (pc.CasReady? || pc.Emitting?) && Tells(c, job, t, pc) && Fits(OpOf(c, job, pc), r)
    ensures Tells(c, job, t + [Event(OpOf(c, job, pc), r)], NextPc(c, job, pc, r))
  {
    var e := Event(OpOf(c, job, pc), r);
    PrefixStays(job, t, e);
    if pc.CasReady? {
      assert Registered(c, job, (t + [e])[..|t + [e]| - 1], pc.rec, pc.files, pc.manifest);
      WorkingStands(job, t + [e], pc.rec);
      if ErrorOf(r).Some? {
        FailureTells(c, job, t + [e], Some(pc.rec), ErrorOf(r).value);
      } else if r.Conflict? && !NonActionable(r.current) {
        FailureTells(c, job, t + [e], Some(pc.rec), VALIDATION_FAILED);
      }
    }
  }

  // ---- Failing and acking ----

  /** What the terminal status write leads to. */
  lemma MarkedTells(c: Config, job: Job, t: seq<Event>, code: Code)
    requires Marked(c, job, t, code)
    ensures Retryable(code) && Settles(Last(t).reply) ==> MayDeadLetter(c, job, t, code)
    ensures FailsForGood(Last(t).reply) ==> MayDeadLetter(c, job, t, code)
    ensures !Retryable(code) && Settles(Last(t).reply) ==> MayAck(c, job, t, FailedTerminal)
  {
  }

  lemma IsMarked(c: Config, job: Job, t: seq<Event>, e: Event, code: Code)
    requires t != [] && FailsWith(c, job, t, code) && e.op.Cas? && e.op.to.ExportFailed?
    ensures Marked(c, job, t + [e], code) && Last(t + [e]) == e
  {
    assert (t + [e])[..|t + [e]| - 1] == t;
  }

  lemma MarkingTells(c: Config, job: Job, t: seq<Event>, pc: Pc, r: Reply)
    requires pc.CasFailed? && Tells(c, job, t, pc) && Fits(OpOf(c, job, pc), r)
    ensures Tells(c, job, t + [Event(OpOf(c, job, pc), r)], CasFailedNext(job, pc, r))
  {
    var e := Event(OpOf(c, job, pc), r);
    IsMarked(c, job, t, e, pc.code);
    MarkedTells(c, job, t + [e], pc.code);
    var next := CasFailedNext(job, pc, r);
    if Settles(r) {
      assert next == if pc.exhausted then DeadLettering(pc.code) else Acking(MarkedFailed);
    } else if FailsForGood(r) {
      assert next == DeadLettering(pc.code);
    } else {
      assert next == Done(NoAck) && LeavesPending(c, job, t + [e], NoAck);
    }
  }

  lemma AckTells(c: Config, job: Job, t: seq<Event>, why: AckReason, r: Reply)
    requires Tells(c, job, t, Acking(why))
    ensures Tells(c, job, t + [Event(AckMessage(job.entry), r)], Done(OutcomeOf(why)))
  {
    var longer := t + [Event(AckMessage(job.entry), r)];
    assert longer[..|longer| - 1] == t;
  }

  lemma SettlingTells(c: Config, job: Job, t: seq<Event>, pc: Pc, r: Reply)
    requires Tells(c, job, t, pc) && Fits(OpOf(c, job, pc), r)
    requires pc.DeadLettering? || pc.Scheduling? || pc.UnparseableDlq?
    ensures Tells(c, job, t + [Event(OpOf(c, job, pc), r)], NextPc(c, job, pc, r))
  {
    assert Last(t + [Event(OpOf(c, job, pc), r)]) == Event(OpOf(c, job, pc), r);
  }

  // ---- Whole conversations ----

  lemma StepTells(c: Config, job: Job, t: seq<Event>, pc: Pc, r: Reply)
    requires Tells(c, job, t, pc) && !pc.Done? && Fits(OpOf(c, job, pc), r)
    ensures Tells(c, job, t + [Event(OpOf(c, job, pc), r)], NextPc(c, job, pc, r))
  {
    match pc
    case Loading =>
      assert t + [Event(OpOf(c, job, pc), r)] == [Event(OpOf(c, job, pc), r)];
      LoadTells(c, job, r);
    case FetchingManifest(_) => ReemissionTells(c, job, t, pc, r);
    case Reemitting(_) => ReemissionTells(c, job, t, pc, r);
    case Locking(rec) => LockTells(c, job, t, rec, r);
    case CasExporting(rec) => MoveTells(c, job, t, rec, r);
    case Harvesting(rec) => HarvestTells(c, job, t, rec, r);
    case Uploading(_, _, _, _) => UploadingTells(c, job, t, pc, r);
    case Dating(rec, files) => DatingTells(c, job, t, rec, files, r);
    case PuttingManifest(_, _, _) => RegisterTells(c, job, t, pc, r);
    case Submitting(_, _, _) => RegisterTells(c, job, t, pc, r);
    case CasReady(_, _, _) => AnnounceTells(c, job, t, pc, r);
    case Emitting(_) => AnnounceTells(c, job, t, pc, r);
    case CasFailed(_, _, _) => MarkingTells(c, job, t, pc, r);
    case Acking(why) => AckTells(c, job, t, why, r);
    case _ => SettlingTells(c, job, t, pc, r);
  }

  /** From its n-th call on, every call of the conversation was due. */
  ghost predicate AllDue(c: Config, job: Job, t: seq<Event>, n: nat) {
    forall k :: n <= k < |t| ==> IsDue(c, job, t[..k], t[k].op)
  }

  lemma {:induction false} PathTells(c: Config, job: Job, before: seq<Event>, from: Pc, trace: seq<Event>, to: Pc)
    requires Tells(c, job, before, from) && Path(c, job, from, trace, to)
    ensures Tells(c, job, before + trace, to) && AllDue(c, job, before + trace, |before|)
    decreases |trace|
  {
    if trace == [] {
      assert before + trace == before;
    } else {
      var longer := before + [trace[0]];
      ToldIsDue(c, job, before, from);
      StepTells(c, job, before, from, trace[0].reply);
      assert trace[0] == Event(OpOf(c, job, from), trace[0].reply);
      PathTells(c, job, longer, NextPc(c, job, from, trace[0].reply), trace[1..], to);
      OneMoreDue(c, job, before, trace);
    }
  }

  lemma OneMoreDue(c: Config, job: Job, before: seq<Event>, trace: seq<Event>)
    requires trace != [] && IsDue(c, job, before, trace[0].op)
    requires AllDue(c, job, before + [trace[0]] + trace[1..], |before| + 1)
    ensures before + [trace[0]] + trace[1..] == before + trace && AllDue(c, job, before + trace, |before|)
  {
    var t := before + trace;
    assert before + [trace[0]] + trace[1..] == t;
    assert t[..|before|] == before && t[|before|] == trace[0];
  }

  /** The conversation's contract: along every path of the protocol each call is due by what was said before it,
      and a delivery ends only where it may. */
  lemma EveryCallIsDue(c: Config, job: Job, trace: seq<Event>, to: Pc)
    requires Path(c, job, StartPc(job), trace, to)
    ensures AllDue(c, job, trace, 0)
    ensures to.Done? ==> MayEnd(c, job, trace, to.outcome)
  {
    PathTells(c, job, [], StartPc(job), trace, to);
    assert [] + trace == trace;
  }

  // ---- What follows ----

  /** The calls that work on a deployment or announce it anew. */
  predicate Works(op: Op) {
    || op.AcquireLock? || op.RenderAndHarvest? || op.AwaitUpload? || op.ChooseCreatedAt? || op.PutManifest?
    || op.SubmitPointer? || (op.Cas? && (op.to.Exporting? || op.to.ArtifactReady?))
  }

  /** Nothing is done for a deployment unless its record was read first, is in one of the worker's two statuses and
      matches the event's render mode, version and slug; and nothing but the lock is asked for without the lock. */
  lemma OnlyClearedRecordsAreWorkedOn(c: Config, job: Job, trace: seq<Event>, to: Pc, k: nat)
    requires Path(c, job, StartPc(job), trace, to) && k < |trace| && Works(trace[k].op)
    ensures k >= 1 && RecordRead(trace).Some? && Cleared(job, RecordRead(trace).value)
    ensures trace[0].op == LoadRecord(DepOf(job.payload))
    ensures trace[k].op.AcquireLock? || (k >= 2 && Locked(job, trace))
  {
    EveryCallIsDue(c, job, trace, to);
    assert IsDue(c, job, trace[..k], trace[k].op);
    assert IsDue(c, job, trace[..0], trace[0].op);
  }

  /** An event that does not match its record fails the deployment: the next call is the terminal status write, the
      delivery does not end before it, and nothing is locked, exported or announced. */
  lemma MismatchFailsTheDeployment(c: Config, job: Job, trace: seq<Event>, to: Pc, rec: Record)
    requires Path(c, job, StartPc(job), trace, to) && trace != [] && RecordRead(trace) == Some(rec)
    requires job.payload.Valid? && Actionable(rec.status)
    requires job.payload.hints != Hints(rec.renderMode, rec.version, rec.slug)
    ensures |trace| >= 2 ==> trace[1].op == Cas(DepOf(job.payload), rec.status, ExportFailed)
    ensures to.Done? ==> |trace| >= 2
    ensures forall k :: 0 <= k < |trace| ==> !Works(trace[k].op) && !trace[k].op.EmitReady?
  {
    EveryCallIsDue(c, job, trace, to);
    if |trace| >= 2 {
      assert IsDue(c, job, trace[..1], trace[1].op);
      OnlyTheStatusWriteIsDue(c, job, trace[..1], rec, trace[1].op);
    } else {
      MismatchEndsNothing(c, job, trace, rec);
    }
    forall k | 0 <= k < |trace|
      ensures !Works(trace[k].op) && !trace[k].op.EmitReady?
    {
      NothingIsWorkedOn(c, job, trace, to, rec, k);
    }
  }

  lemma NothingIsWorkedOn(c: Config, job: Job, trace: seq<Event>, to: Pc, rec: Record, k: nat)
    requires Path(c, job, StartPc(job), trace, to) && RecordRead(trace) == Some(rec) && !Cleared(job, rec)
    requires k < |trace| && !rec.status.ArtifactReady?
    ensures !Works(trace[k].op) && !trace[k].op.EmitReady?
  {
    EveryCallIsDue(c, job, trace, to);
    assert IsDue(c, job, trace[..k], trace[k].op);
    if Works(trace[k].op) {
      OnlyClearedRecordsAreWorkedOn(c, job, trace, to, k);
    }
  }

  lemma OnlyTheStatusWriteIsDue(c: Config, job: Job, t: seq<Event>, rec: Record, op: Op)
    requires |t| == 1 && RecordRead(t) == Some(rec) && job.payload.Valid? && Actionable(rec.status)
    requires !Cleared(job, rec) && IsDue(c, job, t, op)
    ensures op == Cas(DepOf(job.payload), rec.status, ExportFailed)
  {
    ClassOfDecisiveCodes();
  }

  lemma MismatchEndsNothing(c: Config, job: Job, t: seq<Event>, rec: Record)
    requires |t| == 1 && RecordRead(t) == Some(rec) && job.payload.Valid? && Actionable(rec.status)
    ensures forall o :: !MayEnd(c, job, t, o)
  {
  }

  // ---- When a retry is due ----

  /** The delay the policy means for an attempt is what 64-bit arithmetic makes of it. */
  predicate Exact(p: Backoff.Policy, attempt: int)
    requires attempt >= 1
  {
    var e := p.base * Backoff.Pow2(attempt - 1);
    p.base > 0 && 0 < p.max <= Backoff.MAX_INT64 && (e <= Backoff.MAX_INT64 || !(0 < Backoff.Wrap64(e) < p.max))
  }

  /** Due no earlier than half the intended delay after the clock reading, and no later than the whole of it;
      the intended delay is the base doubled once per earlier attempt, capped. */
  predicate DueInWindow(p: Backoff.Policy, clock: int, env: Envelope)
    requires env.attempt >= 1
  {
    var d := Backoff.Min(p.base * Backoff.Pow2(env.attempt - 1), p.max);
    (clock + d / 2) / 1_000_000 <= env.nextAttemptAt <= (clock + d) / 1_000_000
  }

  lemma DelayedRetryIsInWindow(p: Backoff.Policy, clock: int, jitter: real, env: Envelope)
    requires env.attempt >= 1 && Exact(p, env.attempt) && 0.0 <= jitter < 1.0
    requires env.nextAttemptAt == (clock + Backoff.Delay(p, env.attempt, jitter)) / 1_000_000
    ensures DueInWindow(p, clock, env)
  {
    var e := p.base * Backoff.Pow2(env.attempt - 1);
    Backoff.PositiveProduct(p.base, Backoff.Pow2(env.attempt - 1));
    Backoff.CeilingIsExactIff(p, env.attempt);
    Backoff.DelayBounds(p, env.attempt, jitter);
  }

  /** Every retry a delivery asks for is the next attempt of the same message under the code that failed, asked for
      only after a retryable failure and before the last attempt, and due in its backoff window. */
  lemma RetriesAreDelayed(c: Config, job: Job, trace: seq<Event>, to: Pc, k: nat)
    requires Path(c, job, StartPc(job), trace, to) && k < |trace| && trace[k].op.ScheduleRetry?
    requires job.attempt >= 0 && Exact(c.backoff, job.attempt + 1) && 0.0 <= job.jitter < 1.0
    ensures var env := trace[k].op.envelope;
            && IsRetryOf(job, env, env.code) && Retryable(env.code) && env.attempt <= c.maxRetries
            && FailsWith(c, job, trace[..k], env.code) && DueInWindow(c.backoff, job.clock, env)
  {
    EveryCallIsDue(c, job, trace, to);
    assert IsDue(c, job, trace[..k], trace[k].op);
    DelayedRetryIsInWindow(c.backoff, job.clock, job.jitter, trace[k].op.envelope);
  }
}
