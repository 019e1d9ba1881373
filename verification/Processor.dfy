/** The processor: one delivered message, from parsing to the ack decision. Every method is proved to make
    exactly the protocol's calls, in its order, and the write-then-ack contract is read off the conversation. */
module Processor {
  import opened Wrappers
  import opened ErrClass
  import opened Deployment
  import opened Types
  import opened Retry
  import opened Protocol
  import opened Session
  import opened Pipeline
  import opened Export
  import Backoff
  import Conversations

  /** The reason's ack, then its outcome; an ack that fails leaves the entry pending and the outcome alike. */
  method Ack(s: Conversation, ghost why: AckReason)
    requires s.Valid() && s.pc == Acking(why)
    modifies s
    ensures s.Valid() && s.pc == Done(OutcomeOf(why))
    ensures exists r :: s.trace == old(s.trace) + [Event(AckMessage(s.job.entry), r)]
  {
    var _ := s.Call(AckMessage(s.job.entry));
  }

  method SendToDlq(s: Conversation, code: Code) returns (ok: bool)
    requires s.Valid() && (s.pc == DeadLettering(code) || (s.pc.UnparseableDlq? && code == VALIDATION_FAILED))
    modifies s
    ensures s.Valid() && s.pc == if ok then Acking(DeadLettered) else Done(NoAck)
  {
    var r := s.Call(SendDlq(s.job.payload, s.job.attempt, code));
    ok := r.Ok?;
  }

  method DlqThenAck(s: Conversation, code: Code) returns (o: Outcome)
    requires s.Valid() && (s.pc == DeadLettering(code) || (s.pc.UnparseableDlq? && code == VALIDATION_FAILED))
    modifies s
    ensures s.Valid() && s.pc == Done(o)
  {
    var sent := SendToDlq(s, code);
    if !sent {
      return NoAck;
    }
    Ack(s, DeadLettered);
    return Dlq;
  }

  /** What the terminal status write came to. */
  datatype CasResult = Settled | Conflicting | CasError(code: Code)

  /** One classified error per failed write: a conflict with an active status counts as unclassified. */
  function FailureOf(r: CasResult): Failure {
    if r.CasError? then Classified(r.code) else Unclassified
  }

  /** EXPORT_FAILED from the record's status; without an actionable record there is nothing to write. */
  method CasFailed(s: Conversation, rec: Option<Record>, ghost code: Code, ghost exhausted: bool) returns (r: CasResult)
    requires s.Valid()
    requires rec.Some? && Actionable(rec.value.status) ==> s.pc == Pc.CasFailed(rec.value, code, exhausted)
    modifies s
    ensures s.Valid()
    ensures rec.None? || !Actionable(rec.value.status) ==> r == Settled && s.pc == old(s.pc) && s.trace == old(s.trace)
    ensures rec.Some? && Actionable(rec.value.status) ==>
              match r
              case Settled => s.pc == if exhausted then DeadLettering(code) else Acking(MarkedFailed)
              case Conflicting => s.pc == Done(NoAck)
              case CasError(c) => s.pc == if Retryable(c) then Done(NoAck) else DeadLettering(code)
  {
    if rec.None? || !Actionable(rec.value.status) {
      return Settled;
    }
    var reply := s.Call(Cas(DepOf(s.job.payload), rec.value.status, ExportFailed));
    match reply {
      case Ok => return Settled;
      case Conflict(current) => return if NonActionable(current) then Settled else Conflicting;
      case Err(c) => return CasError(c);
      case Lost(c) => return CasError(c);
      case _ => assert false;
    }
  }

  method ScheduleRetry(s: Conversation, code: Code) returns (o: Outcome)
    requires s.Valid() && s.pc == Scheduling(code)
    modifies s
    ensures s.Valid() && s.pc == Done(o)
    ensures |s.trace| > |old(s.trace)| && s.trace[|old(s.trace)|].op.ScheduleRetry?
    ensures var env := s.trace[|old(s.trace)|].op.envelope;
            && Conversations.IsRetryOf(s.job, env, code)
            && (s.job.attempt >= 0 && Conversations.Exact(s.config.backoff, s.job.attempt + 1)
                && 0.0 <= s.job.jitter < 1.0 ==>
                  Conversations.DueInWindow(s.config.backoff, s.job.clock, env))
    ensures o.RetryScheduled? <==> s.trace[|old(s.trace)|].reply.Ok?
  {
    var next := s.job.attempt + 1;
    var dep := DepOf(s.job.payload);
    var nextAttemptAt := (s.job.clock + Backoff.Delay(s.config.backoff, next, s.job.jitter)) / 1_000_000;
    var env := Envelope(EnvelopeID(dep, next, code), dep, next, code, nextAttemptAt, s.job.payload);
    if s.job.attempt >= 0 && Conversations.Exact(s.config.backoff, next) && 0.0 <= s.job.jitter < 1.0 {
      Conversations.DelayedRetryIsInWindow(s.config.backoff, s.job.clock, s.job.jitter, env);
    }
    var r := s.Call(Op.ScheduleRetry(env));
    if !r.Ok? {
      return NoAck;
    }
    Ack(s, Scheduled);
    return RetryScheduled;
  }

  /** A retryable failure on the last attempt: EXPORT_FAILED, then the DLQ. */
  method Exhausted(s: Conversation, rec: Option<Record>, code: Code) returns (o: Outcome)
    requires s.Valid()
    requires s.pc == if rec.Some? && Actionable(rec.value.status) then Pc.CasFailed(rec.value, code, true)
              else DeadLettering(code)
    modifies s
    ensures s.Valid() && s.pc == Done(o)
  {
    var cas := CasFailed(s, rec, code, true);
    if !cas.Settled? && Retryable(From(FailureOf(cas))) {
      return NoAck;
    }
    o := DlqThenAck(s, code);
  }

  /** The classified failure branches. */
  method Fail(s: Conversation, rec: Option<Record>, code: Code) returns (o: Outcome)
    requires s.Valid() && s.pc == FailPc(s.config, s.job, rec, code)
    modifies s
    ensures s.Valid() && s.pc == Done(o)
  {
    if Retryable(code) {
      if s.job.attempt >= s.config.maxRetries {
        o := Exhausted(s, rec, code);
      } else {
        o := ScheduleRetry(s, code);
      }
      return;
    }
    var cas := CasFailed(s, rec, code, false);
    if !cas.Settled? {
      if Retryable(From(FailureOf(cas))) {
        return NoAck;
      }
      o := DlqThenAck(s, code);
      return;
    }
    ghost var why := if rec.Some? && (Actionable(rec.value.status) || NonActionable(rec.value.status)) then MarkedFailed
        else NoRecord;
    Ack(s, why);
    return FailedTerminal;
  }

  method UnparseableToDlq(s: Conversation) returns (o: Outcome)
    requires s.Valid() && s.pc.UnparseableDlq?
    modifies s
    ensures s.Valid() && s.pc == Done(o)
  {
    o := DlqThenAck(s, VALIDATION_FAILED);
  }

  /** A schema-invalid payload that still names its deployment fails terminally on the loaded record. */
  method HandleInvalid(s: Conversation) returns (o: Outcome)
    requires s.Valid() && s.pc == Loading && s.job.payload.Invalid?
    modifies s
    ensures s.Valid() && s.pc == Done(o)
  {
    var loaded := s.Call(LoadRecord(DepOf(s.job.payload)));
    if loaded.Err? {
      o := Fail(s, None, loaded.code);
      return;
    }
    o := Fail(s, Some(loaded.rec), VALIDATION_FAILED);
  }

  /** Redelivery of a finished deployment: re-emit if it is ARTIFACT_READY, then ack. */
  method HandleFinished(s: Conversation, p: Pipeline, rec: Record) returns (o: Outcome)
    requires Runs(s, p) && NonActionable(rec.status)
    requires s.pc == if rec.status.ArtifactReady? then FetchingManifest(rec) else Acking(AlreadyTerminal)
    modifies s
    ensures s.Valid() && s.pc == Done(o)
  {
    if rec.status.ArtifactReady? {
      var ok, _ := ReemitReady(s, p, rec);
      if !ok {
        return NoAck;
      }
    }
    Ack(s, AlreadyTerminal);
    return AckedTerminal;
  }

  /** From the lock to the ready event, on an actionable, reconciled record. */
  method HandleActionable(s: Conversation, p: Pipeline, loaded: Record) returns (o: Outcome)
    requires Runs(s, p) && s.pc == Locking(loaded)
    modifies s
    ensures s.Valid() && s.pc == Done(o)
  {
    var dep := DepOf(s.job.payload);
    var rec := loaded;
    var lease := s.Call(AcquireLock(dep));
    if lease.LockHeld? {
      return LockConflict;
    }
    if !lease.Ok? {
      o := Fail(s, Some(rec), QUEUE_TEMPORARY_FAILURE);
      return;
    }
    if rec.status.ExportQueued? {
      var cas := s.Call(Cas(dep, ExportQueued, Exporting));
      if cas.Conflict? {
        if NonActionable(cas.current) {
          Ack(s, Stopped);
        }
        return StopSafe;
      }
      if !cas.Ok? {
        o := Fail(s, Some(rec), cas.code);
        return;
      }
      rec := rec.(status := Exporting);
    }
    o := ExportThenAck(s, p, rec);
  }

  method ExportThenAck(s: Conversation, p: Pipeline, rec: Record) returns (o: Outcome)
    requires Runs(s, p) && s.pc == ExportPc(s.config, s.job, rec)
    modifies s
    ensures s.Valid() && s.pc == Done(o)
  {
    var e := Export.Export(s, p, rec);
    match e {
      case EmitPending => return NoAck;
      case ExportError(code) => o := Fail(s, Some(rec), code);
      case ExportDone =>
        Ack(s, Exported);
        return Succeeded;
    }
  }

  method HandleValid(s: Conversation, p: Pipeline) returns (o: Outcome)
    requires Runs(s, p) && s.pc == Loading && s.job.payload.Valid?
    modifies s
    ensures s.Valid() && s.pc == Done(o)
  {
    var loaded := s.Call(LoadRecord(DepOf(s.job.payload)));
    if loaded.Err? {
      o := Fail(s, None, loaded.code);
      return;
    }
    var rec := loaded.rec;
    if NonActionable(rec.status) {
      o := HandleFinished(s, p, rec);
      return;
    }
    if !Actionable(rec.status) {
      o := Fail(s, Some(rec), QUEUE_TEMPORARY_FAILURE);
      return;
    }
    var mismatch := Reconcile(rec, s.job.payload.hints);
    if mismatch.Some? {
      o := Fail(s, Some(rec), mismatch.value);
      return;
    }
    o := HandleActionable(s, p, rec);
  }

  /** One delivered message, end to end. Whatever the systems answer: the worker follows the protocol to its
      end; every call is due by what was said before it and the delivery ends only where it may; it acks only as
      its last call, right after learning a durable reason; and the outcome tells whether the entry was acked. */
  method Handle(s: Conversation, p: Pipeline) returns (o: Outcome)
    requires Runs(s, p) && s.trace == [] && s.pc == StartPc(s.job)
    modifies s
    ensures s.Valid() && Path(s.config, s.job, StartPc(s.job), s.trace, Done(o))
    ensures forall k :: 0 <= k < |s.trace| && s.trace[k].op.AckMessage? ==>
              k == |s.trace| - 1 && k >= 1 && DurableReason(s.config, s.job, s.trace[k - 1])
    ensures AckOutcome(o) ==> s.trace != [] && s.trace[|s.trace| - 1].op == AckMessage(s.job.entry)
    ensures o.NoAck? || o.LockConflict? ==> forall k :: 0 <= k < |s.trace| ==> !s.trace[k].op.AckMessage?
    ensures Conversations.AllDue(s.config, s.job, s.trace, 0) && Conversations.MayEnd(s.config, s.job, s.trace, o)
  {
    match s.job.payload {
      case Unparseable => o := UnparseableToDlq(s);
      case Invalid(_) => o := HandleInvalid(s);
      case Valid(_, _, _) => o := HandleValid(s, p);
    }
    AckOnlyWithReason(s.config, s.job, s.trace, s.pc);
    OutcomeTellsAck(s.config, s.job, s.trace, o);
    Conversations.EveryCallIsDue(s.config, s.job, s.trace, s.pc);
  }
}
