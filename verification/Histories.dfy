/** What the history of a run says is what happened: it is written only where the systems changed, and everything the
    run theorems count or except is a change of the systems. */
module Histories {
  import opened Deployment
  import opened Types
  import opened Protocol
  import opened Machine
  import ReadyEvent

  /** Worker moves are exactly the record changes that are not others' doing. */
  lemma MovesAreTheWorkersWrites(c: Config, s: Sys, a: Action)
    requires Enabled(c, s, a) && !a.Environment?
    ensures var t := After(c, s, a);
            || (t.w.records == s.w.records && t.hist.moves == s.hist.moves && t.hist.held == s.hist.held)
            || (exists dep, to ::
                  && dep in s.w.records && t.w.records == s.w.records[dep := s.w.records[dep].(status := to)]
                  && t.hist.moves == s.hist.moves + [Move(dep, s.w.records[dep].status, to)]
                  && t.hist.held == if to == ArtifactReady then s.hist.held + {dep} else s.hist.held)
  {
    if a.HandlerStep? {
      var op := OpOf(c, s.handlers[a.h].job, s.handlers[a.h].pc);
      ReadyEvent.StepFrame(c, s, a.h, a.reply);
      ReadyEvent.RecordsAfterCall(c, s.w, op, a.reply);
      if op.Cas? && Effective(a.reply) {
        var t := After(c, s, a);
        assert t.hist.moves == s.hist.moves + [Move(op.dep, s.w.records[op.dep].status, op.to)];
      }
    }
  }

  /** An ack is counted exactly when an entry leaves the pending list, and a publish by a producer exactly when one
      makes it. */
  lemma AcksAndPublishesAreCounted(c: Config, s: Sys, a: Action)
    requires Enabled(c, s, a)
    ensures var t := After(c, s, a);
            && t.hist.acked == s.hist.acked + (if exists i :: i in s.w.pending && i !in t.w.pending then 1 else 0)
            && t.hist.produced == s.hist.produced + (if a.Produce? then 1 else 0)
            && (t.w.log != s.w.log ==> a.Produce? || (a.DispatchPublish? && !a.reply.Err?))
  {
    if a.HandlerStep? {
      var op := OpOf(c, s.handlers[a.h].job, s.handlers[a.h].pc);
      ReadyEvent.OnlyAckTouchesPending(s.w, op, a.reply);
      if op.AckMessage? && Effective(a.reply) && op.entry in s.w.pending {
        assert op.entry !in After(c, s, a).w.pending;
      }
    }
  }

  /** The exceptions of the run theorems are no wider than they say. A delivery counts as given up only when its pending
      entry is acked for want of a record; a retry counts as displaced only when a schema-invalid payload is written
      over, or re-enqueued in place of, the stored valid one of a deployment held ARTIFACT_READY. */
  lemma ExceptionsAreNarrow(c: Config, s: Sys, a: Action)
    requires Enabled(c, s, a)
    ensures var t := After(c, s, a);
            t.hist.dropped != s.hist.dropped ==>
              a.HandlerStep? &&
              var job := s.handlers[a.h].job;
              && s.handlers[a.h].pc == Acking(NoRecord) && job.entry in s.w.pending && job.entry !in t.w.pending
              && t.hist.dropped ==
                   s.hist.dropped + {Drop(DepOf(job.payload), job.attempt, DepOf(job.payload) in s.hist.held)}
    ensures forall dep :: dep in After(c, s, a).hist.displaced && dep !in s.hist.displaced ==>
              && dep in s.hist.held
              && exists id :: id in s.w.hash && s.w.hash[id].payload.Valid? && Gives(c, s, a, id, dep)
  {
  }

  /** The action writes or re-enqueues a schema-invalid envelope of this id and deployment. */
  ghost predicate Gives(c: Config, s: Sys, a: Action, id: string, dep: string)
    requires Enabled(c, s, a)
  {
    || (a.HandlerStep? &&
        var op := OpOf(c, s.handlers[a.h].job, s.handlers[a.h].pc);
        op.ScheduleRetry? && op.envelope.id == id && op.envelope.dep == dep && op.envelope.payload.Invalid?)
    || (a.DispatchPublish? &&
        var env := s.dispatchers[a.d].batch[0]; env.id == id && env.dep == dep && env.payload.Invalid?)
  }

  /** What counts as an interruption is one: a handoff whose entry is acked, and a re-enqueue whose envelope is removed,
      leave no token behind. */
  lemma CompletedWorkLeavesNoToken(c: Config, s: Sys, a: Action)
    requires Enabled(c, s, a)
    ensures a.HandlerStep? && s.handlers[a.h].pc == Acking(Scheduled) && Effective(a.reply)
            && s.handlers[a.h].job.entry in s.w.pending ==>
              Handoff(a.h) !in After(c, s, a).hist.open
    ensures a.DispatchRemove? && Effective(a.reply) && s.dispatchers[a.d].env.id in s.w.hash ==>
              Reenqueue(s.dispatchers[a.d].position) !in After(c, s, a).hist.open
    ensures forall token :: token in After(c, s, a).hist.open && token !in s.hist.open ==>
              || (a.HandlerStep? && s.handlers[a.h].pc.Scheduling? && token == Handoff(a.h))
              || (a.DispatchPublish? && token == Reenqueue(|s.w.log|))
  {
  }
}
