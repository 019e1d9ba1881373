/** No request is lost: whatever was ever put on the stream stays accounted for, in every reachable state. */
module NoLoss {
  import opened ErrClass
  import opened Deployment
  import opened Types
  import opened Retry
  import opened Protocol
  import opened Machine

  predicate IsFor(payload: Payload, dep: string) {
    !payload.Unparseable? && DepOf(payload) == dep
  }

  predicate Terminal(w: World, dep: string) {
    dep in w.records && NonActionable(w.records[dep].status)
  }

  ghost predicate InDlq(w: World, dep: string) {
    exists i :: 0 <= i < |w.dlq| && IsFor(w.dlq[i], dep)
  }

  ghost predicate UnackedFrom(w: World, dep: string, attempt: int) {
    exists i: nat :: i < |w.log| && IsFor(w.log[i].payload, dep) && Unacked(w, i) && w.log[i].attempt >= attempt
  }

  ghost predicate EnvelopeAfter(w: World, dep: string, attempt: int) {
    exists id :: id in w.hash && id in w.zset && w.hash[id].dep == dep && w.hash[id].attempt > attempt
  }

  /** A delivery of at least that attempt was acked after a non-retryable failure with no actionable record. */
  ghost predicate DroppedFrom(hist: History, dep: string, attempt: int) {
    exists d :: d in hist.dropped && d.dep == dep && d.attempt >= attempt
  }

  /** What the guarantee promises for a deployment once seen on the stream at this attempt. */
  ghost predicate Kept(s: Sys, dep: string, attempt: int) {
    || Terminal(s.w, dep)
    || InDlq(s.w, dep)
    || UnackedFrom(s.w, dep, attempt)
    || EnvelopeAfter(s.w, dep, attempt)
    || DroppedFrom(s.hist, dep, attempt)
  }

  // ---- The invariant ----

  ghost predicate LoggedAt(w: World, dep: string, attempt: int) {
    exists i :: 0 <= i < |w.log| && IsFor(w.log[i].payload, dep) && w.log[i].attempt == attempt
  }

  ghost predicate LoggedAfter(w: World, dep: string, attempt: int) {
    exists i :: 0 <= i < |w.log| && IsFor(w.log[i].payload, dep) && w.log[i].attempt > attempt
  }

  /** Accounted for without the entry itself; once true, always true. */
  ghost predicate Covered(s: Sys, dep: string, attempt: int) {
    || Terminal(s.w, dep)
    || InDlq(s.w, dep)
    || EnvelopeAfter(s.w, dep, attempt)
    || LoggedAfter(s.w, dep, attempt)
    || DroppedFrom(s.hist, dep, attempt)
  }

  ghost predicate EnvelopeOk(env: Envelope) {
    env.id == EnvelopeID(env.dep, env.attempt, env.code) && IsFor(env.payload, env.dep)
  }

  /** Whatever envelope has this id, its retry is already on the stream. */
  ghost predicate PublishedId(w: World, id: string) {
    forall dep, attempt, code: Code :: id == EnvelopeID(dep, attempt, code) ==> LoggedAt(w, dep, attempt)
  }

  ghost predicate StoreOk(w: World) {
    && w.cursor <= |w.log|
    && (forall i :: i in w.pending ==> i < w.cursor)
    && (forall id :: id in w.hash ==> EnvelopeOk(w.hash[id]) && w.hash[id].id == id)
    && (forall id :: id in w.zset ==> id in w.hash)
  }

  ghost predicate HandlerOk(s: Sys, h: Handler) {
    && h.job.entry < s.w.cursor && h.job.entry < |s.w.log|
    && s.w.log[h.job.entry] == Entry(h.job.payload, h.job.attempt)
    && WellFormed(h.job, h.pc) && !h.pc.Done?
    && (h.pc.FetchingManifest? || h.pc.Reemitting? || h.pc.Emitting? ==> Terminal(s.w, DepOf(h.job.payload)))
    && (h.pc.Acking? && h.pc.why != NoRecord && !h.job.payload.Unparseable?
        ==> Covered(s, DepOf(h.job.payload), h.job.attempt))
  }

  ghost predicate DispatcherOk(w: World, d: Dispatcher) {
    match d
    case Reading(ids) => forall id :: id in ids ==> id in w.hash || PublishedId(w, id)
    case Dropping(orphans, batch) =>
      (forall id :: id in orphans ==> PublishedId(w, id)) && (forall env :: env in batch ==> EnvelopeOk(env))
    case Publishing(batch) => forall env :: env in batch ==> EnvelopeOk(env)
    case Removing(env, rest, _) => PublishedId(w, env.id) && (forall e :: e in rest ==> EnvelopeOk(e))
  }

  ghost predicate EntryKept(s: Sys, i: nat)
    requires i < |s.w.log|
  {
    var e := s.w.log[i];
    e.payload.Unparseable? || Unacked(s.w, i) || Covered(s, DepOf(e.payload), e.attempt)
  }

  ghost predicate Inv(s: Sys) {
    && StoreOk(s.w)
    && (forall h :: h in s.handlers ==> HandlerOk(s, s.handlers[h]))
    && (forall d :: d in s.dispatchers ==> DispatcherOk(s.w, s.dispatchers[d]))
    && (forall i: nat :: i < |s.w.log| ==> EntryKept(s, i))
  }

  // ---- What one step keeps ----

  /** The parts of a step the invariant depends on: nothing accounted for is forgotten. */
  ghost predicate Grows(s: Sys, t: Sys) {
    && |s.w.log| <= |t.w.log| && t.w.log[..|s.w.log|] == s.w.log
    && s.w.dlq <= t.w.dlq
    && s.hist.dropped <= t.hist.dropped
    && s.w.cursor <= t.w.cursor
    && (forall dep :: Terminal(s.w, dep) ==> Terminal(t.w, dep))
    && (forall id :: id in s.w.hash && id in s.w.zset ==>
          (id in t.w.hash && id in t.w.zset && t.w.hash[id].dep == s.w.hash[id].dep
           && t.w.hash[id].attempt == s.w.hash[id].attempt)
          || LoggedAt(t.w, s.w.hash[id].dep, s.w.hash[id].attempt))
    && (forall id :: id in s.w.hash && EnvelopeOk(s.w.hash[id]) && s.w.hash[id].id == id ==>
          id in t.w.hash || PublishedId(t.w, id))
  }

  lemma LogGrows(s: Sys, t: Sys, dep: string, attempt: int)
    requires |s.w.log| <= |t.w.log| && t.w.log[..|s.w.log|] == s.w.log
    ensures LoggedAt(s.w, dep, attempt) ==> LoggedAt(t.w, dep, attempt)
    ensures LoggedAfter(s.w, dep, attempt) ==> LoggedAfter(t.w, dep, attempt)
  {
    if i :| 0 <= i < |s.w.log| && IsFor(s.w.log[i].payload, dep) && s.w.log[i].attempt == attempt {
      assert t.w.log[i] == s.w.log[i];
    }
    if i :| 0 <= i < |s.w.log| && IsFor(s.w.log[i].payload, dep) && s.w.log[i].attempt > attempt {
      assert t.w.log[i] == s.w.log[i];
    }
  }

  lemma CoveredStays(s: Sys, t: Sys, dep: string, attempt: int)
    requires Grows(s, t) && Covered(s, dep, attempt)
    ensures Covered(t, dep, attempt)
  {
    LogGrows(s, t, dep, attempt);
    if InDlq(s.w, dep) {
      var i :| 0 <= i < |s.w.dlq| && IsFor(s.w.dlq[i], dep);
      assert t.w.dlq[i] == s.w.dlq[i];
    } else if EnvelopeAfter(s.w, dep, attempt) {
      var id :| id in s.w.hash && id in s.w.zset && s.w.hash[id].dep == dep && s.w.hash[id].attempt > attempt;
      if LoggedAt(t.w, dep, s.w.hash[id].attempt) {
        var i :| 0 <= i < |t.w.log| && IsFor(t.w.log[i].payload, dep) && t.w.log[i].attempt == s.w.hash[id].attempt;
      }
    }
  }

  lemma PublishedStays(s: Sys, t: Sys, id: string)
    requires Grows(s, t) && PublishedId(s.w, id)
    ensures PublishedId(t.w, id)
  {
    forall dep, attempt, code: Code | id == EnvelopeID(dep, attempt, code)
      ensures LoggedAt(t.w, dep, attempt)
    {
      LogGrows(s, t, dep, attempt);
    }
  }

  lemma HandlerStays(s: Sys, t: Sys, h: Handler)
    requires Grows(s, t) && HandlerOk(s, h)
    ensures HandlerOk(t, h)
  {
    assert t.w.log[h.job.entry] == s.w.log[h.job.entry];
    if h.pc.Acking? && h.pc.why != NoRecord && !h.job.payload.Unparseable? {
      CoveredStays(s, t, DepOf(h.job.payload), h.job.attempt);
    }
  }

  lemma DispatcherStays(s: Sys, t: Sys, d: Dispatcher)
    requires Grows(s, t) && StoreOk(s.w) && DispatcherOk(s.w, d)
    ensures DispatcherOk(t.w, d)
  {
    match d
    case Reading(ids) =>
      forall id | id in ids
        ensures id in t.w.hash || PublishedId(t.w, id)
      {
        if id !in s.w.hash {
          PublishedStays(s, t, id);
        }
      }
    case Dropping(orphans, batch) =>
      forall id | id in orphans
        ensures PublishedId(t.w, id)
      {
        PublishedStays(s, t, id);
      }
    case Publishing(batch) =>
    case Removing(env, rest, _) =>
      PublishedStays(s, t, env.id);
  }

  /** Entries already on the stream stay kept, except possibly the one whose ack takes effect. */
  lemma EntryStays(s: Sys, t: Sys, i: nat)
    requires Grows(s, t) && i < |s.w.log| && EntryKept(s, i)
    requires Unacked(s.w, i) ==> Unacked(t.w, i) || EntryKept(t, i)
    ensures EntryKept(t, i)
  {
    assert t.w.log[i] == s.w.log[i];
    var e := s.w.log[i];
    if !e.payload.Unparseable? && !Unacked(s.w, i) {
      CoveredStays(s, t, DepOf(e.payload), e.attempt);
    }
  }

  // ---- Each kind of step ----

  /** Assembles the invariant after a step that changes at most one handler and one dispatcher. */
  lemma Assemble(s: Sys, t: Sys)
    requires Inv(s) && Grows(s, t) && StoreOk(t.w)
    requires forall h :: h in t.handlers ==>
              (h in s.handlers && t.handlers[h] == s.handlers[h]) || HandlerOk(t, t.handlers[h])
    requires forall d :: d in t.dispatchers ==>
               (d in s.dispatchers && t.dispatchers[d] == s.dispatchers[d]) || DispatcherOk(t.w, t.dispatchers[d])
    requires forall i: nat :: i < |s.w.log| && Unacked(s.w, i) ==> Unacked(t.w, i) || EntryKept(t, i)
    requires forall i: nat :: |s.w.log| <= i < |t.w.log| ==> EntryKept(t, i)
    ensures Inv(t)
  {
    forall h | h in t.handlers
      ensures HandlerOk(t, t.handlers[h])
    {
      if h in s.handlers && t.handlers[h] == s.handlers[h] {
        HandlerStays(s, t, s.handlers[h]);
      }
    }
    forall d | d in t.dispatchers
      ensures DispatcherOk(t.w, t.dispatchers[d])
    {
      if d in s.dispatchers && t.dispatchers[d] == s.dispatchers[d] {
        DispatcherStays(s, t, s.dispatchers[d]);
      }
    }
    forall i: nat | i < |t.w.log|
      ensures EntryKept(t, i)
    {
      if i < |s.w.log| {
        EntryStays(s, t, i);
      }
    }
  }

  lemma QueueStep(c: Config, s: Sys, a: Action)
    requires Inv(s) && Enabled(c, s, a)
    requires a.Produce? || a.Deliver? || a.Reclaim? || a.Crash? || a.Environment?
    ensures Inv(After(c, s, a))
  {
    var t := After(c, s, a);
    assert Grows(s, t);
    Assemble(s, t);
  }

  // ---- Handler steps ----

  lemma RetryEnvelopeOk(c: Config, job: Job, code: Code)
    requires !job.payload.Unparseable?
    ensures EnvelopeOk(RetryEnvelope(c, job, code))
  {
  }

  /** What the invariant needs to know about a handler's next call. */
  ghost predicate OpOk(job: Job, op: Op) {
    && (op.Cas? ==> Actionable(op.from))
    && (op.ScheduleRetry? ==>
          EnvelopeOk(op.envelope) && op.envelope.dep == DepOf(job.payload) && op.envelope.attempt == job.attempt + 1)
    && (op.SendDlq? ==> op.payload == job.payload)
    && (op.AckMessage? ==> op.entry == job.entry)
  }

  lemma CallIsOk(c: Config, job: Job, pc: Pc)
    requires WellFormed(job, pc)
    ensures OpOk(job, OpOf(c, job, pc))
    ensures OpOf(c, job, pc).AckMessage? <==> pc.Acking? || pc.Done?
  {
    if pc.Scheduling? {
      RetryEnvelopeOk(c, job, pc.code);
    }
  }

  /** Overwriting an envelope in place keeps its deployment and attempt. */
  lemma SameIdSameEnvelope(env: Envelope, other: Envelope)
    requires EnvelopeOk(env) && EnvelopeOk(other) && env.id == other.id
    ensures env.dep == other.dep && env.attempt == other.attempt
  {
    EnvelopeIDInjective(env.dep, env.attempt, env.code, other.dep, other.attempt, other.code);
  }

  lemma CallKeepsStoreOk(w: World, job: Job, op: Op, r: Reply)
    requires StoreOk(w) && OpOk(job, op) && Possible(w, op, r)
    ensures StoreOk(Perform(w, op, r))
  {
  }

  /** Whatever the call, it forgets nothing. */
  lemma CallGrows(s: Sys, t: Sys, job: Job, op: Op, r: Reply)
    requires StoreOk(s.w) && OpOk(job, op) && Possible(s.w, op, r)
    requires t.w == Perform(s.w, op, r) && s.hist.dropped <= t.hist.dropped
    ensures Grows(s, t)
  {
    if op.ScheduleRetry? && Effective(r) && op.envelope.id in s.w.hash {
      SameIdSameEnvelope(op.envelope, s.w.hash[op.envelope.id]);
    }
  }

  lemma HandlerStepGrows(c: Config, s: Sys, h: nat, r: Reply)
    requires Inv(s) && Enabled(c, s, HandlerStep(h, r))
    ensures Grows(s, After(c, s, HandlerStep(h, r))) && StoreOk(After(c, s, HandlerStep(h, r)).w)
  {
    var job, pc := s.handlers[h].job, s.handlers[h].pc;
    assert HandlerOk(s, s.handlers[h]);
    CallIsOk(c, job, pc);
    RecordKeepsDropped(c, s, h, OpOf(c, job, pc), r);
    CallKeepsStoreOk(s.w, job, OpOf(c, job, pc), r);
    CallGrows(s, After(c, s, HandlerStep(h, r)), job, OpOf(c, job, pc), r);
  }

  lemma RecordKeepsDropped(c: Config, s: Sys, h: nat, op: Op, r: Reply)
    requires h in s.handlers
    ensures s.hist.dropped <= Recorded(c, s, h, op, r).dropped
  {
  }

  /** A reply that sends a handler to its ack has made the deployment accounted for. */
  lemma ReplyCoversAck(c: Config, s: Sys, t: Sys, job: Job, pc: Pc, r: Reply)
    requires HandlerOk(s, Handler(job, pc)) && OpOk(job, OpOf(c, job, pc)) && Possible(s.w, OpOf(c, job, pc), r)
    requires t.w == Perform(s.w, OpOf(c, job, pc), r) && !job.payload.Unparseable? && !pc.Acking?
    requires NextPc(c, job, pc, r).Acking? && NextPc(c, job, pc, r).why != NoRecord
    ensures Covered(t, DepOf(job.payload), job.attempt)
  {
    var dep := DepOf(job.payload);
    var why := NextPc(c, job, pc, r).why;
    ClassOfDecisiveCodes();
    if why == Scheduled {
      var env := RetryEnvelope(c, job, pc.code);
      assert env.id in t.w.hash && env.id in t.w.zset && t.w.hash[env.id] == env;
    } else if why == DeadLettered {
      assert IsFor(t.w.dlq[|s.w.dlq|], dep);
    } else {
      assert Terminal(t.w, dep);
    }
  }

  /** A reply that makes a handler act on a finished deployment has shown it finished. */
  lemma ReplyShowsTerminal(c: Config, s: Sys, t: Sys, job: Job, pc: Pc, r: Reply)
    requires HandlerOk(s, Handler(job, pc)) && OpOk(job, OpOf(c, job, pc)) && Possible(s.w, OpOf(c, job, pc), r)
    requires t.w == Perform(s.w, OpOf(c, job, pc), r)
    ensures var next := NextPc(c, job, pc, r);
            next.FetchingManifest? || next.Reemitting? || next.Emitting? ==> Terminal(t.w, DepOf(job.payload))
  {
    WaysToEmit(c, job, pc, r);
  }

  lemma ReplyKeepsHandlerOk(c: Config, s: Sys, h: nat, r: Reply)
    requires Inv(s) && Enabled(c, s, HandlerStep(h, r)) && !NextPc(c, s.handlers[h].job, s.handlers[h].pc, r).Done?
    ensures var t := After(c, s, HandlerStep(h, r)); h in t.handlers && HandlerOk(t, t.handlers[h])
  {
    var t := After(c, s, HandlerStep(h, r));
    var job, pc := s.handlers[h].job, s.handlers[h].pc;
    var next := NextPc(c, job, pc, r);
    assert HandlerOk(s, s.handlers[h]);
    HandlerStepGrows(c, s, h, r);
    CallIsOk(c, job, pc);
    StepKeepsWellFormed(c, job, pc, r);
    ReplyShowsTerminal(c, s, t, job, pc, r);
    assert t.w.log[job.entry] == s.w.log[job.entry];
    if next.Acking? && next.why != NoRecord && !job.payload.Unparseable? {
      assert !pc.Acking?;
      ReplyCoversAck(c, s, t, job, pc, r);
    }
  }

  lemma HandlerStepKeepsInv(c: Config, s: Sys, h: nat, r: Reply)
    requires Inv(s) && Enabled(c, s, HandlerStep(h, r))
    ensures Inv(After(c, s, HandlerStep(h, r)))
  {
    var t := After(c, s, HandlerStep(h, r));
    var job, pc := s.handlers[h].job, s.handlers[h].pc;
    assert HandlerOk(s, s.handlers[h]);
    HandlerStepGrows(c, s, h, r);
    if !NextPc(c, job, pc, r).Done? {
      ReplyKeepsHandlerOk(c, s, h, r);
    }
    forall i: nat | i < |s.w.log| && Unacked(s.w, i)
      ensures Unacked(t.w, i) || EntryKept(t, i)
    {
      AckedEntryIsKept(c, s, h, r, i);
    }
    Assemble(s, t);
  }

  lemma DropIsRecorded(c: Config, s: Sys, h: nat, r: Reply)
    requires Enabled(c, s, HandlerStep(h, r)) && s.handlers[h].pc == Acking(NoRecord) && Effective(r)
    requires s.handlers[h].job.entry in s.w.pending
    ensures var job, t := s.handlers[h].job, After(c, s, HandlerStep(h, r));
            && Drop(DepOf(job.payload), job.attempt, DepOf(job.payload) in s.hist.held) in t.hist.dropped
            && DroppedFrom(t.hist, DepOf(job.payload), job.attempt)
  {
  }

  /** The one entry an effective ack removes from the pending set is accounted for. */
  lemma AckedEntryIsKept(c: Config, s: Sys, h: nat, r: Reply, i: nat)
    requires Inv(s) && Enabled(c, s, HandlerStep(h, r)) && i < |s.w.log| && Unacked(s.w, i)
    requires Grows(s, After(c, s, HandlerStep(h, r)))
    ensures var t := After(c, s, HandlerStep(h, r)); i < |t.w.log| && (Unacked(t.w, i) || EntryKept(t, i))
  {
    var t := After(c, s, HandlerStep(h, r));
    var job, pc := s.handlers[h].job, s.handlers[h].pc;
    assert HandlerOk(s, s.handlers[h]);
    CallIsOk(c, job, pc);
    OnlyAckUnpends(s.w, OpOf(c, job, pc), r, i);
    assert t.w.log[i] == s.w.log[i];
    if !Unacked(t.w, i) && !job.payload.Unparseable? {
      if pc.why == NoRecord {
        DropIsRecorded(c, s, h, r);
      } else {
        CoveredStays(s, t, DepOf(job.payload), job.attempt);
      }
    }
  }

  lemma OnlyAckUnpends(w: World, op: Op, r: Reply, i: nat)
    requires Possible(w, op, r) && Unacked(w, i)
    ensures Unacked(Perform(w, op, r), i) || (op == AckMessage(i) && Effective(r))
    ensures Perform(w, op, r).log == w.log
  {
  }

  // ---- Dispatcher steps ----

  lemma {:induction false} FoundAreOk(w: World, ids: seq<string>)
    requires StoreOk(w)
    ensures forall env :: env in FoundOf(w.hash, ids) ==> EnvelopeOk(env)
  {
    if ids != [] {
      FoundAreOk(w, ids[1..]);
    }
  }

  /** A re-enqueued envelope's id is published from then on, whichever envelope carries it. */
  lemma PublishMarksId(w: World, env: Envelope)
    requires EnvelopeOk(env)
    ensures PublishedId(w.(log := w.log + [Entry(env.payload, env.attempt)]), env.id)
  {
    var w' := w.(log := w.log + [Entry(env.payload, env.attempt)]);
    assert w'.log[|w.log|] == Entry(env.payload, env.attempt);
    assert LoggedAt(w', env.dep, env.attempt);
    forall dep, attempt, code: Code | env.id == EnvelopeID(dep, attempt, code)
      ensures LoggedAt(w', dep, attempt)
    {
      EnvelopeIDInjective(env.dep, env.attempt, env.code, dep, attempt, code);
    }
  }

  lemma DispatchReadStep(c: Config, s: Sys, a: Action)
    requires Inv(s) && Enabled(c, s, a) && (a.DispatchRead? || a.DispatchFetch? || a.DispatchStop?)
    ensures Inv(After(c, s, a))
  {
    var t := After(c, s, a);
    assert Grows(s, t);
    if a.DispatchFetch? {
      assert DispatcherOk(s.w, s.dispatchers[a.d]);
      FoundAreOk(s.w, s.dispatchers[a.d].ids);
    }
    Assemble(s, t);
  }

  lemma FewerOrphansOk(s: Sys, t: Sys, orphans: seq<string>, batch: seq<Envelope>)
    requires Grows(s, t) && orphans != [] && DispatcherOk(s.w, Dropping(orphans, batch))
    ensures DispatcherOk(t.w, BatchPc(orphans[1..], batch))
  {
    forall id | id in orphans[1..]
      ensures PublishedId(t.w, id)
    {
      PublishedStays(s, t, id);
    }
  }

  lemma DispatchDropStep(c: Config, s: Sys, a: Action)
    requires Inv(s) && Enabled(c, s, a) && a.DispatchDrop?
    ensures Inv(After(c, s, a))
  {
    var t := After(c, s, a);
    var Dropping(orphans, batch) := s.dispatchers[a.d];
    assert DispatcherOk(s.w, s.dispatchers[a.d]);
    RemovalGrows(s, t, orphans[0]);
    FewerOrphansOk(s, t, orphans, batch);
    Assemble(s, t);
  }

  /** Taking a published id out of the index (and possibly the hash) forgets nothing. */
  lemma RemovalGrows(s: Sys, t: Sys, id: string)
    requires StoreOk(s.w) && PublishedId(s.w, id)
    requires t.w == s.w || t.w == s.w.(zset := s.w.zset - {id})
              || t.w == s.w.(hash := s.w.hash - {id}, zset := s.w.zset - {id})
    requires s.hist.dropped == t.hist.dropped
    ensures Grows(s, t)
  {
    if id in s.w.hash {
      var env := s.w.hash[id];
      assert LoggedAt(s.w, env.dep, env.attempt);
      LogGrows(s, t, env.dep, env.attempt);
    }
    forall dep, attempt | LoggedAt(s.w, dep, attempt)
      ensures LoggedAt(t.w, dep, attempt)
    {
    }
  }

  lemma DispatchPublishStep(c: Config, s: Sys, a: Action)
    requires Inv(s) && Enabled(c, s, a) && a.DispatchPublish?
    ensures Inv(After(c, s, a))
  {
    var t := After(c, s, a);
    var batch := s.dispatchers[a.d].batch;
    assert DispatcherOk(s.w, s.dispatchers[a.d]);
    assert EnvelopeOk(batch[0]);
    assert Grows(s, t);
    if Effective(a.reply) {
      PublishMarksId(s.w, batch[0]);
      assert Unacked(t.w, |s.w.log|);
    }
    Assemble(s, t);
  }

  lemma DispatchRemoveStep(c: Config, s: Sys, a: Action)
    requires Inv(s) && Enabled(c, s, a) && a.DispatchRemove?
    ensures Inv(After(c, s, a))
  {
    var t := After(c, s, a);
    var env := s.dispatchers[a.d].env;
    assert DispatcherOk(s.w, s.dispatchers[a.d]);
    RemovalGrows(s, t, env.id);
    Assemble(s, t);
  }

  // ---- Whole runs ----

  lemma StepKeepsInv(c: Config, s: Sys, a: Action)
    requires Inv(s) && Enabled(c, s, a)
    ensures Inv(After(c, s, a))
  {
    match a
    case HandlerStep(h, r) => HandlerStepKeepsInv(c, s, h, r);
    case DispatchRead(_, _) => DispatchReadStep(c, s, a);
    case DispatchFetch(_) => DispatchReadStep(c, s, a);
    case DispatchStop(_) => DispatchReadStep(c, s, a);
    case DispatchDrop(_, _) => DispatchDropStep(c, s, a);
    case DispatchPublish(_, _) => DispatchPublishStep(c, s, a);
    case DispatchRemove(_, _) => DispatchRemoveStep(c, s, a);
    case _ => QueueStep(c, s, a);
  }

  lemma {:induction false} RunKeepsInv(c: Config, s: Sys, actions: seq<Action>)
    requires Inv(s) && Run(c, s, actions)
    ensures Inv(End(c, s, actions))
    decreases |actions|
  {
    if actions != [] {
      StepKeepsInv(c, s, actions[0]);
      RunKeepsInv(c, After(c, s, actions[0]), actions[1..]);
    }
  }

  /** Among the entries of a deployment one has the highest attempt. */
  lemma {:induction false} HighestAttempt(w: World, dep: string, n: nat, i: nat) returns (top: nat)
    requires i < n <= |w.log| && IsFor(w.log[i].payload, dep)
    ensures top < n && IsFor(w.log[top].payload, dep) && w.log[top].attempt >= w.log[i].attempt
    ensures forall j :: 0 <= j < n && IsFor(w.log[j].payload, dep) ==> w.log[j].attempt <= w.log[top].attempt
  {
    if exists k: nat :: k < n - 1 && IsFor(w.log[k].payload, dep) {
      var k: nat :| k < n - 1 && IsFor(w.log[k].payload, dep);
      top := HighestAttempt(w, dep, n - 1, if i < n - 1 then i else k);
      if IsFor(w.log[n - 1].payload, dep) && w.log[n - 1].attempt > w.log[top].attempt {
        top := n - 1;
      }
    } else {
      top := i;
    }
  }

  /** In every state the invariant describes, every entry ever put on the stream is kept. */
  lemma InvMeansKept(s: Sys, i: nat)
    requires Inv(s) && i < |s.w.log| && !s.w.log[i].payload.Unparseable?
    ensures Kept(s, DepOf(s.w.log[i].payload), s.w.log[i].attempt)
  {
    var dep := DepOf(s.w.log[i].payload);
    var top := HighestAttempt(s.w, dep, |s.w.log|, i);
    assert EntryKept(s, top);
  }

  /** No request is lost. In every run, under any number of workers and dispatchers, crashes and lost
      replies: for every attempt at which a deployment was ever on the stream, its record is non-actionable,
      or it has a DLQ entry, or an undelivered or unacked entry of at least that attempt, or an indexed
      envelope of a later attempt - or a delivery of at least that attempt was given up, acked after a
      non-retryable failure with no actionable record. */
  lemma NoRequestIsLost(c: Config, s: Sys, actions: seq<Action>, i: nat)
    requires Initial(s) && Run(c, s, actions)
    requires i < |End(c, s, actions).w.log| && !End(c, s, actions).w.log[i].payload.Unparseable?
    ensures var e := End(c, s, actions).w.log[i]; Kept(End(c, s, actions), DepOf(e.payload), e.attempt)
  {
    assert Inv(s);
    RunKeepsInv(c, s, actions);
    InvMeansKept(End(c, s, actions), i);
  }
}
