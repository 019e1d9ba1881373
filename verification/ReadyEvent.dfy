/** The ready event is never lost: while a deployment is ARTIFACT_READY through a worker's write, its ready
    event has been appended or something still carries the duty to append it. */
module ReadyEvent {
  import opened Deployment
  import opened Types
  import opened Retry
  import opened Protocol
  import opened Machine
  import opened NoLoss

  // ---- Hypotheses ----

  /** The manifest key of a deployment is one and the same in every record version, and manifests are
      stored under it; ready facts name their deployment. */
  ghost predicate ConfigOk(c: Config) {
    && (forall dep, rec: Record, status :: c.manifestKey(dep, rec.(status := status)) == c.manifestKey(dep, rec))
    && (forall dep, rec, files, at :: c.manifest(dep, rec, files, at).Success? ==>
          c.manifest(dep, rec, files, at).value.key == c.manifestKey(dep, rec))
    && (forall dep, rec, files, m :: c.facts(dep, rec, files, m).dep == dep)
    && (forall dep, rec, body :: c.storedFacts(dep, rec, body).Some? ==> c.storedFacts(dep, rec, body).value.dep == dep)
  }

  ghost predicate KeysAre(c: Config, records: map<string, Record>, keyOf: string -> string) {
    forall d :: d in records ==> c.manifestKey(d, records[d]) == keyOf(d)
  }

  /** A dispatcher is committed to taking this id out of the index. */
  ghost predicate Doomed(s: Sys, id: string) {
    exists d :: d in s.dispatchers &&
      match s.dispatchers[d]
      case Dropping(orphans, _) => id in orphans
      case Removing(env, _, _) => env.id == id
      case _ => false
  }

  /** One handler per pending entry, no write of an envelope id a dispatcher is about to remove, and record
      identities stay put. */
  ghost predicate Guarded(c: Config, keyOf: string -> string, s: Sys, a: Action)
    requires Enabled(c, s, a)
  {
    match a
    case Reclaim(i, _, _) => forall h :: h in s.handlers ==> s.handlers[h].job.entry != i
    case HandlerStep(h, r) =>
      var op := OpOf(c, s.handlers[h].job, s.handlers[h].pc);
      op.ScheduleRetry? && Effective(r) ==> !Doomed(s, op.envelope.id)
    case Environment(records) => KeysAre(c, records, keyOf)
    case _ => true
  }

  ghost predicate GuardedRun(c: Config, keyOf: string -> string, s: Sys, actions: seq<Action>): (b: bool)
    ensures b ==> Run(c, s, actions)
    decreases |actions|
  {
    actions == [] || (Enabled(c, s, actions[0]) && Guarded(c, keyOf, s, actions[0])
                      && GuardedRun(c, keyOf, After(c, s, actions[0]), actions[1..]))
  }

  // ---- What carries the duty ----

  ghost predicate Emitted(w: World, dep: string) {
    exists i :: 0 <= i < |w.ready| && w.ready[i].dep == dep
  }

  /** A delivery was given up while the deployment was ARTIFACT_READY through a worker's write. */
  ghost predicate DroppedReady(hist: History, dep: string) {
    exists d :: d in hist.dropped && d.dep == dep && d.ready
  }

  /** From here a handler of a finished deployment acks only after the event, a DLQ entry or an envelope,
      or as a dropped delivery. */
  predicate SafePc(pc: Pc) {
    || pc.Loading? || pc.FetchingManifest? || pc.Reemitting? || pc.Emitting?
    || pc.DeadLettering? || pc.Scheduling? || (pc.CasFailed? && pc.exhausted) || pc == Acking(NoRecord)
  }

  ghost predicate EntryCarries(s: Sys, i: nat, dep: string) {
    && i < |s.w.log| && Unacked(s.w, i) && s.w.log[i].payload.Valid? && s.w.log[i].payload.dep == dep
    && forall h :: h in s.handlers && s.handlers[h].job.entry == i ==> SafePc(s.handlers[h].pc)
  }

  ghost predicate EnvelopeCarries(s: Sys, id: string, dep: string) {
    && id in s.w.hash && id in s.w.zset && s.w.hash[id].payload.Valid? && s.w.hash[id].dep == dep
    && !Doomed(s, id)
  }

  ghost predicate Safe(s: Sys, dep: string) {
    || dep in s.hist.displaced
    || Emitted(s.w, dep)
    || InDlq(s.w, dep)
    || DroppedReady(s.hist, dep)
    || (exists i: nat :: EntryCarries(s, i, dep))
    || (exists id :: EnvelopeCarries(s, id, dep))
  }

  // ---- The invariant ----

  ghost predicate OneHandlerPerEntry(s: Sys) {
    && (forall h :: h in s.handlers ==> s.handlers[h].job.entry in s.w.pending && h < s.spawned)
    && (forall h, g :: h in s.handlers && g in s.handlers && h != g ==>
          s.handlers[h].job.entry != s.handlers[g].job.entry)
  }

  /** A handler's record and objects agree with the deployment's manifest key. */
  ghost predicate HandlerKeys(c: Config, keyOf: string -> string, w: World, h: Handler) {
    var dep := DepOf(h.job.payload);
    && (HasRecord(h.pc) ==> c.manifestKey(dep, h.pc.rec) == keyOf(dep))
    && (h.pc.PuttingManifest? ==> h.pc.manifest.key == keyOf(dep))
    && (h.pc.Submitting? || h.pc.CasReady? ==> keyOf(dep) in w.store)
    && (h.pc.Reemitting? || h.pc.Emitting? ==> h.pc.facts.dep == dep)
  }

  ghost predicate HeldOk(keyOf: string -> string, s: Sys) {
    forall dep :: dep in s.hist.held ==>
      && dep in s.w.records && s.w.records[dep].status.ArtifactReady?
      && keyOf(dep) in s.w.store
      && Safe(s, dep)
  }

  ghost predicate ReadyInv(c: Config, keyOf: string -> string, s: Sys) {
    && KeysAre(c, s.w.records, keyOf)
    && OneHandlerPerEntry(s)
    && (forall h :: h in s.handlers ==> HandlerKeys(c, keyOf, s.w, s.handlers[h]))
    && HeldOk(keyOf, s)
  }

  // ---- Persistence of the lasting facts ----

  ghost predicate Lasts(w: World, v: World) {
    && |w.log| <= |v.log| && v.log[..|w.log|] == w.log
    && w.ready <= v.ready && w.dlq <= v.dlq && w.store.Keys <= v.store.Keys
  }

  lemma LastingFactsLast(w: World, v: World, dep: string)
    requires Lasts(w, v)
    ensures Emitted(w, dep) ==> Emitted(v, dep)
    ensures InDlq(w, dep) ==> InDlq(v, dep)
  {
    if i :| 0 <= i < |w.ready| && w.ready[i].dep == dep {
      assert v.ready[i] == w.ready[i];
    }
    if i :| 0 <= i < |w.dlq| && IsFor(w.dlq[i], dep) {
      assert v.dlq[i] == w.dlq[i];
    }
  }

  ghost predicate Remembers(before: History, after: History) {
    before.dropped <= after.dropped && before.displaced <= after.displaced
  }

  /** A step that keeps every carrier keeps every deployment safe. */
  lemma SafeStays(s: Sys, t: Sys, dep: string)
    requires Lasts(s.w, t.w) && Remembers(s.hist, t.hist) && Safe(s, dep)
    requires forall i: nat :: EntryCarries(s, i, dep) ==> EntryCarries(t, i, dep) || Safe(t, dep)
    requires forall id :: EnvelopeCarries(s, id, dep) ==> EnvelopeCarries(t, id, dep) || Safe(t, dep)
    ensures Safe(t, dep)
  {
    LastingFactsLast(s.w, t.w, dep);
  }

  // ---- Queue steps ----

  /** New handlers start where the duty is safe, and deliveries and publishes unpend nothing. */
  lemma QueueKeepsSafe(s: Sys, t: Sys, dep: string)
    requires Lasts(s.w, t.w) && Remembers(s.hist, t.hist) && Safe(s, dep)
    requires t.w.hash == s.w.hash && t.w.zset == s.w.zset && t.dispatchers == s.dispatchers
    requires forall i: nat :: i < |s.w.log| && Unacked(s.w, i) ==> Unacked(t.w, i)
    requires forall h :: h in t.handlers ==>
               (h in s.handlers && t.handlers[h] == s.handlers[h])
               || SafePc(t.handlers[h].pc)
               || (t.handlers[h].job.entry < |t.w.log| && t.w.log[t.handlers[h].job.entry].payload.Unparseable?)
    ensures Safe(t, dep)
  {
    forall i: nat | EntryCarries(s, i, dep)
      ensures EntryCarries(t, i, dep)
    {
      assert t.w.log[i] == s.w.log[i];
    }
    assert forall id :: Doomed(t, id) ==> Doomed(s, id);
    SafeStays(s, t, dep);
  }

  lemma QueueStepKeepsReady(c: Config, keyOf: string -> string, s: Sys, a: Action)
    requires StoreOk(s.w) && ReadyInv(c, keyOf, s) && Enabled(c, s, a) && Guarded(c, keyOf, s, a)
    requires forall h :: h in s.handlers ==> s.handlers[h].job.entry < s.w.cursor
    requires a.Produce? || a.Deliver? || a.Reclaim? || a.Crash? || a.Environment?
    ensures ReadyInv(c, keyOf, After(c, s, a))
  {
    var t := After(c, s, a);
    QueueStepKeepsHandlers(c, keyOf, s, a);
    forall dep | dep in t.hist.held
      ensures Safe(t, dep)
    {
      QueueKeepsSafe(s, t, dep);
    }
  }

  lemma QueueStepKeepsHandlers(c: Config, keyOf: string -> string, s: Sys, a: Action)
    requires StoreOk(s.w) && ReadyInv(c, keyOf, s) && Enabled(c, s, a) && Guarded(c, keyOf, s, a)
    requires forall h :: h in s.handlers ==> s.handlers[h].job.entry < s.w.cursor
    requires a.Produce? || a.Deliver? || a.Reclaim? || a.Crash? || a.Environment?
    ensures var t := After(c, s, a);
            && OneHandlerPerEntry(t) && KeysAre(c, t.w.records, keyOf) && Lasts(s.w, t.w)
            && forall h :: h in t.handlers ==> HandlerKeys(c, keyOf, t.w, t.handlers[h])
  {
  }

  // ---- Dispatcher steps ----

  lemma DispatchReadKeepsReady(c: Config, keyOf: string -> string, s: Sys, a: Action)
    requires StoreOk(s.w) && ReadyInv(c, keyOf, s) && Enabled(c, s, a)
    requires a.DispatchRead? || a.DispatchFetch? || a.DispatchStop?
    ensures ReadyInv(c, keyOf, After(c, s, a))
  {
    var t := After(c, s, a);
    forall dep | dep in t.hist.held
      ensures Safe(t, dep)
    {
      forall id | EnvelopeCarries(s, id, dep)
        ensures EnvelopeCarries(t, id, dep)
      {
        OnlyOrphansNewlyDoomed(c, s, a, id);
      }
      assert forall i: nat :: EntryCarries(s, i, dep) ==> EntryCarries(t, i, dep);
      SafeStays(s, t, dep);
    }
  }

  lemma OnlyOrphansNewlyDoomed(c: Config, s: Sys, a: Action, id: string)
    requires Enabled(c, s, a) && (a.DispatchRead? || a.DispatchFetch? || a.DispatchStop?)
    requires id in s.w.hash && !Doomed(s, id)
    ensures !Doomed(After(c, s, a), id)
  {
    var t := After(c, s, a);
    forall d | d in t.dispatchers && d in s.dispatchers && t.dispatchers[d] == s.dispatchers[d]
      ensures match t.dispatchers[d]
              case Dropping(orphans, _) => id !in orphans
              case Removing(env, _, _) => env.id != id
              case _ => true
    {
    }
  }

  lemma DispatchDropKeepsReady(c: Config, keyOf: string -> string, s: Sys, d: nat, done: bool)
    requires ReadyInv(c, keyOf, s) && Enabled(c, s, DispatchDrop(d, done))
    ensures ReadyInv(c, keyOf, After(c, s, DispatchDrop(d, done)))
  {
    var t := After(c, s, DispatchDrop(d, done));
    var orphan := s.dispatchers[d].orphans[0];
    assert Doomed(s, orphan);
    FewerDoomed(s, t, d);
    CarriersStay(s, t, {orphan});
  }

  /** A dispatcher that moves on dooms nothing it had not doomed before. */
  lemma FewerDoomed(s: Sys, t: Sys, d: nat)
    requires d in s.dispatchers && d in t.dispatchers && t.dispatchers == s.dispatchers[d := t.dispatchers[d]]
    requires t.dispatchers[d].Publishing? || (t.dispatchers[d].Dropping? && s.dispatchers[d].Dropping?
             && forall id :: id in t.dispatchers[d].orphans ==> id in s.dispatchers[d].orphans)
    ensures forall id :: Doomed(t, id) ==> Doomed(s, id)
  {
    forall id | Doomed(t, id)
      ensures Doomed(s, id)
    {
      var e :| e in t.dispatchers &&
        match t.dispatchers[e]
        case Dropping(orphans, _) => id in orphans
        case Removing(env, _, _) => env.id == id
        case _ => false;
      assert e in s.dispatchers;
    }
  }

  /** Nothing carried is lost when only doomed ids leave the index or the hash. */
  lemma CarriersStay(s: Sys, t: Sys, gone: set<string>)
    requires t.w == s.w.(hash := t.w.hash, zset := t.w.zset) && Remembers(s.hist, t.hist) && t.handlers == s.handlers
    requires forall id :: id in gone ==> Doomed(s, id)
    requires forall id :: id in s.w.hash && id !in gone ==> id in t.w.hash && t.w.hash[id] == s.w.hash[id]
    requires forall id :: id in s.w.zset && id !in gone ==> id in t.w.zset
    requires forall id :: Doomed(t, id) ==> Doomed(s, id)
    ensures forall dep :: Safe(s, dep) ==> Safe(t, dep)
  {
    forall dep | Safe(s, dep)
      ensures Safe(t, dep)
    {
      assert forall i: nat :: EntryCarries(s, i, dep) ==> EntryCarries(t, i, dep);
      SafeStays(s, t, dep);
    }
  }

  lemma DispatchRemoveKeepsReady(c: Config, keyOf: string -> string, s: Sys, d: nat, r: Reply)
    requires ReadyInv(c, keyOf, s) && Enabled(c, s, DispatchRemove(d, r))
    ensures ReadyInv(c, keyOf, After(c, s, DispatchRemove(d, r)))
  {
    var t := After(c, s, DispatchRemove(d, r));
    var id := s.dispatchers[d].env.id;
    assert Doomed(s, id);
    FewerDoomed(s, t, d);
    CarriersStay(s, t, {id});
  }

  lemma DispatchPublishKeepsReady(c: Config, keyOf: string -> string, s: Sys, d: nat, r: Reply)
    requires StoreOk(s.w) && ReadyInv(c, keyOf, s)
    requires Enabled(c, s, DispatchPublish(d, r)) && DispatcherOk(s.w, s.dispatchers[d])
    requires forall h :: h in s.handlers ==> s.handlers[h].job.entry < s.w.cursor
    ensures ReadyInv(c, keyOf, After(c, s, DispatchPublish(d, r)))
  {
    var t := After(c, s, DispatchPublish(d, r));
    assert Lasts(s.w, t.w);
    forall dep | dep in t.hist.held
      ensures Safe(t, dep)
    {
      forall i: nat | EntryCarries(s, i, dep)
        ensures EntryCarries(t, i, dep)
      {
        assert t.w.log[i] == s.w.log[i];
      }
      forall id | EnvelopeCarries(s, id, dep)
        ensures EnvelopeCarries(t, id, dep) || Safe(t, dep)
      {
        PublishedEnvelopeCarriesOn(c, s, d, r, id, dep);
      }
      SafeStays(s, t, dep);
    }
  }

  /** An envelope that carried the duty hands it to the entry its re-enqueue appends. */
  lemma PublishedEnvelopeCarriesOn(c: Config, s: Sys, d: nat, r: Reply, id: string, dep: string)
    requires StoreOk(s.w)
    requires Enabled(c, s, DispatchPublish(d, r)) && DispatcherOk(s.w, s.dispatchers[d])
    requires forall h :: h in s.handlers ==> s.handlers[h].job.entry < s.w.cursor
    requires EnvelopeCarries(s, id, dep) && dep in s.hist.held
    ensures var t := After(c, s, DispatchPublish(d, r)); EnvelopeCarries(t, id, dep) || Safe(t, dep)
  {
    var t := After(c, s, DispatchPublish(d, r));
    var env := s.dispatchers[d].batch[0];
    assert EnvelopeOk(env);
    if r.Ok? && env.id == id {
      SameIdSameEnvelope(env, s.w.hash[id]);
      if env.payload.Invalid? {
        assert Displaces(s.w, env) && dep in t.hist.displaced;
      } else {
        assert t.w.log[|s.w.log|] == Entry(env.payload, env.attempt);
        assert EntryCarries(t, |s.w.log|, dep);
      }
    } else {
      assert forall other :: Doomed(t, other) && other != env.id ==> Doomed(s, other);
      if !r.Ok? {
        FewerDoomed(s, t, d);
      }
    }
  }

  // ---- Handler steps ----

  lemma CallLasts(w: World, op: Op, r: Reply)
    requires Possible(w, op, r)
    ensures Lasts(w, Perform(w, op, r))
  {
  }

  lemma HandlerKeepsOnePerEntry(c: Config, s: Sys, h: nat, r: Reply)
    requires OneHandlerPerEntry(s) && Enabled(c, s, HandlerStep(h, r)) && HandlerOk(s, s.handlers[h])
    ensures OneHandlerPerEntry(After(c, s, HandlerStep(h, r)))
  {
    var t := After(c, s, HandlerStep(h, r));
    var job, pc := s.handlers[h].job, s.handlers[h].pc;
    CallIsOk(c, job, pc);
    WaysToSchedule(c, job, pc, r);
    OnlyAckTouchesPending(s.w, OpOf(c, job, pc), r);
  }

  lemma OnlyAckTouchesPending(w: World, op: Op, r: Reply)
    requires Possible(w, op, r)
    ensures Perform(w, op, r).pending == if op.AckMessage? && Effective(r) then w.pending - {op.entry} else w.pending
    ensures Perform(w, op, r).cursor == w.cursor && Perform(w, op, r).log == w.log
  {
  }

  lemma ScheduledPayload(c: Config, job: Job, pc: Pc)
    ensures OpOf(c, job, pc).ScheduleRetry? ==> OpOf(c, job, pc).envelope.payload == job.payload
  {
  }

  lemma HashAfterCall(w: World, op: Op, r: Reply)
    requires Possible(w, op, r)
    ensures var v := Perform(w, op, r);
            v.hash == (if op.ScheduleRetry? && Effective(r) then w.hash[op.envelope.id := op.envelope] else w.hash)
            && v.zset == (if op.ScheduleRetry? && Effective(r) then w.zset[op.envelope.id := op.envelope.nextAttemptAt]
                else w.zset)
  {
  }

  /** The handler's next program counter agrees with the deployment's manifest key. */
  lemma ReplyKeepsKeys(c: Config, keyOf: string -> string, w: World, job: Job, pc: Pc, r: Reply)
    requires ConfigOk(c) && KeysAre(c, w.records, keyOf) && HandlerKeys(c, keyOf, w, Handler(job, pc))
    requires Possible(w, OpOf(c, job, pc), r)
    ensures HandlerKeys(c, keyOf, Perform(w, OpOf(c, job, pc), r), Handler(job, NextPc(c, job, pc, r)))
  {
    var dep := DepOf(job.payload);
    var next := NextPc(c, job, pc, r);
    var v := Perform(w, OpOf(c, job, pc), r);
    CallLasts(w, OpOf(c, job, pc), r);
    CarriedManifest(c, job, pc, r);
    CarriedFacts(c, job, pc, r);
    if HasRecord(next) {
      CarriedRecord(c, job, pc, r);
    }
    if HasRecord(pc) {
      assert c.manifestKey(dep, pc.rec.(status := Exporting)) == c.manifestKey(dep, pc.rec);
    }
    if next.Submitting? {
      assert pc.manifest.key in v.store;
    }
  }

  lemma HandlerKeepsKeys(c: Config, keyOf: string -> string, s: Sys, h: nat, r: Reply)
    requires ConfigOk(c) && ReadyInv(c, keyOf, s) && Enabled(c, s, HandlerStep(h, r)) && HandlerOk(s, s.handlers[h])
    ensures var t := After(c, s, HandlerStep(h, r));
            && KeysAre(c, t.w.records, keyOf)
            && forall g :: g in t.handlers ==> HandlerKeys(c, keyOf, t.w, t.handlers[g])
  {
    var t := After(c, s, HandlerStep(h, r));
    var job, pc := s.handlers[h].job, s.handlers[h].pc;
    ReplyKeepsKeys(c, keyOf, s.w, job, pc, r);
    CallLasts(s.w, OpOf(c, job, pc), r);
    RecordsAfterCall(c, s.w, OpOf(c, job, pc), r);
  }

  lemma RecordsAfterCall(c: Config, w: World, op: Op, r: Reply)
    requires Possible(w, op, r)
    ensures var v := Perform(w, op, r);
            v.records == if op.Cas? && Effective(r) then w.records[op.dep := w.records[op.dep].(status := op.to)]
                else w.records
    ensures op.Cas? && Effective(r) ==> op.dep in w.records && w.records[op.dep].status == op.from
  {
  }

  /** What a handler step does to the handlers and to the history the duty depends on. */
  lemma StepFrame(c: Config, s: Sys, h: nat, r: Reply)
    requires Enabled(c, s, HandlerStep(h, r))
    ensures var t := After(c, s, HandlerStep(h, r));
            var job, pc := s.handlers[h].job, s.handlers[h].pc;
            var next := NextPc(c, job, pc, r);
            && t.handlers == (if next.Done? then s.handlers - {h} else s.handlers[h := Handler(job, next)])
            && t.dispatchers == s.dispatchers
            && t.w == Perform(s.w, OpOf(c, job, pc), r)
            && Remembers(s.hist, t.hist)
            && (OpOf(c, job, pc).ScheduleRetry? && Effective(r) ==>
                  t.hist.displaced == Displaced(s, OpOf(c, job, pc).envelope))
            && (pc == Acking(NoRecord) && Effective(r) && job.entry in s.w.pending
                && DepOf(job.payload) in s.hist.held ==>
                  DroppedReady(t.hist, DepOf(job.payload)))
            && (forall d :: d in t.hist.held && d !in s.hist.held ==>
                  OpOf(c, job, pc).Cas? && OpOf(c, job, pc).to.ArtifactReady? && OpOf(c, job, pc).dep == d
                      && Effective(r))
  {
    if s.handlers[h].pc == Acking(NoRecord) && Effective(r) && s.handlers[h].job.entry in s.w.pending {
      DropIsRecorded(c, s, h, r);
    }
  }

  /** Handlers of other entries leave a carrying entry alone. */
  lemma OtherHandlerKeepsCarrier(c: Config, s: Sys, h: nat, r: Reply, i: nat, dep: string)
    requires Enabled(c, s, HandlerStep(h, r)) && HandlerOk(s, s.handlers[h])
    requires EntryCarries(s, i, dep) && s.handlers[h].job.entry != i
    ensures EntryCarries(After(c, s, HandlerStep(h, r)), i, dep)
  {
    var job, pc := s.handlers[h].job, s.handlers[h].pc;
    StepFrame(c, s, h, r);
    CallIsOk(c, job, pc);
    OnlyAckUnpends(s.w, OpOf(c, job, pc), r, i);
  }

  /** A handler that ends, or stays where the duty is safe, leaves its entry carrying. */
  lemma OwnHandlerKeepsCarrier(c: Config, s: Sys, h: nat, r: Reply, dep: string)
    requires OneHandlerPerEntry(s) && Enabled(c, s, HandlerStep(h, r)) && HandlerOk(s, s.handlers[h])
    requires EntryCarries(s, s.handlers[h].job.entry, dep)
    requires var job, pc := s.handlers[h].job, s.handlers[h].pc;
             && (NextPc(c, job, pc, r).Done? || SafePc(NextPc(c, job, pc, r)))
             && !(pc.Acking? && Effective(r))
    ensures EntryCarries(After(c, s, HandlerStep(h, r)), s.handlers[h].job.entry, dep)
  {
    var job, pc := s.handlers[h].job, s.handlers[h].pc;
    StepFrame(c, s, h, r);
    CallIsOk(c, job, pc);
    OnlyAckUnpends(s.w, OpOf(c, job, pc), r, job.entry);
  }

  /** The carrying entry's own handler: either it still carries, or the duty is discharged or handed on. */
  lemma OwnHandlerKeepsSafe(c: Config, keyOf: string -> string, s: Sys, h: nat, r: Reply, dep: string)
    requires ReadyInv(c, keyOf, s) && Enabled(c, s, HandlerStep(h, r)) && Guarded(c, keyOf, s, HandlerStep(h, r))
    requires HandlerOk(s, s.handlers[h]) && dep in s.hist.held
    requires EntryCarries(s, s.handlers[h].job.entry, dep)
    ensures EntryCarries(After(c, s, HandlerStep(h, r)), s.handlers[h].job.entry, dep)
            || Safe(After(c, s, HandlerStep(h, r)), dep)
  {
    var t := After(c, s, HandlerStep(h, r));
    var job, pc := s.handlers[h].job, s.handlers[h].pc;
    assert job.payload == s.w.log[job.entry].payload && SafePc(pc);
    StepFrame(c, s, h, r);
    FinishedHandlerSteps(c, job, pc, r);
    if pc == Acking(NoRecord) && Effective(r) {
      assert DroppedReady(t.hist, dep);
    } else if (pc.Reemitting? || pc.Emitting?) && r.Ok? {
      assert t.w.ready[|s.w.ready|] == pc.facts;
      assert Emitted(t.w, dep);
    } else if pc.DeadLettering? && r.Ok? {
      assert IsFor(t.w.dlq[|s.w.dlq|], dep);
      assert InDlq(t.w, dep);
    } else if pc.Scheduling? && r.Ok? {
      ScheduledEnvelopeCarries(c, keyOf, s, h, r, dep);
    } else {
      assert NextPc(c, job, pc, r).Done? || SafePc(NextPc(c, job, pc, r)) by {
        if pc.Acking? {
          assert NextPc(c, job, pc, r).Done?;
        }
      }
      OwnHandlerKeepsCarrier(c, s, h, r, dep);
    }
  }

  lemma ScheduledEnvelopeCarries(c: Config, keyOf: string -> string, s: Sys, h: nat, r: Reply, dep: string)
    requires Enabled(c, s, HandlerStep(h, r)) && Guarded(c, keyOf, s, HandlerStep(h, r))
    requires s.handlers[h].pc.Scheduling? && Effective(r)
    requires s.handlers[h].job.payload.Valid? && s.handlers[h].job.payload.dep == dep
    ensures Safe(After(c, s, HandlerStep(h, r)), dep)
  {
    var t := After(c, s, HandlerStep(h, r));
    var job, pc := s.handlers[h].job, s.handlers[h].pc;
    StepFrame(c, s, h, r);
    var env := RetryEnvelope(c, job, pc.code);
    assert t.w.hash[env.id] == env && env.id in t.w.zset;
    assert !Doomed(t, env.id);
    assert EnvelopeCarries(t, env.id, dep);
  }

  /** Writing an envelope ends what another carries iff it takes its place with a schema-invalid payload. */
  lemma WriteEndsCarryingIff(s: Sys, t: Sys, env: Envelope, id: string, dep: string)
    requires StoreOk(s.w) && EnvelopeOk(env) && EnvelopeCarries(s, id, dep)
    requires t.dispatchers == s.dispatchers
    requires t.w.hash == s.w.hash[env.id := env] && t.w.zset == s.w.zset[env.id := env.nextAttemptAt]
    ensures !EnvelopeCarries(t, id, dep) <==> env.id == id && env.payload.Invalid?
    ensures env.id == id ==> env.dep == dep
  {
    assert forall other :: Doomed(t, other) <==> Doomed(s, other);
    if env.id == id {
      SameIdSameEnvelope(env, s.w.hash[id]);
    }
  }

  /** What a handler's step writes to the retry store. */
  lemma StepWrites(c: Config, s: Sys, h: nat, r: Reply)
    requires Enabled(c, s, HandlerStep(h, r)) && HandlerOk(s, s.handlers[h])
    ensures var t := After(c, s, HandlerStep(h, r));
            var op := OpOf(c, s.handlers[h].job, s.handlers[h].pc);
            && t.dispatchers == s.dispatchers
            && (op.ScheduleRetry? && Effective(r) ==>
                  && EnvelopeOk(op.envelope) && t.w.hash == s.w.hash[op.envelope.id := op.envelope]
                  && t.w.zset == s.w.zset[op.envelope.id := op.envelope.nextAttemptAt])
            && (!(op.ScheduleRetry? && Effective(r)) ==> t.w.hash == s.w.hash && t.w.zset == s.w.zset)
  {
    StepFrame(c, s, h, r);
    HashAfterCall(s.w, OpOf(c, s.handlers[h].job, s.handlers[h].pc), r);
    CallIsOk(c, s.handlers[h].job, s.handlers[h].pc);
  }

  lemma SameStoreCarries(s: Sys, t: Sys, id: string, dep: string)
    requires t.dispatchers == s.dispatchers && t.w.hash == s.w.hash && t.w.zset == s.w.zset
    ensures EnvelopeCarries(t, id, dep) <==> EnvelopeCarries(s, id, dep)
  {
    assert Doomed(t, id) <==> Doomed(s, id);
  }

  /** A written envelope may overwrite a carrying one, but only by one that carries too or displaces it. */
  lemma EnvelopeStaysCarrying(c: Config, s: Sys, h: nat, r: Reply, id: string, dep: string)
    requires StoreOk(s.w) && Enabled(c, s, HandlerStep(h, r)) && HandlerOk(s, s.handlers[h])
    requires EnvelopeCarries(s, id, dep) && dep in s.hist.held
    ensures EnvelopeCarries(After(c, s, HandlerStep(h, r)), id, dep) || Safe(After(c, s, HandlerStep(h, r)), dep)
  {
    var t := After(c, s, HandlerStep(h, r));
    var op := OpOf(c, s.handlers[h].job, s.handlers[h].pc);
    StepWrites(c, s, h, r);
    if op.ScheduleRetry? && Effective(r) {
      WriteEndsCarryingIff(s, t, op.envelope, id, dep);
      if op.envelope.id == id && op.envelope.payload.Invalid? {
        StepFrame(c, s, h, r);
        assert Displaces(s.w, op.envelope) && dep in t.hist.displaced;
      }
    } else {
      SameStoreCarries(s, t, id, dep);
    }
  }

  lemma HeldStaysSafe(c: Config, keyOf: string -> string, s: Sys, h: nat, r: Reply, dep: string)
    requires StoreOk(s.w) && ReadyInv(c, keyOf, s)
    requires Enabled(c, s, HandlerStep(h, r)) && Guarded(c, keyOf, s, HandlerStep(h, r))
    requires HandlerOk(s, s.handlers[h]) && dep in s.hist.held
    ensures Safe(After(c, s, HandlerStep(h, r)), dep)
  {
    var t := After(c, s, HandlerStep(h, r));
    StepFrame(c, s, h, r);
    CallLasts(s.w, OpOf(c, s.handlers[h].job, s.handlers[h].pc), r);
    forall i: nat | EntryCarries(s, i, dep)
      ensures EntryCarries(t, i, dep) || Safe(t, dep)
    {
      if s.handlers[h].job.entry == i {
        OwnHandlerKeepsSafe(c, keyOf, s, h, r, dep);
      } else {
        OtherHandlerKeepsCarrier(c, s, h, r, i, dep);
      }
    }
    forall id | EnvelopeCarries(s, id, dep)
      ensures EnvelopeCarries(t, id, dep) || Safe(t, dep)
    {
      EnvelopeStaysCarrying(c, s, h, r, id, dep);
    }
    SafeStays(s, t, dep);
  }

  /** The worker that writes ARTIFACT_READY still holds its own entry, from where it will emit or hand on. */
  lemma WriterCarries(c: Config, keyOf: string -> string, s: Sys, h: nat, r: Reply, dep: string)
    requires ReadyInv(c, keyOf, s) && Enabled(c, s, HandlerStep(h, r)) && HandlerOk(s, s.handlers[h])
    requires dep in After(c, s, HandlerStep(h, r)).hist.held && dep !in s.hist.held
    ensures Safe(After(c, s, HandlerStep(h, r)), dep) && keyOf(dep) in s.w.store
    ensures var w := After(c, s, HandlerStep(h, r)).w; dep in w.records && w.records[dep].status.ArtifactReady?
  {
    var t := After(c, s, HandlerStep(h, r));
    var job, pc := s.handlers[h].job, s.handlers[h].pc;
    StepFrame(c, s, h, r);
    ReadyWriter(c, job, pc);
    RecordsAfterCall(c, s.w, OpOf(c, job, pc), r);
    FinishedHandlerSteps(c, job, pc, r);
    CallIsOk(c, job, pc);
    OnlyAckUnpends(s.w, OpOf(c, job, pc), r, job.entry);
    assert EntryCarries(t, job.entry, dep);
  }

  lemma ReadyWriter(c: Config, job: Job, pc: Pc)
    requires WellFormed(job, pc) && OpOf(c, job, pc).Cas? && OpOf(c, job, pc).to.ArtifactReady?
    ensures pc.CasReady? && job.payload.Valid? && OpOf(c, job, pc).dep == DepOf(job.payload)
  {
  }

  lemma HandlerKeepsHeld(c: Config, keyOf: string -> string, s: Sys, h: nat, r: Reply)
    requires StoreOk(s.w) && ReadyInv(c, keyOf, s)
    requires Enabled(c, s, HandlerStep(h, r)) && Guarded(c, keyOf, s, HandlerStep(h, r))
    requires HandlerOk(s, s.handlers[h])
    ensures HeldOk(keyOf, After(c, s, HandlerStep(h, r)))
  {
    var t := After(c, s, HandlerStep(h, r));
    var op := OpOf(c, s.handlers[h].job, s.handlers[h].pc);
    StepFrame(c, s, h, r);
    CallLasts(s.w, op, r);
    CallIsOk(c, s.handlers[h].job, s.handlers[h].pc);
    RecordsAfterCall(c, s.w, op, r);
    forall dep | dep in t.hist.held
      ensures dep in t.w.records && t.w.records[dep].status.ArtifactReady? && keyOf(dep) in t.w.store && Safe(t, dep)
    {
      if dep in s.hist.held {
        HeldStaysSafe(c, keyOf, s, h, r, dep);
      } else {
        WriterCarries(c, keyOf, s, h, r, dep);
      }
    }
  }

  lemma HandlerStepKeepsReady(c: Config, keyOf: string -> string, s: Sys, h: nat, r: Reply)
    requires ConfigOk(c) && StoreOk(s.w) && ReadyInv(c, keyOf, s)
    requires Enabled(c, s, HandlerStep(h, r)) && Guarded(c, keyOf, s, HandlerStep(h, r)) && HandlerOk(s, s.handlers[h])
    ensures ReadyInv(c, keyOf, After(c, s, HandlerStep(h, r)))
  {
    HandlerKeepsOnePerEntry(c, s, h, r);
    HandlerKeepsKeys(c, keyOf, s, h, r);
    HandlerKeepsHeld(c, keyOf, s, h, r);
  }

  // ---- When an envelope stops carrying ----

  /** A retry for a schema-invalid payload is written over this id. */
  ghost predicate Overwrites(c: Config, s: Sys, a: Action, id: string)
    requires Enabled(c, s, a)
  {
    a.HandlerStep? &&
    var op := OpOf(c, s.handlers[a.h].job, s.handlers[a.h].pc);
    op.ScheduleRetry? && Effective(a.reply) && op.envelope.id == id && op.envelope.payload.Invalid?
  }

  /** The envelope of this id is re-enqueued: from here its entry is on the stream. */
  ghost predicate Reenqueues(s: Sys, a: Action, id: string) {
    && a.DispatchPublish? && a.reply.Ok? && a.d in s.dispatchers
    && s.dispatchers[a.d].Publishing? && s.dispatchers[a.d].batch != [] && s.dispatchers[a.d].batch[0].id == id
  }

  lemma ScheduleEndsCarryingIff(c: Config, s: Sys, h: nat, r: Reply, id: string, dep: string)
    requires StoreOk(s.w) && Enabled(c, s, HandlerStep(h, r)) && HandlerOk(s, s.handlers[h])
    requires EnvelopeCarries(s, id, dep)
    ensures !EnvelopeCarries(After(c, s, HandlerStep(h, r)), id, dep) <==> Overwrites(c, s, HandlerStep(h, r), id)
  {
    var t := After(c, s, HandlerStep(h, r));
    var op := OpOf(c, s.handlers[h].job, s.handlers[h].pc);
    StepWrites(c, s, h, r);
    if op.ScheduleRetry? && Effective(r) {
      WriteEndsCarryingIff(s, t, op.envelope, id, dep);
    } else {
      SameStoreCarries(s, t, id, dep);
    }
  }

  lemma DispatchEndsCarryingIff(c: Config, s: Sys, a: Action, id: string, dep: string)
    requires Enabled(c, s, a) && (a.DispatchPublish? || a.DispatchDrop? || a.DispatchRemove?)
    requires EnvelopeCarries(s, id, dep)
    ensures !EnvelopeCarries(After(c, s, a), id, dep) <==> Reenqueues(s, a, id)
  {
    var t := After(c, s, a);
    if a.DispatchPublish? && a.reply.Ok? {
      var env := s.dispatchers[a.d].batch[0];
      assert forall other :: Doomed(t, other) && other != env.id ==> Doomed(s, other);
      assert t.dispatchers[a.d].env == env && Doomed(t, env.id);
    } else {
      FewerDoomed(s, t, a.d);
      if a.DispatchDrop? {
        assert Doomed(s, s.dispatchers[a.d].orphans[0]);
      } else if a.DispatchRemove? {
        assert Doomed(s, s.dispatchers[a.d].env.id);
      }
    }
  }

  /** Exactly two kinds of step end what a stored envelope carries: its own re-enqueue, which puts an entry on
      the stream in its place, and the retry of a schema-invalid payload written over its id, which puts nothing. */
  lemma CarryingEnvelopeEndsIff(c: Config, s: Sys, a: Action, id: string, dep: string)
    requires Inv(s) && Enabled(c, s, a) && EnvelopeCarries(s, id, dep)
    ensures !EnvelopeCarries(After(c, s, a), id, dep) <==> Overwrites(c, s, a, id) || Reenqueues(s, a, id)
  {
    match a
    case HandlerStep(h, r) => ScheduleEndsCarryingIff(c, s, h, r, id, dep);
    case DispatchRead(_, _) => OnlyOrphansNewlyDoomed(c, s, a, id);
    case DispatchFetch(_) => OnlyOrphansNewlyDoomed(c, s, a, id);
    case DispatchStop(_) => OnlyOrphansNewlyDoomed(c, s, a, id);
    case DispatchDrop(_, _) => DispatchEndsCarryingIff(c, s, a, id, dep);
    case DispatchPublish(_, _) => DispatchEndsCarryingIff(c, s, a, id, dep);
    case DispatchRemove(_, _) => DispatchEndsCarryingIff(c, s, a, id, dep);
    case _ => assert Doomed(After(c, s, a), id) ==> Doomed(s, id);
  }

  // ---- Whole runs ----

  lemma StepKeepsReadyInv(c: Config, keyOf: string -> string, s: Sys, a: Action)
    requires ConfigOk(c) && Inv(s) && ReadyInv(c, keyOf, s) && Enabled(c, s, a) && Guarded(c, keyOf, s, a)
    ensures ReadyInv(c, keyOf, After(c, s, a))
  {
    match a
    case HandlerStep(h, r) => HandlerStepKeepsReady(c, keyOf, s, h, r);
    case DispatchRead(_, _) => DispatchReadKeepsReady(c, keyOf, s, a);
    case DispatchFetch(_) => DispatchReadKeepsReady(c, keyOf, s, a);
    case DispatchStop(_) => DispatchReadKeepsReady(c, keyOf, s, a);
    case DispatchDrop(d, done) => DispatchDropKeepsReady(c, keyOf, s, d, done);
    case DispatchPublish(d, r) => DispatchPublishKeepsReady(c, keyOf, s, d, r);
    case DispatchRemove(d, r) => DispatchRemoveKeepsReady(c, keyOf, s, d, r);
    case _ => QueueStepKeepsReady(c, keyOf, s, a);
  }

  lemma {:induction false} RunKeepsReadyInv(c: Config, keyOf: string -> string, s: Sys, actions: seq<Action>)
    requires ConfigOk(c) && Inv(s) && ReadyInv(c, keyOf, s) && GuardedRun(c, keyOf, s, actions)
    ensures ReadyInv(c, keyOf, End(c, s, actions))
    decreases |actions|
  {
    if actions != [] {
      StepKeepsInv(c, s, actions[0]);
      StepKeepsReadyInv(c, keyOf, s, actions[0]);
      RunKeepsReadyInv(c, keyOf, After(c, s, actions[0]), actions[1..]);
    }
  }

  /** The ready event is never lost. While a deployment is ARTIFACT_READY through a worker's write: a ready
      event for it has been appended, or it has a DLQ entry, an undelivered or unacked entry, or an indexed
      envelope - unless, while it was ARTIFACT_READY, a delivery was given up, or a schema-invalid payload took
      the place of a valid one stored under the same envelope id. */
  lemma ReadyEventIsNeverLost(c: Config, keyOf: string -> string, s: Sys, actions: seq<Action>, dep: string)
    requires ConfigOk(c) && Initial(s) && KeysAre(c, s.w.records, keyOf)
    requires GuardedRun(c, keyOf, s, actions)
    requires dep in End(c, s, actions).hist.held
    ensures var t := End(c, s, actions);
            || Emitted(t.w, dep)
            || InDlq(t.w, dep)
            || (exists i: nat :: i < |t.w.log| && IsFor(t.w.log[i].payload, dep) && Unacked(t.w, i))
            || (exists id :: id in t.w.hash && id in t.w.zset && t.w.hash[id].dep == dep)
            || DroppedReady(t.hist, dep)
            || dep in t.hist.displaced
  {
    assert Inv(s) && ReadyInv(c, keyOf, s);
    RunKeepsReadyInv(c, keyOf, s, actions);
    var t := End(c, s, actions);
    assert Safe(t, dep);
    if i: nat :| EntryCarries(t, i, dep) {
      assert IsFor(t.w.log[i].payload, dep);
    }
  }
}
