/** ARTIFACT_READY implies a complete artifact, under duplicates, stale records and concurrent exports. */
module ArtifactComplete {
  import opened Wrappers
  import opened Deployment
  import opened Types
  import opened Retry
  import opened Protocol
  import opened Machine
  import opened NoLoss
  import ReadyEvent

  // ---- Hypotheses ----

  /** What every delivery of a deployment sees alike: its record apart from the status, the rendered files,
      and the manifest date. */
  datatype Pin = Pin(rec: Record, files: seq<File>, createdAt: string)

  function PinOf(pins: map<string, Pin>, dep: string): Pin {
    if dep in pins then pins[dep] else Pin(Record(Pending, "", "", "", "", "", "", ""), [], "")
  }

  function Identity(rec: Record): Record {
    rec.(status := Pending)
  }

  /** The local computations do not look at the status. */
  ghost predicate IgnoresStatus(c: Config) {
    && (forall dep, rec, files {:trigger c.objects(dep, Identity(rec), files)} {:trigger c.objects(dep, rec, files)} ::
          c.objects(dep, Identity(rec), files) == c.objects(dep, rec, files))
    && (forall dep, rec, files, at {:trigger c.manifest(dep, Identity(rec), files, at)}
                                   {:trigger c.manifest(dep, rec, files, at)} ::
          c.manifest(dep, Identity(rec), files, at) == c.manifest(dep, rec, files, at))
    && (forall dep, rec, files, m {:trigger c.pointer(dep, Identity(rec), files, m)}
                                  {:trigger c.pointer(dep, rec, files, m)} ::
          c.pointer(dep, Identity(rec), files, m) == c.pointer(dep, rec, files, m))
  }

  ghost predicate RecordsPinned(records: map<string, Record>, pins: map<string, Pin>) {
    forall d :: d in records ==> d in pins && Identity(records[d]) == Identity(PinOf(pins, d).rec)
  }

  function ObjectsOf(c: Config, pins: map<string, Pin>, dep: string): seq<Object> {
    if dep !in pins then []
    else match c.objects(dep, Identity(PinOf(pins, dep).rec), PinOf(pins, dep).files)
      case Success(objects) => objects
      case Failure(_) => []
  }

  ghost predicate IsManifest(c: Config, pins: map<string, Pin>, dep: string, m: Object) {
    dep in pins
        && c.manifest(dep, Identity(PinOf(pins, dep).rec), PinOf(pins, dep).files, PinOf(pins, dep).createdAt)
            == Success(m)
  }

  /** All keys a deployment's export writes are its own and pairwise different. */
  ghost predicate KeysApart(c: Config, pins: map<string, Pin>) {
    && (forall d, i, d', j ::
          (0 <= i < |ObjectsOf(c, pins, d)| && 0 <= j < |ObjectsOf(c, pins, d')| &&
           ObjectsOf(c, pins, d)[i].key == ObjectsOf(c, pins, d')[j].key)
          ==> d == d' && i == j)
    && (forall d, i, d', m :: 0 <= i < |ObjectsOf(c, pins, d)| && IsManifest(c, pins, d', m) ==>
          ObjectsOf(c, pins, d)[i].key != m.key)
    && (forall d, m, d', m' :: IsManifest(c, pins, d, m) && IsManifest(c, pins, d', m') && m.key == m'.key ==> d == d')
  }

  /** Renders are pinned, every delivery dates the manifest alike, identities stay put, and the upload's
      context does not expire. */
  ghost predicate Pinned(c: Config, pins: map<string, Pin>, s: Sys, a: Action)
    requires Enabled(c, s, a)
  {
    match a
    case Produce(payload, _) => payload.Valid? && payload.createdAt != "" ==>
        payload.createdAt == PinOf(pins, payload.dep).createdAt
    case HandlerStep(h, r) =>
      var dep := DepOf(s.handlers[h].job.payload);
      && (r.Harvested? ==> r.files == PinOf(pins, dep).files)
      && (r.Prior? ==> c.date(r.stored, r.clock) == PinOf(pins, dep).createdAt)
      && !r.Expired?
    case Environment(records) => RecordsPinned(records, pins)
    case _ => true
  }

  ghost predicate PinnedRun(c: Config, pins: map<string, Pin>, s: Sys, actions: seq<Action>): (b: bool)
    ensures b ==> Run(c, s, actions)
    decreases |actions|
  {
    actions == [] || (Enabled(c, s, actions[0]) && Pinned(c, pins, s, actions[0])
                      && PinnedRun(c, pins, After(c, s, actions[0]), actions[1..]))
  }

  // ---- Completeness ----

  /** The object is stored under its key with its content hash as metadata. */
  predicate Right(w: World, o: Object) {
    o.key in w.store && w.store[o.key].sha == o.sha
  }

  /** The manifest is stored, the registered pointer is the one computed for it, and every file it was
      built from is stored under its key with its hash. */
  ghost predicate Complete(c: Config, pins: map<string, Pin>, w: World, dep: string) {
    && (forall i :: 0 <= i < |ObjectsOf(c, pins, dep)| ==> Right(w, ObjectsOf(c, pins, dep)[i]))
    && exists m :: IsManifest(c, pins, dep, m) && Right(w, m) && dep in w.pointers
                   && w.pointers[dep] == c.pointer(dep, Identity(PinOf(pins, dep).rec), PinOf(pins, dep).files, m)
  }

  // ---- The invariant ----

  ghost predicate AllRight(w: World, objects: seq<Object>, left: set<nat>) {
    forall i: nat :: i < |objects| && i !in left ==> Right(w, objects[i])
  }

  /** A handler's values are the pinned ones, and what it has stored so far is right. */
  ghost predicate ExportOk(c: Config, pins: map<string, Pin>, w: World, job: Job, pc: Pc) {
    var dep := DepOf(job.payload);
    && (HasRecord(pc) ==> dep in pins && Identity(pc.rec) == Identity(PinOf(pins, dep).rec))
    && (job.payload.Valid? && job.payload.createdAt != "" ==> job.payload.createdAt == PinOf(pins, dep).createdAt)
    && (pc.Uploading? ==>
          pc.files == PinOf(pins, dep).files && pc.objects == ObjectsOf(c, pins, dep)
              && AllRight(w, pc.objects, pc.left))
    && (pc.Dating? || pc.PuttingManifest? || pc.Submitting? || pc.CasReady? ==>
          pc.files == PinOf(pins, dep).files && AllRight(w, ObjectsOf(c, pins, dep), {}))
    && (pc.PuttingManifest? || pc.Submitting? || pc.CasReady? ==> IsManifest(c, pins, dep, pc.manifest))
    && (pc.Submitting? || pc.CasReady? ==> Right(w, pc.manifest))
    && (pc.CasReady? ==>
          dep in w.pointers
              && w.pointers[dep] == c.pointer(dep, Identity(PinOf(pins, dep).rec), PinOf(pins, dep).files, pc.manifest))
  }

  ghost predicate LogDated(w: World, pins: map<string, Pin>) {
    forall i :: 0 <= i < |w.log| && w.log[i].payload.Valid? && w.log[i].payload.createdAt != "" ==>
      w.log[i].payload.createdAt == PinOf(pins, w.log[i].payload.dep).createdAt
  }

  ghost predicate EnvelopeDated(env: Envelope, pins: map<string, Pin>) {
    env.payload.Valid? && env.payload.createdAt != "" ==>
        env.payload.createdAt == PinOf(pins, env.payload.dep).createdAt
  }

  ghost predicate BatchDated(d: Dispatcher, pins: map<string, Pin>) {
    match d
    case Dropping(_, batch) => forall env :: env in batch ==> EnvelopeDated(env, pins)
    case Publishing(batch) => forall env :: env in batch ==> EnvelopeDated(env, pins)
    case Removing(_, rest, _) => forall env :: env in rest ==> EnvelopeDated(env, pins)
    case Reading(_) => true
  }

  ghost predicate EnvelopesDated(s: Sys, pins: map<string, Pin>) {
    && (forall id :: id in s.w.hash ==> EnvelopeDated(s.w.hash[id], pins))
    && (forall d :: d in s.dispatchers ==> BatchDated(s.dispatchers[d], pins))
  }

  ghost predicate ExportsOk(c: Config, pins: map<string, Pin>, s: Sys) {
    forall h :: h in s.handlers ==> ExportOk(c, pins, s.w, s.handlers[h].job, s.handlers[h].pc)
  }

  ghost predicate MovesComplete(c: Config, pins: map<string, Pin>, s: Sys) {
    forall i :: 0 <= i < |s.hist.moves| && s.hist.moves[i].to.ArtifactReady? ==>
        Complete(c, pins, s.w, s.hist.moves[i].dep)
  }

  ghost predicate CompleteInv(c: Config, pins: map<string, Pin>, s: Sys) {
    && RecordsPinned(s.w.records, pins)
    && LogDated(s.w, pins)
    && EnvelopesDated(s, pins)
    && ExportsOk(c, pins, s)
    && MovesComplete(c, pins, s)
  }

  // ---- Stored things stay right ----

  /** Whatever object of some pinned export is written, every right pinned object stays right. */
  ghost predicate KeepsRight(c: Config, pins: map<string, Pin>, w: World, v: World) {
    && (forall d, i :: 0 <= i < |ObjectsOf(c, pins, d)| && Right(w, ObjectsOf(c, pins, d)[i]) ==>
          Right(v, ObjectsOf(c, pins, d)[i]))
    && (forall d, m :: IsManifest(c, pins, d, m) && Right(w, m) ==> Right(v, m))
    && (forall d :: d in w.pointers ==> d in v.pointers && v.pointers[d] == w.pointers[d])
  }

  lemma ExportStaysOk(c: Config, pins: map<string, Pin>, w: World, v: World, job: Job, pc: Pc)
    requires KeepsRight(c, pins, w, v) && ExportOk(c, pins, w, job, pc)
    ensures ExportOk(c, pins, v, job, pc)
  {
  }

  lemma CompleteStays(c: Config, pins: map<string, Pin>, w: World, v: World, dep: string)
    requires KeepsRight(c, pins, w, v) && Complete(c, pins, w, dep)
    ensures Complete(c, pins, v, dep)
  {
  }

  lemma StoringObjectKeepsRight(c: Config, pins: map<string, Pin>, w: World, v: World, dep: string, index: nat)
    requires KeysApart(c, pins) && index < |ObjectsOf(c, pins, dep)| && v.pointers == w.pointers
    requires v.store == w.store[ObjectsOf(c, pins, dep)[index].key := ObjectsOf(c, pins, dep)[index]]
    ensures KeepsRight(c, pins, w, v)
  {
  }

  lemma StoringManifestKeepsRight(c: Config, pins: map<string, Pin>, w: World, v: World, dep: string, m: Object)
    requires KeysApart(c, pins) && IsManifest(c, pins, dep, m) && v.pointers == w.pointers
    requires v.store == Put(w.store, m)
    ensures KeepsRight(c, pins, w, v)
  {
    forall d, other | IsManifest(c, pins, d, other) && Right(w, other)
      ensures Right(v, other)
    {
      if other.key == m.key {
        assert other == m;
      }
    }
  }

  /** What a call does to the store and the pointers. */
  lemma StoreAfterCall(c: Config, w: World, job: Job, pc: Pc, r: Reply)
    requires Possible(w, OpOf(c, job, pc), r)
    ensures var v := Perform(w, OpOf(c, job, pc), r);
            && v.store == (if !Effective(r) then w.store
                           else if pc.Uploading? then w.store[pc.objects[r.index].key := pc.objects[r.index]]
                           else if pc.PuttingManifest? then Put(w.store, pc.manifest)
                           else w.store)
            && (forall d :: d in w.pointers ==> d in v.pointers && v.pointers[d] == w.pointers[d])
            && (pc.Uploading? || pc.PuttingManifest? ==> v.pointers == w.pointers)
  {
  }

  /** A handler's call keeps right what is right: an upload writes a pinned object, a manifest write the
      pinned manifest, a pointer is registered once. */
  lemma CallKeepsRight(c: Config, pins: map<string, Pin>, w: World, job: Job, pc: Pc, r: Reply)
    requires KeysApart(c, pins) && ExportOk(c, pins, w, job, pc) && Possible(w, OpOf(c, job, pc), r)
    ensures KeepsRight(c, pins, w, Perform(w, OpOf(c, job, pc), r))
  {
    StoreAfterCall(c, w, job, pc, r);
    if Effective(r) && pc.Uploading? {
      StoringObjectKeepsRight(c, pins, w, Perform(w, OpOf(c, job, pc), r), DepOf(job.payload), r.index);
    } else if Effective(r) && pc.PuttingManifest? {
      StoringManifestKeepsRight(c, pins, w, Perform(w, OpOf(c, job, pc), r), DepOf(job.payload), pc.manifest);
    }
  }

  /** The next values are pinned ones, and what counts as stored is stored. */
  lemma ReplyKeepsExport(c: Config, pins: map<string, Pin>, s: Sys, h: nat, r: Reply)
    requires IgnoresStatus(c) && KeysApart(c, pins) && RecordsPinned(s.w.records, pins)
    requires Enabled(c, s, HandlerStep(h, r)) && Pinned(c, pins, s, HandlerStep(h, r))
    requires ExportOk(c, pins, s.w, s.handlers[h].job, s.handlers[h].pc)
    requires WellFormed(s.handlers[h].job, s.handlers[h].pc)
    ensures var job, pc := s.handlers[h].job, s.handlers[h].pc;
            ExportOk(c, pins, Perform(s.w, OpOf(c, job, pc), r), job, NextPc(c, job, pc, r))
  {
    var job, pc := s.handlers[h].job, s.handlers[h].pc;
    var next := NextPc(c, job, pc, r);
    var v := Perform(s.w, OpOf(c, job, pc), r);
    CallKeepsRight(c, pins, s.w, job, pc, r);
    if HasRecord(next) {
      CarriedRecord(c, job, pc, r);
    }
    if next.Uploading? {
      NextUploading(c, pins, s, job, pc, r);
    } else if next.Dating? {
      CarriedUpload(c, job, pc, r);
      UploadEnded(c, pins, s, job, pc, r, next.files);
    } else if next.PuttingManifest? {
      NextPutting(c, pins, s, job, pc, r);
    } else if next.Submitting? || next.CasReady? {
      CarriedManifest(c, job, pc, r);
      NextRegistered(c, pins, s, job, pc, r);
    }
  }

  /** The facts about one handler step the lemmas below share. */
  ghost predicate StepFacts(c: Config, pins: map<string, Pin>, s: Sys, job: Job, pc: Pc, r: Reply) {
    && IgnoresStatus(c)
    && Possible(s.w, OpOf(c, job, pc), r) && ExportOk(c, pins, s.w, job, pc)
    && KeepsRight(c, pins, s.w, Perform(s.w, OpOf(c, job, pc), r))
    && (r.Harvested? ==> r.files == PinOf(pins, DepOf(job.payload)).files)
    && (r.Prior? ==> c.date(r.stored, r.clock) == PinOf(pins, DepOf(job.payload)).createdAt)
    && !r.Expired?
  }

  lemma AnsweredIsRight(c: Config, pins: map<string, Pin>, s: Sys, job: Job, pc: Pc, r: Reply)
    requires StepFacts(c, pins, s, job, pc, r) && pc.Uploading? && (r.Uploaded? || r.Skipped?)
    ensures AllRight(Perform(s.w, OpOf(c, job, pc), r), pc.objects, pc.left - {r.index})
  {
    var v := Perform(s.w, OpOf(c, job, pc), r);
    forall i: nat | i < |pc.objects| && i !in pc.left - {r.index}
      ensures Right(v, pc.objects[i])
    {
      if i != r.index {
        assert Right(s.w, pc.objects[i]);
        assert pc.objects[i] == ObjectsOf(c, pins, DepOf(job.payload))[i];
      }
    }
  }

  lemma PinnedObjects(c: Config, pins: map<string, Pin>, job: Job, rec: Record, objects: seq<Object>)
    requires IgnoresStatus(c) && DepOf(job.payload) in pins
    requires Identity(rec) == Identity(PinOf(pins, DepOf(job.payload)).rec)
    requires c.objects(DepOf(job.payload), rec, PinOf(pins, DepOf(job.payload)).files) == Success(objects)
    ensures ObjectsOf(c, pins, DepOf(job.payload)) == objects
  {
    var dep := DepOf(job.payload);
    assert c.objects(dep, Identity(rec), PinOf(pins, dep).files) == c.objects(dep, rec, PinOf(pins, dep).files);
  }

  lemma NextUploading(c: Config, pins: map<string, Pin>, s: Sys, job: Job, pc: Pc, r: Reply)
    requires StepFacts(c, pins, s, job, pc, r) && NextPc(c, job, pc, r).Uploading?
    ensures var next := NextPc(c, job, pc, r);
            && next.files == PinOf(pins, DepOf(job.payload)).files
                && next.objects == ObjectsOf(c, pins, DepOf(job.payload))
            && AllRight(Perform(s.w, OpOf(c, job, pc), r), next.objects, next.left)
  {
    var next := NextPc(c, job, pc, r);
    CarriedUpload(c, job, pc, r);
    if pc.Harvesting? {
      PinnedObjects(c, pins, job, pc.rec, next.objects);
    } else {
      AnsweredIsRight(c, pins, s, job, pc, r);
    }
  }

  lemma UploadEnded(c: Config, pins: map<string, Pin>, s: Sys, job: Job, pc: Pc, r: Reply, files: seq<File>)
    requires StepFacts(c, pins, s, job, pc, r) && UploadEnds(c, job, pc, r, files)
    ensures files == PinOf(pins, DepOf(job.payload)).files
    ensures AllRight(Perform(s.w, OpOf(c, job, pc), r), ObjectsOf(c, pins, DepOf(job.payload)), {})
  {
    if pc.Uploading? {
      AnsweredIsRight(c, pins, s, job, pc, r);
    } else {
      PinnedObjects(c, pins, job, pc.rec, []);
    }
  }

  lemma NextPutting(c: Config, pins: map<string, Pin>, s: Sys, job: Job, pc: Pc, r: Reply)
    requires StepFacts(c, pins, s, job, pc, r) && NextPc(c, job, pc, r).PuttingManifest?
    requires DepOf(job.payload) in pins
    requires Identity(NextPc(c, job, pc, r).rec) == Identity(PinOf(pins, DepOf(job.payload)).rec)
    ensures var next := NextPc(c, job, pc, r);
            && next.files == PinOf(pins, DepOf(job.payload)).files
            && AllRight(Perform(s.w, OpOf(c, job, pc), r), ObjectsOf(c, pins, DepOf(job.payload)), {})
            && IsManifest(c, pins, DepOf(job.payload), next.manifest)
  {
    var next := NextPc(c, job, pc, r);
    var dep := DepOf(job.payload);
    CarriedDate(c, job, pc, r);
    if !pc.Dating? {
      UploadEnded(c, pins, s, job, pc, r, next.files);
    }
    assert c.manifest(dep, Identity(next.rec), next.files, PinOf(pins, dep).createdAt)
           == c.manifest(dep, next.rec, next.files, PinOf(pins, dep).createdAt);
  }

  lemma NextRegistered(c: Config, pins: map<string, Pin>, s: Sys, job: Job, pc: Pc, r: Reply)
    requires StepFacts(c, pins, s, job, pc, r) && r.Ok? && (pc.PuttingManifest? || pc.Submitting?)
    ensures var v := Perform(s.w, OpOf(c, job, pc), r);
            && AllRight(v, ObjectsOf(c, pins, DepOf(job.payload)), {})
            && Right(v, pc.manifest)
            && (pc.Submitting? ==>
                  (DepOf(job.payload) in v.pointers
                   && v.pointers[DepOf(job.payload)] ==
                      c.pointer(DepOf(job.payload), Identity(PinOf(pins, DepOf(job.payload)).rec), pc.files,
                                pc.manifest)))
  {
    var dep := DepOf(job.payload);
    if pc.Submitting? {
      assert c.pointer(dep, Identity(pc.rec), pc.files, pc.manifest) == c.pointer(dep, pc.rec, pc.files, pc.manifest);
    }
  }

  // ---- Steps ----

  lemma ExportsStay(c: Config, pins: map<string, Pin>, s: Sys, t: Sys)
    requires KeepsRight(c, pins, s.w, t.w) && ExportsOk(c, pins, s)
    requires forall h :: h in t.handlers ==>
               (h in s.handlers && t.handlers[h] == s.handlers[h])
                   || ExportOk(c, pins, t.w, t.handlers[h].job, t.handlers[h].pc)
    ensures ExportsOk(c, pins, t)
  {
    forall h | h in t.handlers
      ensures ExportOk(c, pins, t.w, t.handlers[h].job, t.handlers[h].pc)
    {
      if h in s.handlers && t.handlers[h] == s.handlers[h] {
        ExportStaysOk(c, pins, s.w, t.w, s.handlers[h].job, s.handlers[h].pc);
      }
    }
  }

  lemma MovesStay(c: Config, pins: map<string, Pin>, s: Sys, t: Sys)
    requires KeepsRight(c, pins, s.w, t.w) && MovesComplete(c, pins, s)
    requires s.hist.moves <= t.hist.moves
    requires forall i :: |s.hist.moves| <= i < |t.hist.moves| && t.hist.moves[i].to.ArtifactReady? ==>
               Complete(c, pins, t.w, t.hist.moves[i].dep)
    ensures MovesComplete(c, pins, t)
  {
    forall i | 0 <= i < |t.hist.moves| && t.hist.moves[i].to.ArtifactReady?
      ensures Complete(c, pins, t.w, t.hist.moves[i].dep)
    {
      if i < |s.hist.moves| {
        assert t.hist.moves[i] == s.hist.moves[i];
        CompleteStays(c, pins, s.w, t.w, s.hist.moves[i].dep);
      }
    }
  }

  /** Steps that store nothing and start handlers only at their beginning. */
  lemma StoringNothingKeepsComplete(c: Config, pins: map<string, Pin>, s: Sys, t: Sys)
    requires CompleteInv(c, pins, s) && RecordsPinned(t.w.records, pins)
    requires LogDated(t.w, pins) && EnvelopesDated(t, pins)
    requires t.w.store == s.w.store && t.w.pointers == s.w.pointers && t.hist.moves == s.hist.moves
    requires forall h :: h in t.handlers ==>
               (h in s.handlers && t.handlers[h] == s.handlers[h])
               || (t.handlers[h].pc == StartPc(t.handlers[h].job) && t.handlers[h].job.entry < |t.w.log|
                   && t.handlers[h].job.payload == t.w.log[t.handlers[h].job.entry].payload)
    ensures CompleteInv(c, pins, t)
  {
    assert KeepsRight(c, pins, s.w, t.w);
    ExportsStay(c, pins, s, t);
    MovesStay(c, pins, s, t);
  }

  lemma QueueStepKeepsComplete(c: Config, pins: map<string, Pin>, s: Sys, a: Action)
    requires CompleteInv(c, pins, s) && Enabled(c, s, a) && Pinned(c, pins, s, a)
    requires a.Produce? || a.Deliver? || a.Reclaim? || a.Crash? || a.Environment?
    ensures CompleteInv(c, pins, After(c, s, a))
  {
    StoringNothingKeepsComplete(c, pins, s, After(c, s, a));
  }

  lemma {:induction false} FoundDated(w: World, pins: map<string, Pin>, ids: seq<string>)
    requires forall id :: id in w.hash ==> EnvelopeDated(w.hash[id], pins)
    ensures forall env :: env in FoundOf(w.hash, ids) ==> EnvelopeDated(env, pins)
  {
    if ids != [] {
      FoundDated(w, pins, ids[1..]);
    }
  }

  lemma DispatcherKeepsDates(c: Config, pins: map<string, Pin>, s: Sys, a: Action)
    requires EnvelopesDated(s, pins) && LogDated(s.w, pins) && Enabled(c, s, a)
    requires a.DispatchRead? || a.DispatchFetch? || a.DispatchStop? || a.DispatchDrop? || a.DispatchPublish?
              || a.DispatchRemove?
    ensures EnvelopesDated(After(c, s, a), pins) && LogDated(After(c, s, a).w, pins)
  {
    if !a.DispatchRead? {
      assert BatchDated(s.dispatchers[a.d], pins);
    }
    if a.DispatchFetch? {
      FoundDated(s.w, pins, s.dispatchers[a.d].ids);
    }
    if a.DispatchPublish? {
      assert EnvelopeDated(s.dispatchers[a.d].batch[0], pins);
    }
  }

  lemma DispatchStepKeepsComplete(c: Config, pins: map<string, Pin>, s: Sys, a: Action)
    requires CompleteInv(c, pins, s) && Enabled(c, s, a)
    requires a.DispatchRead? || a.DispatchFetch? || a.DispatchStop? || a.DispatchDrop? || a.DispatchPublish?
              || a.DispatchRemove?
    ensures CompleteInv(c, pins, After(c, s, a))
  {
    DispatcherKeepsDates(c, pins, s, a);
    StoringNothingKeepsComplete(c, pins, s, After(c, s, a));
  }

  lemma HandlerKeepsDates(c: Config, pins: map<string, Pin>, s: Sys, h: nat, r: Reply)
    requires Enabled(c, s, HandlerStep(h, r)) && EnvelopesDated(s, pins) && LogDated(s.w, pins)
    requires ExportOk(c, pins, s.w, s.handlers[h].job, s.handlers[h].pc)
    ensures EnvelopesDated(After(c, s, HandlerStep(h, r)), pins) && LogDated(After(c, s, HandlerStep(h, r)).w, pins)
  {
    var job, pc := s.handlers[h].job, s.handlers[h].pc;
    var op := OpOf(c, job, pc);
    ReadyEvent.StepFrame(c, s, h, r);
    ReadyEvent.HashAfterCall(s.w, op, r);
    ReadyEvent.ScheduledPayload(c, job, pc);
    ReadyEvent.OnlyAckTouchesPending(s.w, op, r);
    if op.ScheduleRetry? {
      assert EnvelopeDated(op.envelope, pins);
    }
  }

  lemma HandlerKeepsRecords(c: Config, pins: map<string, Pin>, w: World, op: Op, r: Reply)
    requires Possible(w, op, r) && RecordsPinned(w.records, pins)
    ensures RecordsPinned(Perform(w, op, r).records, pins)
  {
    ReadyEvent.RecordsAfterCall(c, w, op, r);
  }

  /** A status write is recorded; nothing else is. */
  lemma MovesAfterStep(c: Config, s: Sys, h: nat, r: Reply)
    requires Enabled(c, s, HandlerStep(h, r))
    ensures var op := OpOf(c, s.handlers[h].job, s.handlers[h].pc);
            After(c, s, HandlerStep(h, r)).hist.moves ==
            s.hist.moves + if op.Cas? && Effective(r) then [Move(op.dep, op.from, op.to)] else []
  {
  }

  /** Whoever writes ARTIFACT_READY has everything in place. */
  lemma ReadyWriterIsComplete(c: Config, pins: map<string, Pin>, w: World, job: Job, pc: Pc, r: Reply)
    requires WellFormed(job, pc) && ExportOk(c, pins, w, job, pc) && Possible(w, OpOf(c, job, pc), r)
    requires OpOf(c, job, pc).Cas? && OpOf(c, job, pc).to.ArtifactReady?
    requires KeepsRight(c, pins, w, Perform(w, OpOf(c, job, pc), r))
    ensures Complete(c, pins, Perform(w, OpOf(c, job, pc), r), OpOf(c, job, pc).dep)
  {
    ReadyEvent.ReadyWriter(c, job, pc);
    ExportStaysOk(c, pins, w, Perform(w, OpOf(c, job, pc), r), job, pc);
    assert IsManifest(c, pins, DepOf(job.payload), pc.manifest);
  }

  lemma HandlerKeepsMoves(c: Config, pins: map<string, Pin>, s: Sys, h: nat, r: Reply)
    requires MovesComplete(c, pins, s) && Enabled(c, s, HandlerStep(h, r))
    requires WellFormed(s.handlers[h].job, s.handlers[h].pc)
    requires ExportOk(c, pins, s.w, s.handlers[h].job, s.handlers[h].pc)
    requires KeepsRight(c, pins, s.w, After(c, s, HandlerStep(h, r)).w)
    ensures MovesComplete(c, pins, After(c, s, HandlerStep(h, r)))
  {
    var t := After(c, s, HandlerStep(h, r));
    var job, pc := s.handlers[h].job, s.handlers[h].pc;
    ReadyEvent.StepFrame(c, s, h, r);
    MovesAfterStep(c, s, h, r);
    if OpOf(c, job, pc).Cas? && OpOf(c, job, pc).to.ArtifactReady? {
      ReadyWriterIsComplete(c, pins, s.w, job, pc, r);
    }
    MovesStay(c, pins, s, t);
  }

  lemma HandlerKeepsExports(c: Config, pins: map<string, Pin>, s: Sys, h: nat, r: Reply)
    requires Enabled(c, s, HandlerStep(h, r)) && ExportsOk(c, pins, s)
    requires KeepsRight(c, pins, s.w, After(c, s, HandlerStep(h, r)).w)
    requires var job, pc := s.handlers[h].job, s.handlers[h].pc;
             ExportOk(c, pins, Perform(s.w, OpOf(c, job, pc), r), job, NextPc(c, job, pc, r))
    ensures ExportsOk(c, pins, After(c, s, HandlerStep(h, r)))
  {
    ReadyEvent.StepFrame(c, s, h, r);
    ExportsStay(c, pins, s, After(c, s, HandlerStep(h, r)));
  }

  lemma HandlerStepKeepsComplete(c: Config, pins: map<string, Pin>, s: Sys, h: nat, r: Reply)
    requires IgnoresStatus(c) && KeysApart(c, pins)
    requires CompleteInv(c, pins, s) && Enabled(c, s, HandlerStep(h, r)) && Pinned(c, pins, s, HandlerStep(h, r))
    requires WellFormed(s.handlers[h].job, s.handlers[h].pc)
    ensures CompleteInv(c, pins, After(c, s, HandlerStep(h, r)))
  {
    var job, pc := s.handlers[h].job, s.handlers[h].pc;
    CallKeepsRight(c, pins, s.w, job, pc, r);
    ReplyKeepsExport(c, pins, s, h, r);
    HandlerKeepsDates(c, pins, s, h, r);
    HandlerKeepsRecords(c, pins, s.w, OpOf(c, job, pc), r);
    HandlerKeepsMoves(c, pins, s, h, r);
    HandlerKeepsExports(c, pins, s, h, r);
  }

  // ---- Whole runs ----

  lemma StepKeepsCompleteInv(c: Config, pins: map<string, Pin>, s: Sys, a: Action)
    requires IgnoresStatus(c) && KeysApart(c, pins) && Inv(s)
    requires CompleteInv(c, pins, s) && Enabled(c, s, a) && Pinned(c, pins, s, a)
    ensures CompleteInv(c, pins, After(c, s, a))
  {
    if a.HandlerStep? {
      HandlerStepKeepsComplete(c, pins, s, a.h, a.reply);
    } else if a.Produce? || a.Deliver? || a.Reclaim? || a.Crash? || a.Environment? {
      QueueStepKeepsComplete(c, pins, s, a);
    } else {
      DispatchStepKeepsComplete(c, pins, s, a);
    }
  }

  lemma {:induction false} RunKeepsCompleteInv(c: Config, pins: map<string, Pin>, s: Sys, actions: seq<Action>)
    requires IgnoresStatus(c) && KeysApart(c, pins) && Inv(s)
    requires CompleteInv(c, pins, s) && PinnedRun(c, pins, s, actions)
    ensures CompleteInv(c, pins, End(c, s, actions))
    decreases |actions|
  {
    if actions != [] {
      StepKeepsInv(c, s, actions[0]);
      StepKeepsCompleteInv(c, pins, s, actions[0]);
      RunKeepsCompleteInv(c, pins, After(c, s, actions[0]), actions[1..]);
    }
  }

  /** ARTIFACT_READY implies a complete artifact: in every run with pinned renders, one manifest date, keys
      apart and no expiring upload, whatever the duplicates and stale records, a deployment a worker ever
      set ARTIFACT_READY has its manifest stored, the pointer for that manifest registered, and every file
      stored under its key with its hash. */
  lemma ReadyMeansComplete(c: Config, pins: map<string, Pin>, s: Sys, actions: seq<Action>, i: nat)
    requires IgnoresStatus(c) && KeysApart(c, pins)
    requires Initial(s) && RecordsPinned(s.w.records, pins)
    requires PinnedRun(c, pins, s, actions)
    requires i < |End(c, s, actions).hist.moves| && End(c, s, actions).hist.moves[i].to.ArtifactReady?
    ensures Complete(c, pins, End(c, s, actions).w, End(c, s, actions).hist.moves[i].dep)
  {
    assert Inv(s) && CompleteInv(c, pins, s);
    RunKeepsCompleteInv(c, pins, s, actions);
  }
}
