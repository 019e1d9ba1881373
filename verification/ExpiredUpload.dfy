/** Why a complete artifact needs an upload context that does not expire: from every initial state in which an
    export has an object to store, this run ends ARTIFACT_READY, with the event emitted and the message acked,
    and the object was never stored. */
module ExpiredUpload {
  import opened Deployment
  import opened Types
  import opened Protocol
  import opened Machine
  import opened Scripts

  /** The run: everything succeeds, but the upload's context expires before an object is handed out. */
  function Steps(e: Case): seq<Action> {
    [Produce(e.Request(), 0), Deliver(0, 0.0), HandlerStep(0, Loaded(e.rec))]
    + ([HandlerStep(0, Ok), HandlerStep(0, Ok), HandlerStep(0, Harvested(e.files))]
       + ([HandlerStep(0, Expired), HandlerStep(0, Ok), HandlerStep(0, Ok)]
          + [HandlerStep(0, Ok), HandlerStep(0, Ok), HandlerStep(0, Ok)]))
  }

  ghost predicate Alone(s: Sys, job: Job, pc: Pc) {
    s.handlers == map[0 := Handler(job, pc)]
  }

  /** One answer to the only handler. */
  lemma Answered(c: Config, s: Sys, job: Job, pc: Pc, r: Reply)
    requires Alone(s, job, pc) && Possible(s.w, OpOf(c, job, pc), r)
    ensures Enabled(c, s, HandlerStep(0, r))
    ensures var t := After(c, s, HandlerStep(0, r));
            && t.w == Perform(s.w, OpOf(c, job, pc), r)
            && (!NextPc(c, job, pc, r).Done? ==> Alone(t, job, NextPc(c, job, pc, r)))
  {
    assert s.handlers[0] == Handler(job, pc);
    assert s.handlers[0 := Handler(job, NextPc(c, job, pc, r))] == map[0 := Handler(job, NextPc(c, job, pc, r))];
  }

  lemma Begins(c: Config, s: Sys, e: Case)
    requires Initial(s) && e.Fits(c) && e.dep in s.w.records && s.w.records[e.dep] == e.rec
    ensures var actions := [Produce(e.Request(), 0), Deliver(0, 0.0), HandlerStep(0, Loaded(e.rec))];
            Run(c, s, actions) &&
            var t := End(c, s, actions);
            && Alone(t, e.JobAt(0, 0), Locking(e.rec))
            && t.w.records == s.w.records && t.w.store == s.w.store && t.w.pointers == s.w.pointers
  {
    var s2 := After(c, After(c, s, Produce(e.Request(), 0)), Deliver(0, 0.0));
    assert Alone(s2, e.JobAt(0, 0), Loading);
    Answered(c, s2, e.JobAt(0, 0), Loading, Loaded(e.rec));
    Run3(c, s, Produce(e.Request(), 0), Deliver(0, 0.0), HandlerStep(0, Loaded(e.rec)));
  }

  lemma {:induction false} IndicesAreMany(n: nat)
    requires n > 0
    ensures Indices(n) != {}
  {
    assert n - 1 in Indices(n);
  }

  lemma Started(c: Config, s: Sys, e: Case)
    requires Alone(s, e.JobAt(0, 0), Locking(e.rec)) && e.Fits(c) && e.dep in s.w.records && s.w.records[e.dep] == e.rec
    ensures Run(c, s, [HandlerStep(0, Ok), HandlerStep(0, Ok)])
    ensures var t := End(c, s, [HandlerStep(0, Ok), HandlerStep(0, Ok)]);
            && Alone(t, e.JobAt(0, 0), Harvesting(e.Running()))
            && t.w.records == s.w.records[e.dep := e.Running()]
            && t.w.store == s.w.store && t.w.pointers == s.w.pointers
  {
    Answered(c, s, e.JobAt(0, 0), Locking(e.rec), Ok);
    var s1 := After(c, s, HandlerStep(0, Ok));
    Answered(c, s1, e.JobAt(0, 0), CasExporting(e.rec), Ok);
    Run2(c, s, HandlerStep(0, Ok), HandlerStep(0, Ok));
  }

  lemma PageRendered(c: Config, s: Sys, e: Case)
    requires Alone(s, e.JobAt(0, 0), Locking(e.rec)) && e.Fits(c) && e.dep in s.w.records && s.w.records[e.dep] == e.rec
    requires e.objects != []
    ensures var actions := [HandlerStep(0, Ok), HandlerStep(0, Ok), HandlerStep(0, Harvested(e.files))];
            Run(c, s, actions) &&
            var t := End(c, s, actions);
            && Alone(t, e.JobAt(0, 0), Uploading(e.Running(), e.files, e.objects, Indices(|e.objects|)))
            && t.w.records == s.w.records[e.dep := e.Running()]
            && t.w.store == s.w.store && t.w.pointers == s.w.pointers
  {
    var first := [HandlerStep(0, Ok), HandlerStep(0, Ok)];
    var last := HandlerStep(0, Harvested(e.files));
    Started(c, s, e);
    IndicesAreMany(|e.objects|);
    AfterHarvest(c, e.JobAt(0, 0), e);
    Answered(c, End(c, s, first), e.JobAt(0, 0), Harvesting(e.Running()), Harvested(e.files));
    RunExtends(c, s, first, last);
    assert first + [last] == [HandlerStep(0, Ok), HandlerStep(0, Ok), last];
  }

  /** The expired upload goes on to the manifest. */
  lemma GoesOn(c: Config, s: Sys, e: Case)
    requires Alone(s, e.JobAt(0, 0), Uploading(e.Running(), e.files, e.objects, Indices(|e.objects|))) && e.Fits(c)
    ensures Enabled(c, s, HandlerStep(0, Expired))
    ensures var t := After(c, s, HandlerStep(0, Expired));
            t.w == s.w && Alone(t, e.JobAt(0, 0), PuttingManifest(e.Running(), e.files, e.manifest))
  {
    Answered(c, s, e.JobAt(0, 0), Uploading(e.Running(), e.files, e.objects, Indices(|e.objects|)), Expired);
  }

  lemma Puts(c: Config, s: Sys, e: Case)
    requires Alone(s, e.JobAt(0, 0), PuttingManifest(e.Running(), e.files, e.manifest))
    ensures Enabled(c, s, HandlerStep(0, Ok))
    ensures var t := After(c, s, HandlerStep(0, Ok));
            && Alone(t, e.JobAt(0, 0), Submitting(e.Running(), e.files, e.manifest))
            && t.w == s.w.(store := Put(s.w.store, e.manifest))
  {
    Answered(c, s, e.JobAt(0, 0), PuttingManifest(e.Running(), e.files, e.manifest), Ok);
  }

  lemma ManifestRegistered(c: Config, s: Sys, e: Case)
    requires Alone(s, e.JobAt(0, 0), Uploading(e.Running(), e.files, e.objects, Indices(|e.objects|)))
    requires e.Fits(c) && e.dep !in s.w.pointers
    ensures var actions := [HandlerStep(0, Expired), HandlerStep(0, Ok), HandlerStep(0, Ok)];
            Run(c, s, actions) &&
            var t := End(c, s, actions);
            && Alone(t, e.JobAt(0, 0), CasReady(e.Running(), e.files, e.manifest))
            && t.w.records == s.w.records && t.w.store == Put(s.w.store, e.manifest)
  {
    GoesOn(c, s, e);
    var s1 := After(c, s, HandlerStep(0, Expired));
    Puts(c, s1, e);
    var s2 := After(c, s1, HandlerStep(0, Ok));
    Answered(c, s2, e.JobAt(0, 0), Submitting(e.Running(), e.files, e.manifest), Ok);
    Run3(c, s, HandlerStep(0, Expired), HandlerStep(0, Ok), HandlerStep(0, Ok));
  }

  lemma Moves(c: Config, s: Sys, e: Case)
    requires Alone(s, e.JobAt(0, 0), CasReady(e.Running(), e.files, e.manifest))
    requires e.dep in s.w.records && s.w.records[e.dep] == e.Running()
    ensures Enabled(c, s, HandlerStep(0, Ok))
    ensures var t := After(c, s, HandlerStep(0, Ok));
            && Alone(t, e.JobAt(0, 0), Emitting(c.facts(e.dep, e.Running(), e.files, e.manifest)))
            && t.w == s.w.(records := s.w.records[e.dep := e.Running().(status := ArtifactReady)])
  {
    Answered(c, s, e.JobAt(0, 0), CasReady(e.Running(), e.files, e.manifest), Ok);
  }

  lemma Emits(c: Config, s: Sys, e: Case)
    requires Alone(s, e.JobAt(0, 0), Emitting(c.facts(e.dep, e.Running(), e.files, e.manifest)))
    ensures Enabled(c, s, HandlerStep(0, Ok))
    ensures var t := After(c, s, HandlerStep(0, Ok));
            && Alone(t, e.JobAt(0, 0), Acking(Exported))
            && t.w == s.w.(ready := s.w.ready + [c.facts(e.dep, e.Running(), e.files, e.manifest)])
  {
    Answered(c, s, e.JobAt(0, 0), Emitting(c.facts(e.dep, e.Running(), e.files, e.manifest)), Ok);
  }

  lemma Finishes(c: Config, s: Sys, e: Case)
    requires Alone(s, e.JobAt(0, 0), CasReady(e.Running(), e.files, e.manifest))
    requires e.dep in s.w.records && s.w.records[e.dep] == e.Running()
    ensures var actions := [HandlerStep(0, Ok), HandlerStep(0, Ok), HandlerStep(0, Ok)];
            Run(c, s, actions) &&
            var t := End(c, s, actions);
            && e.dep in t.w.records && t.w.records[e.dep].status.ArtifactReady? && t.w.store == s.w.store
            && |t.w.ready| == |s.w.ready| + 1 && 0 !in t.w.pending
  {
    Moves(c, s, e);
    var s1 := After(c, s, HandlerStep(0, Ok));
    Emits(c, s1, e);
    var s2 := After(c, s1, HandlerStep(0, Ok));
    Answered(c, s2, e.JobAt(0, 0), Acking(Exported), Ok);
    Run3(c, s, HandlerStep(0, Ok), HandlerStep(0, Ok), HandlerStep(0, Ok));
  }

  /** The run, for every configuration and every export with something to store. */
  lemma ExpiryCanFinishIncomplete(c: Config, s: Sys, e: Case, i: nat)
    requires Initial(s) && e.Fits(c) && e.dep in s.w.records && s.w.records[e.dep] == e.rec
    requires i < |e.objects| && e.objects[i].key !in s.w.store && e.objects[i].key != e.manifest.key
    ensures Run(c, s, Steps(e))
    ensures var t := End(c, s, Steps(e));
            && e.dep in t.w.records && t.w.records[e.dep].status.ArtifactReady?
            && e.manifest.key in t.w.store && t.w.store[e.manifest.key].sha == e.manifest.sha
            && e.objects[i].key !in t.w.store
            && |t.w.ready| > 0 && 0 !in t.w.pending
  {
    var first := [Produce(e.Request(), 0), Deliver(0, 0.0), HandlerStep(0, Loaded(e.rec))];
    var second := [HandlerStep(0, Ok), HandlerStep(0, Ok), HandlerStep(0, Harvested(e.files))];
    var third := [HandlerStep(0, Expired), HandlerStep(0, Ok), HandlerStep(0, Ok)];
    var last := [HandlerStep(0, Ok), HandlerStep(0, Ok), HandlerStep(0, Ok)];
    Begins(c, s, e);
    var s1 := End(c, s, first);
    PageRendered(c, s1, e);
    var s2 := End(c, s1, second);
    ManifestRegistered(c, s2, e);
    var s3 := End(c, s2, third);
    Finishes(c, s3, e);
    RunConcat(c, s2, third, last);
    RunConcat(c, s1, second, third + last);
    RunConcat(c, s, first, second + (third + last));
  }
}
