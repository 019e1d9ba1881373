/** Runs built one step at a time, under the rules a guarantee puts on them, and the export of one deployment as
    such a run: the answers that take any handler from the lock to the ready status write, for every
    configuration in which the export succeeds. */
module Scripts {
  import opened Wrappers
  import opened Deployment
  import opened Types
  import opened Protocol
  import opened Machine
  import opened ReadyEvent

  // ---- Rules ----

  /** Which of the hypotheses on steps a run keeps: one handler per pending entry, no write of an envelope id a
      dispatcher is about to remove, no expiring upload. Record identities always stay put. */
  datatype Rules = Rules(c: Config, keyOf: string -> string, oneHandler: bool, noLateWrite: bool, noExpiry: bool)

  function AllRules(c: Config, keyOf: string -> string): Rules {
    Rules(c, keyOf, true, true, true)
  }

  ghost predicate Permitted(x: Rules, s: Sys, a: Action)
    requires Enabled(x.c, s, a)
  {
    && (x.noExpiry && a.HandlerStep? ==> !a.reply.Expired?)
    && (Guarded(x.c, x.keyOf, s, a) || (a.Reclaim? && !x.oneHandler) || (a.HandlerStep? && !x.noLateWrite))
  }

  ghost predicate RuledRun(x: Rules, s: Sys, actions: seq<Action>): (b: bool)
    ensures b ==> Run(x.c, s, actions)
    decreases |actions|
  {
    actions == [] || (Enabled(x.c, s, actions[0]) && Permitted(x, s, actions[0])
                      && RuledRun(x, After(x.c, s, actions[0]), actions[1..]))
  }

  lemma {:induction false} AllRulesGuard(c: Config, keyOf: string -> string, s: Sys, actions: seq<Action>)
    requires RuledRun(AllRules(c, keyOf), s, actions)
    ensures GuardedRun(c, keyOf, s, actions)
    decreases |actions|
  {
    if actions != [] {
      AllRulesGuard(c, keyOf, After(c, s, actions[0]), actions[1..]);
    }
  }

  ghost predicate Reaches(x: Rules, s: Sys, t: Sys) {
    exists actions :: RuledRun(x, s, actions) && End(x.c, s, actions) == t
  }

  lemma {:induction false} RuledConcat(x: Rules, s: Sys, first: seq<Action>, rest: seq<Action>)
    requires RuledRun(x, s, first) && RuledRun(x, End(x.c, s, first), rest)
    ensures RuledRun(x, s, first + rest) && End(x.c, s, first + rest) == End(x.c, End(x.c, s, first), rest)
    decreases |first|
  {
    if first == [] {
      assert first + rest == rest;
    } else {
      assert (first + rest)[1..] == first[1..] + rest;
      RuledConcat(x, After(x.c, s, first[0]), first[1..], rest);
    }
  }

  lemma Then(x: Rules, s: Sys, t: Sys, u: Sys)
    requires Reaches(x, s, t) && Reaches(x, t, u)
    ensures Reaches(x, s, u)
  {
    var first :| RuledRun(x, s, first) && End(x.c, s, first) == t;
    var rest :| RuledRun(x, t, rest) && End(x.c, t, rest) == u;
    RuledConcat(x, s, first, rest);
  }

  lemma Here(x: Rules, s: Sys)
    ensures Reaches(x, s, s)
  {
    assert RuledRun(x, s, []) && End(x.c, s, []) == s;
  }

  /** A reached state reaches on by one permitted action. */
  lemma Step(x: Rules, s: Sys, t: Sys, a: Action)
    requires Reaches(x, s, t) && Enabled(x.c, t, a) && Permitted(x, t, a)
    ensures Reaches(x, s, After(x.c, t, a))
  {
    var u := After(x.c, t, a);
    assert [a][1..] == [];
    assert RuledRun(x, u, []) && End(x.c, u, []) == u;
    assert RuledRun(x, t, [a]) && End(x.c, t, [a]) == u;
    Then(x, s, t, u);
  }

  // ---- One export ----

  /** The queued record, the rendered files, and the objects and manifest computed from them. */
  datatype Case = Case(dep: string, rec: Record, files: seq<File>, objects: seq<Object>, at: string, manifest: Object)
  {
    function Running(): Record {
      rec.(status := Exporting)
    }

    function Request(): Payload {
      Valid(dep, Hints(rec.renderMode, rec.version, rec.slug), at)
    }

    function JobAt(entry: nat, attempt: int): Job {
      Job(entry, attempt, Request(), 0, 0.0)
    }

    ghost predicate Fits(c: Config) {
      && rec.status.ExportQueued? && at != ""
      && c.slugError(Running()).None?
      && c.objects(dep, Running(), files) == Success(objects)
      && c.manifest(dep, Running(), files, at) == Success(manifest)
    }

    /** Where the handler is once the page is harvested. */
    function Harvested(): Pc {
      if Indices(|objects|) == {} then PuttingManifest(Running(), files, manifest)
      else Uploading(Running(), files, objects, Indices(|objects|))
    }
  }

  /** A handler's answered call: where the handler stands next, and what the call did. */
  ghost predicate Stands(s: Sys, h: nat, job: Job, pc: Pc) {
    h in s.handlers && s.handlers[h] == Handler(job, pc)
  }

  /** One answer to one handler that lets it go on. */
  lemma Answer(x: Rules, s: Sys, t: Sys, h: nat, job: Job, pc: Pc, r: Reply) returns (u: Sys)
    requires Reaches(x, s, t) && Stands(t, h, job, pc) && Possible(t.w, OpOf(x.c, job, pc), r)
    requires !OpOf(x.c, job, pc).ScheduleRetry? && !NextPc(x.c, job, pc, r).Done? && (x.noExpiry ==> !r.Expired?)
    ensures Reaches(x, s, u)
    ensures u == t.(w := Perform(t.w, OpOf(x.c, job, pc), r),
                    handlers := t.handlers[h := Handler(job, NextPc(x.c, job, pc, r))],
                    hist := Recorded(x.c, t, h, OpOf(x.c, job, pc), r))
  {
    Step(x, s, t, HandlerStep(h, r));
    u := After(x.c, t, HandlerStep(h, r));
  }

  ghost predicate SameHistory(a: History, b: History) {
    a.held == b.held && a.dropped == b.dropped && a.displaced == b.displaced
  }

  /** The state after handler `h` has acked its entry, up to the counters of the history. */
  ghost predicate Acked(s: Sys, t: Sys, h: nat, entry: nat) {
    && t == s.(w := s.w.(pending := s.w.pending - {entry}), handlers := s.handlers - {h}, hist := t.hist)
    && SameHistory(s.hist, t.hist)
  }

  lemma Acks(x: Rules, s: Sys, t: Sys, h: nat, job: Job, why: AckReason) returns (u: Sys)
    requires Reaches(x, s, t) && Stands(t, h, job, Acking(why)) && !why.NoRecord?
    ensures Reaches(x, s, u) && Acked(t, u, h, job.entry)
  {
    Step(x, s, t, HandlerStep(h, Ok));
    u := After(x.c, t, HandlerStep(h, Ok));
  }

  /** The next entry is delivered to a new handler. */
  function JobOf(s: Sys): Job
    requires s.w.cursor < |s.w.log|
  {
    Job(s.w.cursor, s.w.log[s.w.cursor].attempt, s.w.log[s.w.cursor].payload, 0, 0.0)
  }

  lemma Delivers(x: Rules, s: Sys, t: Sys) returns (u: Sys)
    requires Reaches(x, s, t) && t.w.cursor < |t.w.log|
    ensures Reaches(x, s, u)
    ensures u == t.(w := t.w.(cursor := t.w.cursor + 1, pending := t.w.pending + {t.w.cursor}),
                    handlers := t.handlers[t.spawned := Handler(JobOf(t), StartPc(JobOf(t)))],
                    spawned := t.spawned + 1)
  {
    Step(x, s, t, Deliver(0, 0.0));
    u := After(x.c, t, Deliver(0, 0.0));
  }

  /** The request is published and delivered, and its record read. */
  lemma Opens(x: Rules, s: Sys, e: Case) returns (t: Sys)
    requires Initial(s) && e.Fits(x.c) && e.dep in s.w.records && s.w.records[e.dep] == e.rec
    ensures Reaches(x, s, t)
    ensures t == s.(w := s.w.(log := [Entry(e.Request(), 0)], cursor := 1, pending := {0}),
                    handlers := map[0 := Handler(e.JobAt(0, 0), Locking(e.rec))], spawned := 1, hist := t.hist)
    ensures SameHistory(s.hist, t.hist)
  {
    Here(x, s);
    Step(x, s, s, Produce(e.Request(), 0));
    var s1 := After(x.c, s, Produce(e.Request(), 0));
    var s2 := Delivers(x, s, s1);
    t := Answer(x, s, s2, 0, e.JobAt(0, 0), Loading, Loaded(e.rec));
    assert t.handlers == map[0 := Handler(e.JobAt(0, 0), Locking(e.rec))];
  }

  /** The same up to handler `h` and what an export may change on its way to the ready status. */
  ghost predicate Continues(s: Sys, t: Sys, h: nat, at: Handler) {
    t == s.(handlers := s.handlers[h := at],
            w := s.w.(records := t.w.records, store := t.w.store, pointers := t.w.pointers),
            hist := s.hist.(moves := t.hist.moves))
  }

  /** The lock and the first status write. */
  lemma Starts(x: Rules, s: Sys, h: nat, job: Job, e: Case) returns (t: Sys)
    requires Stands(s, h, job, Locking(e.rec)) && job.payload == e.Request() && e.Fits(x.c)
    requires e.dep in s.w.records && s.w.records[e.dep] == e.rec
    ensures Reaches(x, s, t) && Continues(s, t, h, Handler(job, Harvesting(e.Running())))
    ensures t.w.records == s.w.records[e.dep := e.Running()]
    ensures t.w.store == s.w.store && t.w.pointers == s.w.pointers
  {
    Here(x, s);
    var s1 := Answer(x, s, s, h, job, Locking(e.rec), Ok);
    t := Answer(x, s, s1, h, job, CasExporting(e.rec), Ok);
    assert s.handlers[h := t.handlers[h]] == t.handlers;
  }

  lemma AfterHarvest(c: Config, job: Job, e: Case)
    requires e.Fits(c) && job.payload == e.Request()
    ensures NextPc(c, job, Harvesting(e.Running()), Reply.Harvested(e.files)) == e.Harvested()
    ensures UploadPc(c, job, e.Running(), e.files, e.objects, Indices(|e.objects|)) == e.Harvested()
  {
  }

  /** The lock, the status write, and the page with its dependencies. */
  lemma Renders(x: Rules, s: Sys, h: nat, job: Job, e: Case) returns (t: Sys)
    requires Stands(s, h, job, Locking(e.rec)) && job.payload == e.Request() && e.Fits(x.c)
    requires e.dep in s.w.records && s.w.records[e.dep] == e.rec
    ensures Reaches(x, s, t) && Continues(s, t, h, Handler(job, e.Harvested()))
    ensures t.w.records == s.w.records[e.dep := e.Running()]
    ensures t.w.store == s.w.store && t.w.pointers == s.w.pointers
  {
    var s1 := Starts(x, s, h, job, e);
    AfterHarvest(x.c, job, e);
    t := Answer(x, s, s1, h, job, Harvesting(e.Running()), Reply.Harvested(e.files));
    assert s.handlers[h := t.handlers[h]] == t.handlers;
  }

  /** The objects still to store, one by one. */
  lemma {:induction false} Uploads(x: Rules, s: Sys, h: nat, job: Job, e: Case, left: nat) returns (t: Sys)
    requires e.Fits(x.c) && job.payload == e.Request() && left <= |e.objects|
    requires Stands(s, h, job, UploadPc(x.c, job, e.Running(), e.files, e.objects, Indices(left)))
    ensures Reaches(x, s, t)
    ensures Continues(s, t, h, Handler(job, PuttingManifest(e.Running(), e.files, e.manifest)))
    ensures t.w.records == s.w.records && t.w.pointers == s.w.pointers
    decreases left
  {
    Here(x, s);
    if left == 0 {
      t := s;
      assert s.handlers[h := s.handlers[h]] == s.handlers;
    } else {
      var k: nat := left - 1;
      assert k in Indices(left) && Indices(left) - {k} == Indices(k);
      var s1 := Answer(x, s, s, h, job, Uploading(e.Running(), e.files, e.objects, Indices(left)), Uploaded(k));
      t := Uploads(x, s1, h, job, e, k);
      Then(x, s, s1, t);
      assert s.handlers[h := t.handlers[h]] == t.handlers;
    }
  }

  /** The manifest and the pointer. */
  lemma Registers(x: Rules, s: Sys, h: nat, job: Job, e: Case) returns (t: Sys)
    requires Stands(s, h, job, PuttingManifest(e.Running(), e.files, e.manifest)) && job.payload == e.Request()
    requires e.dep !in s.w.pointers
    ensures Reaches(x, s, t) && Continues(s, t, h, Handler(job, CasReady(e.Running(), e.files, e.manifest)))
    ensures t.w.records == s.w.records && t.w.store == Put(s.w.store, e.manifest)
  {
    Here(x, s);
    var s1 := Answer(x, s, s, h, job, PuttingManifest(e.Running(), e.files, e.manifest), Ok);
    t := Answer(x, s, s1, h, job, Submitting(e.Running(), e.files, e.manifest), Ok);
    assert s.handlers[h := t.handlers[h]] == t.handlers;
  }

  /** From the lock to the ready status write, everything succeeding. */
  lemma Exports(x: Rules, s: Sys, h: nat, job: Job, e: Case) returns (t: Sys)
    requires Stands(s, h, job, Locking(e.rec)) && job.payload == e.Request() && e.Fits(x.c)
    requires e.dep in s.w.records && s.w.records[e.dep] == e.rec && e.dep !in s.w.pointers
    ensures Reaches(x, s, t) && Continues(s, t, h, Handler(job, CasReady(e.Running(), e.files, e.manifest)))
    ensures t.w.records == s.w.records[e.dep := e.Running()]
  {
    var s1 := Renders(x, s, h, job, e);
    AfterHarvest(x.c, job, e);
    var s2 := Uploads(x, s1, h, job, e, |e.objects|);
    t := Registers(x, s2, h, job, e);
    Then(x, s, s1, s2);
    Then(x, s, s2, t);
    assert s.handlers[h := t.handlers[h]] == t.handlers;
  }
}
