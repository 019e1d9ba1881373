/** What the ready-event guarantee cannot do without: for each of its two exceptions and each of its two
    hypotheses on interleavings, a run that exists for every configuration and every deployment whose export
    succeeds, keeps everything else, and ends with the event lost. */
module LostEvents {
  import opened ErrClass
  import opened Deployment
  import opened Types
  import opened Retry
  import opened Protocol
  import opened Machine
  import opened ReadyEvent
  import opened Scripts

  /** ARTIFACT_READY through a worker's write, and nothing left that could emit its event: no event, dead
      letter, stored retry or unacked entry, and neither a handler nor a re-enqueue under way. */
  ghost predicate EventLost(t: Sys, dep: string) {
    && dep in t.hist.held && dep in t.w.records && t.w.records[dep].status.ArtifactReady?
    && t.w.ready == [] && t.w.dlq == [] && t.w.hash == map[]
    && (forall i: nat :: i < |t.w.log| ==> !Unacked(t.w, i))
    && t.handlers == map[] && forall d :: d in t.dispatchers ==> t.dispatchers[d] == Publishing([])
  }

  // ---- Parts of the runs ----

  /** The retry is written over whatever its id held, and the entry acked. */
  ghost predicate Parked(c: Config, s: Sys, t: Sys, h: nat, job: Job, code: Code) {
    var env := RetryEnvelope(c, job, code);
    && t == s.(w := s.w.(hash := s.w.hash[env.id := env], zset := s.w.zset[env.id := env.nextAttemptAt],
                         pending := s.w.pending - {job.entry}),
               handlers := s.handlers - {h}, hist := t.hist)
    && SameHistory(s.hist.(displaced := Displaced(s, env)), t.hist)
  }

  lemma Schedules(x: Rules, s: Sys, t: Sys, h: nat, job: Job, code: Code) returns (u: Sys)
    requires Reaches(x, s, t) && Stands(t, h, job, Scheduling(code))
    requires x.noLateWrite ==> !Doomed(t, RetryEnvelope(x.c, job, code).id)
    ensures Reaches(x, s, u)
    ensures var env := RetryEnvelope(x.c, job, code);
            && u == t.(w := t.w.(hash := t.w.hash[env.id := env], zset := t.w.zset[env.id := env.nextAttemptAt]),
                       handlers := t.handlers[h := Handler(job, Acking(Scheduled))], hist := u.hist)
            && SameHistory(t.hist.(displaced := Displaced(t, env)), u.hist)
  {
    Step(x, s, t, HandlerStep(h, Ok));
    u := After(x.c, t, HandlerStep(h, Ok));
  }

  lemma Parks(x: Rules, s: Sys, t: Sys, h: nat, job: Job, code: Code) returns (u: Sys)
    requires Reaches(x, s, t) && Stands(t, h, job, Scheduling(code))
    requires x.noLateWrite ==> !Doomed(t, RetryEnvelope(x.c, job, code).id)
    ensures Reaches(x, s, u) && Parked(x.c, t, u, h, job, code)
  {
    var t1 := Schedules(x, s, t, h, job, code);
    u := Acks(x, s, t1, h, job, Scheduled);
    assert t1.handlers - {h} == t.handlers - {h};
  }

  /** The next entry is delivered, its record cannot be loaded, and its retry is parked. */
  lemma FailsOnce(x: Rules, s: Sys, t: Sys, code: Code) returns (u: Sys)
    requires Reaches(x, s, t) && t.w.cursor < |t.w.log| && t.dispatchers == map[]
    requires t.spawned !in t.handlers && t.w.cursor !in t.w.pending
    requires var e := t.w.log[t.w.cursor]; !e.payload.Unparseable? && e.attempt < x.c.maxRetries && Retryable(code)
    ensures Reaches(x, s, u)
    ensures var env := RetryEnvelope(x.c, JobOf(t), code);
            && u == t.(w := t.w.(cursor := t.w.cursor + 1, hash := t.w.hash[env.id := env],
                                 zset := t.w.zset[env.id := env.nextAttemptAt]),
                       spawned := t.spawned + 1, hist := u.hist)
            && SameHistory(t.hist.(displaced := Displaced(t, env)), u.hist)
  {
    var h, job := t.spawned, JobOf(t);
    var t1 := Delivers(x, s, t);
    var t2 := Answer(x, s, t1, h, job, Loading, Err(code));
    u := Parks(x, s, t2, h, job, code);
    assert t2.handlers - {h} == t.handlers;
    assert t1.w.pending - {job.entry} == t.w.pending;
  }

  /** One tick has read the stored retry. */
  lemma Found(x: Rules, s: Sys, t: Sys, env: Envelope) returns (u: Sys)
    requires Reaches(x, s, t) && t.dispatchers == map[]
    requires env.id in t.w.hash && t.w.hash[env.id] == env && env.id in t.w.zset
    ensures Reaches(x, s, u) && u == t.(dispatchers := map[0 := Publishing([env])])
  {
    Step(x, s, t, DispatchRead(0, [env.id]));
    var t1 := After(x.c, t, DispatchRead(0, [env.id]));
    OneFound(t.w.hash, env.id);
    Step(x, s, t1, DispatchFetch(0));
    u := After(x.c, t1, DispatchFetch(0));
    assert u.dispatchers == map[0 := Publishing([env])];
  }

  /** It has re-enqueued the retry and is about to remove it. */
  lemma Reenqueued(x: Rules, s: Sys, t: Sys, env: Envelope) returns (u: Sys)
    requires Reaches(x, s, t) && t.dispatchers == map[]
    requires env.id in t.w.hash && t.w.hash[env.id] == env && env.id in t.w.zset
    ensures Reaches(x, s, u)
    ensures u == t.(w := t.w.(log := t.w.log + [Entry(env.payload, env.attempt)]),
                    dispatchers := map[0 := Removing(env, [], |t.w.log|)], hist := u.hist)
    ensures SameHistory(t.hist, u.hist)
  {
    var t1 := Found(x, s, t, env);
    assert [env][1..] == [];
    Step(x, s, t1, DispatchPublish(0, Ok));
    u := After(x.c, t1, DispatchPublish(0, Ok));
    assert u.dispatchers == map[0 := Removing(env, [], |t.w.log|)];
    assert Displaced(t1, env) == t.hist.displaced;
  }

  lemma Removes(x: Rules, s: Sys, t: Sys, env: Envelope, position: nat) returns (u: Sys)
    requires Reaches(x, s, t) && t.dispatchers == map[0 := Removing(env, [], position)]
    ensures Reaches(x, s, u)
    ensures u == t.(w := t.w.(hash := t.w.hash - {env.id}, zset := t.w.zset - {env.id}),
                    dispatchers := map[0 := Publishing([])], hist := u.hist)
    ensures SameHistory(t.hist, u.hist)
  {
    Step(x, s, t, DispatchRemove(0, Ok));
    u := After(x.c, t, DispatchRemove(0, Ok));
    assert u.dispatchers == map[0 := Publishing([])];
  }

  // ---- Exports that end with the retry parked, or with the event due ----

  /** ARTIFACT_READY by this worker's write, with the retry or the event still to come. */
  ghost predicate MadeReady(s: Sys, t: Sys, h: nat, next: Handler, e: Case) {
    && t == s.(handlers := s.handlers[h := next],
               w := s.w.(records := t.w.records, store := t.w.store, pointers := t.w.pointers), hist := t.hist)
    && e.dep in t.w.records && t.w.records[e.dep] == e.Running().(status := ArtifactReady)
    && SameHistory(s.hist.(held := s.hist.held + {e.dep}), t.hist)
  }

  lemma MakesReady(x: Rules, s: Sys, h: nat, job: Job, e: Case, r: Reply) returns (t: Sys)
    requires Stands(s, h, job, Locking(e.rec)) && job.payload == e.Request() && e.Fits(x.c)
    requires e.dep in s.w.records && s.w.records[e.dep] == e.rec && e.dep !in s.w.pointers
    requires r.Ok? || (r.Lost? && Retryable(r.code) && job.attempt < x.c.maxRetries)
    ensures Reaches(x, s, t)
    ensures MadeReady(s, t, h, Handler(job, if r.Ok? then Emitting(x.c.facts(e.dep, e.Running(), e.files, e.manifest))
                                            else Scheduling(r.code)), e)
  {
    var s1 := Exports(x, s, h, job, e);
    t := Answer(x, s, s1, h, job, CasReady(e.Running(), e.files, e.manifest), r);
    assert s.handlers[h := t.handlers[h]] == t.handlers;
  }

  /** ARTIFACT_READY by this worker's write, the retry parked, and the entry acked. */
  ghost predicate ReadyParked(c: Config, s: Sys, t: Sys, h: nat, job: Job, e: Case, code: Code) {
    var env := RetryEnvelope(c, job, code);
    && t == s.(handlers := s.handlers - {h},
               w := s.w.(hash := s.w.hash[env.id := env], zset := s.w.zset[env.id := env.nextAttemptAt],
                         pending := s.w.pending - {job.entry},
                         records := t.w.records, store := t.w.store, pointers := t.w.pointers),
               hist := t.hist)
    && e.dep in t.w.records && t.w.records[e.dep] == e.Running().(status := ArtifactReady)
    && SameHistory(s.hist.(held := s.hist.held + {e.dep}), t.hist)
  }

  lemma ReadyThenParks(x: Rules, s: Sys, h: nat, job: Job, e: Case, code: Code) returns (t: Sys)
    requires Stands(s, h, job, Locking(e.rec)) && job.payload == e.Request() && e.Fits(x.c)
    requires e.dep in s.w.records && s.w.records[e.dep] == e.rec && e.dep !in s.w.pointers
    requires Retryable(code) && job.attempt < x.c.maxRetries
    requires x.noLateWrite ==> !Doomed(s, RetryEnvelope(x.c, job, code).id)
    ensures Reaches(x, s, t) && ReadyParked(x.c, s, t, h, job, e, code)
  {
    var s1 := MakesReady(x, s, h, job, e, Lost(code));
    t := Parks(x, s, s1, h, job, code);
    assert !Displaces(s1.w, RetryEnvelope(x.c, job, code));
    assert t.handlers == s.handlers - {h};
  }

  lemma MeetsConflict(x: Rules, s: Sys, t: Sys, h: nat, job: Job, e: Case) returns (u: Sys)
    requires Reaches(x, s, t) && Stands(t, h, job, CasExporting(e.rec))
    requires job.payload == e.Request() && e.dep in t.w.records && t.w.records[e.dep].status.ArtifactReady?
    ensures Reaches(x, s, u) && u == t.(handlers := t.handlers[h := Handler(job, Acking(Stopped))])
  {
    u := Answer(x, s, t, h, job, CasExporting(e.rec), Conflict(ArtifactReady));
  }

  /** A handler that read the record earlier finds the status written by another, and acks. */
  lemma StopsOnConflict(x: Rules, s: Sys, t: Sys, h: nat, job: Job, e: Case) returns (u: Sys)
    requires Reaches(x, s, t) && Stands(t, h, job, Locking(e.rec)) && e.rec.status.ExportQueued?
    requires job.payload == e.Request() && e.dep in t.w.records && t.w.records[e.dep].status.ArtifactReady?
    ensures Reaches(x, s, u) && Acked(t, u, h, job.entry)
  {
    var t1 := Answer(x, s, t, h, job, Locking(e.rec), Ok);
    var t2 := MeetsConflict(x, s, t1, h, job, e);
    u := Acks(x, s, t2, h, job, Stopped);
    assert t2.handlers - {h} == t.handlers - {h};
  }

  // ---- A payload that takes the place of the waiting retry ----

  /** Nothing is under way; what is stored is the retry this entry's handler wrote. */
  ghost predicate Waiting(t: Sys, e: Case, env: Envelope, log: seq<Entry>) {
    && t.w.log == log && t.w.cursor == |log| && t.w.pending == {}
    && t.w.hash == map[env.id := env] && t.w.zset == map[env.id := env.nextAttemptAt]
    && t.w.ready == [] && t.w.dlq == [] && t.handlers == map[] && t.dispatchers == map[]
    && e.dep in t.w.records && t.w.records[e.dep] == e.Running().(status := ArtifactReady)
    && e.dep in t.hist.held && t.hist.dropped == {}
  }

  /** The status write got through, its reply did not, and the retry is parked. */
  lemma ReadyWithRetry(x: Rules, s: Sys, e: Case, code: Code) returns (t: Sys)
    requires Initial(s) && e.Fits(x.c) && e.dep in s.w.records && s.w.records[e.dep] == e.rec
    requires Retryable(code) && x.c.maxRetries >= 1
    ensures Reaches(x, s, t)
    ensures Waiting(t, e, RetryEnvelope(x.c, e.JobAt(0, 0), code), [Entry(e.Request(), 0)])
  {
    var s1 := Opens(x, s, e);
    t := ReadyThenParks(x, s1, 0, e.JobAt(0, 0), e, code);
    Then(x, s, s1, t);
    assert t.handlers == map[];
  }

  function FailedJob(dep: string): Job {
    Job(1, 0, Invalid(dep), 0, 0.0)
  }

  lemma SameRetryId(c: Config, e: Case, code: Code)
    ensures RetryEnvelope(c, FailedJob(e.dep), code).id == RetryEnvelope(c, e.JobAt(0, 0), code).id
  {
  }

  /** A schema-invalid payload naming the deployment fails alike, and its retry has the same id. */
  lemma Overwritten(x: Rules, s: Sys, e: Case, code: Code) returns (t: Sys)
    requires Initial(s) && e.Fits(x.c) && e.dep in s.w.records && s.w.records[e.dep] == e.rec
    requires Retryable(code) && x.c.maxRetries >= 1
    ensures Reaches(x, s, t)
    ensures Waiting(t, e, RetryEnvelope(x.c, FailedJob(e.dep), code), [Entry(e.Request(), 0), Entry(Invalid(e.dep), 0)])
    ensures e.dep in t.hist.displaced
  {
    var s1 := ReadyWithRetry(x, s, e, code);
    Step(x, s, s1, Produce(Invalid(e.dep), 0));
    var s2 := After(x.c, s1, Produce(Invalid(e.dep), 0));
    t := FailsOnce(x, s, s2, code);
    SameRetryId(x.c, e, code);
    assert Displaces(s2.w, RetryEnvelope(x.c, FailedJob(e.dep), code));
  }

  /** The next entry, a schema-invalid payload, is delivered and acked on the non-actionable record. */
  lemma InvalidEntryIsAcked(x: Rules, s: Sys, t: Sys, dep: string) returns (u: Sys)
    requires Reaches(x, s, t) && t.w.cursor < |t.w.log| && t.w.log[t.w.cursor].payload == Invalid(dep)
    requires t.handlers == map[] && t.w.pending == {}
    requires dep in t.w.records && t.w.records[dep].status.ArtifactReady?
    ensures Reaches(x, s, u)
    ensures u == t.(w := t.w.(cursor := t.w.cursor + 1), spawned := t.spawned + 1, hist := u.hist)
    ensures SameHistory(t.hist, u.hist)
  {
    ClassOfDecisiveCodes();
    var t1 := Delivers(x, s, t);
    var t2 := Answer(x, s, t1, t.spawned, JobOf(t), Loading, Loaded(t.w.records[dep]));
    u := Acks(x, s, t2, t.spawned, JobOf(t), MarkedFailed);
    assert u.handlers == map[] && u.w.pending == {};
  }

  /** The invalid retry is re-enqueued, delivered and acked. */
  lemma InvalidRetryIsAcked(x: Rules, s: Sys, t: Sys, e: Case, env: Envelope, log: seq<Entry>) returns (u: Sys)
    requires Reaches(x, s, t) && Waiting(t, e, env, log) && env.payload == Invalid(e.dep)
    ensures Reaches(x, s, u) && EventLost(u, e.dep) && u.hist.displaced == t.hist.displaced
    ensures u.hist.dropped == {}
  {
    var t1 := Reenqueued(x, s, t, env);
    var t2 := Removes(x, s, t1, env, |log|);
    u := InvalidEntryIsAcked(x, s, t2, e.dep);
  }

  /** The exception for displaced retries is needed. A run that keeps every rule loses the event: the retry of a
      schema-invalid payload naming the deployment is written over the one that carried the duty. */
  lemma InvalidPayloadCanLoseTheReadyEvent(c: Config, keyOf: string -> string, s: Sys, e: Case, code: Code)
    requires Initial(s) && e.Fits(c) && e.dep in s.w.records && s.w.records[e.dep] == e.rec
    requires Retryable(code) && c.maxRetries >= 1
    ensures exists actions :: GuardedRun(c, keyOf, s, actions) &&
              var t := End(c, s, actions);
              EventLost(t, e.dep) && e.dep in t.hist.displaced && !DroppedReady(t.hist, e.dep)
  {
    var x := AllRules(c, keyOf);
    var t := Overwritten(x, s, e, code);
    var env := RetryEnvelope(c, FailedJob(e.dep), code);
    var u := InvalidRetryIsAcked(x, s, t, e, env, t.w.log);
    KeepsAllRules(c, keyOf, s, u);
  }

  lemma KeepsAllRules(c: Config, keyOf: string -> string, s: Sys, t: Sys)
    requires Reaches(AllRules(c, keyOf), s, t)
    ensures exists actions :: GuardedRun(c, keyOf, s, actions) && End(c, s, actions) == t
  {
    var actions :| RuledRun(AllRules(c, keyOf), s, actions) && End(c, s, actions) == t;
    AllRulesGuard(c, keyOf, s, actions);
  }

  // ---- A delivery given up ----

  /** The worker dies before it emits, and the entry goes to another. */
  lemma WriterDies(x: Rules, s: Sys, e: Case) returns (t: Sys)
    requires Initial(s) && e.Fits(x.c) && e.dep in s.w.records && s.w.records[e.dep] == e.rec
    ensures Reaches(x, s, t)
    ensures t == s.(w := s.w.(log := [Entry(e.Request(), 0)], cursor := 1, pending := {0}, records := t.w.records,
                              store := t.w.store, pointers := t.w.pointers),
                    handlers := map[1 := Handler(e.JobAt(0, 0), Loading)], spawned := 2, hist := t.hist)
    ensures e.dep in t.w.records && t.w.records[e.dep].status.ArtifactReady?
    ensures SameHistory(s.hist.(held := s.hist.held + {e.dep}), t.hist)
  {
    var s1 := Opens(x, s, e);
    var s2 := MakesReady(x, s1, 0, e.JobAt(0, 0), e, Ok);
    Then(x, s, s1, s2);
    Step(x, s, s2, Crash(0));
    var s3 := After(x.c, s2, Crash(0));
    assert s3.handlers == map[];
    Step(x, s, s3, Reclaim(0, 0, 0.0));
    t := After(x.c, s3, Reclaim(0, 0, 0.0));
  }

  /** The record cannot be loaded for a reason that is not retried, and the entry is acked without one. */
  lemma GivesUp(x: Rules, s: Sys, t: Sys, h: nat, job: Job, code: Code) returns (u: Sys)
    requires Reaches(x, s, t) && Stands(t, h, job, Loading) && job.entry in t.w.pending && !Retryable(code)
    ensures Reaches(x, s, u)
    ensures var dep := DepOf(job.payload);
            && u == t.(w := t.w.(pending := t.w.pending - {job.entry}), handlers := t.handlers - {h}, hist := u.hist)
            && u.hist.dropped == t.hist.dropped + {Drop(dep, job.attempt, dep in t.hist.held)}
            && u.hist.held == t.hist.held && u.hist.displaced == t.hist.displaced
  {
    var t1 := Answer(x, s, t, h, job, Loading, Err(code));
    u := AcksWithoutRecord(x, s, t1, h, job);
    assert t1.handlers - {h} == t.handlers - {h};
  }

  lemma AcksWithoutRecord(x: Rules, s: Sys, t: Sys, h: nat, job: Job) returns (u: Sys)
    requires Reaches(x, s, t) && Stands(t, h, job, Acking(NoRecord)) && job.entry in t.w.pending
    ensures Reaches(x, s, u)
    ensures var dep := DepOf(job.payload);
            && u == t.(w := t.w.(pending := t.w.pending - {job.entry}), handlers := t.handlers - {h}, hist := u.hist)
            && u.hist.dropped == t.hist.dropped + {Drop(dep, job.attempt, dep in t.hist.held)}
            && u.hist.held == t.hist.held && u.hist.displaced == t.hist.displaced
  {
    Step(x, s, t, HandlerStep(h, Ok));
    u := After(x.c, t, HandlerStep(h, Ok));
  }

  /** The exception for dropped deliveries is needed. A run that keeps every rule loses the event: the worker dies
      after the status write, and when its entry is reclaimed the record cannot be loaded for a reason that is
      not retried. */
  lemma DroppedDeliveryCanLoseTheReadyEvent(c: Config, keyOf: string -> string, s: Sys, e: Case, code: Code)
    requires Initial(s) && e.Fits(c) && e.dep in s.w.records && s.w.records[e.dep] == e.rec
    requires !Retryable(code)
    ensures exists actions :: GuardedRun(c, keyOf, s, actions) &&
              var t := End(c, s, actions);
              EventLost(t, e.dep) && DroppedReady(t.hist, e.dep) && e.dep !in t.hist.displaced
  {
    var x := AllRules(c, keyOf);
    var t := WriterDies(x, s, e);
    var u := GivesUp(x, s, t, 1, e.JobAt(0, 0), code);
    assert Drop(e.dep, 0, true) in u.hist.dropped;
    assert u.handlers == map[];
    KeepsAllRules(c, keyOf, s, u);
  }

  // ---- A reclaimed twin ----

  /** Neither exception applies. */
  ghost predicate NothingGivenUp(hist: History) {
    hist.dropped == {} && hist.displaced == {}
  }

  /** A second handler gets the same entry and reads the queued record too. */
  lemma TwinReads(x: Rules, s: Sys, e: Case) returns (t: Sys)
    requires Initial(s) && e.Fits(x.c) && e.dep in s.w.records && s.w.records[e.dep] == e.rec && !x.oneHandler
    ensures Reaches(x, s, t)
    ensures t == s.(w := s.w.(log := [Entry(e.Request(), 0)], cursor := 1, pending := {0}), spawned := 2,
                    handlers := map[0 := Handler(e.JobAt(0, 0), Locking(e.rec)),
                                    1 := Handler(e.JobAt(0, 0), Locking(e.rec))], hist := t.hist)
    ensures SameHistory(s.hist, t.hist)
  {
    var s1 := Opens(x, s, e);
    Step(x, s, s1, Reclaim(0, 0, 0.0));
    var s2 := After(x.c, s1, Reclaim(0, 0, 0.0));
    t := Answer(x, s, s2, 1, e.JobAt(0, 0), Loading, Loaded(e.rec));
  }

  /** One handler per entry is needed. A run that breaks only this rule loses the event: of two handlers of one
      entry the first writes ARTIFACT_READY and dies before it emits, and the second, which read the record
      before, stops on the conflict and acks. */
  lemma ReclaimedTwinCanLoseTheReadyEvent(c: Config, keyOf: string -> string, s: Sys, e: Case)
    requires Initial(s) && e.Fits(c) && e.dep in s.w.records && s.w.records[e.dep] == e.rec
    ensures exists t :: Reaches(Rules(c, keyOf, false, true, true), s, t) &&
              EventLost(t, e.dep) && NothingGivenUp(t.hist)
  {
    var x := Rules(c, keyOf, false, true, true);
    var s1 := TwinReads(x, s, e);
    var s2 := MakesReady(x, s1, 0, e.JobAt(0, 0), e, Ok);
    Then(x, s, s1, s2);
    Step(x, s, s2, Crash(0));
    var s3 := After(c, s2, Crash(0));
    var t := StopsOnConflict(x, s, s3, 1, e.JobAt(0, 0), e);
    assert t.handlers == map[];
  }

  // ---- A late removal ----

  lemma TwoRequests(x: Rules, s: Sys, e: Case) returns (t: Sys)
    requires Initial(s)
    ensures Reaches(x, s, t) && SameHistory(s.hist, t.hist)
    ensures t == s.(w := s.w.(log := [Entry(e.Request(), 0), Entry(e.Request(), 0)]), hist := t.hist)
  {
    Here(x, s);
    Step(x, s, s, Produce(e.Request(), 0));
    var s1 := After(x.c, s, Produce(e.Request(), 0));
    Step(x, s, s1, Produce(e.Request(), 0));
    t := After(x.c, s1, Produce(e.Request(), 0));
  }

  /** Of two entries for one deployment the first fails; its retry is re-enqueued and about to be removed. */
  lemma RetryAboutToGo(x: Rules, s: Sys, e: Case, code: Code) returns (t: Sys)
    requires Initial(s) && Retryable(code) && x.c.maxRetries >= 1
    ensures Reaches(x, s, t)
    ensures var env := RetryEnvelope(x.c, e.JobAt(0, 0), code);
            t == s.(w := s.w.(log := [Entry(e.Request(), 0), Entry(e.Request(), 0), Entry(e.Request(), 1)],
                              cursor := 1, hash := map[env.id := env], zset := map[env.id := env.nextAttemptAt]),
                    dispatchers := map[0 := Removing(env, [], 2)], spawned := 1, hist := t.hist)
    ensures SameHistory(s.hist, t.hist)
  {
    var s2 := TwoRequests(x, s, e);
    var s3 := FailsOnce(x, s, s2, code);
    t := Reenqueued(x, s, s3, RetryEnvelope(x.c, e.JobAt(0, 0), code));
  }

  /** The next entry, a request for the deployment, is delivered and its queued record read. */
  lemma Reads(x: Rules, s: Sys, t: Sys, e: Case, attempt: int) returns (u: Sys)
    requires Reaches(x, s, t) && t.w.cursor < |t.w.log| && t.w.log[t.w.cursor] == Entry(e.Request(), attempt)
    requires e.dep in t.w.records && t.w.records[e.dep] == e.rec && e.rec.status.ExportQueued?
    ensures Reaches(x, s, u)
    ensures u == t.(w := t.w.(cursor := t.w.cursor + 1, pending := t.w.pending + {t.w.cursor}),
                    handlers := t.handlers[t.spawned := Handler(e.JobAt(t.w.cursor, attempt), Locking(e.rec))],
                    spawned := t.spawned + 1)
  {
    var t1 := Delivers(x, s, t);
    u := Answer(x, s, t1, t.spawned, JobOf(t), Loading, Loaded(e.rec));
    assert u.handlers == t.handlers[t.spawned := u.handlers[t.spawned]];
  }

  /** Both other entries are delivered, and their handlers read the queued record. */
  lemma BothRead(x: Rules, s: Sys, e: Case, code: Code) returns (t: Sys)
    requires Initial(s) && e.Fits(x.c) && e.dep in s.w.records && s.w.records[e.dep] == e.rec
    requires Retryable(code) && x.c.maxRetries >= 1
    ensures Reaches(x, s, t)
    ensures var env := RetryEnvelope(x.c, e.JobAt(0, 0), code);
            t == s.(w := s.w.(log := [Entry(e.Request(), 0), Entry(e.Request(), 0), Entry(e.Request(), 1)],
                              cursor := 3, pending := {1, 2},
                              hash := map[env.id := env], zset := map[env.id := env.nextAttemptAt]),
                    handlers := map[1 := Handler(e.JobAt(1, 0), Locking(e.rec)),
                                    2 := Handler(e.JobAt(2, 1), Locking(e.rec))],
                    dispatchers := map[0 := Removing(env, [], 2)], spawned := 3, hist := t.hist)
    ensures SameHistory(s.hist, t.hist)
  {
    var s1 := RetryAboutToGo(x, s, e, code);
    var s2 := Reads(x, s, s1, e, 0);
    t := Reads(x, s, s2, e, 1);
  }

  /** No late write is needed. A run that breaks only this rule loses the event: while a tick is between re-enqueue
      and removal of a retry, the worker of another entry writes ARTIFACT_READY, loses the reply and parks a retry
      under the same id; the re-enqueued entry is acked on the conflict, and the tick removes the id. */
  lemma LateRemovalCanLoseTheReadyEvent(c: Config, keyOf: string -> string, s: Sys, e: Case, code: Code)
    requires Initial(s) && e.Fits(c) && e.dep in s.w.records && s.w.records[e.dep] == e.rec
    requires Retryable(code) && c.maxRetries >= 1
    ensures exists t :: Reaches(Rules(c, keyOf, true, false, true), s, t) &&
              EventLost(t, e.dep) && NothingGivenUp(t.hist)
  {
    var x := Rules(c, keyOf, true, false, true);
    var env := RetryEnvelope(c, e.JobAt(0, 0), code);
    var s1 := BothRead(x, s, e, code);
    var s2 := ReadyThenParks(x, s1, 1, e.JobAt(1, 0), e, code);
    Then(x, s, s1, s2);
    var s3 := StopsOnConflict(x, s, s2, 2, e.JobAt(2, 1), e);
    var t := Removes(x, s, s3, env, 2);
    assert t.w.hash == map[];
    assert t.handlers == map[];
  }
}
