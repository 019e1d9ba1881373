/** The two halves of the retry store agree: with one dispatcher at a time, every stored envelope is indexed
    at its due time, and the dispatcher's two reads never drop an envelope, whatever workers schedule in between. */
module EnvelopeStore {
  import opened ErrClass
  import opened Types
  import opened Retry
  import opened Protocol
  import opened Machine
  import ReadyEvent

  /** At most one tick is in progress: a tick starts only when no other is. */
  ghost predicate OneTickAtATime(c: Config, s: Sys, actions: seq<Action>): (b: bool)
    ensures b ==> Run(c, s, actions)
    decreases |actions|
  {
    actions == [] || (Enabled(c, s, actions[0]) && (actions[0].DispatchRead? ==> s.dispatchers == map[])
                      && OneTickAtATime(c, After(c, s, actions[0]), actions[1..]))
  }

  ghost predicate Agrees(w: World) {
    && w.hash.Keys == w.zset.Keys
    && forall id :: id in w.hash ==> w.hash[id].id == id && w.zset[id] == w.hash[id].nextAttemptAt
  }

  ghost predicate Lone(s: Sys) {
    && (forall d, e :: d in s.dispatchers && e in s.dispatchers ==> d == e)
    && (forall d :: d in s.dispatchers ==> !s.dispatchers[d].Dropping?)
    && (forall d :: d in s.dispatchers && s.dispatchers[d].Reading? ==>
          forall id :: id in s.dispatchers[d].ids ==> id in s.w.hash)
  }

  lemma {:induction false} NoOrphans(hash: map<string, Envelope>, ids: seq<string>)
    requires forall id :: id in ids ==> id in hash
    ensures Orphans(hash, ids) == []
  {
    if ids != [] {
      NoOrphans(hash, ids[1..]);
    }
  }

  lemma HandlerStepKeepsStore(c: Config, s: Sys, h: nat, r: Reply)
    requires Enabled(c, s, HandlerStep(h, r)) && Agrees(s.w) && Lone(s)
    ensures Agrees(After(c, s, HandlerStep(h, r)).w) && Lone(After(c, s, HandlerStep(h, r)))
  {
    ReadyEvent.StepFrame(c, s, h, r);
    ReadyEvent.HashAfterCall(s.w, OpOf(c, s.handlers[h].job, s.handlers[h].pc), r);
  }

  lemma DispatchStepKeepsStore(c: Config, s: Sys, a: Action)
    requires Enabled(c, s, a) && Agrees(s.w) && Lone(s) && (a.DispatchRead? ==> s.dispatchers == map[])
    requires a.DispatchRead? || a.DispatchFetch? || a.DispatchDrop? || a.DispatchPublish? || a.DispatchRemove?
              || a.DispatchStop?
    ensures Agrees(After(c, s, a).w) && Lone(After(c, s, a))
  {
    if a.DispatchFetch? {
      NoOrphans(s.w.hash, s.dispatchers[a.d].ids);
    }
  }

  lemma StepKeepsStore(c: Config, s: Sys, a: Action)
    requires Enabled(c, s, a) && Agrees(s.w) && Lone(s) && (a.DispatchRead? ==> s.dispatchers == map[])
    ensures Agrees(After(c, s, a).w) && Lone(After(c, s, a))
  {
    match a
    case HandlerStep(h, r) => HandlerStepKeepsStore(c, s, h, r);
    case Produce(_, _) =>
    case Deliver(_, _) =>
    case Reclaim(_, _, _) =>
    case Crash(_) =>
    case Environment(_) =>
    case _ => DispatchStepKeepsStore(c, s, a);
  }

  lemma {:induction false} RunKeepsStore(c: Config, s: Sys, actions: seq<Action>)
    requires Agrees(s.w) && Lone(s) && OneTickAtATime(c, s, actions)
    ensures Agrees(End(c, s, actions).w) && Lone(End(c, s, actions))
    decreases |actions|
  {
    if actions != [] {
      StepKeepsStore(c, s, actions[0]);
      RunKeepsStore(c, After(c, s, actions[0]), actions[1..]);
    }
  }

  /** After every step of every run with one tick at a time: the payload hash and the due index hold the same
      ids, each envelope is indexed at its due time, and no tick is ever about to drop an id. */
  lemma StoreHalvesAgree(c: Config, s: Sys, actions: seq<Action>)
    requires Initial(s) && OneTickAtATime(c, s, actions)
    ensures var t := End(c, s, actions);
            && t.w.hash.Keys == t.w.zset.Keys
            && (forall id :: id in t.w.hash ==> t.w.hash[id].id == id && t.w.zset[id] == t.w.hash[id].nextAttemptAt)
            && (forall d :: d in t.dispatchers ==> !t.dispatchers[d].Dropping?)
  {
    RunKeepsStore(c, s, actions);
  }

  // ---- The step that breaks the agreement ----

  /** An orphan is dropped from the index although its payload is back in the hash. */
  ghost predicate StaleDrop(s: Sys, a: Action) {
    && a.DispatchDrop? && a.done && a.d in s.dispatchers && s.dispatchers[a.d].Dropping?
    && s.dispatchers[a.d].orphans != [] && s.dispatchers[a.d].orphans[0] in s.w.hash
  }

  lemma OtherStepsKeepAgreement(c: Config, s: Sys, a: Action)
    requires Enabled(c, s, a) && Agrees(s.w) && !StaleDrop(s, a)
    ensures Agrees(After(c, s, a).w)
  {
    if a.HandlerStep? {
      ReadyEvent.StepFrame(c, s, a.h, a.reply);
      ReadyEvent.HashAfterCall(s.w, OpOf(c, s.handlers[a.h].job, s.handlers[a.h].pc), a.reply);
    }
  }

  /** From an agreeing store, with any number of dispatchers, exactly the stale drops leave a stored envelope
      unindexed. */
  lemma UnindexesIffStaleDrop(c: Config, s: Sys, a: Action)
    requires Enabled(c, s, a) && Agrees(s.w)
    ensures (exists id :: id in After(c, s, a).w.hash && id !in After(c, s, a).w.zset) <==> StaleDrop(s, a)
  {
    if StaleDrop(s, a) {
      var id := s.dispatchers[a.d].orphans[0];
      assert id in After(c, s, a).w.hash && id !in After(c, s, a).w.zset;
    } else {
      OtherStepsKeepAgreement(c, s, a);
    }
  }

  ghost predicate AlwaysAgrees(c: Config, s: Sys, actions: seq<Action>)
    requires Run(c, s, actions)
    decreases |actions|
  {
    Agrees(s.w) && (actions != [] ==> AlwaysAgrees(c, After(c, s, actions[0]), actions[1..]))
  }

  ghost predicate NoStaleDrop(c: Config, s: Sys, actions: seq<Action>)
    requires Run(c, s, actions)
    decreases |actions|
  {
    actions != [] ==> !StaleDrop(s, actions[0]) && NoStaleDrop(c, After(c, s, actions[0]), actions[1..])
  }

  lemma {:induction false} AgreesIffNoStaleDrop(c: Config, s: Sys, actions: seq<Action>)
    requires Agrees(s.w) && Run(c, s, actions)
    ensures AlwaysAgrees(c, s, actions) <==> NoStaleDrop(c, s, actions)
    decreases |actions|
  {
    if actions != [] {
      UnindexesIffStaleDrop(c, s, actions[0]);
      if !StaleDrop(s, actions[0]) {
        OtherStepsKeepAgreement(c, s, actions[0]);
        AgreesIffNoStaleDrop(c, After(c, s, actions[0]), actions[1..]);
      } else {
        assert !Agrees(After(c, s, actions[0]).w);
      }
    }
  }

  /** In every run, with any number of dispatchers, the two halves agree in every state exactly when no tick
      ever drops an id whose payload is back. */
  lemma HalvesAgreeIffNoStaleDrop(c: Config, s: Sys, actions: seq<Action>)
    requires Initial(s) && Run(c, s, actions)
    ensures AlwaysAgrees(c, s, actions) <==> NoStaleDrop(c, s, actions)
  {
    AgreesIffNoStaleDrop(c, s, actions);
  }

  // ---- A run with a stale drop ----

  lemma RunFrom(c: Config, s: Sys, a: Action, rest: seq<Action>)
    requires Enabled(c, s, a) && Run(c, After(c, s, a), rest)
    ensures Run(c, s, [a] + rest) && End(c, s, [a] + rest) == End(c, After(c, s, a), rest)
  {
    assert ([a] + rest)[1..] == rest;
  }

  /** The first tick has read the id; the second has removed it; the first finds no payload. */
  lemma OrphanFound(c: Config, s: Sys, env: Envelope, position: nat)
    requires s.w.hash == map[env.id := env] && s.w.zset == map[env.id := env.nextAttemptAt]
    requires s.dispatchers == map[1 := Removing(env, [], position)]
    ensures Enabled(c, s, DispatchRead(0, [env.id]))
    ensures var s1 := After(c, s, DispatchRead(0, [env.id]));
            Enabled(c, s1, DispatchRemove(1, Reply.Ok)) &&
            var s2 := After(c, s1, DispatchRemove(1, Reply.Ok));
            Enabled(c, s2, DispatchFetch(0)) &&
            var s3 := After(c, s2, DispatchFetch(0));
            0 in s3.dispatchers && s3.dispatchers[0] == Dropping([env.id], []) && s3.handlers == s.handlers
  {
    var s2 := After(c, After(c, s, DispatchRead(0, [env.id])), DispatchRemove(1, Reply.Ok));
    assert s2.dispatchers[0] == Reading([env.id]) && env.id !in s2.w.hash;
    assert [env.id][1..] == [];
    assert Orphans(s2.w.hash, []) == [] && FoundOf(s2.w.hash, []) == [];
    assert Orphans(s2.w.hash, [env.id]) == [env.id] && FoundOf(s2.w.hash, [env.id]) == [];
  }

  /** A worker schedules the id anew and the first tick drops it from the index. */
  lemma FreshEnvelopeUnindexed(c: Config, s: Sys, env: Envelope, h: nat)
    requires 0 in s.dispatchers && s.dispatchers[0] == Dropping([env.id], [])
    requires h in s.handlers && OpOf(c, s.handlers[h].job, s.handlers[h].pc) == ScheduleRetry(env)
    ensures Run(c, s, [HandlerStep(h, Reply.Ok), DispatchDrop(0, true)])
    ensures var t := End(c, s, [HandlerStep(h, Reply.Ok), DispatchDrop(0, true)]);
            env.id in t.w.hash && env.id !in t.w.zset
  {
    var t := After(c, s, HandlerStep(h, Reply.Ok));
    ReadyEvent.StepFrame(c, s, h, Reply.Ok);
    ReadyEvent.HashAfterCall(s.w, ScheduleRetry(env), Reply.Ok);
    RunFrom(c, t, DispatchDrop(0, true), []);
    RunFrom(c, s, HandlerStep(h, Reply.Ok), [DispatchDrop(0, true)]);
  }

  function Race(id: string, h: nat): seq<Action> {
    [DispatchRead(0, [id])]
        + ([DispatchRemove(1, Reply.Ok)] + ([DispatchFetch(0)] + [HandlerStep(h, Reply.Ok), DispatchDrop(0, true)]))
  }

  /** One tick reads an id, another removes it, the first finds no payload, a worker schedules the id anew,
      and the first tick drops it. */
  lemma RaceUnindexes(c: Config, s: Sys, env: Envelope, h: nat, position: nat)
    requires s.w.hash == map[env.id := env] && s.w.zset == map[env.id := env.nextAttemptAt]
    requires s.dispatchers == map[1 := Removing(env, [], position)]
    requires h in s.handlers && OpOf(c, s.handlers[h].job, s.handlers[h].pc) == ScheduleRetry(env)
    ensures Run(c, s, Race(env.id, h))
    ensures var t := End(c, s, Race(env.id, h)); env.id in t.w.hash && env.id !in t.w.zset
  {
    var read, remove, fetch := DispatchRead(0, [env.id]), DispatchRemove(1, Reply.Ok), DispatchFetch(0);
    var last := [HandlerStep(h, Reply.Ok), DispatchDrop(0, true)];
    OrphanFound(c, s, env, position);
    var s1 := After(c, s, read);
    var s2 := After(c, s1, remove);
    FreshEnvelopeUnindexed(c, After(c, s2, fetch), env, h);
    RunFrom(c, s2, fetch, last);
    RunFrom(c, s1, remove, [fetch] + last);
    RunFrom(c, s, read, [remove] + ([fetch] + last));
  }

  /** The delivery whose record cannot be loaded, by whichever handler has it. */
  function FailedJob(payload: Payload): Job {
    Job(0, 0, payload, 0, 0.0)
  }

  lemma LoadFails(c: Config, s: Sys, h: nat, payload: Payload, code: Code)
    requires h in s.handlers && s.handlers[h] == Handler(FailedJob(payload), Loading)
    requires Retryable(code) && c.maxRetries >= 1
    ensures Enabled(c, s, HandlerStep(h, Err(code)))
    ensures After(c, s, HandlerStep(h, Err(code)))
              == s.(handlers := s.handlers[h := Handler(FailedJob(payload), Scheduling(code))])
  {
  }

  /** Published, delivered, and the record cannot be loaded. */
  lemma FirstDelivery(c: Config, s: Sys, payload: Payload, code: Code)
    requires Initial(s) && !payload.Unparseable? && Retryable(code) && c.maxRetries >= 1
    ensures var actions := [Produce(payload, 0), Deliver(0, 0.0), HandlerStep(0, Err(code))];
            Run(c, s, actions) &&
            var t := End(c, s, actions);
            && t.handlers == map[0 := Handler(FailedJob(payload), Scheduling(code))] && t.spawned == 1
            && t.w.log == [Entry(payload, 0)] && t.w.pending == {0}
            && t.w.hash == map[] && t.w.zset == map[] && t.dispatchers == map[]
  {
    var s2 := After(c, After(c, s, Produce(payload, 0)), Deliver(0, 0.0));
    assert s2.handlers == map[0 := Handler(FailedJob(payload), Loading)];
    LoadFails(c, s2, 0, payload, code);
    Run3(c, s, Produce(payload, 0), Deliver(0, 0.0), HandlerStep(0, Err(code)));
    assert s2.handlers[0 := Handler(FailedJob(payload), Scheduling(code))]
           == map[0 := Handler(FailedJob(payload), Scheduling(code))];
  }

  lemma RetryIsWritten(c: Config, s: Sys, payload: Payload, code: Code)
    requires s.handlers == map[0 := Handler(FailedJob(payload), Scheduling(code))]
    requires s.w.hash == map[] && s.w.zset == map[]
    ensures Enabled(c, s, HandlerStep(0, Reply.Ok))
    ensures var env, t := RetryEnvelope(c, FailedJob(payload), code), After(c, s, HandlerStep(0, Reply.Ok));
            && t.w == s.w.(hash := map[env.id := env], zset := map[env.id := env.nextAttemptAt])
            && t.dispatchers == s.dispatchers && t.spawned == s.spawned && 1 !in t.handlers
  {
  }

  /** The retry is written, but before the ack the entry is reclaimed, and loading fails again. */
  lemma SecondDelivery(c: Config, s: Sys, payload: Payload, code: Code)
    requires s.handlers == map[0 := Handler(FailedJob(payload), Scheduling(code))] && s.spawned == 1
    requires s.w.log == [Entry(payload, 0)] && s.w.pending == {0}
    requires s.w.hash == map[] && s.w.zset == map[] && s.dispatchers == map[]
    requires !payload.Unparseable? && Retryable(code) && c.maxRetries >= 1
    ensures var actions := [HandlerStep(0, Reply.Ok), Reclaim(0, 0, 0.0), HandlerStep(1, Err(code))];
            Run(c, s, actions) &&
            var env, t := RetryEnvelope(c, FailedJob(payload), code), End(c, s, actions);
            && 1 in t.handlers && t.handlers[1] == Handler(FailedJob(payload), Scheduling(code))
            && t.w.log == [Entry(payload, 0)] && t.dispatchers == map[]
            && t.w.hash == map[env.id := env] && t.w.zset == map[env.id := env.nextAttemptAt]
  {
    RetryIsWritten(c, s, payload, code);
    var s1 := After(c, s, HandlerStep(0, Reply.Ok));
    var s2 := After(c, s1, Reclaim(0, 0, 0.0));
    assert s2.handlers[1] == Handler(FailedJob(payload), Loading);
    LoadFails(c, s2, 1, payload, code);
    Run3(c, s, HandlerStep(0, Reply.Ok), Reclaim(0, 0, 0.0), HandlerStep(1, Err(code)));
  }

  /** One tick re-enqueues the retry and is about to remove it. */
  lemma TickReenqueues(c: Config, s: Sys, env: Envelope)
    requires s.w.hash == map[env.id := env] && s.w.zset == map[env.id := env.nextAttemptAt] && s.dispatchers == map[]
    ensures var actions := [DispatchRead(1, [env.id]), DispatchFetch(1), DispatchPublish(1, Reply.Ok)];
            Run(c, s, actions) &&
            var t := End(c, s, actions);
            && t.dispatchers == map[1 := Removing(env, [], |s.w.log|)] && t.handlers == s.handlers
            && t.w.hash == s.w.hash && t.w.zset == s.w.zset
  {
    var s1 := After(c, s, DispatchRead(1, [env.id]));
    OneFound(s.w.hash, env.id);
    var s2 := After(c, s1, DispatchFetch(1));
    assert s2.dispatchers[1] == Publishing([env]) && [env][1..] == [];
    Run3(c, s, DispatchRead(1, [env.id]), DispatchFetch(1), DispatchPublish(1, Reply.Ok));
    assert map[1 := Reading([env.id])][1 := Publishing([env])][1 := Removing(env, [], |s.w.log|)]
           == map[1 := Removing(env, [], |s.w.log|)];
  }

  /** The whole run, for one failing delivery and two ticks. */
  function UnindexingRun(c: Config, payload: Payload, code: Code): seq<Action> {
    var id := RetryEnvelope(c, FailedJob(payload), code).id;
    [Produce(payload, 0), Deliver(0, 0.0), HandlerStep(0, Err(code))]
    + ([HandlerStep(0, Reply.Ok), Reclaim(0, 0, 0.0), HandlerStep(1, Err(code))]
       + ([DispatchRead(1, [id]), DispatchFetch(1), DispatchPublish(1, Reply.Ok)] + Race(id, 1)))
  }

  /** With two dispatchers a stored envelope can lose its index: from every initial state, for every readable
      payload, retryable failure and worker that retries at all, this run ends so. */
  lemma SecondDispatcherCanUnindex(c: Config, s: Sys, payload: Payload, code: Code)
    requires Initial(s) && !payload.Unparseable? && Retryable(code) && c.maxRetries >= 1
    ensures Run(c, s, UnindexingRun(c, payload, code))
    ensures var id, t := RetryEnvelope(c, FailedJob(payload), code).id, End(c, s, UnindexingRun(c, payload, code));
            id in t.w.hash && id !in t.w.zset
  {
    var env := RetryEnvelope(c, FailedJob(payload), code);
    var first := [Produce(payload, 0), Deliver(0, 0.0), HandlerStep(0, Err(code))];
    var second := [HandlerStep(0, Reply.Ok), Reclaim(0, 0, 0.0), HandlerStep(1, Err(code))];
    var third := [DispatchRead(1, [env.id]), DispatchFetch(1), DispatchPublish(1, Reply.Ok)];
    FirstDelivery(c, s, payload, code);
    var s1 := End(c, s, first);
    SecondDelivery(c, s1, payload, code);
    var s2 := End(c, s1, second);
    TickReenqueues(c, s2, env);
    var s3 := End(c, s2, third);
    RaceUnindexes(c, s3, env, 1, |s2.w.log|);
    RunConcat(c, s2, third, Race(env.id, 1));
    RunConcat(c, s1, second, third + Race(env.id, 1));
    RunConcat(c, s, first, second + (third + Race(env.id, 1)));
  }
}
