/** The object store's idempotent writes and the concurrent upload pool: a feeder, at most sixteen workers
    that check then put, a mutex-guarded report, and a cancellation on the first error, in every interleaving. */
module UploadPool {
  import opened Wrappers
  import opened ErrClass
  import opened Types

  // ---- One object ----

  /** How one storage call goes: it answers, fails having done nothing, or fails having done its work. */
  datatype Fault = NoFault | Fails(code: Code) | LosesReply(code: Code)

  predicate Holds(objects: map<string, Object>, o: Object) {
    o.key in objects && objects[o.key].sha == o.sha
  }

  class ObjectStore {
    var objects: map<string, Object>

    constructor (objects: map<string, Object>)
      ensures this.objects == objects
    {
      this.objects := objects;
    }

    /** Uploads unless an object with the same key and content hash is there; a different object under the key
        is overwritten. */
    method EnsureUploaded(o: Object, stat: Fault, put: Fault) returns (r: Result<bool, Code>)
      modifies this
      ensures objects == old(objects) || objects == old(objects)[o.key := o]
      ensures r.Success? ==> Holds(objects, o) && (r.value <==> old(Holds(objects, o)))
      ensures old(Holds(objects, o)) || !stat.NoFault? ==> objects == old(objects)
      ensures r.Success? <==> stat.NoFault? && (old(Holds(objects, o)) || put.NoFault?)
      ensures r.Failure? ==> r.error == if stat.NoFault? then put.code else stat.code
    {
      if !stat.NoFault? {
        return Failure(stat.code);
      }
      if o.key in objects && objects[o.key].sha == o.sha {
        return Success(true);
      }
      if put.Fails? {
        return Failure(put.code);
      }
      objects := objects[o.key := o];
      if put.LosesReply? {
        return Failure(put.code);
      }
      return Success(false);
    }

    /** The stored bytes, or their absence without an error. */
    method FetchIfExists(key: string, get: Fault) returns (r: Result<Option<Bytes>, Code>)
      ensures r.Success? <==> get.NoFault?
      ensures r.Failure? ==> r.error == get.code
      ensures r.Success? ==>
                (r.value.Some? <==> key in objects) && (r.value.Some? ==> r.value.value == objects[key].body)
    {
      if !get.NoFault? {
        return Failure(get.code);
      }
      return Success(if key in objects then Some(objects[key].body) else None);
    }
  }

  // ---- The pool ----

  datatype Verdict = WasUploaded | WasSkipped | HasFailed(code: Code)

  datatype Worker =
    | Idle
    | Checking(index: nat)
    | Putting(index: nat)
    | Reporting(index: nat, verdict: Verdict)
    | Exited

  predicate Busy(k: Worker) {
    k.Checking? || k.Putting? || k.Reporting?
  }

  /** `ok` and `failed` are the indices reported so far. */
  datatype Pool = Pool(
    store: map<string, Object>,
    workers: map<nat, Worker>,
    next: nat,                 // objects below it have been handed out
    closed: bool,              // the feeder has stopped
    cancelled: bool,           // the first error cancelled the call's own context
    expired: bool,             // the caller's context has expired
    uploaded: nat, skipped: nat,
    firstErr: Option<Code>,
    ok: set<nat>, failed: set<nat>)

  /** Eight workers unless told otherwise, never more than sixteen. */
  function PoolSize(concurrency: int): (n: nat)
    ensures 1 <= n <= 16
    ensures 1 <= concurrency <= 16 ==> n == concurrency
    ensures n < concurrency ==> n == 16
    ensures n > concurrency ==> n == 8 && concurrency <= 0
  {
    if concurrency < 1 then 8 else if concurrency > 16 then 16 else concurrency
  }

  function Crew(n: nat): (workers: map<nat, Worker>)
    ensures forall w: nat :: (w in workers <==> w < n) && (w in workers ==> workers[w] == Idle)
  {
    if n == 0 then map[] else Crew(n - 1)[n - 1 := Idle]
  }

  function Start(store: map<string, Object>, concurrency: int): Pool {
    Pool(store, Crew(PoolSize(concurrency)), 0, false, false, false, 0, 0, None, {}, {})
  }

  datatype StatReply = Same | Other | StatFails(code: Code)

  datatype Step =
    | Hand(w: nat)                    // the feeder's send meets an idle worker
    | StopFeed                        // everything handed out, or the context is done
    | Stat(w: nat, stat: StatReply)
    | Put(w: nat, put: Fault)
    | Report(w: nat)                  // under the mutex
    | Exit(w: nat)
    | Expire

  ghost predicate Enabled(objs: seq<Object>, p: Pool, step: Step) {
    match step
    case Hand(w) => w in p.workers && p.workers[w].Idle? && !p.closed && p.next < |objs|
    case StopFeed => !p.closed && (p.next == |objs| || p.cancelled || p.expired)
    case Stat(w, r) =>
      w in p.workers && p.workers[w].Checking? && p.workers[w].index < |objs|
      && (r.Same? ==> Holds(p.store, objs[p.workers[w].index]))
      && (r.Other? ==> !Holds(p.store, objs[p.workers[w].index]))
    case Put(w, _) => w in p.workers && p.workers[w].Putting? && p.workers[w].index < |objs|
    case Report(w) => w in p.workers && p.workers[w].Reporting?
    case Exit(w) => w in p.workers && p.workers[w].Idle? && p.closed
    case Expire => true
  }

  function Set(p: Pool, w: nat, k: Worker): Pool {
    p.(workers := p.workers[w := k])
  }

  function Reported(p: Pool, i: nat, verdict: Verdict): Pool {
    match verdict
    case WasUploaded => p.(uploaded := p.uploaded + 1, ok := p.ok + {i})
    case WasSkipped => p.(skipped := p.skipped + 1, ok := p.ok + {i})
    case HasFailed(code) =>
      p.(firstErr := if p.firstErr.None? then Some(code) else p.firstErr, cancelled := true, failed := p.failed + {i})
  }

  function After(objs: seq<Object>, p: Pool, step: Step): Pool
    requires Enabled(objs, p, step)
  {
    match step
    case Hand(w) => Set(p, w, Checking(p.next)).(next := p.next + 1)
    case StopFeed => p.(closed := true)
    case Stat(w, r) =>
      var i := p.workers[w].index;
      Set(p, w, match r
                case Same => Reporting(i, WasSkipped)
                case Other => Putting(i)
                case StatFails(code) => Reporting(i, HasFailed(code)))
    case Put(w, r) =>
      var i := p.workers[w].index;
      var o := objs[i];
      Set(p, w, Reporting(i, if r.NoFault? then WasUploaded else HasFailed(r.code)))
        .(store := if r.Fails? then p.store else p.store[o.key := o])
    case Report(w) => Reported(Set(p, w, Idle), p.workers[w].index, p.workers[w].verdict)
    case Exit(w) => Set(p, w, Exited)
    case Expire => p.(expired := true)
  }

  ghost predicate Run(objs: seq<Object>, p: Pool, steps: seq<Step>)
    decreases |steps|
  {
    steps == [] || (Enabled(objs, p, steps[0]) && Run(objs, After(objs, p, steps[0]), steps[1..]))
  }

  ghost function End(objs: seq<Object>, p: Pool, steps: seq<Step>): Pool
    requires Run(objs, p, steps)
    decreases |steps|
  {
    if steps == [] then p else End(objs, After(objs, p, steps[0]), steps[1..])
  }

  /** Every worker is done: the call returns. */
  ghost predicate Returned(p: Pool) {
    forall w :: w in p.workers ==> p.workers[w].Exited?
  }

  ghost predicate DistinctKeys(objs: seq<Object>) {
    forall i, j :: 0 <= i < j < |objs| ==> objs[i].key != objs[j].key
  }

  // ---- The invariant ----

  /** Every object handed out is with exactly one worker, or reported exactly once. */
  ghost predicate Conserves(objs: seq<Object>, p: Pool) {
    && p.next <= |objs|
    && (forall w :: w in p.workers && Busy(p.workers[w]) ==>
          p.workers[w].index < p.next && p.workers[w].index !in p.ok && p.workers[w].index !in p.failed)
    && (forall v, w :: v in p.workers && w in p.workers && v != w && Busy(p.workers[v]) && Busy(p.workers[w]) ==>
          p.workers[v].index != p.workers[w].index)
    && (forall i :: i in p.ok ==> i < p.next && i !in p.failed)
    && (forall i :: i in p.failed ==> i < p.next)
    && (forall i: nat :: i < p.next ==> i in p.ok || i in p.failed || WithWorker(p, i))
  }

  ghost predicate WithWorker(p: Pool, i: nat) {
    exists w :: w in p.workers && Busy(p.workers[w]) && p.workers[w].index == i
  }

  ghost predicate Counts(p: Pool) {
    && p.uploaded + p.skipped == |p.ok|
    && (p.firstErr.Some? <==> p.failed != {})
    && (p.cancelled <==> p.failed != {})
  }

  ghost predicate Feeds(objs: seq<Object>, p: Pool) {
    && p.workers.Keys != {}
    && (p.closed ==> p.next == |objs| || p.cancelled || p.expired)
    && (forall w :: w in p.workers && p.workers[w].Exited? ==> p.closed)
  }

  ghost predicate Succeeded(k: Worker) {
    k.Reporting? && !k.verdict.HasFailed?
  }

  ghost predicate Stores(objs: seq<Object>, p: Pool) {
    && (forall i :: i in p.ok && i < |objs| ==> Holds(p.store, objs[i]))
    && (forall w :: w in p.workers && Succeeded(p.workers[w]) && p.workers[w].index < |objs| ==>
          Holds(p.store, objs[p.workers[w].index]))
  }

  ghost predicate Inv(objs: seq<Object>, p: Pool) {
    Conserves(objs, p) && Counts(p) && Feeds(objs, p) && Stores(objs, p)
  }

  /** A worker that goes on with its object. */
  lemma GoingOnConserves(objs: seq<Object>, p: Pool, q: Pool, w: nat)
    requires Conserves(objs, p) && w in p.workers && Busy(p.workers[w])
    requires w in q.workers && q.workers == p.workers[w := q.workers[w]]
    requires Busy(q.workers[w]) && q.workers[w].index == p.workers[w].index
    requires q.next == p.next && q.ok == p.ok && q.failed == p.failed
    ensures Conserves(objs, q)
  {
    forall i: nat | i < q.next && WithWorker(p, i)
      ensures WithWorker(q, i)
    {
      var v :| v in p.workers && Busy(p.workers[v]) && p.workers[v].index == i;
      assert v in q.workers && Busy(q.workers[v]) && q.workers[v].index == i;
    }
  }

  lemma HandConserves(objs: seq<Object>, p: Pool, w: nat)
    requires Conserves(objs, p) && Enabled(objs, p, Hand(w))
    ensures Conserves(objs, After(objs, p, Hand(w)))
  {
    var q := After(objs, p, Hand(w));
    assert WithWorker(q, p.next) by {
      assert q.workers[w].index == p.next;
    }
    forall i: nat | i < p.next && WithWorker(p, i)
      ensures WithWorker(q, i)
    {
      var v :| v in p.workers && Busy(p.workers[v]) && p.workers[v].index == i;
      assert v in q.workers && Busy(q.workers[v]) && q.workers[v].index == i;
    }
  }

  /** A worker that is done with its object, now reported one way or the other. */
  lemma DoneConserves(objs: seq<Object>, p: Pool, q: Pool, w: nat, i: nat)
    requires Conserves(objs, p) && w in p.workers && Busy(p.workers[w]) && p.workers[w].index == i
    requires q.workers == p.workers[w := Idle] && q.next == p.next
    requires (q.ok == p.ok + {i} && q.failed == p.failed) || (q.ok == p.ok && q.failed == p.failed + {i})
    ensures Conserves(objs, q)
  {
    forall j: nat | j < p.next && j != i && WithWorker(p, j)
      ensures WithWorker(q, j)
    {
      var v :| v in p.workers && Busy(p.workers[v]) && p.workers[v].index == j;
      assert v in q.workers && Busy(q.workers[v]) && q.workers[v].index == j;
    }
  }

  lemma ReportConserves(objs: seq<Object>, p: Pool, w: nat)
    requires Conserves(objs, p) && Enabled(objs, p, Report(w))
    ensures Conserves(objs, After(objs, p, Report(w)))
  {
    DoneConserves(objs, p, After(objs, p, Report(w)), w, p.workers[w].index);
  }

  /** A worker that is not busy leaves. */
  lemma ExitConserves(objs: seq<Object>, p: Pool, w: nat)
    requires Conserves(objs, p) && Enabled(objs, p, Exit(w))
    ensures Conserves(objs, After(objs, p, Exit(w)))
  {
    var q := After(objs, p, Exit(w));
    forall i: nat | i < p.next && WithWorker(p, i)
      ensures WithWorker(q, i)
    {
      var v :| v in p.workers && Busy(p.workers[v]) && p.workers[v].index == i;
      assert v in q.workers && Busy(q.workers[v]) && q.workers[v].index == i;
    }
  }

  lemma StepConserves(objs: seq<Object>, p: Pool, step: Step)
    requires Conserves(objs, p) && Enabled(objs, p, step)
    ensures Conserves(objs, After(objs, p, step))
  {
    match step
    case Hand(w) => HandConserves(objs, p, w);
    case Stat(w, _) => GoingOnConserves(objs, p, After(objs, p, step), w);
    case Put(w, _) => GoingOnConserves(objs, p, After(objs, p, step), w);
    case Report(w) => ReportConserves(objs, p, w);
    case Exit(w) => ExitConserves(objs, p, w);
    case StopFeed => NothingMoved(objs, p, After(objs, p, step));
    case Expire => NothingMoved(objs, p, After(objs, p, step));
  }

  lemma NothingMoved(objs: seq<Object>, p: Pool, q: Pool)
    requires Conserves(objs, p) && q.workers == p.workers && q.next == p.next && q.ok == p.ok && q.failed == p.failed
    ensures Conserves(objs, q)
  {
    forall i: nat | WithWorker(p, i)
      ensures WithWorker(q, i)
    {
    }
  }

  lemma AddedSize(s: set<nat>, i: nat)
    requires i !in s
    ensures |s + {i}| == |s| + 1
  {
  }

  lemma ReportCounts(p: Pool, i: nat, verdict: Verdict)
    requires Counts(p) && i !in p.ok
    ensures Counts(Reported(p, i, verdict))
  {
    AddedSize(p.ok, i);
    if verdict.HasFailed? {
      assert i in p.failed + {i};
    }
  }

  lemma UnreportedIndex(objs: seq<Object>, p: Pool, w: nat)
    requires Conserves(objs, p) && w in p.workers && Busy(p.workers[w])
    ensures p.workers[w].index !in p.ok
  {
  }

  lemma StepCounts(objs: seq<Object>, p: Pool, step: Step)
    requires Conserves(objs, p) && Counts(p) && Enabled(objs, p, step)
    ensures Counts(After(objs, p, step))
  {
    if step.Report? {
      UnreportedIndex(objs, p, step.w);
      ReportCounts(Set(p, step.w, Idle), p.workers[step.w].index, p.workers[step.w].verdict);
    } else {
      OthersReportNothing(objs, p, step);
    }
  }

  lemma OthersReportNothing(objs: seq<Object>, p: Pool, step: Step)
    requires Enabled(objs, p, step) && !step.Report?
    ensures var q := After(objs, p, step);
            && q.ok == p.ok && q.failed == p.failed && q.uploaded == p.uploaded && q.skipped == p.skipped
            && q.firstErr == p.firstErr && q.cancelled == p.cancelled
  {
  }

  lemma StepFeeds(objs: seq<Object>, p: Pool, step: Step)
    requires Feeds(objs, p) && Enabled(objs, p, step)
    ensures Feeds(objs, After(objs, p, step))
  {
    var q := After(objs, p, step);
    var w :| w in p.workers;
    assert w in q.workers;
  }

  /** A put lands under its own key and disturbs no other object. */
  lemma PutStores(objs: seq<Object>, p: Pool, w: nat, put: Fault)
    requires DistinctKeys(objs) && Conserves(objs, p) && Stores(objs, p) && Enabled(objs, p, Put(w, put))
    ensures Stores(objs, After(objs, p, Put(w, put)))
  {
    var q := After(objs, p, Put(w, put));
    var index := p.workers[w].index;
    forall i | 0 <= i < |objs| && i != index && Holds(p.store, objs[i])
      ensures Holds(q.store, objs[i])
    {
      assert objs[i].key != objs[index].key;
    }
  }

  lemma StepStores(objs: seq<Object>, p: Pool, step: Step)
    requires DistinctKeys(objs) && Conserves(objs, p) && Stores(objs, p) && Enabled(objs, p, step)
    ensures Stores(objs, After(objs, p, step))
  {
    if step.Put? {
      PutStores(objs, p, step.w, step.put);
    } else {
      KeptStoreStores(objs, p, step);
    }
  }

  lemma KeptStoreStores(objs: seq<Object>, p: Pool, step: Step)
    requires Stores(objs, p) && Enabled(objs, p, step) && !step.Put?
    ensures Stores(objs, After(objs, p, step))
  {
    assert After(objs, p, step).store == p.store;
  }

  lemma StepKeepsInv(objs: seq<Object>, p: Pool, step: Step)
    requires DistinctKeys(objs) && Inv(objs, p) && Enabled(objs, p, step)
    ensures Inv(objs, After(objs, p, step))
  {
    assert Conserves(objs, After(objs, p, step)) by { StepConserves(objs, p, step); }
    assert Counts(After(objs, p, step)) by { StepCounts(objs, p, step); }
    assert Feeds(objs, After(objs, p, step)) by { StepFeeds(objs, p, step); }
    assert Stores(objs, After(objs, p, step)) by { StepStores(objs, p, step); }
  }

  /** The error returned is the first one reported. */
  lemma FirstErrorStays(objs: seq<Object>, p: Pool, step: Step)
    requires Enabled(objs, p, step)
    ensures p.firstErr.Some? ==> After(objs, p, step).firstErr == p.firstErr
    ensures p.firstErr.None? && After(objs, p, step).firstErr.Some? ==>
              step.Report? && p.workers[step.w].verdict == HasFailed(After(objs, p, step).firstErr.value)
  {
  }

  lemma OnlyExpireExpires(objs: seq<Object>, p: Pool, step: Step)
    requires Enabled(objs, p, step)
    ensures After(objs, p, step).expired <==> p.expired || step == Expire
  {
  }

  lemma {:induction false} RunKeepsInv(objs: seq<Object>, p: Pool, steps: seq<Step>)
    requires DistinctKeys(objs) && Inv(objs, p) && Run(objs, p, steps)
    ensures Inv(objs, End(objs, p, steps))
    ensures End(objs, p, steps).expired ==> p.expired || Expire in steps
    decreases |steps|
  {
    if steps != [] {
      StepKeepsInv(objs, p, steps[0]);
      OnlyExpireExpires(objs, p, steps[0]);
      RunKeepsInv(objs, After(objs, p, steps[0]), steps[1..]);
    }
  }

  // ---- What the call returns ----

  ghost predicate AllSucceeded(objs: seq<Object>, p: Pool) {
    forall i: nat :: i < |objs| ==> i in p.ok
  }

  lemma {:induction false} InitialSegmentSize(s: set<nat>, n: nat)
    requires forall i: nat :: i in s ==> i < n
    ensures |s| <= n
    ensures |s| == n <==> forall i: nat :: i < n ==> i in s
  {
    if n > 0 {
      InitialSegmentSize(s - {n - 1}, n - 1);
      if n - 1 !in s {
        assert s - {n - 1} == s;
      }
    } else if i :| i in s {
      assert false;
    }
  }

  /** Counts are conserved: at any return, all objects succeeded exactly when uploads and skips add up to the
      number of objects, and then every key holds its object's hash. */
  lemma CountsTellCompleteness(objs: seq<Object>, store: map<string, Object>, concurrency: int, steps: seq<Step>)
    requires DistinctKeys(objs) && Run(objs, Start(store, concurrency), steps)
    ensures var p := End(objs, Start(store, concurrency), steps);
            && p.uploaded + p.skipped <= |objs|
            && (p.uploaded + p.skipped == |objs| <==> AllSucceeded(objs, p))
            && (p.uploaded + p.skipped == |objs| ==> p.firstErr.None? && forall o :: o in objs ==> Holds(p.store, o))
  {
    StartIsFine(objs, store, concurrency);
    RunKeepsInv(objs, Start(store, concurrency), steps);
    var p := End(objs, Start(store, concurrency), steps);
    InitialSegmentSize(p.ok, |objs|);
    if AllSucceeded(objs, p) {
      assert p.failed == {};
      forall o | o in objs
        ensures Holds(p.store, o)
      {
        var i :| 0 <= i < |objs| && objs[i] == o;
      }
    }
  }

  lemma StartIsFine(objs: seq<Object>, store: map<string, Object>, concurrency: int)
    ensures Inv(objs, Start(store, concurrency))
  {
    assert 0 in Start(store, concurrency).workers;
  }

  /** Without an expiring caller context the call returns nil exactly when every object succeeded; uploads and
      skips then add up to the object count, and each key holds its object's hash. */
  lemma NilMeansAllStored(objs: seq<Object>, store: map<string, Object>, concurrency: int, steps: seq<Step>)
    requires DistinctKeys(objs) && Run(objs, Start(store, concurrency), steps) && Expire !in steps
    requires Returned(End(objs, Start(store, concurrency), steps))
    ensures var p := End(objs, Start(store, concurrency), steps);
            && (p.firstErr.None? <==> AllSucceeded(objs, p))
            && (p.firstErr.None? ==> p.uploaded + p.skipped == |objs| && forall o :: o in objs ==> Holds(p.store, o))
  {
    StartIsFine(objs, store, concurrency);
    RunKeepsInv(objs, Start(store, concurrency), steps);
    CountsTellCompleteness(objs, store, concurrency, steps);
    var p := End(objs, Start(store, concurrency), steps);
    var w :| w in p.workers;
    assert p.workers[w].Exited? && p.closed;
    if p.firstErr.None? {
      assert p.next == |objs|;
    }
  }

  /** In any run, expiring or not, a nil return is complete exactly when the feeder got through. */
  lemma NilIsCompleteIffAllHandedOut(objs: seq<Object>, store: map<string, Object>, concurrency: int, steps: seq<Step>)
    requires DistinctKeys(objs) && Run(objs, Start(store, concurrency), steps)
    requires Returned(End(objs, Start(store, concurrency), steps))
    requires End(objs, Start(store, concurrency), steps).firstErr.None?
    ensures var p := End(objs, Start(store, concurrency), steps); AllSucceeded(objs, p) <==> p.next == |objs|
  {
    StartIsFine(objs, store, concurrency);
    RunKeepsInv(objs, Start(store, concurrency), steps);
    var p := End(objs, Start(store, concurrency), steps);
    if AllSucceeded(objs, p) && |objs| > 0 {
      assert |objs| - 1 in p.ok;
    }
  }

  /** The workers n-1, ..., 0 leave. */
  function Exits(n: nat): seq<Step> {
    if n == 0 then [] else [Exit(n - 1)] + Exits(n - 1)
  }

  lemma {:induction false} ExitsRun(objs: seq<Object>, p: Pool, n: nat)
    requires p.closed
    requires forall w :: w in p.workers ==> if w < n then p.workers[w].Idle? else p.workers[w].Exited?
    requires forall w: nat :: w < n ==> w in p.workers
    ensures Run(objs, p, Exits(n))
    ensures var q := End(objs, p, Exits(n)); Returned(q) && q == p.(workers := q.workers)
    decreases n
  {
    if n > 0 {
      assert Exits(n)[1..] == Exits(n - 1);
      ExitsRun(objs, After(objs, p, Exit(n - 1)), n - 1);
    }
  }

  /** The caller's context expires before anything is handed out. */
  function ExpiringSteps(concurrency: int): seq<Step> {
    [Expire] + ([StopFeed] + Exits(PoolSize(concurrency)))
  }

  /** With an expiring context nil can come back with nothing done: whatever there is to upload, whatever
      is stored, however many workers, the feeder stops and no worker sees an error. */
  lemma ExpiryCanReturnNilIncomplete(objs: seq<Object>, store: map<string, Object>, concurrency: int)
    requires objs != []
    ensures var steps := ExpiringSteps(concurrency);
            Run(objs, Start(store, concurrency), steps) &&
            var p := End(objs, Start(store, concurrency), steps);
            && Returned(p) && p.firstErr.None? && !AllSucceeded(objs, p) && p.ok == {} && p.store == store
  {
    var p0 := Start(store, concurrency);
    var p1 := After(objs, p0, Expire);
    var p2 := After(objs, p1, StopFeed);
    var exits := Exits(PoolSize(concurrency));
    ExitsRun(objs, p2, PoolSize(concurrency));
    assert ([StopFeed] + exits)[1..] == exits;
    assert Run(objs, p1, [StopFeed] + exits) && End(objs, p1, [StopFeed] + exits) == End(objs, p2, exits);
    assert ExpiringSteps(concurrency)[1..] == [StopFeed] + exits;
    assert 0 !in End(objs, p0, ExpiringSteps(concurrency)).ok;
  }

  /** A nil return means every object is stored, in every run such a caller can see. */
  ghost predicate NilIsReliable(objs: seq<Object>, store: map<string, Object>, concurrency: int, mayExpire: bool) {
    forall steps :: ReturnsNil(objs, store, concurrency, steps) && (mayExpire || Expire !in steps) ==>
      AllSucceeded(objs, End(objs, Start(store, concurrency), steps))
  }

  ghost predicate ReturnsNil(objs: seq<Object>, store: map<string, Object>, concurrency: int, steps: seq<Step>) {
    && Run(objs, Start(store, concurrency), steps) && Returned(End(objs, Start(store, concurrency), steps))
    && End(objs, Start(store, concurrency), steps).firstErr.None?
  }

  /** The exact condition, known before the call: nil can be trusted iff the caller's context cannot expire or
      there is nothing to upload. */
  lemma NilIsReliableIff(objs: seq<Object>, store: map<string, Object>, concurrency: int, mayExpire: bool)
    requires DistinctKeys(objs)
    ensures NilIsReliable(objs, store, concurrency, mayExpire) <==> !mayExpire || objs == []
  {
    if !mayExpire {
      forall steps | ReturnsNil(objs, store, concurrency, steps) && Expire !in steps
        ensures AllSucceeded(objs, End(objs, Start(store, concurrency), steps))
      {
        NilMeansAllStored(objs, store, concurrency, steps);
      }
    } else if objs != [] {
      ExpiryCanReturnNilIncomplete(objs, store, concurrency);
      assert ReturnsNil(objs, store, concurrency, ExpiringSteps(concurrency));
    }
  }

  // ---- The second call ----

  ghost predicate OnlySkips(objs: seq<Object>, store: map<string, Object>, p: Pool) {
    && p.store == store && p.uploaded == 0
    && (forall w :: w in p.workers ==> !p.workers[w].Putting?)
    && (forall w :: w in p.workers && p.workers[w].Reporting? ==> !p.workers[w].verdict.WasUploaded?)
  }

  lemma {:induction false} RunOnlySkips(objs: seq<Object>, store: map<string, Object>, p: Pool, steps: seq<Step>)
    requires (forall o :: o in objs ==> Holds(store, o)) && OnlySkips(objs, store, p) && Run(objs, p, steps)
    ensures OnlySkips(objs, store, End(objs, p, steps))
    decreases |steps|
  {
    if steps != [] {
      RunOnlySkips(objs, store, After(objs, p, steps[0]), steps[1..]);
    }
  }

  /** A second call on the unchanged store writes nothing, uploads nothing and, when it returns nil, skips
      everything. */
  lemma SecondCallSkipsEverything(objs: seq<Object>, store: map<string, Object>, first: seq<Step>, concurrency: int,
                                  again: seq<Step>, concurrency': int)
    requires DistinctKeys(objs) && Run(objs, Start(store, concurrency), first) && Expire !in first
    requires var p := End(objs, Start(store, concurrency), first); Returned(p) && p.firstErr.None?
    requires Run(objs, Start(End(objs, Start(store, concurrency), first).store, concurrency'), again)
    ensures var kept := End(objs, Start(store, concurrency), first).store;
            var q := End(objs, Start(kept, concurrency'), again);
            && q.store == kept && q.uploaded == 0
            && (Returned(q) && Expire !in again && q.firstErr.None? ==> q.skipped == |objs|)
  {
    NilMeansAllStored(objs, store, concurrency, first);
    var kept := End(objs, Start(store, concurrency), first).store;
    RunOnlySkips(objs, kept, Start(kept, concurrency'), again);
    var q := End(objs, Start(kept, concurrency'), again);
    if Returned(q) && Expire !in again && q.firstErr.None? {
      NilMeansAllStored(objs, kept, concurrency', again);
    }
  }
}
