/** The upload pool seen from the protocol: whatever the pool's workers do until the call returns, answering for
    the objects one at a time does the same to the store and sends the handler the same way. */
module PoolAnswers {
  import opened Wrappers
  import opened ErrClass
  import opened Deployment
  import opened Types
  import opened Protocol
  import opened Machine
  import opened Scripts
  import UploadPool

  // ---- Stores with some of the objects put ----

  /** The store after the objects at the indices `put` have been written. */
  function Overlay(store: map<string, Object>, objs: seq<Object>, put: set<nat>): map<string, Object> {
    if objs == [] then store
    else
      var n := |objs| - 1;
      var rest := Overlay(store, objs[..n], put);
      if n in put then rest[objs[n].key := objs[n]] else rest
  }

  ghost predicate IsPut(objs: seq<Object>, put: set<nat>, key: string) {
    exists i: nat :: i in put && i < |objs| && objs[i].key == key
  }

  /** What such a store holds, key by key. */
  lemma {:induction false} OverlayHolds(store: map<string, Object>, objs: seq<Object>, put: set<nat>)
    requires UploadPool.DistinctKeys(objs)
    ensures var m := Overlay(store, objs, put);
            && (forall i: nat :: i in put && i < |objs| ==> objs[i].key in m && m[objs[i].key] == objs[i])
            && (forall key :: !IsPut(objs, put, key) ==>
                  (key in m <==> key in store) && (key in store ==> m[key] == store[key]))
  {
    if objs != [] {
      var n := |objs| - 1;
      var m := Overlay(store, objs, put);
      OverlayHolds(store, objs[..n], put);
      forall i: nat | i in put && i < |objs|
        ensures objs[i].key in m && m[objs[i].key] == objs[i]
      {
        if i < n {
          assert objs[..n][i] == objs[i] && objs[i].key != objs[n].key;
        }
      }
      forall key | !IsPut(objs, put, key)
        ensures (key in m <==> key in store) && (key in store ==> m[key] == store[key])
      {
        assert !IsPut(objs[..n], put, key);
      }
    }
  }

  lemma SameOverlay(store: map<string, Object>, objs: seq<Object>, put: set<nat>, i: nat)
    requires UploadPool.DistinctKeys(objs) && i < |objs|
    ensures Overlay(store, objs, put + {i}) == Overlay(store, objs, put)[objs[i].key := objs[i]]
  {
    var more, less := Overlay(store, objs, put + {i}), Overlay(store, objs, put);
    OverlayHolds(store, objs, put);
    OverlayHolds(store, objs, put + {i});
    forall key | key != objs[i].key
      ensures (key in more <==> key in less) && (key in less ==> more[key] == less[key])
    {
      if IsPut(objs, put, key) {
        var j: nat :| j in put && j < |objs| && objs[j].key == key;
        assert j in put + {i};
      }
    }
    assert i in put + {i};
  }

  // ---- What the pool leaves behind ----

  /** The pool has written some of the objects it has handed out, and nothing else. */
  ghost predicate Wrote(store: map<string, Object>, objs: seq<Object>, p: UploadPool.Pool, put: set<nat>) {
    p.store == Overlay(store, objs, put) && forall i :: i in put ==> i < p.next
  }

  lemma KeepsWriting(objs: seq<Object>, p: UploadPool.Pool, step: UploadPool.Step)
    requires UploadPool.Enabled(objs, p, step) && !step.Put?
    ensures UploadPool.After(objs, p, step).store == p.store && p.next <= UploadPool.After(objs, p, step).next
  {
  }

  lemma StepWrites(store: map<string, Object>, objs: seq<Object>, p: UploadPool.Pool, step: UploadPool.Step,
                   put: set<nat>) returns (put': set<nat>)
    requires UploadPool.DistinctKeys(objs) && UploadPool.Inv(objs, p) && UploadPool.Enabled(objs, p, step)
    requires Wrote(store, objs, p, put)
    ensures Wrote(store, objs, UploadPool.After(objs, p, step), put')
  {
    put' := put;
    if step.Put? {
      if !step.put.Fails? {
        var i := p.workers[step.w].index;
        SameOverlay(store, objs, put, i);
        put' := put + {i};
      }
    } else {
      KeepsWriting(objs, p, step);
    }
  }

  lemma {:induction false} RunWrites(store: map<string, Object>, objs: seq<Object>, p: UploadPool.Pool,
                                     steps: seq<UploadPool.Step>, put: set<nat>) returns (put': set<nat>)
    requires UploadPool.DistinctKeys(objs) && UploadPool.Inv(objs, p) && UploadPool.Run(objs, p, steps)
    requires Wrote(store, objs, p, put)
    ensures Wrote(store, objs, UploadPool.End(objs, p, steps), put')
    decreases |steps|
  {
    put' := put;
    if steps != [] {
      var more := StepWrites(store, objs, p, steps[0], put);
      UploadPool.StepKeepsInv(objs, p, steps[0]);
      put' := RunWrites(store, objs, UploadPool.After(objs, p, steps[0]), steps[1..], more);
    }
  }

  // ---- One answer at a time ----

  datatype Upload = Upload(rec: Record, files: seq<File>, objs: seq<Object>) {
    function Left(answered: set<nat>, n: nat): set<nat> {
      set i | i in Indices(|objs|) && !(i < n && i in answered)
    }
  }

  /** Only the store has changed, and where the handler stands. */
  ghost predicate DoesTheSame(s: Sys, t: Sys, h: nat, job: Job, next: Pc, store: map<string, Object>) {
    t == s.(w := s.w.(store := store), handlers := s.handlers[h := Handler(job, next)])
  }

  lemma SameAgain(s: Sys, t: Sys, v: Sys, h: nat, job: Job, pc: Pc, store: map<string, Object>, next: Pc,
                  store': map<string, Object>)
    requires DoesTheSame(s, t, h, job, pc, store) && DoesTheSame(t, v, h, job, next, store')
    ensures DoesTheSame(s, v, h, job, next, store')
  {
    assert v.handlers == s.handlers[h := Handler(job, next)];
  }

  lemma StillHeld(store: map<string, Object>, objs: seq<Object>, put: set<nat>, k: nat)
    requires UploadPool.DistinctKeys(objs) && k < |objs| && UploadPool.Holds(store, objs[k])
    ensures UploadPool.Holds(Overlay(store, objs[..k], put), objs[k])
  {
    OverlayHolds(store, objs[..k], put);
    assert !IsPut(objs[..k], put, objs[k].key);
  }

  /** The object at `k` is answered for if it is to be. */
  lemma AnswersTo(x: Rules, s: Sys, t: Sys, h: nat, job: Job, u: Upload, answered: set<nat>, put: set<nat>, k: nat)
    returns (v: Sys)
    requires UploadPool.DistinctKeys(u.objs) && k < |u.objs| && put <= answered
    requires k in answered - put ==> UploadPool.Holds(s.w.store, u.objs[k])
    requires Reaches(x, s, t) && t.w.store == Overlay(s.w.store, u.objs[..k], put)
    requires Stands(t, h, job, UploadPc(x.c, job, u.rec, u.files, u.objs, u.Left(answered, k)))
    ensures Reaches(x, s, v)
    ensures DoesTheSame(t, v, h, job, UploadPc(x.c, job, u.rec, u.files, u.objs, u.Left(answered, k + 1)),
                        Overlay(s.w.store, u.objs[..k + 1], put))
  {
    if k in answered {
      v := AnswersNext(x, s, t, h, job, u, answered, put, k);
    } else {
      v := t;
      assert u.Left(answered, k + 1) == u.Left(answered, k);
      assert u.objs[..k + 1][..k] == u.objs[..k];
      assert t.handlers[h := t.handlers[h]] == t.handlers;
    }
  }

  lemma OneMoreAnswered(u: Upload, answered: set<nat>, k: nat)
    requires k < |u.objs| && k in answered
    ensures k in u.Left(answered, k) && u.Left(answered, k) - {k} == u.Left(answered, k + 1)
  {
  }

  lemma AnswersNext(x: Rules, s: Sys, t: Sys, h: nat, job: Job, u: Upload, answered: set<nat>, put: set<nat>, k: nat)
    returns (v: Sys)
    requires UploadPool.DistinctKeys(u.objs) && k < |u.objs| && k in answered
    requires k !in put ==> UploadPool.Holds(s.w.store, u.objs[k])
    requires Reaches(x, s, t) && t.w.store == Overlay(s.w.store, u.objs[..k], put)
    requires Stands(t, h, job, UploadPc(x.c, job, u.rec, u.files, u.objs, u.Left(answered, k)))
    ensures Reaches(x, s, v)
    ensures DoesTheSame(t, v, h, job, UploadPc(x.c, job, u.rec, u.files, u.objs, u.Left(answered, k + 1)),
                        Overlay(s.w.store, u.objs[..k + 1], put))
  {
    OneMoreAnswered(u, answered, k);
    assert u.objs[..k + 1][..k] == u.objs[..k];
    if k !in put {
      StillHeld(s.w.store, u.objs, put, k);
    }
    v := Answer(x, s, t, h, job, Uploading(u.rec, u.files, u.objs, u.Left(answered, k)),
                if k in put then Uploaded(k) else Skipped(k));
  }

  /** Any of the objects can be answered for in order: written ones as uploaded, the others, held before, as
      skipped. */
  lemma {:induction false} Answers(x: Rules, s: Sys, h: nat, job: Job, u: Upload, answered: set<nat>, put: set<nat>,
                                   n: nat) returns (t: Sys)
    requires UploadPool.DistinctKeys(u.objs) && n <= |u.objs| && put <= answered
    requires Stands(s, h, job, UploadPc(x.c, job, u.rec, u.files, u.objs, Indices(|u.objs|)))
    requires forall i: nat :: i in answered - put && i < n ==> UploadPool.Holds(s.w.store, u.objs[i])
    ensures Reaches(x, s, t)
    ensures DoesTheSame(s, t, h, job, UploadPc(x.c, job, u.rec, u.files, u.objs, u.Left(answered, n)),
                        Overlay(s.w.store, u.objs[..n], put))
    decreases n
  {
    if n == 0 {
      Here(x, s);
      t := s;
      assert u.Left(answered, 0) == Indices(|u.objs|);
      assert s.handlers[h := s.handlers[h]] == s.handlers;
    } else {
      var k: nat := n - 1;
      var t1 := Answers(x, s, h, job, u, answered, put, k);
      t := AnswersTo(x, s, t1, h, job, u, answered, put, k);
      SameAgain(s, t1, t, h, job, UploadPc(x.c, job, u.rec, u.files, u.objs, u.Left(answered, k)), t1.w.store,
                UploadPc(x.c, job, u.rec, u.files, u.objs, u.Left(answered, n)), t.w.store);
    }
  }

  // ---- The call as a whole ----

  /** Where the protocol goes on after the pool's call. */
  function Result(c: Config, job: Job, u: Upload, p: UploadPool.Pool): Pc {
    match p.firstErr
    case None => ManifestPc(c, job, u.rec, u.files)
    case Some(code) => FailPc(c, job, Some(u.rec), code)
  }

  /** What is known of a pool that has returned. */
  lemma AtReturn(store: map<string, Object>, objs: seq<Object>, concurrency: int, steps: seq<UploadPool.Step>)
    returns (put: set<nat>)
    requires UploadPool.DistinctKeys(objs) && UploadPool.Run(objs, UploadPool.Start(store, concurrency), steps)
    requires UploadPool.Returned(UploadPool.End(objs, UploadPool.Start(store, concurrency), steps))
    ensures var p := UploadPool.End(objs, UploadPool.Start(store, concurrency), steps);
            && p.store == Overlay(store, objs, put) && put <= p.ok + p.failed
            && (forall i: nat :: i in p.ok + p.failed ==> i < |objs|)
            && (p.firstErr.Some? <==> p.failed != {}) && p.ok !! p.failed
            && (p.firstErr.None? && UploadPool.Expire !in steps ==> UploadPool.AllSucceeded(objs, p))
            && forall i: nat :: i in p.ok - put ==> UploadPool.Holds(store, objs[i])
  {
    var start := UploadPool.Start(store, concurrency);
    var p := UploadPool.End(objs, start, steps);
    UploadPool.StartIsFine(objs, store, concurrency);
    UploadPool.RunKeepsInv(objs, start, steps);
    NothingPut(store, objs);
    put := RunWrites(store, objs, start, steps, {});
    forall i: nat | i < p.next
      ensures i in p.ok || i in p.failed
    {
      assert !UploadPool.WithWorker(p, i);
    }
    var w :| w in p.workers;
    assert p.closed;
    forall i: nat | i in p.ok - put
      ensures UploadPool.Holds(store, objs[i])
    {
      HeldBefore(store, objs, put, i);
    }
  }

  lemma {:induction false} NothingPut(store: map<string, Object>, objs: seq<Object>)
    ensures Overlay(store, objs, {}) == store
  {
    if objs != [] {
      NothingPut(store, objs[..|objs| - 1]);
    }
  }

  lemma HeldBefore(store: map<string, Object>, objs: seq<Object>, put: set<nat>, i: nat)
    requires UploadPool.DistinctKeys(objs) && i < |objs| && i !in put
    requires UploadPool.Holds(Overlay(store, objs, put), objs[i])
    ensures UploadPool.Holds(store, objs[i])
  {
    OverlayHolds(store, objs, put);
    assert !IsPut(objs, put, objs[i].key);
  }

  /** The pool returned nil: every object was answered for, or the context expired. */
  lemma NilAnswers(x: Rules, s: Sys, h: nat, job: Job, u: Upload, ok: set<nat>, put: set<nat>) returns (t: Sys)
    requires UploadPool.DistinctKeys(u.objs) && put <= ok
    requires Stands(s, h, job, UploadPc(x.c, job, u.rec, u.files, u.objs, Indices(|u.objs|)))
    requires forall i: nat :: i in ok ==> i < |u.objs|
    requires forall i: nat :: i in ok - put ==> UploadPool.Holds(s.w.store, u.objs[i])
    requires x.noExpiry ==> forall i: nat :: i < |u.objs| ==> i in ok
    ensures Reaches(x, s, t)
    ensures DoesTheSame(s, t, h, job, ManifestPc(x.c, job, u.rec, u.files), Overlay(s.w.store, u.objs, put))
  {
    t := Answers(x, s, h, job, u, ok, put, |u.objs|);
    assert u.objs[..|u.objs|] == u.objs;
    var left := u.Left(ok, |u.objs|);
    if left != {} {
      var t1 := Answer(x, s, t, h, job, Uploading(u.rec, u.files, u.objs, left), Expired);
      SameAgain(s, t, t1, h, job, Uploading(u.rec, u.files, u.objs, left), t.w.store, t1.handlers[h].pc, t1.w.store);
      t := t1;
    }
  }

  /** The pool returned an error: all that took effect is answered for, one failed object last. */
  lemma ErrorAnswers(x: Rules, s: Sys, h: nat, job: Job, u: Upload, ok: set<nat>, put: set<nat>, k: nat, code: Code)
    returns (t: Sys)
    requires UploadPool.DistinctKeys(u.objs) && k < |u.objs| && k !in ok
    requires Stands(s, h, job, UploadPc(x.c, job, u.rec, u.files, u.objs, Indices(|u.objs|)))
    requires forall i: nat :: i in ok - put && i < |u.objs| ==> UploadPool.Holds(s.w.store, u.objs[i])
    ensures Reaches(x, s, t)
    ensures DoesTheSame(s, t, h, job, FailPc(x.c, job, Some(u.rec), code), Overlay(s.w.store, u.objs, put))
  {
    var done := put - {k};
    var t1 := Answers(x, s, h, job, u, ok + done, done, |u.objs|);
    assert u.objs[..|u.objs|] == u.objs;
    var left := u.Left(ok + done, |u.objs|);
    assert k in left;
    if k in put {
      SameOverlay(s.w.store, u.objs, done, k);
      assert done + {k} == put;
    } else {
      assert done == put;
    }
    t := LastFails(x, s, t1, h, job, u, left, k, k in put, code);
    SameAgain(s, t1, t, h, job, Uploading(u.rec, u.files, u.objs, left), t1.w.store,
              FailPc(x.c, job, Some(u.rec), code), t.w.store);
  }

  /** The last object heard about fails, having been written or not. */
  lemma LastFails(x: Rules, s: Sys, t: Sys, h: nat, job: Job, u: Upload, left: set<nat>, k: nat, written: bool,
                  code: Code) returns (v: Sys)
    requires Reaches(x, s, t) && k < |u.objs| && k in left
    requires Stands(t, h, job, Uploading(u.rec, u.files, u.objs, left))
    ensures Reaches(x, s, v)
    ensures DoesTheSame(t, v, h, job, FailPc(x.c, job, Some(u.rec), code),
                        if written then t.w.store[u.objs[k].key := u.objs[k]] else t.w.store)
  {
    v := Answer(x, s, t, h, job, Uploading(u.rec, u.files, u.objs, left),
                if written then UploadLost(k, code) else Err(code));
  }

  /** The pool refines the protocol's upload: for every run of the pool that returns, in every interleaving of its
      workers and with lost replies and expiry anywhere, a handler that hears about the objects one at a time leaves
      the same store and goes on to the same place: to the manifest on nil, to the failure of the pool's error
      otherwise. It need not hear of an expiry unless there was one. */
  lemma PoolRefinesUploading(x: Rules, s: Sys, h: nat, job: Job, u: Upload, concurrency: int,
                             steps: seq<UploadPool.Step>) returns (t: Sys)
    requires UploadPool.DistinctKeys(u.objs)
    requires Stands(s, h, job, UploadPc(x.c, job, u.rec, u.files, u.objs, Indices(|u.objs|)))
    requires UploadPool.Run(u.objs, UploadPool.Start(s.w.store, concurrency), steps)
    requires x.noExpiry ==> UploadPool.Expire !in steps
    requires UploadPool.Returned(UploadPool.End(u.objs, UploadPool.Start(s.w.store, concurrency), steps))
    ensures Reaches(x, s, t)
    ensures var p := UploadPool.End(u.objs, UploadPool.Start(s.w.store, concurrency), steps);
            DoesTheSame(s, t, h, job, Result(x.c, job, u, p), p.store)
  {
    var p := UploadPool.End(u.objs, UploadPool.Start(s.w.store, concurrency), steps);
    var put := AtReturn(s.w.store, u.objs, concurrency, steps);
    if p.firstErr.None? {
      t := NilAnswers(x, s, h, job, u, p.ok, put);
    } else {
      var k :| k in p.failed;
      t := ErrorAnswers(x, s, h, job, u, p.ok, put, k, p.firstErr.value);
    }
  }
}
