/** The dispatchers of the step machine: each moves exactly as a pass does, in every interleaving, and a pass
    nobody disturbs is a run whose effect on the stores is computed here. */
module DispatcherRuns {
  import opened Wrappers
  import opened Types
  import opened Retry
  import opened Protocol
  import opened Machine
  import D = Dispatcher

  // ---- Every dispatcher is a pass ----

  function Looked(hash: map<string, Envelope>, ids: seq<string>): (found: seq<Option<Envelope>>)
    ensures |found| == |ids|
  {
    if ids == [] then [] else [if ids[0] in hash then Some(hash[ids[0]]) else None] + Looked(hash, ids[1..])
  }

  lemma {:induction false} LookedSplits(hash: map<string, Envelope>, ids: seq<string>)
    ensures D.Missing(ids, Looked(hash, ids)) == Orphans(hash, ids)
    ensures D.Present(Looked(hash, ids)) == FoundOf(hash, ids)
  {
    if ids != [] {
      LookedSplits(hash, ids[1..]);
    }
  }

  function StageOf(d: Machine.Dispatcher): D.Stage {
    match d
    case Reading(ids) => D.Stage.Reading(ids)
    case Dropping(orphans, batch) => D.Stage.Dropping(orphans, batch)
    case Publishing(batch) => D.Stage.Publishing(batch)
    case Removing(env, rest, _) => D.Stage.Removing(env, rest)
  }

  /** What a dispatcher of the step machine hears in an action of its own. */
  function Heard(s: Sys, a: Action): D.Answer
    requires a.DispatchFetch? ==> a.d in s.dispatchers && s.dispatchers[a.d].Reading?
  {
    match a
    case DispatchFetch(d) => D.Payloads(Looked(s.w.hash, s.dispatchers[d].ids))
    case DispatchPublish(_, r) => if r.Ok? then D.Appended else D.Failed
    case DispatchDrop(_, done) => if done then D.Answered else D.Failed
    case DispatchRemove(_, r) => if r.Ok? then D.Answered else D.Failed
    case _ => D.Failed
  }

  /** In every interleaving the step machine moves a dispatcher exactly as a pass moves on what it hears. */
  lemma MachineFollowsPass(c: Config, s: Sys, a: Action)
    requires Enabled(c, s, a) && (a.DispatchFetch? || a.DispatchDrop? || a.DispatchPublish? || a.DispatchRemove?)
    ensures var stage := StageOf(s.dispatchers[a.d]);
            && D.Asks(stage) && D.Suits(D.CallOf(stage), Heard(s, a)) && a.d in After(c, s, a).dispatchers
            && StageOf(After(c, s, a).dispatchers[a.d]) == D.Next(stage, Heard(s, a))
  {
    if a.DispatchFetch? {
      LookedSplits(s.w.hash, s.dispatchers[a.d].ids);
    }
  }

  // ---- A pass nobody disturbs ----

  predicate CallReply(r: Reply) {
    r.Ok? || r.Err? || r.Lost?
  }

  /** The actions that try to take the orphans out of the index, one by one. */
  function Drops(d: nat, done: seq<bool>): seq<Action> {
    if done == [] then [] else [DispatchDrop(d, done[0])] + Drops(d, done[1..])
  }

  /** The index without the orphans whose drop got through. */
  function AfterDrops(zset: map<string, int>, orphans: seq<string>, done: seq<bool>): map<string, int>
    requires |orphans| == |done|
  {
    if orphans == [] then zset else AfterDrops(if done[0] then zset - {orphans[0]} else zset, orphans[1..], done[1..])
  }

  lemma {:induction false} DropsRun(c: Config, s: Sys, d: nat, orphans: seq<string>, done: seq<bool>,
                                    batch: seq<Envelope>)
    requires d in s.dispatchers && s.dispatchers[d] == BatchPc(orphans, batch) && |orphans| == |done|
    ensures Run(c, s, Drops(d, done))
    ensures var t := End(c, s, Drops(d, done));
            && t.w == s.w.(zset := AfterDrops(s.w.zset, orphans, done))
            && t.dispatchers == s.dispatchers[d := Publishing(batch)]
    decreases |orphans|
  {
    if orphans == [] {
      assert s.dispatchers[d := Publishing(batch)] == s.dispatchers;
    } else {
      var next := After(c, s, DispatchDrop(d, done[0]));
      DropsRun(c, next, d, orphans[1..], done[1..], batch);
      assert Drops(d, done)[1..] == Drops(d, done[1..]);
    }
  }

  /** Reading the index and the payloads, then dropping the orphans. */
  function LookupActions(d: nat, ids: seq<string>, done: seq<bool>): seq<Action> {
    [DispatchRead(d, ids), DispatchFetch(d)] + Drops(d, done)
  }

  lemma ReadsRun(c: Config, s: Sys, d: nat, ids: seq<string>)
    requires d !in s.dispatchers && Distinct(ids) && forall id :: id in ids ==> id in s.w.zset
    ensures Run(c, s, [DispatchRead(d, ids), DispatchFetch(d)])
    ensures End(c, s, [DispatchRead(d, ids), DispatchFetch(d)])
              == s.(dispatchers := s.dispatchers[d := BatchPc(Orphans(s.w.hash, ids), FoundOf(s.w.hash, ids))])
  {
    var next := BatchPc(Orphans(s.w.hash, ids), FoundOf(s.w.hash, ids));
    Run2(c, s, DispatchRead(d, ids), DispatchFetch(d));
    assert s.dispatchers[d := Reading(ids)][d := next] == s.dispatchers[d := next];
  }

  lemma LookupRuns(c: Config, s: Sys, d: nat, ids: seq<string>, done: seq<bool>)
    requires d !in s.dispatchers && Distinct(ids) && forall id :: id in ids ==> id in s.w.zset
    requires |done| == |Orphans(s.w.hash, ids)|
    ensures Run(c, s, LookupActions(d, ids, done))
    ensures var t := End(c, s, LookupActions(d, ids, done));
            && t.w == s.w.(zset := AfterDrops(s.w.zset, Orphans(s.w.hash, ids), done))
            && t.dispatchers == s.dispatchers[d := Publishing(FoundOf(s.w.hash, ids))]
  {
    ReadsRun(c, s, d, ids);
    DropsFollow(c, s, [DispatchRead(d, ids), DispatchFetch(d)], d, Orphans(s.w.hash, ids), done,
                FoundOf(s.w.hash, ids));
  }

  /** The drops as a continuation of a run. */
  lemma DropsFollow(c: Config, s: Sys, actions: seq<Action>, d: nat, orphans: seq<string>, done: seq<bool>,
                    batch: seq<Envelope>)
    requires Run(c, s, actions) && |orphans| == |done|
    requires End(c, s, actions) == s.(dispatchers := s.dispatchers[d := BatchPc(orphans, batch)])
    ensures Run(c, s, actions + Drops(d, done))
    ensures var t := End(c, s, actions + Drops(d, done));
            && t.w == s.w.(zset := AfterDrops(s.w.zset, orphans, done))
            && t.dispatchers == s.dispatchers[d := Publishing(batch)]
  {
    DropsRun(c, End(c, s, actions), d, orphans, done, batch);
    RunConcat(c, s, actions, Drops(d, done));
    assert s.dispatchers[d := BatchPc(orphans, batch)][d := Publishing(batch)]
           == s.dispatchers[d := Publishing(batch)];
  }

  /** What one envelope's turn does: published unless the publish failed; removed only once published, and
      then only if the removal got through. */
  function Turn(w: World, env: Envelope, publish: Reply, remove: Reply): World {
    w.(log := if Effective(publish) then w.log + [Entry(env.payload, env.attempt)] else w.log,
       hash := if publish.Ok? && Effective(remove) then w.hash - {env.id} else w.hash,
       zset := if publish.Ok? && Effective(remove) then w.zset - {env.id} else w.zset)
  }

  function TurnActions(d: nat, publish: Reply, remove: Reply): seq<Action> {
    [DispatchPublish(d, publish)] + if publish.Ok? then [DispatchRemove(d, remove)] else []
  }

  lemma TurnRuns(c: Config, s: Sys, d: nat, publish: Reply, remove: Reply)
    requires d in s.dispatchers && s.dispatchers[d].Publishing? && s.dispatchers[d].batch != []
    requires CallReply(publish) && CallReply(remove)
    ensures Run(c, s, TurnActions(d, publish, remove))
    ensures var t := End(c, s, TurnActions(d, publish, remove));
            && t.w == Turn(s.w, s.dispatchers[d].batch[0], publish, remove)
            && t.dispatchers == s.dispatchers[d := Publishing(s.dispatchers[d].batch[1..])]
  {
    var env, rest := s.dispatchers[d].batch[0], s.dispatchers[d].batch[1..];
    var a := DispatchPublish(d, publish);
    assert Run(c, s, []);
    assert [] + [a] == [a];
    RunExtends(c, s, [], a);
    if publish.Ok? {
      RunExtends(c, s, [a], DispatchRemove(d, remove));
      assert s.dispatchers[d := Removing(env, rest, |s.w.log|)][d := Publishing(rest)]
             == s.dispatchers[d := Publishing(rest)];
    } else {
      assert TurnActions(d, publish, remove) == [a];
    }
  }

  /** The turns of the found envelopes, in order. */
  function Turns(w: World, envs: seq<Envelope>, publish: nat -> Reply, remove: nat -> Reply): World {
    if envs == [] then w
    else
      var n := |envs| - 1;
      Turn(Turns(w, envs[..n], publish, remove), envs[n], publish(n), remove(n))
  }

  /** The actions lead to this world, with the envelopes from `i` on still to come. */
  ghost predicate TurnsDone(c: Config, s: Sys, actions: seq<Action>, d: nat, envs: seq<Envelope>, i: nat, w: World)
    requires i <= |envs|
  {
    && Run(c, s, actions) && End(c, s, actions).w == w
    && End(c, s, actions).dispatchers == s.dispatchers[d := Publishing(envs[i..])]
  }

  /** The turn as a continuation of a run. */
  lemma TurnContinues(c: Config, s: Sys, actions: seq<Action>, d: nat, envs: seq<Envelope>, i: nat, w: World,
                      publish: Reply, remove: Reply)
    requires i < |envs| && CallReply(publish) && CallReply(remove)
    requires TurnsDone(c, s, actions, d, envs, i, w)
    ensures TurnsDone(c, s, actions + TurnActions(d, publish, remove), d, envs, i + 1,
                      Turn(w, envs[i], publish, remove))
  {
    TurnRuns(c, End(c, s, actions), d, publish, remove);
    RunConcat(c, s, actions, TurnActions(d, publish, remove));
    assert envs[i..][1..] == envs[i + 1..];
    assert s.dispatchers[d := Publishing(envs[i..])][d := Publishing(envs[i + 1..])]
           == s.dispatchers[d := Publishing(envs[i + 1..])];
  }

  lemma NextTurn(w: World, envs: seq<Envelope>, i: nat, publish: nat -> Reply, remove: nat -> Reply)
    requires i < |envs|
    ensures Turns(w, envs[..i + 1], publish, remove)
              == Turn(Turns(w, envs[..i], publish, remove), envs[i], publish(i), remove(i))
  {
    assert envs[..i + 1][..i] == envs[..i];
  }

  function TurnsActions(d: nat, n: nat, publish: nat -> Reply, remove: nat -> Reply): seq<Action> {
    if n == 0 then [] else TurnsActions(d, n - 1, publish, remove) + TurnActions(d, publish(n - 1), remove(n - 1))
  }

  lemma {:induction false} TurnsRun(c: Config, s: Sys, d: nat, envs: seq<Envelope>, n: nat, publish: nat -> Reply,
                                    remove: nat -> Reply)
    requires n <= |envs| && d in s.dispatchers && s.dispatchers[d] == Publishing(envs)
    requires forall i :: CallReply(publish(i)) && CallReply(remove(i))
    ensures TurnsDone(c, s, TurnsActions(d, n, publish, remove), d, envs, n, Turns(s.w, envs[..n], publish, remove))
  {
    if n == 0 {
      assert s.dispatchers[d := Publishing(envs[0..])] == s.dispatchers;
    } else {
      var k: nat := n - 1;
      TurnsRun(c, s, d, envs, k, publish, remove);
      TurnContinues(c, s, TurnsActions(d, k, publish, remove), d, envs, k, Turns(s.w, envs[..k], publish, remove),
                    publish(k), remove(k));
      NextTurn(s.w, envs, k, publish, remove);
    }
  }

  function PassActions(d: nat, ids: seq<string>, done: seq<bool>, found: nat, publish: nat -> Reply,
                       remove: nat -> Reply): seq<Action> {
    LookupActions(d, ids, done) + (TurnsActions(d, found, publish, remove) + [DispatchStop(d)])
  }

  /** A pass nobody disturbs is a run of the step machine, whatever becomes of its drops, re-enqueues and removals;
      it leaves the stores as its turns say. */
  lemma UndisturbedPass(c: Config, s: Sys, d: nat, ids: seq<string>, done: seq<bool>, publish: nat -> Reply,
                        remove: nat -> Reply)
    requires d !in s.dispatchers && Distinct(ids) && forall id :: id in ids ==> id in s.w.zset
    requires |done| == |Orphans(s.w.hash, ids)|
    requires forall i :: CallReply(publish(i)) && CallReply(remove(i))
    ensures var envs := FoundOf(s.w.hash, ids);
            var actions := PassActions(d, ids, done, |envs|, publish, remove);
            && Run(c, s, actions)
            && End(c, s, actions).w ==
               Turns(s.w.(zset := AfterDrops(s.w.zset, Orphans(s.w.hash, ids), done)), envs, publish, remove)
            && End(c, s, actions).dispatchers == s.dispatchers
  {
    var envs := FoundOf(s.w.hash, ids);
    LookupRuns(c, s, d, ids, done);
    var t := End(c, s, LookupActions(d, ids, done));
    AllTurnsRun(c, t, d, envs, publish, remove);
    RunConcat(c, s, LookupActions(d, ids, done), TurnsActions(d, |envs|, publish, remove) + [DispatchStop(d)]);
    assert s.dispatchers[d := Publishing(envs)] - {d} == s.dispatchers;
  }

  /** All turns, then the end of the tick. */
  lemma AllTurnsRun(c: Config, s: Sys, d: nat, envs: seq<Envelope>, publish: nat -> Reply, remove: nat -> Reply)
    requires d in s.dispatchers && s.dispatchers[d] == Publishing(envs)
    requires forall i :: CallReply(publish(i)) && CallReply(remove(i))
    ensures var actions := TurnsActions(d, |envs|, publish, remove) + [DispatchStop(d)];
            && Run(c, s, actions)
            && End(c, s, actions).w == Turns(s.w, envs, publish, remove)
            && End(c, s, actions).dispatchers == s.dispatchers - {d}
  {
    var turns := TurnsActions(d, |envs|, publish, remove);
    TurnsRun(c, s, d, envs, |envs|, publish, remove);
    assert envs[..|envs|] == envs;
    RunExtends(c, s, turns, DispatchStop(d));
    assert s.dispatchers[d := Publishing(envs[|envs|..])] - {d} == s.dispatchers - {d};
  }

  // ---- What a pass does to the stores ----

  lemma {:induction false} TurnsOnly(w: World, envs: seq<Envelope>, publish: nat -> Reply, remove: nat -> Reply)
    ensures var v := Turns(w, envs, publish, remove);
            && w.log <= v.log
            && v == w.(log := v.log, hash := v.hash, zset := v.zset)
            && (forall id :: id in v.hash ==> id in w.hash && v.hash[id] == w.hash[id])
            && (forall id :: id in v.zset ==> id in w.zset && v.zset[id] == w.zset[id])
  {
    if envs != [] {
      TurnsOnly(w, envs[..|envs| - 1], publish, remove);
    }
  }

  /** An envelope leaves the store only if its own re-enqueue is on the stream; every envelope whose
      re-enqueue or removal did not get through is still there. */
  lemma {:induction false} RemovedOnlyAfterReenqueue(w: World, envs: seq<Envelope>, publish: nat -> Reply,
                                                     remove: nat -> Reply, id: string)
    requires id in w.hash
    ensures var v := Turns(w, envs, publish, remove);
            id !in v.hash <==> exists i :: 0 <= i < |envs| && envs[i].id == id && publish(i).Ok? && Effective(remove(i))
    ensures var v := Turns(w, envs, publish, remove);
            id !in v.hash ==>
              exists i, k :: 0 <= i < |envs| && envs[i].id == id && |w.log| <= k < |v.log|
                             && v.log[k] == Entry(envs[i].payload, envs[i].attempt)
  {
    if envs != [] {
      var n := |envs| - 1;
      var u, v := Turns(w, envs[..n], publish, remove), Turns(w, envs, publish, remove);
      RemovedOnlyAfterReenqueue(w, envs[..n], publish, remove, id);
      TurnsOnly(w, envs[..n], publish, remove);
      assert forall i :: 0 <= i < n ==> envs[..n][i] == envs[i];
      if id !in u.hash {
        var i, k :| 0 <= i < n && envs[..n][i].id == id && |w.log| <= k < |u.log|
                    && u.log[k] == Entry(envs[..n][i].payload, envs[..n][i].attempt);
        assert v.log[k] == u.log[k];
      } else if id !in v.hash {
        assert v.log[|u.log|] == Entry(envs[n].payload, envs[n].attempt);
      }
    }
  }

  /** The stream grows by exactly the re-enqueues that took effect, in due order. */
  function Effects(envs: seq<Envelope>, publish: nat -> Reply): seq<Entry> {
    if envs == [] then []
    else
      var n := |envs| - 1;
      Effects(envs[..n], publish) + if Effective(publish(n)) then [Entry(envs[n].payload, envs[n].attempt)] else []
  }

  lemma {:induction false} StreamGrowsByReenqueues(w: World, envs: seq<Envelope>, publish: nat -> Reply,
                                                   remove: nat -> Reply)
    ensures Turns(w, envs, publish, remove).log == w.log + Effects(envs, publish)
  {
    if envs != [] {
      StreamGrowsByReenqueues(w, envs[..|envs| - 1], publish, remove);
    }
  }
}
