/** Bounded executions: a potential over unacked entries and envelopes that every acked execution lowers. */
module RetryBound {
  import opened Types
  import opened Retry
  import opened Protocol
  import opened Machine
  import opened NoLoss

  // ---- Sums over maps ----

  ghost function Sum<K(!new)>(m: map<K, int>): int {
    if m.Keys == {} then 0
    else var k :| k in m.Keys; m[k] + Sum(m - {k})
  }

  lemma {:induction false} SumRemove<K(!new)>(m: map<K, int>, k: K)
    requires k in m
    ensures Sum(m) == m[k] + Sum(m - {k})
  {
    var j :| j in m.Keys && Sum(m) == m[j] + Sum(m - {j});
    if j != k {
      SumRemove(m - {j}, k);
      SumRemove(m - {k}, j);
      assert m - {j} - {k} == m - {k} - {j};
    }
  }

  lemma SumUpdate<K(!new)>(m: map<K, int>, k: K, v: int)
    ensures Sum(m[k := v]) == Sum(m) + v - (if k in m then m[k] else 0)
  {
    SumRemove(m[k := v], k);
    assert m[k := v] - {k} == m - {k};
    if k in m {
      SumRemove(m, k);
    } else {
      assert m - {k} == m;
    }
  }

  lemma {:induction false} SumAtMost<K(!new)>(m: map<K, int>, bound: nat)
    requires forall k :: k in m ==> m[k] <= bound
    ensures Sum(m) <= bound * |m|
  {
    if m.Keys != {} {
      var k :| k in m.Keys;
      SumRemove(m, k);
      SumAtMost(m - {k}, bound);
      assert (m - {k}).Keys == m.Keys - {k};
      assert |m| == |m - {k}| + 1;
      assert bound * |m| == bound * |m - {k}| + bound;
    }
  }

  lemma {:induction false} SumNonNegative<K(!new)>(m: map<K, int>)
    requires forall k :: k in m ==> m[k] >= 0
    ensures Sum(m) >= 0
  {
    if m.Keys != {} {
      var k :| k in m.Keys;
      SumRemove(m, k);
      SumNonNegative(m - {k});
    }
  }

  // ---- The potential ----

  /** The weights of the unacked entries among the first n. */
  ghost function EntryPotential(c: Config, w: World, n: nat): int
    requires n <= |w.log|
  {
    if n == 0 then 0
    else EntryPotential(c, w, n - 1) + if Unacked(w, n - 1) then Weight(c, w.log[n - 1].attempt) else 0
  }

  ghost function EnvelopeWeights(c: Config, hash: map<string, Envelope>): map<string, int> {
    map id | id in hash :: Weight(c, hash[id].attempt)
  }

  ghost function Potential(c: Config, w: World): int {
    EntryPotential(c, w, |w.log|) + Sum(EnvelopeWeights(c, w.hash))
  }

  lemma {:induction false} EntryPotentialSame(c: Config, w: World, v: World, n: nat)
    requires n <= |w.log| && n <= |v.log| && w.log[..n] == v.log[..n]
    requires forall i: nat :: i < n ==> (Unacked(w, i) <==> Unacked(v, i))
    ensures EntryPotential(c, w, n) == EntryPotential(c, v, n)
  {
    if n > 0 {
      assert w.log[..n][n - 1] == v.log[..n][n - 1];
      assert w.log[..n - 1] == w.log[..n][..n - 1] && v.log[..n - 1] == v.log[..n][..n - 1];
      EntryPotentialSame(c, w, v, n - 1);
    }
  }

  lemma {:induction false} EntryPotentialAck(c: Config, w: World, v: World, n: nat, i: nat)
    requires i < n <= |w.log| && v.log == w.log && Unacked(w, i) && !Unacked(v, i)
    requires forall j: nat :: j < n && j != i ==> (Unacked(w, j) <==> Unacked(v, j))
    ensures EntryPotential(c, v, n) == EntryPotential(c, w, n) - Weight(c, w.log[i].attempt)
  {
    if i == n - 1 {
      EntryPotentialSame(c, w, v, n - 1);
    } else {
      EntryPotentialAck(c, w, v, n - 1, i);
    }
  }

  /** An appended entry adds its weight. */
  lemma AppendAddsWeight(c: Config, w: World, e: Entry)
    requires w.cursor <= |w.log|
    ensures Potential(c, w.(log := w.log + [e])) == Potential(c, w) + Weight(c, e.attempt)
  {
    var v := w.(log := w.log + [e]);
    EntryPotentialSame(c, w, v, |w.log|);
    assert Unacked(v, |w.log|);
  }

  lemma ScheduleAddsWeight(c: Config, w: World, env: Envelope, at: int)
    ensures var v := w.(hash := w.hash[env.id := env], zset := w.zset[env.id := at]);
            Potential(c, v) == Potential(c, w) + Weight(c, env.attempt)
                               - (if env.id in w.hash then Weight(c, w.hash[env.id].attempt) else 0)
  {
    var v := w.(hash := w.hash[env.id := env], zset := w.zset[env.id := at]);
    EntryPotentialSame(c, w, v, |w.log|);
    assert EnvelopeWeights(c, v.hash) == EnvelopeWeights(c, w.hash)[env.id := Weight(c, env.attempt)];
    SumUpdate(EnvelopeWeights(c, w.hash), env.id, Weight(c, env.attempt));
  }

  lemma RemoveSubtractsWeight(c: Config, w: World, id: string)
    ensures var v := w.(hash := w.hash - {id}, zset := w.zset - {id});
            Potential(c, v) == Potential(c, w) - (if id in w.hash then Weight(c, w.hash[id].attempt) else 0)
  {
    var v := w.(hash := w.hash - {id}, zset := w.zset - {id});
    EntryPotentialSame(c, w, v, |w.log|);
    assert EnvelopeWeights(c, v.hash) == EnvelopeWeights(c, w.hash) - {id};
    if id in w.hash {
      SumRemove(EnvelopeWeights(c, w.hash), id);
    } else {
      assert EnvelopeWeights(c, w.hash) - {id} == EnvelopeWeights(c, w.hash);
    }
  }

  lemma AckSubtractsWeight(c: Config, w: World, i: nat)
    requires i in w.pending && i < w.cursor <= |w.log|
    ensures Potential(c, w.(pending := w.pending - {i})) == Potential(c, w) - Weight(c, w.log[i].attempt)
  {
    EntryPotentialAck(c, w, w.(pending := w.pending - {i}), |w.log|, i);
  }

  /** Steps that change neither the set of unacked entries nor the envelopes leave the potential alone. */
  lemma PotentialUnchanged(c: Config, w: World, v: World)
    requires v.log == w.log && v.hash == w.hash
    requires forall i: nat :: i < |w.log| ==> (Unacked(w, i) <==> Unacked(v, i))
    ensures Potential(c, v) == Potential(c, w)
  {
    EntryPotentialSame(c, w, v, |w.log|);
  }

  // ---- The invariant ----

  ghost predicate RetryRange(c: Config, attempt: int) {
    1 <= attempt <= c.maxRetries
  }

  ghost predicate BatchInRange(c: Config, batch: seq<Envelope>) {
    forall env :: env in batch ==> RetryRange(c, env.attempt)
  }

  ghost predicate DispatcherInRange(c: Config, d: Dispatcher) {
    match d
    case Reading(_) => true
    case Dropping(_, batch) => BatchInRange(c, batch)
    case Publishing(batch) => BatchInRange(c, batch)
    case Removing(env, rest, _) => RetryRange(c, env.attempt) && BatchInRange(c, rest)
  }

  ghost predicate AttemptsOk(c: Config, s: Sys) {
    && (forall i :: 0 <= i < |s.w.log| ==> 0 <= s.w.log[i].attempt <= c.maxRetries)
    && (forall id :: id in s.w.hash ==> RetryRange(c, s.w.hash[id].attempt))
    && (forall d :: d in s.dispatchers ==> DispatcherInRange(c, s.dispatchers[d]))
    && (forall h :: h in s.handlers && s.handlers[h].pc.Scheduling? ==> s.handlers[h].job.attempt < c.maxRetries)
  }

  ghost predicate TokensOk(c: Config, s: Sys) {
    && (forall t :: t in s.hist.open ==> 0 <= s.hist.open[t] <= c.maxRetries)
    && (forall h :: h in s.handlers ==> h < s.spawned)
    && (forall h: nat :: Handoff(h) in s.hist.open ==>
          h < s.spawned && (h in s.handlers ==> s.handlers[h].pc == Acking(Scheduled)))
    && (forall h :: h in s.handlers && s.handlers[h].pc == Acking(Scheduled) ==>
          Handoff(h) in s.hist.open && s.hist.open[Handoff(h)] == Weight(c, s.handlers[h].job.attempt + 1))
    && (forall p: nat :: Reenqueue(p) in s.hist.open ==> p < |s.w.log|)
    && (forall d :: d in s.dispatchers && s.dispatchers[d].Removing? ==>
          var Removing(env, _, p) := s.dispatchers[d];
          Reenqueue(p) in s.hist.open && s.hist.open[Reenqueue(p)] == Weight(c, env.attempt) && EnvelopeOk(env))
    && (forall d, d' ::
          d in s.dispatchers && d' in s.dispatchers && d != d' && s.dispatchers[d].Removing?
              && s.dispatchers[d'].Removing? ==>
          s.dispatchers[d].position != s.dispatchers[d'].position)
  }

  ghost predicate Bounded(c: Config, s: Sys) {
    s.hist.acked + Potential(c, s.w) <= (c.maxRetries + 1) * s.hist.produced + Sum(s.hist.open)
  }

  ghost predicate RetryInv(c: Config, s: Sys) {
    AttemptsOk(c, s) && TokensOk(c, s) && Bounded(c, s)
  }

  /** Producers publish at attempt 0. */
  ghost predicate FreshProducer(a: Action) {
    a.Produce? ==> a.attempt == 0
  }

  // ---- Steps ----

  /** A step that touches neither attempts nor tokens beyond starting or ending handlers and dispatchers. */
  lemma QuietStep(c: Config, s: Sys, t: Sys)
    requires AttemptsOk(c, s) && TokensOk(c, s)
    requires s.spawned <= t.spawned && t.hist.open == s.hist.open
    requires |s.w.log| <= |t.w.log| && t.w.log[..|s.w.log|] == s.w.log && t.w.hash == s.w.hash
    requires forall i :: |s.w.log| <= i < |t.w.log| ==> t.w.log[i].attempt == 0
    requires forall h :: h in t.handlers ==>
               (h in s.handlers && t.handlers[h] == s.handlers[h])
               || (s.spawned <= h < t.spawned && !t.handlers[h].pc.Scheduling? && !t.handlers[h].pc.Acking?)
    requires forall d :: d in t.dispatchers ==>
               (d in s.dispatchers && t.dispatchers[d] == s.dispatchers[d])
               || (DispatcherInRange(c, t.dispatchers[d]) && !t.dispatchers[d].Removing?)
    ensures AttemptsOk(c, t) && TokensOk(c, t)
  {
    forall i | 0 <= i < |t.w.log|
      ensures 0 <= t.w.log[i].attempt <= c.maxRetries
    {
      if i < |s.w.log| {
        assert t.w.log[i] == s.w.log[i];
      }
    }
  }

  lemma ProduceKeepsBound(c: Config, s: Sys, payload: Payload)
    requires StoreOk(s.w) && RetryInv(c, s)
    ensures RetryInv(c, After(c, s, Produce(payload, 0)))
  {
    var t := After(c, s, Produce(payload, 0));
    QuietStep(c, s, t);
    AppendAddsWeight(c, s.w, Entry(payload, 0));
    assert (c.maxRetries + 1) * (s.hist.produced + 1) == (c.maxRetries + 1) * s.hist.produced + c.maxRetries + 1;
  }

  lemma DeliveryKeepsBound(c: Config, s: Sys, a: Action)
    requires StoreOk(s.w) && RetryInv(c, s) && Enabled(c, s, a)
    requires a.Deliver? || a.Reclaim? || a.Crash? || a.Environment?
    ensures RetryInv(c, After(c, s, a))
  {
    var t := After(c, s, a);
    QuietStep(c, s, t);
    PotentialUnchanged(c, s.w, t.w);
  }

  lemma {:induction false} FoundInRange(c: Config, hash: map<string, Envelope>, ids: seq<string>)
    requires forall id :: id in hash ==> RetryRange(c, hash[id].attempt)
    ensures BatchInRange(c, FoundOf(hash, ids))
  {
    if ids != [] {
      FoundInRange(c, hash, ids[1..]);
    }
  }

  lemma LookupStaysInRange(c: Config, s: Sys, a: Action)
    requires AttemptsOk(c, s) && Enabled(c, s, a)
    requires a.DispatchRead? || a.DispatchFetch? || a.DispatchDrop? || a.DispatchStop?
    ensures var t := After(c, s, a);
            && t.hist == s.hist && t.handlers == s.handlers && t.spawned == s.spawned
            && t.w == s.w.(zset := t.w.zset)
            && forall d :: d in t.dispatchers ==>
                 (d in s.dispatchers && t.dispatchers[d] == s.dispatchers[d])
                 || (DispatcherInRange(c, t.dispatchers[d]) && !t.dispatchers[d].Removing?)
  {
    if a.DispatchFetch? {
      FoundInRange(c, s.w.hash, s.dispatchers[a.d].ids);
    } else if a.DispatchDrop? {
      assert DispatcherInRange(c, s.dispatchers[a.d]);
    }
  }

  lemma DispatchReadKeepsBound(c: Config, s: Sys, a: Action)
    requires StoreOk(s.w) && RetryInv(c, s) && Enabled(c, s, a)
    requires a.DispatchRead? || a.DispatchFetch? || a.DispatchDrop? || a.DispatchStop?
    ensures RetryInv(c, After(c, s, a))
  {
    LookupStaysInRange(c, s, a);
    QuietStep(c, s, After(c, s, a));
    PotentialUnchanged(c, s.w, After(c, s, a).w);
  }

  lemma PublishKeepsTokens(c: Config, s: Sys, d: nat, r: Reply)
    requires AttemptsOk(c, s) && TokensOk(c, s)
    requires Enabled(c, s, DispatchPublish(d, r)) && EnvelopeOk(s.dispatchers[d].batch[0])
    ensures AttemptsOk(c, After(c, s, DispatchPublish(d, r))) && TokensOk(c, After(c, s, DispatchPublish(d, r)))
  {
    var t := After(c, s, DispatchPublish(d, r));
    assert DispatcherInRange(c, s.dispatchers[d]);
    var env := s.dispatchers[d].batch[0];
    assert t.w.hash == s.w.hash && t.handlers == s.handlers && t.spawned == s.spawned;
    assert Reenqueue(|s.w.log|) !in s.hist.open;
  }

  lemma PublishKeepsBound(c: Config, s: Sys, d: nat, r: Reply)
    requires StoreOk(s.w) && AttemptsOk(c, s) && TokensOk(c, s) && Bounded(c, s) && Enabled(c, s, DispatchPublish(d, r))
    ensures Bounded(c, After(c, s, DispatchPublish(d, r)))
  {
    var env := s.dispatchers[d].batch[0];
    if Effective(r) {
      AppendAddsWeight(c, s.w, Entry(env.payload, env.attempt));
      assert Reenqueue(|s.w.log|) !in s.hist.open;
      SumUpdate(s.hist.open, Reenqueue(|s.w.log|), Weight(c, env.attempt));
    }
  }

  lemma RemoveKeepsTokens(c: Config, s: Sys, d: nat, r: Reply)
    requires AttemptsOk(c, s) && TokensOk(c, s) && Enabled(c, s, DispatchRemove(d, r))
    ensures AttemptsOk(c, After(c, s, DispatchRemove(d, r))) && TokensOk(c, After(c, s, DispatchRemove(d, r)))
  {
    var t := After(c, s, DispatchRemove(d, r));
    assert DispatcherInRange(c, s.dispatchers[d]);
    assert t.handlers == s.handlers && t.spawned == s.spawned && t.w.log == s.w.log;
  }

  lemma RemoveKeepsBound(c: Config, s: Sys, d: nat, r: Reply)
    requires StoreOk(s.w) && TokensOk(c, s) && Bounded(c, s) && Enabled(c, s, DispatchRemove(d, r))
    ensures Bounded(c, After(c, s, DispatchRemove(d, r)))
  {
    var Removing(env, rest, position) := s.dispatchers[d];
    if Effective(r) {
      RemoveSubtractsWeight(c, s.w, env.id);
      if env.id in s.w.hash {
        SameIdSameEnvelope(env, s.w.hash[env.id]);
        SumRemove(s.hist.open, Reenqueue(position));
      }
    }
  }

  /** The world and history after a handler's call, given what the call does to potential and tokens. */
  lemma HandlerCallKeepsBound(c: Config, s: Sys, h: nat, r: Reply)
    requires Inv(s) && RetryInv(c, s) && Enabled(c, s, HandlerStep(h, r))
    ensures Bounded(c, After(c, s, HandlerStep(h, r)))
  {
    var t := After(c, s, HandlerStep(h, r));
    var job, pc := s.handlers[h].job, s.handlers[h].pc;
    var op := OpOf(c, job, pc);
    assert HandlerOk(s, s.handlers[h]);
    CallIsOk(c, job, pc);
    WaysToSchedule(c, job, pc, r);
    if op.ScheduleRetry? && Effective(r) {
      ScheduleAddsWeight(c, s.w, op.envelope, op.envelope.nextAttemptAt);
      assert Handoff(h) !in s.hist.open;
      SumUpdate(s.hist.open, Handoff(h), Weight(c, op.envelope.attempt));
    } else if op.AckMessage? && Effective(r) && op.entry in s.w.pending {
      AckSubtractsWeight(c, s.w, job.entry);
      if pc == Acking(Scheduled) {
        SumRemove(s.hist.open, Handoff(h));
      }
    } else {
      QuietCall(c, s.w, op, r);
      QuietRecord(c, s, h, op, r);
    }
  }

  lemma QuietCall(c: Config, w: World, op: Op, r: Reply)
    requires Possible(w, op, r)
    requires !(op.ScheduleRetry? && Effective(r)) && !(op.AckMessage? && Effective(r) && op.entry in w.pending)
    ensures Potential(c, Perform(w, op, r)) == Potential(c, w)
  {
    PotentialUnchanged(c, w, Perform(w, op, r));
  }

  lemma QuietRecord(c: Config, s: Sys, h: nat, op: Op, r: Reply)
    requires h in s.handlers
    requires !(op.ScheduleRetry? && Effective(r)) && !(op.AckMessage? && Effective(r) && op.entry in s.w.pending)
    ensures var hist := Recorded(c, s, h, op, r);
            hist.open == s.hist.open && hist.acked == s.hist.acked && hist.produced == s.hist.produced
  {
  }

  lemma HandlerCallKeepsAttempts(c: Config, s: Sys, h: nat, r: Reply)
    requires Inv(s) && RetryInv(c, s) && Enabled(c, s, HandlerStep(h, r))
    ensures AttemptsOk(c, After(c, s, HandlerStep(h, r)))
  {
    var job, pc := s.handlers[h].job, s.handlers[h].pc;
    assert HandlerOk(s, s.handlers[h]);
    CallIsOk(c, job, pc);
    WaysToSchedule(c, job, pc, r);
    CallKeepsStored(s.w, OpOf(c, job, pc), r);
  }

  /** A call adds nothing to the stream, and to the hash only the envelope it schedules. */
  lemma CallKeepsStored(w: World, op: Op, r: Reply)
    requires Possible(w, op, r)
    ensures Perform(w, op, r).log == w.log
    ensures Perform(w, op, r).hash == if op.ScheduleRetry? && Effective(r) then w.hash[op.envelope.id := op.envelope]
              else w.hash
  {
  }

  lemma HandlerCallKeepsTokens(c: Config, s: Sys, h: nat, r: Reply)
    requires AttemptsOk(c, s) && TokensOk(c, s) && Enabled(c, s, HandlerStep(h, r)) && HandlerOk(s, s.handlers[h])
    ensures TokensOk(c, After(c, s, HandlerStep(h, r)))
  {
    var t := After(c, s, HandlerStep(h, r));
    var job, pc := s.handlers[h].job, s.handlers[h].pc;
    var op := OpOf(c, job, pc);
    CallIsOk(c, job, pc);
    WaysToSchedule(c, job, pc, r);
    CallKeepsStored(s.w, op, r);
    RecordedTokens(c, s, h, op, r);
    TokensAfterCall(c, s, t, h, op, r, NextPc(c, job, pc, r));
  }

  lemma TokensAfterCall(c: Config, s: Sys, t: Sys, h: nat, op: Op, r: Reply, next: Pc)
    requires AttemptsOk(c, s) && TokensOk(c, s) && h in s.handlers
    requires t.w.log == s.w.log && t.spawned == s.spawned && t.dispatchers == s.dispatchers
    requires var handler := s.handlers[h];
             && t.handlers == (if next.Done? then s.handlers - {h} else s.handlers[h := Handler(handler.job, next)])
             && (handler.pc.Scheduling? <==> op.ScheduleRetry?)
             && (op.ScheduleRetry? ==> op.envelope.attempt == handler.job.attempt + 1 && 0 <= handler.job.attempt)
             && (next == Acking(Scheduled) ==> handler.pc.Scheduling? && r.Ok?)
             && (handler.pc.Scheduling? || handler.pc.Acking? ==>
                   next.Done? || (handler.pc.Scheduling? && r.Ok? && next == Acking(Scheduled)))
    requires t.hist.open ==
             if op.ScheduleRetry? && Effective(r) then s.hist.open[Handoff(h) := Weight(c, op.envelope.attempt)]
             else if op.AckMessage? && Effective(r) && op.entry in s.w.pending && s.handlers[h].pc == Acking(Scheduled)
             then s.hist.open - {Handoff(h)}
             else s.hist.open
    ensures TokensOk(c, t)
  {
  }

  lemma RecordedTokens(c: Config, s: Sys, h: nat, op: Op, r: Reply)
    requires h in s.handlers
    ensures Recorded(c, s, h, op, r).open ==
            if op.ScheduleRetry? && Effective(r) then s.hist.open[Handoff(h) := Weight(c, op.envelope.attempt)]
            else if op.AckMessage? && Effective(r) && op.entry in s.w.pending && s.handlers[h].pc == Acking(Scheduled)
            then s.hist.open - {Handoff(h)}
            else s.hist.open
  {
  }

  lemma DispatchStepKeepsRetryInv(c: Config, s: Sys, a: Action)
    requires StoreOk(s.w) && RetryInv(c, s) && Enabled(c, s, a) && (a.DispatchPublish? || a.DispatchRemove?)
    requires DispatcherOk(s.w, s.dispatchers[a.d])
    ensures RetryInv(c, After(c, s, a))
  {
    if a.DispatchPublish? {
      assert EnvelopeOk(s.dispatchers[a.d].batch[0]);
      PublishKeepsTokens(c, s, a.d, a.reply);
      PublishKeepsBound(c, s, a.d, a.reply);
    } else {
      RemoveKeepsTokens(c, s, a.d, a.reply);
      RemoveKeepsBound(c, s, a.d, a.reply);
    }
  }

  lemma StepKeepsRetryInv(c: Config, s: Sys, a: Action)
    requires Inv(s) && RetryInv(c, s) && Enabled(c, s, a) && FreshProducer(a)
    ensures RetryInv(c, After(c, s, a))
  {
    match a
    case Produce(payload, _) => ProduceKeepsBound(c, s, payload);
    case HandlerStep(h, r) =>
      HandlerCallKeepsBound(c, s, h, r);
      HandlerCallKeepsAttempts(c, s, h, r);
      HandlerCallKeepsTokens(c, s, h, r);
    case DispatchRead(_, _) => DispatchReadKeepsBound(c, s, a);
    case DispatchFetch(_) => DispatchReadKeepsBound(c, s, a);
    case DispatchDrop(_, _) => DispatchReadKeepsBound(c, s, a);
    case DispatchStop(_) => DispatchReadKeepsBound(c, s, a);
    case DispatchPublish(_, _) => DispatchStepKeepsRetryInv(c, s, a);
    case DispatchRemove(_, _) => DispatchStepKeepsRetryInv(c, s, a);
    case _ => DeliveryKeepsBound(c, s, a);
  }

  lemma {:induction false} RunKeepsRetryInv(c: Config, s: Sys, actions: seq<Action>)
    requires Inv(s) && RetryInv(c, s) && Run(c, s, actions)
    requires forall a :: a in actions ==> FreshProducer(a)
    ensures RetryInv(c, End(c, s, actions)) && Inv(End(c, s, actions))
    decreases |actions|
  {
    if actions != [] {
      StepKeepsInv(c, s, actions[0]);
      StepKeepsRetryInv(c, s, actions[0]);
      RunKeepsRetryInv(c, After(c, s, actions[0]), actions[1..]);
    }
  }

  // ---- The bound ----

  lemma {:induction false} EntryPotentialNonNegative(c: Config, w: World, n: nat)
    requires n <= |w.log| && forall i :: 0 <= i < |w.log| ==> w.log[i].attempt <= c.maxRetries
    ensures EntryPotential(c, w, n) >= 0
  {
    if n > 0 {
      EntryPotentialNonNegative(c, w, n - 1);
    }
  }

  /** Acked executions are bounded: at most maxRetries + 1 per producer publish, plus maxRetries per handoff
      not completed by its own ack or re-enqueue not completed by its own removal. */
  lemma AckedExecutionsAreBounded(c: Config, s: Sys, actions: seq<Action>)
    requires Initial(s) && Run(c, s, actions)
    requires forall a :: a in actions ==> FreshProducer(a)
    ensures var hist := End(c, s, actions).hist;
            hist.acked <= (c.maxRetries + 1) * hist.produced + c.maxRetries * |hist.open|
    ensures var t := End(c, s, actions);
            && (forall id :: id in t.w.hash ==> 1 <= t.w.hash[id].attempt <= c.maxRetries)
            && (forall i :: 0 <= i < |t.w.log| ==> 0 <= t.w.log[i].attempt <= c.maxRetries)
  {
    InitialRetryInv(c, s);
    RunKeepsRetryInv(c, s, actions);
    RetryInvBounds(c, End(c, s, actions));
  }

  lemma InitialRetryInv(c: Config, s: Sys)
    requires Initial(s)
    ensures Inv(s) && RetryInv(c, s)
  {
    assert EntryPotential(c, s.w, 0) == 0;
    assert EnvelopeWeights(c, s.w.hash).Keys == {};
    assert s.hist.open.Keys == {};
  }

  lemma RetryInvBounds(c: Config, t: Sys)
    requires RetryInv(c, t)
    ensures t.hist.acked <= (c.maxRetries + 1) * t.hist.produced + c.maxRetries * |t.hist.open|
  {
    EntryPotentialNonNegative(c, t.w, |t.w.log|);
    SumNonNegative(EnvelopeWeights(c, t.w.hash));
    SumAtMost(t.hist.open, c.maxRetries);
  }

  /** Each acked execution lowers the potential: the ack takes away at least one unit, and a retry handed
      off just before it put back one unit less than the ack takes. */
  lemma AckedExecutionLowersPotential(c: Config, s: Sys, h: nat, r: Reply)
    requires Inv(s) && RetryInv(c, s) && Enabled(c, s, HandlerStep(h, r))
    requires s.handlers[h].pc.Acking? && Effective(r) && s.handlers[h].job.entry in s.w.pending
    ensures var t := After(c, s, HandlerStep(h, r));
            var job := s.handlers[h].job;
            && Potential(c, t.w) == Potential(c, s.w) - Weight(c, job.attempt)
            && Weight(c, job.attempt) >= 1
            && (s.handlers[h].pc == Acking(Scheduled) ==> s.hist.open[Handoff(h)] == Weight(c, job.attempt) - 1)
  {
    assert HandlerOk(s, s.handlers[h]);
    AckSubtractsWeight(c, s.w, s.handlers[h].job.entry);
  }
}
