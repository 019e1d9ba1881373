/** The per-deployment lock: SET NX PX, heartbeat renewal and owner-checked release, as methods on the shared
    table and, for exclusion, as timed steps with lost replies, crashes and any number of workers. */
module Lock {
  import opened UploadPool

  // ---- The shared table ----

  datatype Holder = Holder(worker: string, expiresAt: int)

  type Table = map<string, Holder>

  /** The key exists: Redis drops it at its expiry. */
  predicate Live(t: Table, now: int, dep: string) {
    dep in t && now < t[dep].expiresAt
  }

  predicate Owns(t: Table, now: int, dep: string, worker: string) {
    Live(t, now, dep) && t[dep].worker == worker
  }

  /** SET NX PX. */
  function Taken(t: Table, now: int, dep: string, worker: string, ttl: nat): Table {
    if Live(t, now, dep) then t else t[dep := Holder(worker, now + ttl)]
  }

  /** The renewal script. */
  function Renewed(t: Table, now: int, dep: string, worker: string, ttl: nat): Table {
    if Owns(t, now, dep, worker) then t[dep := Holder(worker, now + ttl)] else t
  }

  /** The release script. */
  function Freed(t: Table, now: int, dep: string, worker: string): Table {
    if Owns(t, now, dep, worker) then t - {dep} else t
  }

  /** Whoever does not own the lock changes nothing by renewing or releasing it; who does touches no other. */
  lemma OnlyTheOwnerChangesTheLock(t: Table, now: int, dep: string, worker: string, ttl: nat, other: string)
    ensures !Owns(t, now, dep, worker) ==> Renewed(t, now, dep, worker, ttl) == t && Freed(t, now, dep, worker) == t
    ensures Owns(t, now, dep, worker) ==> Owns(Renewed(t, now, dep, worker, ttl), now, dep, worker) || ttl == 0
    ensures other != dep && other in t ==>
              && other in Renewed(t, now, dep, worker, ttl) && Renewed(t, now, dep, worker, ttl)[other] == t[other]
              && other in Freed(t, now, dep, worker) && Freed(t, now, dep, worker)[other] == t[other]
  {
  }

  /** The lock's life at one instant and after: a free lock goes to whoever asks, is everybody else's obstacle until
      its TTL has passed or its owner frees it, and is free again from then on; a renewal starts the TTL anew. */
  lemma LockLives(t: Table, now: int, dep: string, worker: string, ttl: nat, later: int)
    requires !Live(t, now, dep) && now <= later
    ensures var taken := Taken(t, now, dep, worker, ttl);
            && (Owns(taken, later, dep, worker) <==> later < now + ttl)
            && (later < now + ttl ==> forall other, span: nat :: Taken(taken, later, dep, other, span) == taken)
            && (later >= now + ttl ==> !Live(taken, later, dep))
            && (later < now + ttl ==> !Live(Freed(taken, later, dep, worker), later, dep))
            && (later < now + ttl ==>
                  forall at: int :: later <= at ==>
                    (Owns(Renewed(taken, later, dep, worker, ttl), at, dep, worker) <==> at < later + ttl))
  {
  }

  // ---- Durations (nanoseconds) ----

  const SECOND: nat := 1_000_000_000

  /** At least ninety seconds, and for timeouts that are not negative a minute more than both together. */
  method TtlFor(renderTimeout: int, uploadTimeout: int) returns (ttl: nat)
    ensures ttl >= 90 * SECOND && ttl >= renderTimeout + uploadTimeout + 60 * SECOND
    ensures ttl == 90 * SECOND || ttl == renderTimeout + uploadTimeout + 60 * SECOND
  {
    var sum := renderTimeout + uploadTimeout + 60 * SECOND;
    if sum < 90 * SECOND {
      return 90 * SECOND;
    }
    return sum;
  }

  // ---- Heartbeats ----

  /** A tick of the heartbeat: when it fires, and how its renewal goes. */
  datatype Tick = Tick(at: int, call: Fault)

  /** The table after the ticks, and whether one of them found the lock gone; the heartbeat ends there. */
  function Beaten(t: Table, dep: string, worker: string, ttl: nat, ticks: seq<Tick>): (Table, bool) {
    if ticks == [] then (t, false)
    else
      var (before, lost) := Beaten(t, dep, worker, ttl, ticks[..|ticks| - 1]);
      var tick := ticks[|ticks| - 1];
      if lost || tick.call.Fails? then (before, lost)
      else (Renewed(before, tick.at, dep, worker, ttl), tick.call.NoFault? && !Owns(before, tick.at, dep, worker))
  }

  /** The instant of the last renewal that took effect, or of the acquire. */
  function LastSuccess(start: int, ticks: seq<Tick>): int {
    if ticks == [] then start
    else if ticks[|ticks| - 1].call.Fails? then LastSuccess(start, ticks[..|ticks| - 1])
    else ticks[|ticks| - 1].at
  }

  /** Failed heartbeats are harmless as long as no two effective ones lie a TTL apart: the lock is never lost,
      and it runs until a TTL after the last effective one. */
  lemma {:induction false} GapsBelowTtlKeepTheLock(t: Table, dep: string, worker: string, ttl: nat, start: int,
                                                   ticks: seq<Tick>)
    requires dep in t && t[dep] == Holder(worker, start + ttl)
    requires forall k :: 0 <= k < |ticks| && !ticks[k].call.Fails? ==>
              ticks[k].at < LastSuccess(start, ticks[..k]) + ttl
    ensures !Beaten(t, dep, worker, ttl, ticks).1
    ensures var after := Beaten(t, dep, worker, ttl, ticks).0;
            dep in after && after[dep] == Holder(worker, LastSuccess(start, ticks) + ttl)
  {
    if ticks != [] {
      var n := |ticks| - 1;
      forall k | 0 <= k < n && !ticks[k].call.Fails?
        ensures ticks[..n][k].at < LastSuccess(start, ticks[..n][..k]) + ttl
      {
        assert ticks[..n][..k] == ticks[..k];
      }
      GapsBelowTtlKeepTheLock(t, dep, worker, ttl, start, ticks[..n]);
    }
  }

  // ---- The client ----

  /** The lock server: its clock and its keys. */
  class Server {
    var now: int
    var table: Table

    constructor (now: int)
      ensures this.now == now && table == map[]
    {
      this.now, table := now, map[];
    }
  }

  datatype AcquireResult = Acquired | HeldByAnother | AcquireFailed

  /** One held lock: `stopped` ends the heartbeat, `lost` tells the job to abort. */
  class Lease {
    const server: Server
    const dep: string
    const worker: string
    const ttl: nat
    var stopped: bool
    var lost: bool

    constructor (server: Server, dep: string, worker: string, ttl: nat)
      ensures this.server == server && this.dep == dep && this.worker == worker && this.ttl == ttl
      ensures !stopped && !lost
    {
      this.server, this.dep, this.worker, this.ttl := server, dep, worker, ttl;
      stopped, lost := false, false;
    }

    /** One heartbeat: renews while owned; an answered renewal that found the lock gone loses the lease for good;
        failed calls are tolerated. */
    method Beat(call: Fault)
      modifies this`lost, server`table
      ensures server.table == if stopped || old(lost) || call.Fails? then old(server.table)
                              else Renewed(old(server.table), server.now, dep, worker, ttl)
      ensures lost <==> old(lost) || (!stopped && call.NoFault? && !Owns(old(server.table), server.now, dep, worker))
    {
      if stopped || lost || call.Fails? {
        return;
      }
      var owned := Owns(server.table, server.now, dep, worker);
      server.table := Renewed(server.table, server.now, dep, worker, ttl);
      if call.NoFault? && !owned {
        lost := true;
      }
    }

    /** The heartbeat: one renewal per tick, until one finds the lock gone. */
    method Heartbeat(ticks: seq<Tick>)
      requires !stopped && !lost
      modifies this`lost, server
      ensures (server.table, lost) == Beaten(old(server.table), dep, worker, ttl, ticks)
    {
      for i := 0 to |ticks|
        invariant (server.table, lost) == Beaten(old(server.table), dep, worker, ttl, ticks[..i])
        invariant !stopped
      {
        assert ticks[..i + 1][..i] == ticks[..i];
        server.now := ticks[i].at;
        Beat(ticks[i].call);
      }
      assert ticks[..|ticks|] == ticks;
    }

    /** Stops the heartbeat and frees the lock, but only if it is still this worker's. */
    method Release(call: Fault) returns (ok: bool)
      modifies this`stopped, server`table
      ensures stopped && ok == call.NoFault?
      ensures server.table == if call.Fails? then old(server.table)
                else Freed(old(server.table), server.now, dep, worker)
    {
      stopped := true;
      if !call.Fails? {
        server.table := Freed(server.table, server.now, dep, worker);
      }
      ok := call.NoFault?;
    }
  }

  class Locker {
    const server: Server
    const worker: string
    const ttl: nat

    constructor (server: Server, worker: string, ttl: nat)
      ensures this.server == server && this.worker == worker && this.ttl == ttl
    {
      this.server, this.worker, this.ttl := server, worker, ttl;
    }

    /** A lease comes back only if the key was free and the reply arrived. */
    method Acquire(dep: string, call: Fault) returns (r: AcquireResult, lease: Lease?)
      modifies server`table
      ensures server.table == if call.Fails? then old(server.table)
                else Taken(old(server.table), server.now, dep, worker, ttl)
      ensures r.Acquired? <==> call.NoFault? && !Live(old(server.table), server.now, dep)
      ensures r.HeldByAnother? <==> call.NoFault? && Live(old(server.table), server.now, dep)
      ensures lease != null <==> r.Acquired?
      ensures lease != null ==>
                && fresh(lease) && lease.server == server && lease.dep == dep && lease.worker == worker
                    && lease.ttl == ttl
                && !lease.stopped && !lease.lost
    {
      if call.Fails? {
        return AcquireFailed, null;
      }
      var held := Live(server.table, server.now, dep);
      server.table := Taken(server.table, server.now, dep, worker, ttl);
      if call.LosesReply? {
        return AcquireFailed, null;
      }
      if held {
        return HeldByAnother, null;
      }
      r := Acquired;
      lease := new Lease(server, dep, worker, ttl);
    }
  }

  // ---- Exclusion over timed steps ----

  datatype Status = Held | Released | Abandoned

  /** `last` is the instant of the last acquire or renew that succeeded. */
  datatype Grant = Grant(dep: string, worker: string, last: int, status: Status)

  datatype State = State(now: int, table: Table, grants: map<nat, Grant>)

  datatype Step =
    | Wait(until: int)
    | Acquire(id: nat, dep: string, worker: string, call: Fault)
    | Renew(id: nat, call: Fault)
    | Release(id: nat, call: Fault)
    | Abandon(id: nat)              // the worker died

  predicate HoldsLease(s: State, dep: string, worker: string) {
    exists id :: id in s.grants && s.grants[id].status.Held? && s.grants[id].dep == dep && s.grants[id].worker == worker
  }

  /** A worker id never holds two leases of one deployment. */
  ghost predicate Enabled(s: State, step: Step) {
    match step
    case Wait(until) => s.now <= until
    case Acquire(id, dep, worker, _) => id !in s.grants && !HoldsLease(s, dep, worker)
    case Renew(id, _) => id in s.grants && s.grants[id].status.Held?
    case Release(id, _) => id in s.grants && s.grants[id].status.Held?
    case Abandon(id) => id in s.grants && s.grants[id].status.Held?
  }

  function After(ttl: nat, s: State, step: Step): State
    requires Enabled(s, step)
  {
    match step
    case Wait(until) => s.(now := until)
    case Acquire(id, dep, worker, call) =>
      s.(table := if call.Fails? then s.table else Taken(s.table, s.now, dep, worker, ttl),
         grants := if call.NoFault? && !Live(s.table, s.now, dep) then s.grants[id := Grant(dep, worker, s.now, Held)]
             else s.grants)
    case Renew(id, call) =>
      var g := s.grants[id];
      s.(table := if call.Fails? then s.table else Renewed(s.table, s.now, g.dep, g.worker, ttl),
         grants := if call.NoFault? && Owns(s.table, s.now, g.dep, g.worker) then s.grants[id := g.(last := s.now)]
             else s.grants)
    case Release(id, call) =>
      var g := s.grants[id];
      s.(table := if call.Fails? then s.table else Freed(s.table, s.now, g.dep, g.worker),
         grants := s.grants[id := g.(status := Released)])
    case Abandon(id) => s.(grants := s.grants[id := s.grants[id].(status := Abandoned)])
  }

  ghost predicate Run(ttl: nat, s: State, steps: seq<Step>)
    decreases |steps|
  {
    steps == [] || (Enabled(s, steps[0]) && Run(ttl, After(ttl, s, steps[0]), steps[1..]))
  }

  ghost function End(ttl: nat, s: State, steps: seq<Step>): State
    requires Run(ttl, s, steps)
    decreases |steps|
  {
    if steps == [] then s else End(ttl, After(ttl, s, steps[0]), steps[1..])
  }

  /** Not released, and its last success is younger than the TTL. */
  predicate Young(ttl: nat, s: State, id: nat) {
    id in s.grants && !s.grants[id].status.Released? && s.now < s.grants[id].last + ttl
  }

  ghost predicate Inv(ttl: nat, s: State) {
    && (forall id :: id in s.grants ==> s.grants[id].last <= s.now)
    // a young lease has the lock
    && (forall id :: Young(ttl, s, id) ==>
          var g := s.grants[id];
          g.dep in s.table && s.table[g.dep].worker == g.worker && s.table[g.dep].expiresAt >= g.last + ttl)
    // next to a held lease, its worker has no other lease of the deployment that is held or young
    && (forall id, other ::
          (id in s.grants && other in s.grants && id != other && s.grants[id].status.Held?
           && s.grants[other].dep == s.grants[id].dep && s.grants[other].worker == s.grants[id].worker) ==>
          !s.grants[other].status.Held? && !Young(ttl, s, other))
    // one young lease per deployment
    && (forall id, other :: Young(ttl, s, id) && Young(ttl, s, other) && s.grants[id].dep == s.grants[other].dep ==>
          id == other)
  }

  lemma AcquireKeepsInv(ttl: nat, s: State, id: nat, dep: string, worker: string, call: Fault)
    requires Inv(ttl, s) && Enabled(s, Acquire(id, dep, worker, call))
    ensures Inv(ttl, After(ttl, s, Acquire(id, dep, worker, call)))
  {
    var t := After(ttl, s, Acquire(id, dep, worker, call));
    if !Live(s.table, s.now, dep) {
      assert forall other :: other in s.grants && s.grants[other].dep == dep ==> !Young(ttl, s, other);
    }
    assert forall other :: other != id ==> (Young(ttl, t, other) <==> Young(ttl, s, other));
  }

  lemma RenewKeepsInv(ttl: nat, s: State, id: nat, call: Fault)
    requires Inv(ttl, s) && Enabled(s, Renew(id, call))
    ensures Inv(ttl, After(ttl, s, Renew(id, call)))
  {
    var t := After(ttl, s, Renew(id, call));
    assert forall other :: other != id ==> (Young(ttl, t, other) <==> Young(ttl, s, other));
  }

  lemma ReleaseKeepsInv(ttl: nat, s: State, id: nat, call: Fault)
    requires Inv(ttl, s) && Enabled(s, Release(id, call))
    ensures Inv(ttl, After(ttl, s, Release(id, call)))
  {
    var t := After(ttl, s, Release(id, call));
    assert forall other :: other != id ==> (Young(ttl, t, other) <==> Young(ttl, s, other));
  }

  lemma StepKeepsInv(ttl: nat, s: State, step: Step)
    requires Inv(ttl, s) && Enabled(s, step)
    ensures Inv(ttl, After(ttl, s, step))
  {
    match step
    case Acquire(id, dep, worker, call) => AcquireKeepsInv(ttl, s, id, dep, worker, call);
    case Renew(id, call) => RenewKeepsInv(ttl, s, id, call);
    case Release(id, call) => ReleaseKeepsInv(ttl, s, id, call);
    case Wait(_) =>
      assert forall id :: Young(ttl, After(ttl, s, step), id) ==> Young(ttl, s, id);
    case Abandon(_) =>
      assert forall id :: Young(ttl, After(ttl, s, step), id) <==> Young(ttl, s, id);
  }

  lemma {:induction false} RunKeepsInv(ttl: nat, s: State, steps: seq<Step>)
    requires Inv(ttl, s) && Run(ttl, s, steps)
    ensures Inv(ttl, End(ttl, s, steps))
    decreases |steps|
  {
    if steps != [] {
      StepKeepsInv(ttl, s, steps[0]);
      RunKeepsInv(ttl, After(ttl, s, steps[0]), steps[1..]);
    }
  }

  /** Lock exclusion. Whatever happened before - lost replies, dead workers, late renewals and releases - a lease
      that is not released and succeeded within the last TTL has the lock: every acquire of its deployment, by
      whomever, leaves it in place and yields no lease, and no second lease of the deployment is young. */
  lemma YoungLeaseExcludes(ttl: nat, start: int, steps: seq<Step>, id: nat, step: Step)
    requires Run(ttl, State(start, map[], map[]), steps)
    requires Young(ttl, End(ttl, State(start, map[], map[]), steps), id)
    requires step.Acquire? && step.dep == End(ttl, State(start, map[], map[]), steps).grants[id].dep
    requires Enabled(End(ttl, State(start, map[], map[]), steps), step)
    ensures var s := End(ttl, State(start, map[], map[]), steps);
            && Owns(s.table, s.now, s.grants[id].dep, s.grants[id].worker)
            && After(ttl, s, step) == s
            && forall other :: Young(ttl, s, other) && s.grants[other].dep == s.grants[id].dep ==> other == id
  {
    RunKeepsInv(ttl, State(start, map[], map[]), steps);
  }

  /** Only its own release, or time, makes a lease stop excluding. */
  lemma OnlyReleaseOrTimeEndsIt(ttl: nat, start: int, steps: seq<Step>, id: nat, step: Step)
    requires Run(ttl, State(start, map[], map[]), steps)
    requires var s := End(ttl, State(start, map[], map[]), steps);
             Young(ttl, s, id) && Enabled(s, step) && !step.Wait? && !(step.Release? && step.id == id)
    ensures var s := End(ttl, State(start, map[], map[]), steps);
            var t := After(ttl, s, step);
            && Young(ttl, t, id) && t.grants[id].dep == s.grants[id].dep
            && Owns(t.table, t.now, s.grants[id].dep, s.grants[id].worker)
  {
    RunKeepsInv(ttl, State(start, map[], map[]), steps);
    var s := End(ttl, State(start, map[], map[]), steps);
    StepKeepsInv(ttl, s, step);
  }
}
