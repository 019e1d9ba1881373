/** The whole system as a step machine: producers, any number of handlers and dispatchers, crashes, lost
    replies and status moves by others, interleaved call by call.

Entries are numbered by their position in the main stream. Lock replies are unconstrained: what is proved
about runs holds whatever the lock answers. Time is free: any pending entry may be reclaimed at any moment,
and a dispatcher may find any indexed envelope due. */
module Machine {
  import opened ErrClass
  import opened Deployment
  import opened Types
  import opened Retry
  import opened Protocol

  /** The shared systems. */
  datatype World = World(
    log: seq<Entry>,                // main stream, as appended
    cursor: nat,                    // entries below it have been delivered to the group
    pending: set<nat>,              // delivered, not acked
    hash: map<string, Envelope>,    // retry payloads
    zset: map<string, int>,         // retry index
    dlq: seq<Payload>,
    ready: seq<ReadyFacts>,         // ready outcome stream
    records: map<string, Record>,
    pointers: map<string, Pointer>,
    store: map<string, Object>)

  datatype Handler = Handler(job: Job, pc: Pc)

  /** A dispatcher between two of its calls. */
  datatype Dispatcher =
    | Reading(ids: seq<string>)                                // index read, payloads not yet
    | Dropping(orphans: seq<string>, batch: seq<Envelope>)     // ids without payload leave the index
    | Publishing(batch: seq<Envelope>)
    | Removing(env: Envelope, rest: seq<Envelope>, position: nat)

  datatype Move = Move(dep: string, from: Status, to: Status)

  /** A handoff (a written envelope) or a re-enqueue that has not been completed by its own ack or removal. */
  datatype Token = Handoff(handler: nat) | Reenqueue(position: nat)

  /** A delivery acked after a non-retryable failure with no actionable record; `ready` if its deployment was
      ARTIFACT_READY through a worker's write by then. */
  datatype Drop = Drop(dep: string, attempt: int, ready: bool)

  /** What happened so far. */
  datatype History = History(
    moves: seq<Move>,               // effective worker status writes
    produced: nat,                  // producer publishes
    acked: nat,                     // effective acks
    open: map<Token, int>,          // uncompleted handoffs and re-enqueues, with the weight they added
    held: set<string>,              // ARTIFACT_READY since a worker's write
    dropped: set<Drop>,             // deliveries given up
    displaced: set<string>)         // whose valid retry gave way to a schema-invalid payload while held

  datatype Sys = Sys(w: World, handlers: map<nat, Handler>, dispatchers: map<nat, Dispatcher>, spawned: nat,
                     hist: History)

  ghost predicate Initial(s: Sys) {
    && s.w.log == [] && s.w.cursor == 0 && s.w.pending == {} && s.w.hash == map[] && s.w.zset == map[]
    && s.w.dlq == [] && s.w.ready == [] && s.w.pointers == map[]
    && s.handlers == map[] && s.dispatchers == map[] && s.spawned == 0
    && s.hist == History([], 0, 0, map[], {}, {}, {})
  }

  predicate Unacked(w: World, i: nat) {
    i < |w.log| && (i >= w.cursor || i in w.pending)
  }

  function Weight(c: Config, attempt: int): int {
    c.maxRetries + 1 - attempt
  }

  // ---- Handler calls ----

  /** The replies the shared systems can give in this state. */
  predicate Possible(w: World, op: Op, r: Reply) {
    && Fits(op, r)
    && match op
       case LoadRecord(dep) => r.Loaded? ==> dep in w.records && r.rec == w.records[dep]
       case FetchStored(key) =>
         && (r.Found? ==> key in w.store && r.body == w.store[key].body)
         && (r.NotFound? ==> key !in w.store)
       case ChooseCreatedAt(key) =>
         && (r.stored.FetchedBytes? ==> key in w.store && r.stored.body == w.store[key].body)
         && (r.stored.Absent? ==> key !in w.store)
       case Cas(dep, from, to) =>
         && (r.Ok? || r.Lost? ==> dep in w.records && w.records[dep].status == from)
         && (r.Conflict? ==> dep in w.records && w.records[dep].status == r.current && r.current != from)
         && (r.Lost? ==> Retryable(r.code))
       case AwaitUpload(objects, _) =>
         && (r.Uploaded? || r.Skipped? || r.UploadLost? ==> r.index < |objects|)
         && (r.Skipped? ==>
               objects[r.index].key in w.store && w.store[objects[r.index].key].sha == objects[r.index].sha)
       case SubmitPointer(dep, pointer) => r.Ok? || r.Lost? ==> dep !in w.pointers || w.pointers[dep] == pointer
       case _ => true
  }

  predicate Effective(r: Reply) {
    r.Ok? || r.Lost? || r.Uploaded? || r.UploadLost?
  }

  /** EnsureUploaded: an object with the same key and hash is left alone. */
  function Put(store: map<string, Object>, o: Object): map<string, Object> {
    if o.key in store && store[o.key].sha == o.sha then store else store[o.key := o]
  }

  function Perform(w: World, op: Op, r: Reply): World
    requires Possible(w, op, r)
  {
    if !Effective(r) then w
    else match op
      case EmitReady(facts) => w.(ready := w.ready + [facts])
      case Cas(dep, from, to) => w.(records := w.records[dep := w.records[dep].(status := to)])
      case AwaitUpload(objects, _) => w.(store := w.store[objects[r.index].key := objects[r.index]])
      case PutManifest(m) => w.(store := Put(w.store, m))
      case SubmitPointer(dep, pointer) => w.(pointers := w.pointers[dep := pointer])
      case SendDlq(payload, _, _) => w.(dlq := w.dlq + [payload])
      case ScheduleRetry(env) => w.(hash := w.hash[env.id := env], zset := w.zset[env.id := env.nextAttemptAt])
      case AckMessage(i) => w.(pending := w.pending - {i})
      case _ => w
  }

  /** This envelope, written or re-enqueued, takes the place of a stored one with a valid payload. */
  predicate Displaces(w: World, env: Envelope) {
    env.payload.Invalid? && env.id in w.hash && w.hash[env.id].payload.Valid?
  }

  function Displaced(s: Sys, env: Envelope): set<string> {
    s.hist.displaced + if Displaces(s.w, env) && env.dep in s.hist.held then {env.dep} else {}
  }

  function Recorded(c: Config, s: Sys, h: nat, op: Op, r: Reply): History
    requires h in s.handlers
  {
    var pc := s.handlers[h].pc;
    var dep := DepOf(s.handlers[h].job.payload);
    if !Effective(r) then s.hist
    else match op
      case Cas(d, from, to) =>
        s.hist.(moves := s.hist.moves + [Move(d, from, to)],
                held := if to.ArtifactReady? then s.hist.held + {d} else s.hist.held)
      case ScheduleRetry(env) =>
        s.hist.(open := s.hist.open[Handoff(h) := Weight(c, env.attempt)], displaced := Displaced(s, env))
      case AckMessage(i) =>
        if i !in s.w.pending then s.hist
        else s.hist.(
          acked := s.hist.acked + 1,
          open := if pc == Acking(Scheduled) then s.hist.open - {Handoff(h)} else s.hist.open,
          dropped := if pc == Acking(NoRecord)
                     then s.hist.dropped + {Drop(dep, s.handlers[h].job.attempt, dep in s.hist.held)}
                     else s.hist.dropped)
      case _ => s.hist
  }

  // ---- Actions ----

  datatype Action =
    | Produce(payload: Payload, attempt: int)
    | Deliver(clock: int, jitter: real)
    | Reclaim(entry: nat, clock: int, jitter: real)
    | Crash(h: nat)
    | HandlerStep(h: nat, reply: Reply)
    | DispatchRead(d: nat, ids: seq<string>)
    | DispatchFetch(d: nat)
    | DispatchDrop(d: nat, done: bool)
    | DispatchPublish(d: nat, reply: Reply)
    | DispatchRemove(d: nat, reply: Reply)
    | DispatchStop(d: nat)          // the tick ended, or the process died
    | Environment(records: map<string, Record>)

  /** Others may create records and move statuses freely, except out of the non-actionable ones. */
  ghost predicate AllowedMoves(before: map<string, Record>, after: map<string, Record>) {
    forall d :: d in before && NonActionable(before[d].status) ==> d in after && NonActionable(after[d].status)
  }

  ghost predicate Enabled(c: Config, s: Sys, a: Action) {
    match a
    case Produce(_, _) => true
    case Deliver(_, _) => s.w.cursor < |s.w.log|
    case Reclaim(i, _, _) => i in s.w.pending && i < |s.w.log|
    case Crash(h) => h in s.handlers
    case HandlerStep(h, r) => h in s.handlers && Possible(s.w, OpOf(c, s.handlers[h].job, s.handlers[h].pc), r)
    case DispatchRead(d, ids) => d !in s.dispatchers && Distinct(ids) && forall id :: id in ids ==> id in s.w.zset
    case DispatchFetch(d) => d in s.dispatchers && s.dispatchers[d].Reading?
    case DispatchDrop(d, _) => d in s.dispatchers && s.dispatchers[d].Dropping? && s.dispatchers[d].orphans != []
    case DispatchPublish(d, r) =>
      d in s.dispatchers && s.dispatchers[d].Publishing? && s.dispatchers[d].batch != [] && (r.Ok? || r.Err? || r.Lost?)
    case DispatchRemove(d, r) => d in s.dispatchers && s.dispatchers[d].Removing? && (r.Ok? || r.Err? || r.Lost?)
    case DispatchStop(d) => d in s.dispatchers
    case Environment(records) => AllowedMoves(s.w.records, records)
  }

  function Spawn(s: Sys, w: World, entry: nat, clock: int, jitter: real): Sys
    requires entry < |s.w.log|
  {
    var job := Job(entry, s.w.log[entry].attempt, s.w.log[entry].payload, clock, jitter);
    s.(w := w, handlers := s.handlers[s.spawned := Handler(job, StartPc(job))], spawned := s.spawned + 1)
  }

  function Orphans(hash: map<string, Envelope>, ids: seq<string>): (r: seq<string>)
    ensures forall id :: id in r <==> id in ids && id !in hash
  {
    if ids == [] then [] else (if ids[0] in hash then [] else [ids[0]]) + Orphans(hash, ids[1..])
  }

  /** After the orphans are gone the batch is published. */
  function BatchPc(orphans: seq<string>, batch: seq<Envelope>): Dispatcher {
    if orphans == [] then Publishing(batch) else Dropping(orphans, batch)
  }

  function WithDispatcher(s: Sys, d: nat, next: Dispatcher): Sys {
    s.(dispatchers := s.dispatchers[d := next])
  }

  function After(c: Config, s: Sys, a: Action): Sys
    requires Enabled(c, s, a)
  {
    match a
    case Produce(payload, attempt) =>
      s.(w := s.w.(log := s.w.log + [Entry(payload, attempt)]), hist := s.hist.(produced := s.hist.produced + 1))
    case Deliver(clock, jitter) =>
      Spawn(s, s.w.(cursor := s.w.cursor + 1, pending := s.w.pending + {s.w.cursor}), s.w.cursor, clock, jitter)
    case Reclaim(i, clock, jitter) => Spawn(s, s.w, i, clock, jitter)
    case Crash(h) => s.(handlers := s.handlers - {h})
    case HandlerStep(h, r) =>
      var job, pc := s.handlers[h].job, s.handlers[h].pc;
      var op, next := OpOf(c, job, pc), NextPc(c, job, pc, r);
      s.(w := Perform(s.w, op, r),
         handlers := if next.Done? then s.handlers - {h} else s.handlers[h := Handler(job, next)],
         hist := Recorded(c, s, h, op, r))
    case DispatchRead(d, ids) => WithDispatcher(s, d, Reading(ids))
    case DispatchFetch(d) =>
      var ids := s.dispatchers[d].ids;
      WithDispatcher(s, d, BatchPc(Orphans(s.w.hash, ids), FoundOf(s.w.hash, ids)))
    case DispatchDrop(d, done) =>
      var orphans, batch := s.dispatchers[d].orphans, s.dispatchers[d].batch;
      var left := if done then s.(w := s.w.(zset := s.w.zset - {orphans[0]})) else s;
      WithDispatcher(left, d, BatchPc(orphans[1..], batch))
    case DispatchPublish(d, r) =>
      var env, rest := s.dispatchers[d].batch[0], s.dispatchers[d].batch[1..];
      var position := |s.w.log|;
      var next := if r.Ok? then Removing(env, rest, position) else Publishing(rest);
      if !Effective(r) then WithDispatcher(s, d, next)
      else WithDispatcher(s, d, next).(
        w := s.w.(log := s.w.log + [Entry(env.payload, env.attempt)]),
        hist := s.hist.(open := s.hist.open[Reenqueue(position) := Weight(c, env.attempt)],
                        displaced := if r.Ok? then Displaced(s, env) else s.hist.displaced))
    case DispatchRemove(d, r) =>
      var Removing(env, rest, position) := s.dispatchers[d];
      var next := WithDispatcher(s, d, Publishing(rest));
      if !Effective(r) then next
      else next.(
        w := s.w.(hash := s.w.hash - {env.id}, zset := s.w.zset - {env.id}),
        hist := if env.id in s.w.hash then s.hist.(open := s.hist.open - {Reenqueue(position)}) else s.hist)
    case DispatchStop(d) => s.(dispatchers := s.dispatchers - {d})
    case Environment(records) =>
      s.(w := s.w.(records := records),
         hist := s.hist.(held := set d | d in s.hist.held && d in records && records[d].status.ArtifactReady?))
  }

  lemma OneFound(hash: map<string, Envelope>, id: string)
    requires id in hash
    ensures Orphans(hash, [id]) == [] && FoundOf(hash, [id]) == [hash[id]]
  {
    assert [id][1..] == [];
    assert Orphans(hash, []) == [] && FoundOf(hash, []) == [];
  }

  // ---- Runs ----

  ghost predicate Run(c: Config, s: Sys, actions: seq<Action>)
    decreases |actions|
  {
    actions == [] || (Enabled(c, s, actions[0]) && Run(c, After(c, s, actions[0]), actions[1..]))
  }

  ghost function End(c: Config, s: Sys, actions: seq<Action>): Sys
    requires Run(c, s, actions)
    decreases |actions|
  {
    if actions == [] then s else End(c, After(c, s, actions[0]), actions[1..])
  }

  lemma {:induction false} RunConcat(c: Config, s: Sys, first: seq<Action>, rest: seq<Action>)
    requires Run(c, s, first) && Run(c, End(c, s, first), rest)
    ensures Run(c, s, first + rest) && End(c, s, first + rest) == End(c, End(c, s, first), rest)
    decreases |first|
  {
    if first == [] {
      assert first + rest == rest;
    } else {
      assert (first + rest)[1..] == first[1..] + rest;
      RunConcat(c, After(c, s, first[0]), first[1..], rest);
    }
  }

  /** A run goes on by one enabled action. */
  lemma RunExtends(c: Config, s: Sys, actions: seq<Action>, a: Action)
    requires Run(c, s, actions) && Enabled(c, End(c, s, actions), a)
    ensures Run(c, s, actions + [a]) && End(c, s, actions + [a]) == After(c, End(c, s, actions), a)
  {
    var t := End(c, s, actions);
    assert [a][1..] == [];
    assert Run(c, t, [a]) && End(c, t, [a]) == After(c, t, a);
    RunConcat(c, s, actions, [a]);
  }

  lemma Run2(c: Config, s: Sys, a: Action, b: Action)
    requires Enabled(c, s, a) && Enabled(c, After(c, s, a), b)
    ensures Run(c, s, [a, b]) && End(c, s, [a, b]) == After(c, After(c, s, a), b)
  {
    assert Run(c, s, []) && [] + [a] == [a] && [a] + [b] == [a, b];
    RunExtends(c, s, [], a);
    RunExtends(c, s, [a], b);
  }

  lemma Run3(c: Config, s: Sys, a: Action, b: Action, d: Action)
    requires Enabled(c, s, a) && Enabled(c, After(c, s, a), b) && Enabled(c, After(c, After(c, s, a), b), d)
    ensures Run(c, s, [a, b, d]) && End(c, s, [a, b, d]) == After(c, After(c, After(c, s, a), b), d)
  {
    assert Run(c, s, []) && [] + [a] == [a] && [a] + [b] == [a, b] && [a, b] + [d] == [a, b, d];
    RunExtends(c, s, [], a);
    RunExtends(c, s, [a], b);
    RunExtends(c, s, [a, b], d);
  }
}
