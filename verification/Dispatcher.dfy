/** The retry dispatcher. One tick looks up the due envelopes, re-enqueues each, and removes it only after its
    re-enqueue succeeded.

The tick is written against a conversation, as the processor is: the stores may answer anything that fits,
because workers and other dispatchers change them between any two calls. The step machine's dispatchers move
exactly as the conversation does; what an undisturbed pass leaves behind is computed at the end. */
module Dispatcher {
  import opened Wrappers
  import opened Types

  const DEFAULT_BATCH: nat := 100

  // ---- The conversation ----

  datatype Call =
    | FindDue(now: int, limit: nat)
    | LoadPayloads(ids: seq<string>)
    | DropOrphan(id: string)
    | PublishEnvelope(envelope: Envelope)
    | RemoveEnvelope(id: string)

  /** `Failed` says nothing about whether the call took effect. */
  datatype Answer =
    | Ids(ids: seq<string>)
    | Payloads(found: seq<Option<Envelope>>)
    | Appended
    | Answered
    | Failed

  /** Where a pass is: before the lookup, between its reads, dropping orphans, re-enqueueing, or removing. */
  datatype Stage =
    | Start(now: int, limit: nat)
    | Reading(ids: seq<string>)
    | Dropping(orphans: seq<string>, batch: seq<Envelope>)
    | Publishing(batch: seq<Envelope>)
    | Removing(envelope: Envelope, rest: seq<Envelope>)
    | Over

  predicate Suits(call: Call, a: Answer) {
    match call
    case FindDue(_, limit) => (a.Ids? && |a.ids| <= limit) || a.Failed?
    case LoadPayloads(ids) => (a.Payloads? && |a.found| == |ids|) || a.Failed?
    case DropOrphan(_) => a.Answered? || a.Failed?
    case PublishEnvelope(_) => a.Appended? || a.Failed?
    case RemoveEnvelope(_) => a.Answered? || a.Failed?
  }

  /** Still something to do. */
  predicate Asks(stage: Stage) {
    !stage.Over? && (stage.Dropping? ==> stage.orphans != []) && (stage.Publishing? ==> stage.batch != [])
  }

  function CallOf(stage: Stage): Call
    requires Asks(stage)
  {
    match stage
    case Start(now, limit) => FindDue(now, limit)
    case Reading(ids) => LoadPayloads(ids)
    case Dropping(orphans, _) => DropOrphan(orphans[0])
    case Publishing(batch) => PublishEnvelope(batch[0])
    case Removing(env, _) => RemoveEnvelope(env.id)
  }

  function Missing(ids: seq<string>, found: seq<Option<Envelope>>): seq<string>
    requires |ids| == |found|
  {
    if ids == [] then [] else (if found[0].None? then [ids[0]] else []) + Missing(ids[1..], found[1..])
  }

  function Present(found: seq<Option<Envelope>>): seq<Envelope> {
    if found == [] then [] else (if found[0].Some? then [found[0].value] else []) + Present(found[1..])
  }

  /** Orphans first, then the batch. */
  function WithOrphans(orphans: seq<string>, batch: seq<Envelope>): Stage {
    if orphans == [] then Publishing(batch) else Dropping(orphans, batch)
  }

  /** Where an answer takes a pass: a failed or empty lookup ends it, orphans are dropped whatever comes of it, a
      failed re-enqueue keeps its envelope, and removal is tried once. */
  function Next(stage: Stage, a: Answer): Stage
    requires Asks(stage) && Suits(CallOf(stage), a)
  {
    match stage
    case Start(_, _) => if a.Ids? && a.ids != [] then Reading(a.ids) else Over
    case Reading(ids) => if a.Payloads? then WithOrphans(Missing(ids, a.found), Present(a.found)) else Over
    case Dropping(orphans, batch) => WithOrphans(orphans[1..], batch)
    case Publishing(batch) => if a.Appended? then Removing(batch[0], batch[1..]) else Publishing(batch[1..])
    case Removing(_, rest) => Publishing(rest)
  }

  datatype Exchange = Exchange(call: Call, answer: Answer)

  ghost predicate Talk(from: Stage, trace: seq<Exchange>, to: Stage)
    decreases |trace|
  {
    if trace == [] then from == to
    else
      && Asks(from) && trace[0].call == CallOf(from) && Suits(trace[0].call, trace[0].answer)
      && Talk(Next(from, trace[0].answer), trace[1..], to)
  }

  lemma {:induction false} TalkExtends(from: Stage, trace: seq<Exchange>, to: Stage, e: Exchange)
    requires Talk(from, trace, to) && Asks(to) && e.call == CallOf(to) && Suits(e.call, e.answer)
    ensures Talk(from, trace + [e], Next(to, e.answer))
    decreases |trace|
  {
    if trace == [] {
      assert trace + [e] == [e] && [e][1..] == [];
    } else {
      assert (trace + [e])[1..] == trace[1..] + [e];
      TalkExtends(Next(from, trace[0].answer), trace[1..], to, e);
    }
  }

  /** The tick is over when a failed lookup, an empty one or an empty batch ends it. */
  predicate Ended(stage: Stage) {
    stage.Over? || stage == Publishing([])
  }

  class Pass {
    const start: Stage
    const answers: (nat, Call) -> Answer
    var calls: nat
    ghost var trace: seq<Exchange>
    ghost var stage: Stage

    constructor (now: int, limit: nat, answers: (nat, Call) -> Answer)
      requires forall n, call :: Suits(call, answers(n, call))
      ensures Valid() && start == Start(now, limit) && stage == start && trace == []
    {
      start, this.answers := Start(now, limit), answers;
      calls, trace, stage := 0, [], Start(now, limit);
    }

    ghost predicate Valid()
      reads this
    {
      Talk(start, trace, stage) && forall n, call :: Suits(call, answers(n, call))
    }

    /** Only the call the pass is at can be made. */
    method Ask(call: Call) returns (a: Answer)
      requires Valid() && Asks(stage) && call == CallOf(stage)
      modifies this
      ensures Valid() && Suits(call, a) && stage == Next(old(stage), a)
      ensures trace == old(trace) + [Exchange(call, a)]
    {
      a := answers(calls, call);
      calls := calls + 1;
      TalkExtends(start, trace, stage, Exchange(call, a));
      trace, stage := trace + [Exchange(call, a)], Next(stage, a);
    }
  }

  // ---- The tick ----

  /** The stage with the payloads from `n` on still to be looked at. */
  function Sifting(ids: seq<string>, found: seq<Option<Envelope>>, n: nat): Stage
    requires |ids| == |found| && n <= |ids|
  {
    WithOrphans(Missing(ids[n..], found[n..]), Present(found))
  }

  lemma SiftingStep(ids: seq<string>, found: seq<Option<Envelope>>, n: nat)
    requires |ids| == |found| && n < |ids|
    ensures found[n].Some? ==> Sifting(ids, found, n) == Sifting(ids, found, n + 1)
    ensures found[n].None? ==>
              var stage := Sifting(ids, found, n);
              && Asks(stage) && CallOf(stage) == DropOrphan(ids[n])
              && Next(stage, Answered) == Next(stage, Failed) == Sifting(ids, found, n + 1)
  {
    var rest := Missing(ids[n + 1..], found[n + 1..]);
    assert ids[n..][1..] == ids[n + 1..] && found[n..][1..] == found[n + 1..];
    assert ([ids[n]] + rest)[1..] == rest;
  }

  lemma PresentOfOne(last: Option<Envelope>)
    ensures Present([last]) == if last.Some? then [last.value] else []
  {
    assert [last][1..] == [];
  }

  lemma {:induction false} PresentAppend(found: seq<Option<Envelope>>, last: Option<Envelope>)
    ensures Present(found + [last]) == Present(found) + Present([last])
  {
    if found == [] {
      assert found + [last] == [last];
    } else {
      var first := if found[0].Some? then [found[0].value] else [];
      PresentAppend(found[1..], last);
      assert (found + [last])[1..] == found[1..] + [last];
      assert first + (Present(found[1..]) + Present([last])) == (first + Present(found[1..])) + Present([last]);
    }
  }

  lemma NextPresent(found: seq<Option<Envelope>>, n: nat)
    requires n < |found|
    ensures Present(found[..n + 1]) == Present(found[..n]) + if found[n].Some? then [found[n].value] else []
  {
    PresentAppend(found[..n], found[n]);
    PresentOfOne(found[n]);
    assert found[..n + 1] == found[..n] + [found[n]];
  }

  /** The due lookup: index, payloads, and the orphans dropped as they are met; None if either read failed. */
  method Due(pass: Pass, now: int, limit: nat) returns (envs: Option<seq<Envelope>>)
    requires pass.Valid() && pass.stage == Start(now, limit)
    modifies pass
    ensures pass.Valid()
    ensures match envs
            case None => pass.stage.Over?
            case Some(batch) => pass.stage == Publishing(batch) || (batch == [] && pass.stage.Over?)
  {
    var due := pass.Ask(FindDue(now, limit));
    if due.Failed? {
      return None;
    }
    var ids := due.ids;
    if |ids| == 0 {
      return Some([]);
    }
    var loaded := pass.Ask(LoadPayloads(ids));
    if loaded.Failed? {
      return None;
    }
    var out := KeepPresent(pass, ids, loaded.found);
    return Some(out);
  }

  /** The loop over the loaded payloads: what is missing is dropped from the index, what is present is kept. */
  method KeepPresent(pass: Pass, ids: seq<string>, found: seq<Option<Envelope>>) returns (out: seq<Envelope>)
    requires |ids| == |found| && pass.Valid() && pass.stage == WithOrphans(Missing(ids, found), Present(found))
    modifies pass
    ensures pass.Valid() && out == Present(found) && pass.stage == Publishing(out)
  {
    out := [];
    assert ids[0..] == ids && found[0..] == found;
    for i := 0 to |ids|
      invariant pass.Valid() && out == Present(found[..i]) && pass.stage == Sifting(ids, found, i)
    {
      SiftingStep(ids, found, i);
      NextPresent(found, i);
      if found[i].None? {
        var _ := pass.Ask(DropOrphan(ids[i]));
      } else {
        out := out + [found[i].value];
      }
    }
    assert found[..|ids|] == found && ids[|ids|..] == [];
  }

  /** One pass, whatever the stores answer and whoever else uses them meanwhile: it makes the protocol's calls to
      the end, removes an envelope only right after that envelope's own re-enqueue succeeded, and re-enqueues
      every envelope it found exactly once, in due order. */
  method Tick(pass: Pass, now: int, batch: int)
    requires pass.Valid() && pass.trace == []
    requires pass.stage == pass.start == Start(now, if batch <= 0 then DEFAULT_BATCH else batch)
    modifies pass
    ensures pass.Valid() && Ended(pass.stage)
    ensures RemovesOnlyReenqueued(pass.trace)
    ensures Reenqueued(pass.trace) == Loaded(pass.trace)
  {
    var limit: nat := if batch <= 0 then DEFAULT_BATCH else batch;
    var found := Due(pass, now, limit);
    if found.Some? {
      var envs := found.value;
      assert envs[0..] == envs;
      for i := 0 to |envs|
        invariant pass.Valid()
        invariant pass.stage == Publishing(envs[i..]) || (envs == [] && pass.stage.Over?)
      {
        assert envs[i..][1..] == envs[i + 1..];
        var published := pass.Ask(PublishEnvelope(envs[i]));
        if published.Appended? {
          var _ := pass.Ask(RemoveEnvelope(envs[i].id));
        }
      }
      assert envs[|envs|..] == [];
    }
    EveryPassRemovesOnlyReenqueued(pass.start, pass.trace, pass.stage);
    EverythingFoundIsReenqueued(pass.start, pass.trace, pass.stage);
  }

  // ---- What every pass does ----

  /** The envelopes asked to be re-enqueued, in order. */
  function Reenqueued(trace: seq<Exchange>): seq<Envelope> {
    if trace == [] then []
    else (if trace[0].call.PublishEnvelope? then [trace[0].call.envelope] else []) + Reenqueued(trace[1..])
  }

  /** The envelopes the lookup found, in order. */
  function Loaded(trace: seq<Exchange>): seq<Envelope> {
    if trace == [] then []
    else (if trace[0].answer.Payloads? then Present(trace[0].answer.found) else []) + Loaded(trace[1..])
  }

  /** Every removal directly follows the successful re-enqueue of the envelope it removes. */
  ghost predicate RemovesOnlyReenqueued(trace: seq<Exchange>) {
    forall k :: 0 <= k < |trace| && trace[k].call.RemoveEnvelope? ==>
        k >= 1 && Reenqueues(trace[k - 1], trace[k].call.id)
  }

  predicate Reenqueues(e: Exchange, id: string) {
    e.call.PublishEnvelope? && e.answer.Appended? && e.call.envelope.id == id
  }

  lemma {:induction false} RemovalFollowsReenqueue(from: Stage, trace: seq<Exchange>, to: Stage, k: nat)
    requires Talk(from, trace, to) && k < |trace| && trace[k].call.RemoveEnvelope?
    ensures k == 0 ==> from.Removing? && from.envelope.id == trace[0].call.id
    ensures k > 0 ==> Reenqueues(trace[k - 1], trace[k].call.id)
    decreases |trace|
  {
    if k > 0 {
      RemovalFollowsReenqueue(Next(from, trace[0].answer), trace[1..], to, k - 1);
    }
  }

  lemma EveryPassRemovesOnlyReenqueued(start: Stage, trace: seq<Exchange>, to: Stage)
    requires start.Start? && Talk(start, trace, to)
    ensures RemovesOnlyReenqueued(trace)
  {
    forall k | 0 <= k < |trace| && trace[k].call.RemoveEnvelope?
      ensures k >= 1 && Reenqueues(trace[k - 1], trace[k].call.id)
    {
      RemovalFollowsReenqueue(start, trace, to, k);
    }
  }

  /** What a stage still has to re-enqueue. */
  function Owed(stage: Stage): seq<Envelope> {
    match stage
    case Dropping(_, batch) => batch
    case Publishing(batch) => batch
    case Removing(_, rest) => rest
    case _ => []
  }

  lemma {:induction false} EverythingFoundIsReenqueued(from: Stage, trace: seq<Exchange>, to: Stage)
    requires Talk(from, trace, to) && Ended(to)
    ensures Reenqueued(trace) == Owed(from) + Loaded(trace)
    ensures !from.Start? && !from.Reading? ==> Loaded(trace) == []
    decreases |trace|
  {
    if trace != [] {
      EverythingFoundIsReenqueued(Next(from, trace[0].answer), trace[1..], to);
    }
  }
}
