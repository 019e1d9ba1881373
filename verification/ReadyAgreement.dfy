/** Every ready event of a deployment says the same: first emissions, emissions by other workers, and
    re-emissions from the stored manifest, over whole runs. */
module ReadyAgreement {
  import opened Wrappers
  import opened Types
  import opened Protocol
  import opened Machine
  import opened NoLoss
  import opened ArtifactComplete
  import ReadyEvent

  function KeyOf(c: Config, pins: map<string, Pin>, dep: string): string {
    c.manifestKey(dep, Identity(PinOf(pins, dep).rec))
  }

  /** Manifests have keys of their own, and a stored manifest yields the event of the export that stored it,
      whatever the record's status by then. */
  ghost predicate EventsRebuild(c: Config, pins: map<string, Pin>) {
    && (forall dep, rec :: c.manifestKey(dep, Identity(rec)) == c.manifestKey(dep, rec))
    && (forall dep, rec, files, m :: c.facts(dep, Identity(rec), files, m) == c.facts(dep, rec, files, m))
    && (forall dep, rec, files, m :: c.facts(dep, rec, files, m).dep == dep)
    && (forall dep, m :: IsManifest(c, pins, dep, m) ==> m.key == KeyOf(c, pins, dep))
    && (forall dep, i, d :: 0 <= i < |ObjectsOf(c, pins, dep)| && d in pins ==>
          ObjectsOf(c, pins, dep)[i].key != KeyOf(c, pins, d))
    && (forall d, e :: d in pins && e in pins && KeyOf(c, pins, d) == KeyOf(c, pins, e) ==> d == e)
    && (forall dep, m, rec :: IsManifest(c, pins, dep, m) && Identity(rec) == Identity(PinOf(pins, dep).rec) ==>
          c.storedFacts(dep, rec, m.body)
              == Some(c.facts(dep, Identity(PinOf(pins, dep).rec), PinOf(pins, dep).files, m)))
  }

  /** The one event of a deployment. */
  ghost predicate IsEvent(c: Config, pins: map<string, Pin>, dep: string, facts: ReadyFacts) {
    facts.dep == dep && exists m ::
        IsManifest(c, pins, dep, m) && facts == c.facts(dep, Identity(PinOf(pins, dep).rec), PinOf(pins, dep).files, m)
  }

  lemma EventIsUnique(c: Config, pins: map<string, Pin>, dep: string, a: ReadyFacts, b: ReadyFacts)
    requires IsEvent(c, pins, dep, a) && IsEvent(c, pins, dep, b)
    ensures a == b
  {
  }

  // ---- The invariant ----

  ghost predicate ManifestsKept(c: Config, pins: map<string, Pin>, store: map<string, Object>) {
    forall d :: d in pins && KeyOf(c, pins, d) in store ==>
      exists m :: IsManifest(c, pins, d, m) && store[KeyOf(c, pins, d)].body == m.body
  }

  ghost predicate AboutToEmit(c: Config, pins: map<string, Pin>, job: Job, pc: Pc) {
    pc.Reemitting? || pc.Emitting? ==> IsEvent(c, pins, DepOf(job.payload), pc.facts)
  }

  ghost predicate EventsAgree(c: Config, pins: map<string, Pin>, ready: seq<ReadyFacts>) {
    forall i :: 0 <= i < |ready| ==> IsEvent(c, pins, ready[i].dep, ready[i])
  }

  ghost predicate AgreeInv(c: Config, pins: map<string, Pin>, s: Sys) {
    && ManifestsKept(c, pins, s.w.store)
    && EventsAgree(c, pins, s.w.ready)
    && forall h :: h in s.handlers ==> AboutToEmit(c, pins, s.handlers[h].job, s.handlers[h].pc)
  }

  // ---- Steps ----

  lemma UploadKeepsManifests(c: Config, pins: map<string, Pin>, store: map<string, Object>, dep: string, index: nat)
    requires EventsRebuild(c, pins) && ManifestsKept(c, pins, store) && index < |ObjectsOf(c, pins, dep)|
    ensures ManifestsKept(c, pins, store[ObjectsOf(c, pins, dep)[index].key := ObjectsOf(c, pins, dep)[index]])
  {
  }

  lemma PutKeepsManifests(c: Config, pins: map<string, Pin>, store: map<string, Object>, dep: string, m: Object)
    requires EventsRebuild(c, pins) && ManifestsKept(c, pins, store) && IsManifest(c, pins, dep, m)
    ensures ManifestsKept(c, pins, Put(store, m))
  {
    var after := Put(store, m);
    forall d | d in pins && KeyOf(c, pins, d) in after
      ensures exists n :: IsManifest(c, pins, d, n) && after[KeyOf(c, pins, d)].body == n.body
    {
      if d == dep && after == store[m.key := m] {
        assert IsManifest(c, pins, d, m) && after[KeyOf(c, pins, d)].body == m.body;
      } else {
        assert after[KeyOf(c, pins, d)] == store[KeyOf(c, pins, d)];
      }
    }
  }

  lemma CallKeepsManifests(c: Config, pins: map<string, Pin>, w: World, job: Job, pc: Pc, r: Reply)
    requires EventsRebuild(c, pins) && ManifestsKept(c, pins, w.store)
    requires ExportOk(c, pins, w, job, pc) && Possible(w, OpOf(c, job, pc), r)
    ensures ManifestsKept(c, pins, Perform(w, OpOf(c, job, pc), r).store)
  {
    StoreAfterCall(c, w, job, pc, r);
    if Effective(r) && pc.Uploading? {
      UploadKeepsManifests(c, pins, w.store, DepOf(job.payload), r.index);
    } else if Effective(r) && pc.PuttingManifest? {
      PutKeepsManifests(c, pins, w.store, DepOf(job.payload), pc.manifest);
    }
  }

  /** Only an emission appends to the ready stream, and it appends the handler's event. */
  lemma ReadyAfterCall(c: Config, w: World, job: Job, pc: Pc, r: Reply)
    requires Possible(w, OpOf(c, job, pc), r)
    ensures Perform(w, OpOf(c, job, pc), r).ready ==
            w.ready + if (pc.Reemitting? || pc.Emitting?) && Effective(r) then [pc.facts] else []
  {
  }

  lemma CallKeepsEvents(c: Config, pins: map<string, Pin>, w: World, job: Job, pc: Pc, r: Reply)
    requires EventsAgree(c, pins, w.ready) && AboutToEmit(c, pins, job, pc) && Possible(w, OpOf(c, job, pc), r)
    ensures EventsAgree(c, pins, Perform(w, OpOf(c, job, pc), r).ready)
  {
    ReadyAfterCall(c, w, job, pc, r);
  }

  /** The manifest a redelivery finds is the deployment's own. */
  lemma FetchedIsPinned(c: Config, pins: map<string, Pin>, w: World, job: Job, pc: Pc, r: Reply) returns (m: Object)
    requires EventsRebuild(c, pins) && ManifestsKept(c, pins, w.store) && ExportOk(c, pins, w, job, pc)
    requires pc.FetchingManifest? && r.Found? && Possible(w, OpOf(c, job, pc), r)
    ensures IsManifest(c, pins, DepOf(job.payload), m) && r.body == m.body
  {
    var dep := DepOf(job.payload);
    assert c.manifestKey(dep, pc.rec) == KeyOf(c, pins, dep) by {
      assert c.manifestKey(dep, Identity(pc.rec)) == c.manifestKey(dep, pc.rec);
    }
    m :| IsManifest(c, pins, dep, m) && w.store[KeyOf(c, pins, dep)].body == m.body;
  }

  lemma ReplyKeepsAboutToEmit(c: Config, pins: map<string, Pin>, w: World, job: Job, pc: Pc, r: Reply)
    requires EventsRebuild(c, pins) && ManifestsKept(c, pins, w.store) && ExportOk(c, pins, w, job, pc)
    requires Possible(w, OpOf(c, job, pc), r)
    ensures AboutToEmit(c, pins, job, NextPc(c, job, pc, r))
  {
    var dep := DepOf(job.payload);
    var next := NextPc(c, job, pc, r);
    CarriedFacts(c, job, pc, r);
    if next.Reemitting? {
      var m := FetchedIsPinned(c, pins, w, job, pc, r);
      assert c.storedFacts(dep, pc.rec, m.body) == Some(next.facts);
      assert IsEvent(c, pins, dep, next.facts);
    } else if next.Emitting? {
      assert c.facts(dep, Identity(pc.rec), pc.files, pc.manifest) == next.facts;
      assert IsManifest(c, pins, dep, pc.manifest);
    }
  }

  lemma HandlerStepKeepsAgree(c: Config, pins: map<string, Pin>, s: Sys, h: nat, r: Reply)
    requires EventsRebuild(c, pins) && AgreeInv(c, pins, s) && Enabled(c, s, HandlerStep(h, r))
    requires ExportOk(c, pins, s.w, s.handlers[h].job, s.handlers[h].pc)
    ensures AgreeInv(c, pins, After(c, s, HandlerStep(h, r)))
  {
    var job, pc := s.handlers[h].job, s.handlers[h].pc;
    ReadyEvent.StepFrame(c, s, h, r);
    CallKeepsManifests(c, pins, s.w, job, pc, r);
    CallKeepsEvents(c, pins, s.w, job, pc, r);
    ReplyKeepsAboutToEmit(c, pins, s.w, job, pc, r);
  }

  lemma OtherStepKeepsAgree(c: Config, pins: map<string, Pin>, s: Sys, a: Action)
    requires AgreeInv(c, pins, s) && Enabled(c, s, a) && !a.HandlerStep?
    ensures AgreeInv(c, pins, After(c, s, a))
  {
    var t := After(c, s, a);
    assert t.w.store == s.w.store && t.w.ready == s.w.ready;
  }

  // ---- Whole runs ----

  lemma {:induction false} RunKeepsAgree(c: Config, pins: map<string, Pin>, s: Sys, actions: seq<Action>)
    requires IgnoresStatus(c) && KeysApart(c, pins) && EventsRebuild(c, pins) && Inv(s)
    requires CompleteInv(c, pins, s) && AgreeInv(c, pins, s) && PinnedRun(c, pins, s, actions)
    ensures AgreeInv(c, pins, End(c, s, actions))
    decreases |actions|
  {
    if actions != [] {
      var a := actions[0];
      StepKeepsInv(c, s, a);
      StepKeepsCompleteInv(c, pins, s, a);
      if a.HandlerStep? {
        HandlerStepKeepsAgree(c, pins, s, a.h, a.reply);
      } else {
        OtherStepKeepsAgree(c, pins, s, a);
      }
      RunKeepsAgree(c, pins, After(c, s, a), actions[1..]);
    }
  }

  /** Every event on the outcome stream is the one its pinned deployment has. */
  lemma EveryEventIsPinned(c: Config, pins: map<string, Pin>, s: Sys, actions: seq<Action>, i: nat)
    requires IgnoresStatus(c) && KeysApart(c, pins) && EventsRebuild(c, pins)
    requires Initial(s) && RecordsPinned(s.w.records, pins) && forall d :: d in pins ==> KeyOf(c, pins, d) !in s.w.store
    requires PinnedRun(c, pins, s, actions) && i < |End(c, s, actions).w.ready|
    ensures IsEvent(c, pins, End(c, s, actions).w.ready[i].dep, End(c, s, actions).w.ready[i])
  {
    assert Inv(s) && CompleteInv(c, pins, s) && AgreeInv(c, pins, s);
    RunKeepsAgree(c, pins, s, actions);
  }

  /** Duplicates are exact: in every pinned run that starts without stored manifests, any two ready events of
      one deployment are equal, whoever emitted them, on whichever delivery, freshly or from the store. */
  lemma ReadyEventsOfADeploymentAgree(c: Config, pins: map<string, Pin>, s: Sys, actions: seq<Action>, i: nat, j: nat)
    requires IgnoresStatus(c) && KeysApart(c, pins) && EventsRebuild(c, pins)
    requires Initial(s) && RecordsPinned(s.w.records, pins) && forall d :: d in pins ==> KeyOf(c, pins, d) !in s.w.store
    requires PinnedRun(c, pins, s, actions)
    requires i < |End(c, s, actions).w.ready| && j < |End(c, s, actions).w.ready|
    requires End(c, s, actions).w.ready[i].dep == End(c, s, actions).w.ready[j].dep
    ensures End(c, s, actions).w.ready[i] == End(c, s, actions).w.ready[j]
  {
    EveryEventIsPinned(c, pins, s, actions, i);
    EveryEventIsPinned(c, pins, s, actions, j);
    var ready := End(c, s, actions).w.ready;
    EventIsUnique(c, pins, ready[i].dep, ready[i], ready[j]);
  }
}
