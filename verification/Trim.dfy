/** Retention trimming of the main stream: three separate Redis calls whose bound never passes an
    undelivered entry, nor one that was unacked when the pending list was read. */
module Trim {
  import opened Wrappers
  import opened StreamId

  /** Consumer group state: last-delivered id and the delivered-but-unacked ids. */
  datatype Group = Group(lastDelivered: Id, pending: set<Id>) {
    ghost predicate InRange() {
      lastDelivered.InRange() && forall p :: p in pending ==> p.InRange()
    }
  }

  /** The stream's entries, the last id it handed out, and its consumer group once created. */
  datatype Stream = Stream(entries: set<Id>, last: Id, group: Option<Group>) {
    ghost predicate Valid() {
      && last.InRange()
      && (forall e :: e in entries ==> e.InRange() && e.AtMost(last))
      && (group.Some? ==>
            && group.value.lastDelivered.AtMost(last) && group.value.InRange()
            && forall p :: p in group.value.pending ==> p.AtMost(group.value.lastDelivered))
    }

    ghost predicate Delivered(e: Id) {
      group.Some? && e.AtMost(group.value.lastDelivered)
    }

    ghost predicate Acked(e: Id) {
      Delivered(e) && e !in group.value.pending
    }
  }

  // ---- What others may do to the stream between the worker's calls ----

  /** Trim is another worker's removal, of whatever entries it likes. */
  datatype Step = Publish(id: Id) | CreateGroup | Deliver(id: Id) | Ack(id: Id) | Trim(removed: set<Id>)

  ghost predicate Enabled(s: Stream, step: Step) {
    match step
    case Publish(id) => id.InRange() && s.last.Less(id)
    case CreateGroup => true
    case Deliver(id) =>
      && s.group.Some? && id in s.entries && s.group.value.lastDelivered.Less(id)
      && forall e :: e in s.entries && s.group.value.lastDelivered.Less(e) ==> id.AtMost(e)
    case Ack(id) => s.group.Some?
    case Trim(_) => true
  }

  ghost function After(s: Stream, step: Step): Stream
    requires Enabled(s, step)
  {
    match step
    case Publish(id) => s.(entries := s.entries + {id}, last := id)
    case CreateGroup => if s.group.Some? then s else s.(group := Some(Group(ZERO, {})))
    case Deliver(id) => s.(group := Some(Group(id, s.group.value.pending + {id})))
    case Ack(id) => s.(group := Some(s.group.value.(pending := s.group.value.pending - {id})))
    case Trim(removed) => s.(entries := s.entries - removed)
  }

  ghost predicate Legal(s: Stream, steps: seq<Step>)
    decreases |steps|
  {
    steps == [] || (Enabled(s, steps[0]) && Legal(After(s, steps[0]), steps[1..]))
  }

  ghost function AfterAll(s: Stream, steps: seq<Step>): Stream
    requires Legal(s, steps)
    decreases |steps|
  {
    if steps == [] then s else AfterAll(After(s, steps[0]), steps[1..])
  }

  // ---- The worker's three calls ----

  ghost predicate IsOldest(e: Id, ids: set<Id>) {
    e in ids && forall p :: p in ids ==> e.AtMost(p)
  }

  lemma {:induction false} OldestExists(ids: set<Id>)
    requires ids != {}
    ensures exists e :: IsOldest(e, ids)
  {
    var e :| e in ids;
    if ids == {e} {
      assert IsOldest(e, ids);
    } else {
      OldestExists(ids - {e});
      var other :| IsOldest(other, ids - {e});
      assert forall p :: p in ids ==> p == e || p in ids - {e};
      assert IsOldest(if e.Less(other) then e else other, ids);
    }
  }

  lemma OldestIsUnique(a: Id, b: Id, ids: set<Id>)
    requires IsOldest(a, ids) && IsOldest(b, ids)
    ensures a == b
  {
  }

  ghost function Oldest(ids: set<Id>): (e: Id)
    requires ids != {}
    ensures IsOldest(e, ids)
  {
    OldestExists(ids);
    var e :| IsOldest(e, ids);
    e
  }

  /** The bound after XPENDING: the horizon, capped by the oldest pending id if there is one. */
  ghost function BoundAfterPending(horizonMs: int, group: Group): string {
    if group.pending == {} then MinIdAt(horizonMs)
    else MinStreamId(MinIdAt(horizonMs), Format(Oldest(group.pending)))
  }

  /** The bound after XINFO GROUPS: also capped by the id after the last-delivered one. */
  ghost function BoundAfterGroups(bound: string, group: Group): string {
    MinStreamId(bound, NextStreamId(Format(group.lastDelivered)))
  }

  /** XTRIM MINID removes exactly the entries below its bound. */
  ghost function RemovedBy(s: Stream, bound: string): set<Id> {
    set e | e in s.entries && Parse(bound).Some? && e.Less(Parse(bound).value)
  }

  /** What bounds a removal, said without text: the horizon (when it has a valid id), every pending id,
      and the id after the last-delivered one. */
  ghost predicate BelowAllBounds(e: Id, horizonMs: int, pending: set<Id>, lastDelivered: Id) {
    && (horizonMs >= 0 ==> e.Less(Id(horizonMs, 0)))
    && (forall p :: p in pending ==> e.Less(p))
    && e.Less(Successor(lastDelivered))
  }

  const MAX_INT64: int := 0x7FFF_FFFF_FFFF_FFFF

  lemma BoundDenotesMinimum(e: Id, horizonMs: int, atPending: Group, atGroups: Group)
    requires horizonMs <= MAX_INT64
    requires atGroups.InRange() && atPending.InRange()
    ensures var bound := BoundAfterGroups(BoundAfterPending(horizonMs, atPending), atGroups);
            && Parse(bound).Some?
            && (e.Less(Parse(bound).value) <==> BelowAllBounds(e, horizonMs, atPending.pending, atGroups.lastDelivered))
  {
    HorizonParses(horizonMs);
    NextParses(atGroups.lastDelivered);
    var first := BoundAfterPending(horizonMs, atPending);
    if atPending.pending != {} {
      var oldest := Oldest(atPending.pending);
      ParseOfFormatted(oldest);
      assert (forall p :: p in atPending.pending ==> e.Less(p)) <==> e.Less(oldest);
    }
  }

  // ---- Safety over interleavings ----

  lemma StepKeepsValid(s: Stream, step: Step)
    requires s.Valid() && Enabled(s, step)
    ensures After(s, step).Valid()
    ensures s.group.Some? ==>
              After(s, step).group.Some? && s.group.value.lastDelivered.AtMost(After(s, step).group.value.lastDelivered)
    ensures !step.Trim? ==> s.entries <= After(s, step).entries
    ensures forall e :: s.Acked(e) ==> After(s, step).Acked(e)
  {
  }

  lemma {:induction false} StepsKeepValid(s: Stream, steps: seq<Step>)
    requires s.Valid() && Legal(s, steps)
    ensures AfterAll(s, steps).Valid()
    ensures s.group.Some? ==>
              AfterAll(s, steps).group.Some?
                  && s.group.value.lastDelivered.AtMost(AfterAll(s, steps).group.value.lastDelivered)
    ensures forall e :: s.Acked(e) ==> AfterAll(s, steps).Acked(e)
    decreases |steps|
  {
    if steps != [] {
      StepKeepsValid(s, steps[0]);
      StepsKeepValid(After(s, steps[0]), steps[1..]);
    }
  }

  /** The cursor never skips an entry: whatever it passes was delivered on the way. */
  lemma {:induction false} PassedMeansDelivered(s: Stream, steps: seq<Step>, e: Id)
    requires s.Valid() && Legal(s, steps) && s.group.Some?
    requires e in s.entries || s.last.Less(e)
    requires s.group.value.lastDelivered.Less(e)
    requires e in AfterAll(s, steps).entries && AfterAll(s, steps).Delivered(e)
    ensures Deliver(e) in steps
    decreases |steps|
  {
    if steps != [] {
      StepKeepsValid(s, steps[0]);
      var next := After(s, steps[0]);
      if steps[0] != Deliver(e) {
        if e !in next.entries && !next.last.Less(e) {
          PublishedOnce(next, steps[1..], e);
        }
        PassedMeansDelivered(next, steps[1..], e);
      }
    }
  }

  /** An id the stream has passed without holding it never appears later. */
  lemma {:induction false} PublishedOnce(s: Stream, steps: seq<Step>, e: Id)
    requires s.Valid() && Legal(s, steps) && e !in s.entries && e.AtMost(s.last)
    ensures e !in AfterAll(s, steps).entries
    decreases |steps|
  {
    if steps != [] {
      StepKeepsValid(s, steps[0]);
      PublishedOnce(After(s, steps[0]), steps[1..], e);
    }
  }

  /** The stream when the removal happens, and the bound the two reads gave. */
  ghost predicate IsTrim(s: Stream, between: seq<Step>, after: seq<Step>, horizonMs: int) {
    && s.Valid() && s.group.Some? && horizonMs <= MAX_INT64
    && Legal(s, between) && AfterAll(s, between).group.Some? && Legal(AfterAll(s, between), after)
  }

  ghost function AtRemoval(s: Stream, between: seq<Step>, after: seq<Step>, horizonMs: int): Stream
    requires IsTrim(s, between, after, horizonMs)
  {
    AfterAll(AfterAll(s, between), after)
  }

  ghost function RemovedInAll(s: Stream, between: seq<Step>, after: seq<Step>, horizonMs: int): set<Id>
    requires IsTrim(s, between, after, horizonMs)
  {
    RemovedBy(AtRemoval(s, between, after, horizonMs),
              BoundAfterGroups(BoundAfterPending(horizonMs, s.group.value), AfterAll(s, between).group.value))
  }

  /** Everything TrimMain removes, under any interleaving with producers, consumers and other workers' trims, is
      delivered and older than the horizon, and is acked unless it was delivered exactly between the two reads. */
  lemma TrimRemovesOnlySpentEntries(s: Stream, between: seq<Step>, after: seq<Step>, horizonMs: int, e: Id)
    requires IsTrim(s, between, after, horizonMs) && e in RemovedInAll(s, between, after, horizonMs)
    ensures horizonMs >= 0 ==> e.Less(Id(horizonMs, 0))
    ensures AfterAll(AfterAll(s, between), after).Delivered(e)
    ensures AfterAll(AfterAll(s, between), after).Acked(e) || Deliver(e) in between
  {
    var mid := AfterAll(s, between);
    var end := AfterAll(mid, after);
    StepsKeepValid(s, between);
    StepsKeepValid(mid, after);
    BoundDenotesMinimum(e, horizonMs, s.group.value, mid.group.value);
    SuccessorIsLeastAbove(mid.group.value.lastDelivered);
    if s.Delivered(e) {
      assert s.Acked(e);
    } else {
      if e !in mid.entries {
        EntryPublishedAfter(mid, after, e);
      }
      if e !in s.entries && !s.last.Less(e) {
        PublishedOnce(s, between, e);
      }
      PassedMeansDelivered(s, between, e);
    }
  }

  lemma {:induction false} EntryPublishedAfter(s: Stream, steps: seq<Step>, e: Id)
    requires s.Valid() && Legal(s, steps) && e !in s.entries && e in AfterAll(s, steps).entries
    ensures s.last.Less(e)
    decreases |steps|
  {
    if !s.last.Less(e) {
      PublishedOnce(s, steps, e);
    }
  }

  /** A delivery in between is of an id after the first read's last-delivered one, up to the second's. */
  lemma {:induction false} DeliveryMovesCursor(s: Stream, steps: seq<Step>, e: Id)
    requires s.Valid() && s.group.Some? && Legal(s, steps) && Deliver(e) in steps
    ensures s.group.value.lastDelivered.Less(e) && e.InRange()
    ensures AfterAll(s, steps).group.Some? && e.AtMost(AfterAll(s, steps).group.value.lastDelivered)
    decreases |steps|
  {
    StepKeepsValid(s, steps[0]);
    var next := After(s, steps[0]);
    StepsKeepValid(next, steps[1..]);
    if steps[0] != Deliver(e) {
      DeliveryMovesCursor(next, steps[1..], e);
    }
  }

  /** Which entries are removed unacked, for every interleaving: exactly those delivered between the reads and
      still there unacked, older than the horizon, when nothing was pending at the first read. (At the very
      last id the successor wraps and nothing is removed.) */
  lemma UnackedRemovalIff(s: Stream, between: seq<Step>, after: seq<Step>, horizonMs: int, e: Id)
    requires IsTrim(s, between, after, horizonMs)
    ensures var end := AtRemoval(s, between, after, horizonMs);
            (e in RemovedInAll(s, between, after, horizonMs) && !end.Acked(e)) <==>
              && s.group.value.pending == {} && Deliver(e) in between
              && e in end.entries && !end.Acked(e) && (horizonMs >= 0 ==> e.Less(Id(horizonMs, 0)))
              && AfterAll(s, between).group.value.lastDelivered != LAST
  {
    var mid := AfterAll(s, between).group.value;
    StepsKeepValid(s, between);
    BoundDenotesMinimum(e, horizonMs, s.group.value, mid);
    SuccessorIsLeastAbove(mid.lastDelivered);
    if e in RemovedInAll(s, between, after, horizonMs) && !AtRemoval(s, between, after, horizonMs).Acked(e) {
      TrimRemovesOnlySpentEntries(s, between, after, horizonMs, e);
    }
    if Deliver(e) in between {
      DeliveryMovesCursor(s, between, e);
    }
  }

  ghost predicate OnlySpentRemoved(s: Stream, between: seq<Step>, after: seq<Step>, horizonMs: int) {
    IsTrim(s, between, after, horizonMs) ==>
      forall e :: e in RemovedInAll(s, between, after, horizonMs) ==>
        AtRemoval(s, between, after, horizonMs).Acked(e) && (horizonMs >= 0 ==> e.Less(Id(horizonMs, 0)))
  }

  /** The safety theorem: if something is pending at the first read, or nothing is delivered between the two
      reads, every removed entry is delivered, acked and older than the horizon. */
  lemma TrimNeverRemovesUnackedEntry(s: Stream, between: seq<Step>, after: seq<Step>, horizonMs: int)
    requires IsTrim(s, between, after, horizonMs)
    requires s.group.value.pending != {} || forall step :: step in between ==> !step.Deliver?
    ensures OnlySpentRemoved(s, between, after, horizonMs)
  {
    forall e | e in RemovedInAll(s, between, after, horizonMs)
      ensures AtRemoval(s, between, after, horizonMs).Acked(e) && (horizonMs >= 0 ==> e.Less(Id(horizonMs, 0)))
    {
      TrimRemovesOnlySpentEntries(s, between, after, horizonMs, e);
      UnackedRemovalIff(s, between, after, horizonMs, e);
    }
  }

  // ---- When a trim is safe whatever happens meanwhile ----

  /** An id that may still be delivered and is old enough to be trimmed. */
  ghost predicate CouldBeLost(s: Stream, horizonMs: int, e: Id)
    requires s.group.Some?
  {
    && e.InRange() && e != LAST && (horizonMs >= 0 ==> e.Less(Id(horizonMs, 0)))
    && s.group.value.lastDelivered.Less(e) && (e in s.entries || s.last.Less(e))
  }

  lemma DeliveredCouldBeLost(s: Stream, between: seq<Step>, after: seq<Step>, horizonMs: int, e: Id)
    requires IsTrim(s, between, after, horizonMs)
    requires e in RemovedInAll(s, between, after, horizonMs) && !AtRemoval(s, between, after, horizonMs).Acked(e)
    ensures s.group.value.pending == {} && CouldBeLost(s, horizonMs, e)
  {
    var mid := AfterAll(s, between);
    UnackedRemovalIff(s, between, after, horizonMs, e);
    DeliveryMovesCursor(s, between, e);
    StepsKeepValid(s, between);
    StepsKeepValid(mid, after);
    if e !in s.entries && !s.last.Less(e) {
      PublishedOnce(s, between, e);
      EntryPublishedAfter(mid, after, e);
    }
  }

  /** With nothing pending, delivering the next entry between the reads loses it. */
  lemma NextDeliveryIsLost(s: Stream, horizonMs: int, e: Id)
    requires s.Valid() && s.group.Some? && s.group.value.pending == {} && horizonMs <= MAX_INT64
    requires Enabled(s, Deliver(e)) && CouldBeLost(s, horizonMs, e)
    ensures !OnlySpentRemoved(s, [Deliver(e)], [], horizonMs)
  {
    var t := After(s, Deliver(e));
    assert [Deliver(e)][1..] == [];
    assert Legal(t, []) && AfterAll(t, []) == t;
    assert AfterAll(s, [Deliver(e)]) == t;
    assert IsTrim(s, [Deliver(e)], [], horizonMs) && AtRemoval(s, [Deliver(e)], [], horizonMs) == t;
    UnackedRemovalIff(s, [Deliver(e)], [], horizonMs, e);
  }

  /** The same with the entry published first. */
  lemma PublishedDeliveryIsLost(s: Stream, horizonMs: int, e: Id)
    requires s.Valid() && s.group.Some? && s.group.value.pending == {} && horizonMs <= MAX_INT64
    requires s.last.Less(e) && CouldBeLost(s, horizonMs, e)
    requires forall d :: d in s.entries ==> d.AtMost(s.group.value.lastDelivered)
    ensures !OnlySpentRemoved(s, [Publish(e), Deliver(e)], [], horizonMs)
  {
    var steps := [Publish(e), Deliver(e)];
    var s1 := After(s, Publish(e));
    var t := After(s1, Deliver(e));
    assert steps[1..] == [Deliver(e)] && [Deliver(e)][1..] == [];
    assert Legal(t, []) && AfterAll(t, []) == t;
    assert AfterAll(s1, [Deliver(e)]) == t;
    assert AfterAll(s, steps) == t;
    assert Legal(s1, [Deliver(e)]) && Legal(s, steps);
    assert AfterAll(AfterAll(s, steps), []) == t;
    assert IsTrim(s, steps, [], horizonMs) && AtRemoval(s, steps, [], horizonMs) == t;
    UnackedRemovalIff(s, steps, [], horizonMs, e);
  }

  /** The exact condition, read off the stream before the first call: a trim removes only acked entries older than
      the horizon, whatever happens between its calls, iff something is pending or no id that may still be
      delivered is old enough to be trimmed. */
  lemma TrimIsSafeIff(s: Stream, horizonMs: int)
    requires s.Valid() && s.group.Some? && horizonMs <= MAX_INT64
    ensures (forall between, after :: OnlySpentRemoved(s, between, after, horizonMs)) <==>
              s.group.value.pending != {} || forall e :: !CouldBeLost(s, horizonMs, e)
  {
    if s.group.value.pending != {} || forall e :: !CouldBeLost(s, horizonMs, e) {
      forall between, after
        ensures OnlySpentRemoved(s, between, after, horizonMs)
      {
        if IsTrim(s, between, after, horizonMs) {
          OtherwiseSafe(s, between, after, horizonMs);
        }
      }
    } else {
      var e :| CouldBeLost(s, horizonMs, e);
      SomethingIsLost(s, horizonMs, e);
    }
  }

  lemma OtherwiseSafe(s: Stream, between: seq<Step>, after: seq<Step>, horizonMs: int)
    requires IsTrim(s, between, after, horizonMs)
    requires s.group.value.pending != {} || forall e :: !CouldBeLost(s, horizonMs, e)
    ensures OnlySpentRemoved(s, between, after, horizonMs)
  {
    forall e | e in RemovedInAll(s, between, after, horizonMs)
      ensures AtRemoval(s, between, after, horizonMs).Acked(e) && (horizonMs >= 0 ==> e.Less(Id(horizonMs, 0)))
    {
      TrimRemovesOnlySpentEntries(s, between, after, horizonMs, e);
      if !AtRemoval(s, between, after, horizonMs).Acked(e) {
        DeliveredCouldBeLost(s, between, after, horizonMs, e);
      }
    }
  }

  lemma SomethingIsLost(s: Stream, horizonMs: int, e: Id)
    requires s.Valid() && s.group.Some? && s.group.value.pending == {} && horizonMs <= MAX_INT64
    requires CouldBeLost(s, horizonMs, e)
    ensures exists between, after :: !OnlySpentRemoved(s, between, after, horizonMs)
  {
    var waiting := set d | d in s.entries && s.group.value.lastDelivered.Less(d);
    if waiting == {} {
      assert forall d :: d in s.entries ==> d !in waiting;
      PublishedDeliveryIsLost(s, horizonMs, e);
    } else {
      var next := Oldest(waiting);
      assert next.AtMost(e);
      NextDeliveryIsLost(s, horizonMs, next);
    }
  }

  /** Such a stream: one old entry, undelivered, and nothing pending. */
  lemma DeliveryBetweenReadsLosesAnEntry()
    ensures var e := Id(1000, 0);
            var s := Stream({e}, e, Some(Group(ZERO, {})));
            && s.Valid() && CouldBeLost(s, 2000, e) && !OnlySpentRemoved(s, [Deliver(e)], [], 2000)
  {
    var e := Id(1000, 0);
    NextDeliveryIsLost(Stream({e}, e, Some(Group(ZERO, {}))), 2000, e);
  }

  /** Whether an entry falls below the bound when both reads see the same group state. */
  ghost predicate TrimmedAtomically(e: Id, horizonMs: int, group: Group) {
    var bound := Parse(BoundAfterGroups(BoundAfterPending(horizonMs, group), group));
    bound.Some? && e.Less(bound.value)
  }

  /** A horizon before the epoch has no valid id, so it bounds nothing: for such horizons an acked entry
      of any age is removed, and only for such horizons. */
  lemma HorizonBoundsIffAtEpochOrLater(horizonMs: int)
    requires horizonMs <= MAX_INT64
    ensures (forall group: Group, e: Id :: group.InRange() && TrimmedAtomically(e, horizonMs, group) ==>
              e.ms < horizonMs)
            <==> horizonMs >= 0
  {
    forall group: Group, e: Id | group.InRange()
      ensures TrimmedAtomically(e, horizonMs, group) <==>
                BelowAllBounds(e, horizonMs, group.pending, group.lastDelivered)
    {
      BoundDenotesMinimum(e, horizonMs, group, group);
    }
    if horizonMs < 0 {
      var group, e := Group(Id(1000, 0), {}), Id(1000, 0);
      assert Successor(Id(1000, 0)) == Id(1000, 1);
      assert BelowAllBounds(e, horizonMs, group.pending, group.lastDelivered);
      assert TrimmedAtomically(e, horizonMs, group);
    }
  }

  // ---- The driver, run without interference ----

  lemma UndisturbedRemoval(s: Stream, horizonMs: int)
    requires s.group.Some? && s.group.value.InRange() && horizonMs <= MAX_INT64
    ensures var group := s.group.value;
            RemovedBy(s, BoundAfterGroups(BoundAfterPending(horizonMs, group), group))
              == set e | e in s.entries && BelowAllBounds(e, horizonMs, group.pending, group.lastDelivered)
  {
    forall e: Id
      ensures TrimmedAtomically(e, horizonMs, s.group.value) <==>
                BelowAllBounds(e, horizonMs, s.group.value.pending, s.group.value.lastDelivered)
    {
      BoundDenotesMinimum(e, horizonMs, s.group.value, s.group.value);
    }
  }

  class RedisDriver {
    var entries: set<Id>
    var last: Id
    var group: Option<Group>

    ghost function View(): Stream
      reads this
    {
      Stream(entries, last, group)
    }

    constructor (s: Stream)
      ensures View() == s
    {
      entries, last, group := s.entries, s.last, s.group;
    }

    /** XPENDING summary: the text of the oldest pending id, "" when nothing is pending. */
    method XPending() returns (lower: string)
      requires group.Some?
      ensures group.value.pending == {} ==> lower == ""
      ensures group.value.pending != {} ==> lower == Format(Oldest(group.value.pending))
    {
      var todo := group.value.pending;
      if todo == {} {
        return "";
      }
      var oldest :| oldest in todo;
      todo := todo - {oldest};
      ghost var seen := {oldest};
      while todo != {}
        invariant seen + todo == group.value.pending && oldest in seen
        invariant forall p :: p in seen ==> oldest.AtMost(p)
        decreases todo
      {
        var p :| p in todo;
        seen := seen + {p};
        if p.Less(oldest) {
          oldest := p;
        }
        todo := todo - {p};
      }
      OldestIsUnique(oldest, Oldest(group.value.pending), group.value.pending);
      lower := Format(oldest);
    }

    /** XTRIM MINID. */
    method XTrimMinId(bound: string) returns (removed: nat)
      modifies this`entries
      ensures entries == old(entries) - RemovedBy(old(View()), bound)
      ensures removed == |RemovedBy(old(View()), bound)|
    {
      var minId := Parse(bound);
      var spent := set e | e in entries && minId.Some? && e.Less(minId.value);
      assert spent == RemovedBy(View(), bound);
      entries := entries - spent;
      removed := |spent|;
    }

    /** Entries older than the horizon go; a pre-epoch horizon removes nothing. */
    method TrimStream(horizonMs: int) returns (removed: nat)
      requires horizonMs <= MAX_INT64
      modifies this`entries
      ensures entries == set e | e in old(entries) && !(horizonMs >= 0 && e.Less(Id(horizonMs, 0)))
      ensures removed == |old(entries) - entries|
    {
      HorizonParses(horizonMs);
      removed := XTrimMinId(MinIdAt(horizonMs));
      assert RemovedBy(old(View()), MinIdAt(horizonMs)) == old(entries) - entries;
    }

    /** Narrows the bound call by call, then trims; without a consumer group nothing is trimmed. */
    method TrimMain(horizonMs: int) returns (removed: nat)
      requires View().Valid() && horizonMs <= MAX_INT64
      modifies this`entries
      ensures View().Valid()
      ensures group.None? ==> removed == 0 && entries == old(entries)
      ensures group.Some? ==>
                entries == set e | e in old(entries)
                    && !BelowAllBounds(e, horizonMs, group.value.pending, group.value.lastDelivered)
      ensures removed == |old(entries) - entries|
    {
      var minId := MinIdAt(horizonMs);
      if group.None? {
        assert old(entries) - entries == {};
        return 0;
      }
      var lower := XPending();
      if lower != "" {
        minId := MinStreamId(minId, lower);
      }
      assert minId == BoundAfterPending(horizonMs, group.value);
      minId := MinStreamId(minId, NextStreamId(Format(group.value.lastDelivered)));
      UndisturbedRemoval(View(), horizonMs);
      removed := XTrimMinId(minId);
      assert RemovedBy(old(View()), minId) == old(entries) - entries;
    }
  }
}
