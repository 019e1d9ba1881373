/** The main stream with its consumer group, and the dead-letter stream, changed in place by the driver's calls. */
module Queue {
  import opened Wrappers
  import opened Decimal
  import opened ErrClass
  import opened Types
  import StreamId

  // ---- Entry fields ----

  datatype Outgoing = Outgoing(payload: Bytes, attempt: int, lastErrorCode: string, traceId: string)

  const MIN_INT64: int := -0x8000_0000_0000_0000
  const MAX_INT64: int := 0x7FFF_FFFF_FFFF_FFFF

  /** strconv.Atoi: an optional sign, then decimal digits, within the 64-bit range. */
  function Atoi(s: string): Option<int> {
    var signed := s != "" && (s[0] == '-' || s[0] == '+');
    var digits := if signed then s[1..] else s;
    if digits == "" then None
    else
      match DigitsValue(digits)
      case None => None
      case Some(v) =>
        var n: int := if signed && s[0] == '-' then 0 - v else v;
        if MIN_INT64 <= n <= MAX_INT64 then Some(n) else None
  }

  /** The fields of an appended entry; empty metadata is left out. */
  function Values(m: Outgoing): map<string, string> {
    map["payload" := m.payload, "attempt" := Itoa(m.attempt)]
    + (if m.lastErrorCode != "" then map["lastErrorCode" := m.lastErrorCode] else map[])
    + (if m.traceId != "" then map["traceId" := m.traceId] else map[])
  }

  function FieldOf(values: map<string, string>, name: string): string {
    if name in values then values[name] else ""
  }

  /** What a consumer makes of an entry's fields; an unreadable attempt counts as an original publish. */
  function FromValues(values: map<string, string>): Outgoing {
    var attempt := Atoi(FieldOf(values, "attempt"));
    Outgoing(FieldOf(values, "payload"), if attempt.Some? then attempt.value else 0,
             FieldOf(values, "lastErrorCode"), FieldOf(values, "traceId"))
  }

  lemma AtoiOfItoa(n: int)
    requires MIN_INT64 <= n <= MAX_INT64
    ensures Atoi(Itoa(n)) == Some(n)
  {
    var s := Itoa(n);
    if n < 0 {
      DigitsValueOfFormat(-n);
      assert s[0] == '-' && s[1..] == FormatUint(-n);
    } else {
      DigitsValueOfFormat(n);
      assert IsDigit(s[0]);
    }
  }

  /** The attempt counter and the metadata survive the stream: what is delivered is what was published. */
  lemma DeliveredIsPublished(m: Outgoing)
    requires MIN_INT64 <= m.attempt <= MAX_INT64
    ensures FromValues(Values(m)) == m
  {
    AtoiOfItoa(m.attempt);
    assert "payload"[0] == 'p' && "attempt"[0] == 'a' && "lastErrorCode"[0] == 'l' && "traceId"[0] == 't';
  }

  /** An entry whose attempt is missing or is no number counts as an original publish. */
  lemma ForeignEntryIsOriginal(values: map<string, string>)
    requires "attempt" !in values || forall i :: 0 <= i < |values["attempt"]| ==> !IsDigit(values["attempt"][i])
    ensures FromValues(values).attempt == 0
  {
    var text := FieldOf(values, "attempt");
    if text != "" {
      assert !IsDigit(text[|text| - 1]);
    }
  }

  /** The enqueue time is the millisecond half of the entry id; none if the id is malformed. */
  function EnqueueTimeOf(entryId: string): Option<int> {
    var cut := StreamId.Cut(entryId, '-');
    if cut.1.None? then None else Atoi(cut.0)
  }

  lemma EnqueueTimeIsTheIdsTime(id: StreamId.Id)
    requires id.ms <= MAX_INT64
    ensures EnqueueTimeOf(StreamId.Format(id)) == Some(id.ms)
  {
    StreamId.DigitsHoldNoDash(id.ms);
    StreamId.CutAtSeparator(FormatUint(id.ms), FormatUint(id.count), '-');
    DigitsValueOfFormat(id.ms);
    assert IsDigit(FormatUint(id.ms)[0]);
  }

  // ---- The driver ----

  datatype Message = Message(position: nat, entry: Entry)

  /** How a call to the streams goes: done, failed having done nothing, or done without an answer. */
  datatype Delivery = Delivered | NotDone | Unanswered

  /** Everything a dead letter keeps for inspection and replay. */
  datatype DlqEntry = DlqEntry(
    payload: Payload, code: Code, stage: string, attempt: int, traceId: string, workerId: string,
    enqueuedAt: Option<int>, failedAt: int)

  class MainQueue {
    var log: seq<Entry>
    var cursor: nat
    var pending: set<nat>
    var dlq: seq<DlqEntry>

    constructor ()
      ensures Valid() && log == [] && dlq == []
    {
      log, cursor, pending, dlq := [], 0, {}, [];
    }

    ghost predicate Valid()
      reads this
    {
      cursor <= |log| && forall i :: i in pending ==> i < cursor
    }

    /** XADD; a lost reply is an append that reports an error. */
    method Publish(e: Entry, call: Delivery) returns (ok: bool)
      requires Valid()
      modifies this`log
      ensures Valid() && ok == call.Delivered?
      ensures log == if call.NotDone? then old(log) else old(log) + [e]
    {
      if !call.NotDone? {
        log := log + [e];
      }
      ok := call.Delivered?;
    }

    /** XREADGROUP: the next undelivered entries, in order, become pending; COUNT 0 means all. */
    method Fetch(max: nat) returns (out: seq<Message>)
      requires Valid()
      modifies this`cursor, this`pending
      ensures Valid()
      ensures |out| == (if max == 0 || |log| - old(cursor) < max then |log| - old(cursor) else max)
      ensures forall k :: 0 <= k < |out| ==> out[k] == Message(old(cursor) + k, log[old(cursor) + k])
      ensures cursor == old(cursor) + |out|
      ensures forall i: nat :: i in pending <==> i in old(pending) || old(cursor) <= i < cursor
    {
      out := [];
      while cursor < |log| && (max == 0 || |out| < max)
        invariant Valid() && cursor == old(cursor) + |out| && (max == 0 || |out| <= max)
        invariant forall k :: 0 <= k < |out| ==> out[k] == Message(old(cursor) + k, log[old(cursor) + k])
        invariant forall i: nat :: i in pending <==> i in old(pending) || old(cursor) <= i < cursor
        decreases |log| - cursor
      {
        out := out + [Message(cursor, log[cursor])];
        pending := pending + {cursor};
        cursor := cursor + 1;
      }
    }

    /** XACK: acking twice, or acking what was never delivered, changes nothing. */
    method Ack(positions: seq<nat>)
      requires Valid()
      modifies this`pending
      ensures Valid() && pending == old(pending) - (set i | i in positions)
    {
      for k := 0 to |positions|
        invariant Valid() && pending == old(pending) - (set i | i in positions[..k])
      {
        assert positions[..k + 1] == positions[..k] + [positions[k]];
        pending := pending - {positions[k]};
      }
      assert positions[..|positions|] == positions;
    }

    /** XAUTOCLAIM from the start: the first idle pending entries, oldest first and unchanged, attempt counter
        included. The scan gives up after ten times COUNT entries. */
    method Reclaim(idle: set<nat>, count: nat) returns (out: seq<Message>)
      requires Valid()
      ensures |out| <= count
      ensures forall k :: 0 <= k < |out| ==>
                && out[k].position in pending && out[k].position in idle
                && out[k].position < |log| && out[k].entry == log[out[k].position]
      ensures forall j, k :: 0 <= j < k < |out| ==> out[j].position < out[k].position
      ensures |pending| <= 10 * count && |out| < count ==>
                forall i :: i in pending && i in idle ==> exists k :: 0 <= k < |out| && out[k].position == i
    {
      out := [];
      var scanned := 0;
      var i: nat := 0;
      ghost var seen: set<nat> := {};
      while i < cursor && |out| < count && scanned < 10 * count
        invariant i <= cursor && |out| <= count
        invariant forall k :: 0 <= k < |out| ==>
                    && out[k].position in pending && out[k].position in idle && out[k].position < i
                    && out[k].entry == log[out[k].position]
        invariant forall j, k :: 0 <= j < k < |out| ==> out[j].position < out[k].position
        invariant forall n :: n in pending && n in idle && n < i ==> exists k :: 0 <= k < |out| && out[k].position == n
        invariant scanned == |seen| && seen <= pending && forall n :: n in pending && n < i ==> n in seen
        invariant forall n :: n in seen ==> n < i
        decreases cursor - i
      {
        if i in pending {
          ghost var before := out;
          scanned := scanned + 1;
          seen := seen + {i};
          if i in idle {
            out := out + [Message(i, log[i])];
            assert out[|before|].position == i;
            assert forall k :: 0 <= k < |before| ==> out[k] == before[k];
          }
        }
        i := i + 1;
      }
      if |pending| <= 10 * count && |out| < count && i < cursor {
        FullSubset(seen, pending);
      }
    }

    /** XADD to the dead-letter stream, every field kept. */
    method SendToDlq(entry: DlqEntry, call: Delivery) returns (ok: bool)
      modifies this`dlq
      ensures ok == call.Delivered? && dlq == if call.NotDone? then old(dlq) else old(dlq) + [entry]
    {
      if !call.NotDone? {
        dlq := dlq + [entry];
      }
      ok := call.Delivered?;
    }
  }

  lemma FullSubset(a: set<nat>, b: set<nat>)
    requires a <= b && |a| >= |b|
    ensures a == b
  {
    if x :| x in b && x !in a {
      assert a <= b - {x};
      SubsetSize(a, b - {x});
    }
  }

  lemma {:induction false} SubsetSize(a: set<nat>, b: set<nat>)
    requires a <= b
    ensures |a| <= |b|
  {
    if x :| x in a {
      SubsetSize(a - {x}, b - {x});
    }
  }
}
