/** Delayed-retry storage: a hash of envelopes plus a due-time index, idempotent by envelope id. */
module Retry {
  import opened Text
  import opened Decimal
  import opened ErrClass
  import opened Types

  /** deploymentId ":" attempt ":" errorCode. */
  function EnvelopeID(dep: string, attempt: int, code: Code): string {
    dep + ":" + Itoa(attempt) + ":" + code
  }

  /** The id determines all three parts, even when the deployment id itself holds colons. */
  lemma EnvelopeIDInjective(dep: string, attempt: int, code: Code, dep': string, attempt': int, code': Code)
    requires EnvelopeID(dep, attempt, code) == EnvelopeID(dep', attempt', code')
    ensures dep == dep' && attempt == attempt' && code == code'
  {
    ItoaHasNoColon(attempt);
    ItoaHasNoColon(attempt');
    assert EnvelopeID(dep, attempt, code) == (dep + ":" + Itoa(attempt)) + [':'] + code;
    assert EnvelopeID(dep', attempt', code') == (dep' + ":" + Itoa(attempt')) + [':'] + code';
    LastSeparatorIsUnique(dep + ":" + Itoa(attempt), code, dep' + ":" + Itoa(attempt'), code', ':');
    LastSeparatorIsUnique(dep, Itoa(attempt), dep', Itoa(attempt'), ':');
    ItoaInjective(attempt, attempt');
  }

  ghost predicate Distinct(ids: seq<string>) {
    forall i, j :: 0 <= i < j < |ids| ==> ids[i] != ids[j]
  }

  /** The reply of ZRANGEBYSCORE -inf now LIMIT 0 batch: the batch earliest due members, in score order. */
  ghost predicate IsDueRange(zset: map<string, int>, now: int, batch: nat, ids: seq<string>) {
    && Distinct(ids) && |ids| <= batch
    && (forall id :: id in ids ==> id in zset && zset[id] <= now)
    && (forall i, j :: 0 <= i < j < |ids| ==> zset[ids[i]] <= zset[ids[j]])
    && (forall id :: id in zset && zset[id] <= now && id !in ids ==>
          |ids| == batch && forall other :: other in ids ==> zset[other] <= zset[id])
  }

  /** The envelopes HMGET finds among the ids, in order. */
  function FoundOf(hash: map<string, Envelope>, ids: seq<string>): seq<Envelope> {
    if ids == [] then []
    else (if ids[0] in hash then [hash[ids[0]]] else []) + FoundOf(hash, ids[1..])
  }

  lemma FoundOfOne(hash: map<string, Envelope>, id: string)
    ensures FoundOf(hash, [id]) == if id in hash then [hash[id]] else []
  {
    assert [id][1..] == [];
  }

  lemma {:induction false} FoundOfAppend(hash: map<string, Envelope>, ids: seq<string>, id: string)
    ensures FoundOf(hash, ids + [id]) == FoundOf(hash, ids) + FoundOf(hash, [id])
  {
    if ids == [] {
      assert ids + [id] == [id];
    } else {
      var first := if ids[0] in hash then [hash[ids[0]]] else [];
      FoundOfAppend(hash, ids[1..], id);
      assert (ids + [id])[1..] == ids[1..] + [id];
      assert first + (FoundOf(hash, ids[1..]) + FoundOf(hash, [id]))
             == (first + FoundOf(hash, ids[1..])) + FoundOf(hash, [id]);
    }
  }

  lemma FoundOfNext(hash: map<string, Envelope>, ids: seq<string>, i: nat)
    requires i < |ids|
    ensures FoundOf(hash, ids[..i + 1]) == FoundOf(hash, ids[..i]) + if ids[i] in hash then [hash[ids[i]]] else []
  {
    assert ids[..i + 1] == ids[..i] + [ids[i]];
    FoundOfAppend(hash, ids[..i], ids[i]);
    FoundOfOne(hash, ids[i]);
  }

  lemma {:induction false} FoundOfAll(hash: map<string, Envelope>, ids: seq<string>)
    requires forall id :: id in ids ==> id in hash
    ensures |FoundOf(hash, ids)| == |ids| && forall i :: 0 <= i < |ids| ==> FoundOf(hash, ids)[i] == hash[ids[i]]
  {
    if ids != [] {
      FoundOfAll(hash, ids[1..]);
    }
  }

  /** The ids without an envelope whose removal from the index got through. */
  function Dropped(hash: map<string, Envelope>, ids: seq<string>, drops: nat -> bool): set<string> {
    if ids == [] then {}
    else
      var n := |ids| - 1;
      Dropped(hash, ids[..n], drops) + if ids[n] !in hash && drops(n) then {ids[n]} else {}
  }

  /** The ids whose unreadable payload was met and discarded. */
  function Discarded(broken: set<string>, ids: seq<string>, discards: nat -> bool): set<string> {
    if ids == [] then {}
    else
      var n := |ids| - 1;
      Discarded(broken, ids[..n], discards) + if ids[n] in broken && discards(n) then {ids[n]} else {}
  }

  lemma DropsNext(hash: map<string, Envelope>, broken: set<string>, ids: seq<string>, i: nat, drops: nat -> bool,
                  discards: nat -> bool)
    requires i < |ids|
    ensures Dropped(hash, ids[..i + 1], drops)
              == Dropped(hash, ids[..i], drops) + if ids[i] !in hash && drops(i) then {ids[i]} else {}
    ensures Discarded(broken, ids[..i + 1], discards)
              == Discarded(broken, ids[..i], discards) + if ids[i] in broken && discards(i) then {ids[i]} else {}
  {
    assert ids[..i + 1][..i] == ids[..i];
  }

  lemma {:induction false} OnlyBrokenDiscarded(broken: set<string>, ids: seq<string>, discards: nat -> bool)
    ensures Discarded(broken, ids, discards) <= broken
  {
    if ids != [] {
      OnlyBrokenDiscarded(broken, ids[..|ids| - 1], discards);
    }
  }

  lemma {:induction false} NothingDropped(hash: map<string, Envelope>, ids: seq<string>, drops: nat -> bool)
    requires forall id :: id in ids ==> id in hash
    ensures Dropped(hash, ids, drops) == {}
  {
    if ids != [] {
      NothingDropped(hash, ids[..|ids| - 1], drops);
    }
  }

  /** When every indexed id has an envelope, a lookup of indexed ids finds them all and drops none. */
  lemma AgreeingLookup(hash: map<string, Envelope>, ids: seq<string>, drops: nat -> bool)
    requires forall id :: id in ids ==> id in hash && hash[id].id == id
    ensures Dropped(hash, ids, drops) == {} && |FoundOf(hash, ids)| == |ids|
    ensures forall i :: 0 <= i < |ids| ==> FoundOf(hash, ids)[i] == hash[ids[i]] && FoundOf(hash, ids)[i].id == ids[i]
  {
    NothingDropped(hash, ids, drops);
    FoundOfAll(hash, ids);
  }

  lemma OneLess(zset: map<string, int>, gone: set<string>, id: string)
    ensures (zset - gone) - {id} == zset - (gone + {id})
  {
  }

  class RetryStore {
    var hash: map<string, Envelope>   // payloads that can be read
    var broken: set<string>           // ids whose stored payload cannot
    var zset: map<string, int>

    constructor ()
      ensures Valid() && Agrees() && hash == map[]
    {
      hash, broken, zset := map[], {}, map[];
    }

    /** An id has one payload: readable or not. */
    ghost predicate Valid()
      reads this
    {
      broken !! hash.Keys
    }

    /** Every stored payload can be read and is indexed at its due time, and nothing else is. */
    ghost predicate Agrees()
      reads this
    {
      && hash.Keys == zset.Keys && broken == {}
      && forall id :: id in hash ==> hash[id].id == id && zset[id] == hash[id].nextAttemptAt
    }

    /** HSET and ZADD in one transaction; the same id overwrites in place. */
    method Schedule(env: Envelope)
      modifies this
      ensures hash == old(hash)[env.id := env] && zset == old(zset)[env.id := env.nextAttemptAt]
      ensures broken == old(broken) - {env.id} && (old(Valid()) ==> Valid())
      ensures old(Agrees()) ==> Agrees()
    {
      hash := hash[env.id := env];
      broken := broken - {env.id};
      zset := zset[env.id := env.nextAttemptAt];
    }

    /** ZREM and HDEL in one transaction. */
    method Remove(id: string)
      modifies this
      ensures hash == old(hash) - {id} && zset == old(zset) - {id} && broken == old(broken) - {id}
      ensures old(Valid()) ==> Valid()
      ensures old(Agrees()) ==> Agrees()
    {
      hash := hash - {id};
      broken := broken - {id};
      zset := zset - {id};
    }

    method DueIds(now: int, batch: nat) returns (ids: seq<string>)
      ensures IsDueRange(zset, now, batch, ids)
    {
      var rest := map id | id in zset && zset[id] <= now :: zset[id];
      ids := [];
      while |ids| < batch && rest != map[]
        invariant Distinct(ids) && |ids| <= batch
        invariant forall id :: id in ids ==> id in zset && zset[id] <= now && id !in rest
        invariant forall i, j :: 0 <= i < j < |ids| ==> zset[ids[i]] <= zset[ids[j]]
        invariant forall id :: id in rest ==> id in zset && zset[id] == rest[id] && rest[id] <= now
        invariant forall id :: id in zset && zset[id] <= now ==> id in ids || id in rest
        invariant forall id, other :: id in rest && other in ids ==> zset[other] <= zset[id]
        decreases batch - |ids|
      {
        var first := Earliest(rest);
        ids := ids + [first];
        rest := rest - {first};
      }
    }

    static method Earliest(due: map<string, int>) returns (first: string)
      requires due != map[]
      ensures first in due && forall id :: id in due ==> due[first] <= due[id]
    {
      first :| first in due.Keys;
      var todo := due.Keys - {first};
      ghost var seen := {first};
      while todo != {}
        invariant seen + todo == due.Keys && first in seen
        invariant forall id :: id in seen ==> due[first] <= due[id]
        decreases todo
      {
        var id :| id in todo;
        if due[id] < due[first] {
          first := id;
        }
        todo := todo - {id};
        seen := seen + {id};
      }
    }

    /** The due envelopes, earliest first. An indexed id without a readable envelope leaves the index, and an unreadable
        one is discarded too, unless these calls fail, which is ignored (`drops` and `discards` say which get
        through). When hash and index agree nothing is lost and exactly the earliest due envelopes come back. */
    method Due(now: int, batch: nat, drops: nat -> bool, discards: nat -> bool)
        returns (out: seq<Envelope>, ghost ids: seq<string>)
      requires Valid()
      modifies this`zset, this`broken
      ensures Valid()
      ensures IsDueRange(old(zset), now, batch, ids)
      ensures out == FoundOf(hash, ids)
      ensures zset == old(zset) - Dropped(hash, ids, drops)
      ensures broken == old(broken) - Discarded(old(broken), ids, discards)
      ensures old(Agrees()) ==> Agrees() && zset == old(zset) && |out| == |ids|
      ensures old(Agrees()) ==> forall i :: 0 <= i < |ids| ==> out[i] == hash[ids[i]] && out[i].id == ids[i]
    {
      var found := DueIds(now, batch);
      ids := found;
      out := [];
      var unreadable := broken;
      ghost var gone, cleared: set<string> := {}, {};
      for i := 0 to |found|
        invariant out == FoundOf(hash, found[..i])
        invariant gone == Dropped(hash, found[..i], drops) && cleared == Discarded(unreadable, found[..i], discards)
        invariant zset == old(zset) - gone && broken == unreadable - cleared
      {
        FoundOfNext(hash, found, i);
        DropsNext(hash, unreadable, found, i, drops, discards);
        OneLess(old(zset), gone, found[i]);
        if found[i] in hash {
          out := out + [hash[found[i]]];
        } else {
          if drops(i) {
            zset := zset - {found[i]};
            gone := gone + {found[i]};
          }
          if found[i] in unreadable && discards(i) {
            broken := broken - {found[i]};
            cleared := cleared + {found[i]};
          }
        }
      }
      assert found[..|found|] == found;
      OnlyBrokenDiscarded(old(broken), found, discards);
      if old(Agrees()) {
        AgreeingLookup(hash, found, drops);
        assert zset == old(zset);
      }
    }
  }
}
