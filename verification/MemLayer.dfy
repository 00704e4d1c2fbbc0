/**
 The in-memory layer over hot.db: active key-value items, the write sequence that guards promotion, and the atomic sections of
 publishing a committed write and of promoting a value a reader found in SQLite.
 */
module MemLayer {
  import opened Prelude
  import opened HotTables

  /** A cached item; its expiry keeps the unsigned value the request carried. */
  datatype MemRow = MemRow(value: string, expires: Option<U64>)

  /** What a reader promotes for a stored row: a negative expiry becomes 0. */
  function Promoted(row: KvRow): MemRow
  {
    MemRow(row.value, if row.expires.None? then None else Some(Max(row.expires.value, 0)))
  }

  predicate MemActive(row: MemRow, now: U64) {
    row.expires.None? || row.expires.value > now
  }

  /** A cached item says what the database says. */
  predicate Agrees(kv: map<Key, KvRow>, k: Key, row: MemRow)
  {
    k in kv && row == Promoted(kv[k])
  }

  // ---- publishing

  function SetRow(op: Op): MemRow
    requires IsSet(op)
  {
    MemRow(op.verb.value, op.verb.expires)
  }

  /** A job whose write is made active after the commit. */
  predicate Publishes(op: Op, r: Reply) {
    IsSet(op) && r.Ok?
  }

  /** The cache after a batch is published with every item admitted and nothing evicted. */
  function PublishAll(kv: map<Key, MemRow>, ops: seq<Op>, replies: seq<Reply>): map<Key, MemRow>
    requires |ops| == |replies|
  {
    if ops == [] then kv else
      var n := |ops| - 1;
      var before := PublishAll(kv, ops[..n], replies[..n]);
      if Publishes(ops[n], replies[n]) then before[SetKey(ops[n]) := SetRow(ops[n])] else before
  }

  function CountPublished(ops: seq<Op>, replies: seq<Reply>): nat
    requires |ops| == |replies|
  {
    if ops == [] then 0 else
      var n := |ops| - 1;
      CountPublished(ops[..n], replies[..n]) + (if Publishes(ops[n], replies[n]) then 1 else 0)
  }

  lemma {:induction false} CountsEach(ops: seq<Op>, replies: seq<Reply>)
    requires |ops| == |replies|
    ensures CountPublished(ops, replies) == |set i | 0 <= i < |ops| && Publishes(ops[i], replies[i])|
  {
    var all := set i | 0 <= i < |ops| && Publishes(ops[i], replies[i]);
    if ops == [] {
      assert all == {};
    } else {
      var n := |ops| - 1;
      var before := set i | 0 <= i < n && Publishes(ops[..n][i], replies[..n][i]);
      CountsEach(ops[..n], replies[..n]);
      assert all == if Publishes(ops[n], replies[n]) then before + {n} else before;
    }
  }

  /** `small` holds only items of `big`, unchanged: what eviction and refused admission may leave. */
  ghost predicate Within(small: map<Key, MemRow>, big: map<Key, MemRow>) {
    forall k :: k in small ==> k in big && small[k] == big[k]
  }

  /** The map under its lock, and the counter read and bumped without it. */
  class Mem {
    var kv: map<Key, MemRow>
    var sequence: nat

    constructor ()
      ensures kv == map[] && sequence == 0
    {
      kv, sequence := map[], 0;
    }

    /** The insert under the lock: the byte budget may then drop any items, the new one included. */
    method Insert(k: Key, row: MemRow)
      modifies this`kv
      ensures Within(kv, old(kv)[k := row])
      ensures k in kv ==> kv[k] == row
    {
      kv := kv[k := row];
      Evict();
    }

    /** The owner shrinks the layer: any items go. */
    method Evict()
      modifies this`kv
      ensures Within(kv, old(kv))
    {
      var gone: set<Key> := *;
      kv := kv - gone;
    }

    /** Does the budget take another item? */
    method Admit() returns (ok: bool) {
      ok := *;
    }

    /** A read by key: an active item is answered, an expired one dropped. */
    method Get(k: Key, now: U64) returns (r: Option<string>)
      modifies this`kv
      ensures r == if k in old(kv) && MemActive(old(kv)[k], now) then Some(old(kv)[k].value) else None
      ensures kv == if k in old(kv) && !MemActive(old(kv)[k], now) then old(kv) - {k} else old(kv)
    {
      if k !in kv {
        return None;
      }
      if !MemActive(kv[k], now) {
        kv := kv - {k};
        return None;
      }
      return Some(kv[k].value);
    }

    /** Readers that took the sequence before this no longer promote. */
    method Bump()
      modifies this`sequence
      ensures sequence == old(sequence) + 1
    {
      sequence := sequence + 1;
    }

    method Forget(k: Key)
      modifies this`kv
      ensures kv == old(kv) - {k}
    {
      kv := kv - {k};
    }

    /** After a commit: forget the old value whether or not the new one is admitted. */
    method Committed(op: Op)
      modifies this
      ensures IsSet(op) ==> sequence == old(sequence) + 1 && Within(kv, old(kv)[SetKey(op) := SetRow(op)])
      ensures !IsSet(op) ==> sequence == old(sequence) && kv == old(kv)
    {
      if IsSet(op) {
        Bump();
        Forget(SetKey(op));
        var admitted := Admit();
        if admitted {
          Insert(SetKey(op), SetRow(op));
        }
      }
    }

    /** The first checks of a promotion: no write since `seen`, and the key not yet active. */
    method PromoteCheck(seen: nat, k: Key) returns (go: bool)
      ensures go <==> sequence == seen && k !in kv
    {
      go := sequence == seen && k !in kv;
    }

    /** The second half, under the lock that inserts: both checks again, then the insert. */
    method PromoteInsert(seen: nat, k: Key, row: MemRow)
      modifies this`kv
      ensures sequence != seen || k in old(kv) ==> kv == old(kv)
      ensures sequence == seen && k !in old(kv) ==> Within(kv, old(kv)[k := row])
    {
      if sequence != seen || k in kv {
        return;
      }
      Insert(k, row);
    }
  }
}
