/** The bounded, fee-ordered pool of pending transactions (blockchain.go), over runs of enqueueing. */
module Mempool {
  import opened Domain
  import opened Ledger

  // Between blocks: the state at the start, then the offered transactions with the ids the clock gave.
  datatype History = Start(initial: State) | Then(past: History, tx: Transaction, freshId: Str)

  function Run(es: History): State {
    match es
    case Start(s) => s
    case Then(past, tx, freshId) => Enqueue(Run(past), tx, freshId)
  }

  function Origin(es: History): State { if es.Start? then es.initial else Origin(es.past) }

  // ---------------------------------------------------------------------------------------------
  // What an offer does, told from the pools before and after alone.

  predicate Holds(pool: seq<Transaction>, tx: Transaction) { exists i :: 0 <= i < |pool| && SameKey(pool[i], tx) }

  predicate DistinctKeys(pool: seq<Transaction>) {
    forall i, j :: 0 <= i < j < |pool| ==> !SameKey(pool[i], pool[j])
  }

  /** Lost in one offer of tx: tx itself, if it was new, no replay, and is not there afterwards; and every
      entry whose key is gone. */
  ghost predicate LostHere(s: State, tx: Transaction, after: seq<Transaction>, e: Transaction) {
    || (e == tx && !Holds(s.pending, tx) && !IsReplay(s, tx) && !Holds(after, tx))
    || (e in s.pending && !Holds(after, e))
  }

  /** Lost at some point of the run. */
  ghost predicate Lost(es: History, e: Transaction) {
    es.Then? &&
    var s := Run(es.past);
    (Lost(es.past, e) || LostHere(s, Filled(s, es.tx, es.freshId), Run(es).pending, e))
  }

  predicate NoReplays(s: State) { forall tx :: tx in s.pending ==> !IsReplay(s, tx) }

  /** Nothing in the pool pays less. */
  predicate Cheapest(pool: seq<Transaction>, e: Transaction) {
    forall j :: 0 <= j < |pool| ==> e.fee <= pool[j].fee
  }

  /** Exactly one entry has given way to tx, and none paid less. */
  ghost predicate Outbids(before: seq<Transaction>, after: seq<Transaction>, tx: Transaction) {
    exists i :: 0 <= i < |before| && after == before[i := tx] && Cheapest(before, before[i]) && before[i].fee < tx.fee
  }

  /** The same key again: the entry gives way to a higher fee, and to nothing else. */
  ghost predicate Raises(before: seq<Transaction>, after: seq<Transaction>, tx: Transaction) {
    exists i :: 0 <= i < |before| && SameKey(before[i], tx)
                && after == if before[i].fee < tx.fee then before[i := tx] else before
  }

  /** What becomes of the pool when tx is offered, case by case. */
  ghost predicate Offered(s: State, tx: Transaction, after: seq<Transaction>) {
    var pool := s.pending;
    if Holds(pool, tx) then Raises(pool, after, tx)
    else if IsReplay(s, tx) then after == pool
    else if |pool| < 5000 then after == pool + [tx]
    else if Cheapest(pool, tx) then after == pool
    else Outbids(pool, after, tx)
  }

  lemma HoldsIff(pool: seq<Transaction>, tx: Transaction)
    ensures Holds(pool, tx) <==> IndexOfKey(pool, tx) < |pool|
    ensures Holds(pool, tx) ==> SameKey(pool[IndexOfKey(pool, tx)], tx)
  {
    IndexOfKeyFirst(pool, tx);
  }

  /** A full pool: the first entry with the lowest fee is the one that may have to go. */
  lemma FullPool(pool: seq<Transaction>, tx: Transaction, low: nat)
    requires pool != [] && low == LowestFee(pool)
    ensures Cheapest(pool, pool[low]) && (Cheapest(pool, tx) <==> tx.fee <= pool[low].fee)
  {
    LowestFeeLowest(pool);
  }

  lemma OfferExact(s: State, tx: Transaction)
    ensures Offered(s, tx, Place(s.pending, tx, Judge(s, tx)))
  {
    HoldsIff(s.pending, tx);
    if |s.pending| >= POOL_LIMIT {
      FullPool(s.pending, tx, LowestFee(s.pending));
    }
  }

  // ---------------------------------------------------------------------------------------------
  // What every offer keeps.

  lemma RaiseKeeps(pool: seq<Transaction>, after: seq<Transaction>, tx: Transaction)
    requires DistinctKeys(pool) && Raises(pool, after, tx)
    ensures DistinctKeys(after) && |after| == |pool|
    ensures forall e :: Holds(after, e) <==> Holds(pool, e)
    ensures forall e :: Cheapest(pool, e) ==> Cheapest(after, e)
  {
    var i :| 0 <= i < |pool| && SameKey(pool[i], tx) && after == if pool[i].fee < tx.fee then pool[i := tx] else pool;
    forall e ensures Holds(after, e) <==> Holds(pool, e) {
      if Holds(pool, e) {
        var k :| 0 <= k < |pool| && SameKey(pool[k], e);
        assert SameKey(after[k], e);
      }
      if Holds(after, e) {
        var k :| 0 <= k < |after| && SameKey(after[k], e);
        assert SameKey(pool[k], e);
      }
    }
  }

  lemma AppendKeeps(pool: seq<Transaction>, tx: Transaction)
    requires DistinctKeys(pool) && !Holds(pool, tx)
    ensures DistinctKeys(pool + [tx]) && Holds(pool + [tx], tx)
    ensures forall e :: e in pool ==> Holds(pool + [tx], e)
  {
    var after := pool + [tx];
    assert after[|pool|] == tx;
    forall e | e in pool ensures Holds(after, e) {
      var k :| 0 <= k < |pool| && pool[k] == e;
      assert after[k] == e;
    }
  }

  lemma OutbidKeeps(pool: seq<Transaction>, after: seq<Transaction>, tx: Transaction, e: Transaction)
    requires DistinctKeys(pool) && !Holds(pool, tx) && Outbids(pool, after, tx)
    ensures DistinctKeys(after) && Holds(after, tx) && |after| == |pool|
    ensures e in pool && !Holds(after, e) ==> Cheapest(after, e)
    ensures Cheapest(pool, e) ==> Cheapest(after, e)
  {
    var i :| 0 <= i < |pool| && after == pool[i := tx] && Cheapest(pool, pool[i]) && pool[i].fee < tx.fee;
    assert after[i] == tx;
    InPoolIsHeld(after, e);
    if e in pool && !Holds(after, e) {
      var k :| 0 <= k < |pool| && pool[k] == e;
      assert after[k] == if k == i then tx else e;
    }
  }

  /** Lost transactions, in this offer or before it, are outbid by all that is pending afterwards. */
  lemma OfferKeeps(s: State, tx: Transaction, after: seq<Transaction>, e: Transaction)
    requires |s.pending| <= POOL_LIMIT && DistinctKeys(s.pending) && Offered(s, tx, after)
    ensures |after| <= POOL_LIMIT && DistinctKeys(after)
    ensures LostHere(s, tx, after, e) ==> |after| == POOL_LIMIT && Cheapest(after, e)
    ensures |s.pending| == POOL_LIMIT && Cheapest(s.pending, e) ==> |after| == POOL_LIMIT && Cheapest(after, e)
  {
    var pool := s.pending;
    InPoolIsHeld(pool, e);
    if Holds(pool, tx) {
      RaiseKeeps(pool, after, tx);
    } else if IsReplay(s, tx) {
    } else if |pool| < POOL_LIMIT {
      AppendKeeps(pool, tx);
    } else if !Cheapest(pool, tx) {
      OutbidKeeps(pool, after, tx, e);
    }
  }

  lemma InPoolIsHeld(pool: seq<Transaction>, e: Transaction)
    ensures e in pool ==> Holds(pool, e)
  {
    if e in pool {
      var k :| 0 <= k < |pool| && pool[k] == e;
    }
  }

  lemma OfferKeepsFresh(s: State, tx: Transaction, after: seq<Transaction>)
    requires NoReplays(s) && Offered(s, tx, after)
    ensures forall e :: e in after ==> !IsReplay(s, e)
  {
    if Holds(s.pending, tx) {
      var i :| 0 <= i < |s.pending| && SameKey(s.pending[i], tx);
      assert s.pending[i] in s.pending;
    }
    forall e | e in after ensures !IsReplay(s, e) {
      assert e in s.pending || e == tx;
    }
  }

  /** Between blocks, from an empty pool: it never exceeds its limit, no two entries share id, nonce and
      sender, none is a replay, and whatever was lost (turned away though new, or thrown out) was lost to a
      full pool and paid no more than anything still pending. */
  lemma {:induction false} PoolInvariant(es: History, e: Transaction)
    requires Origin(es).pending == []
    ensures |Run(es).pending| <= 5000 && DistinctKeys(Run(es).pending) && NoReplays(Run(es))
    ensures Lost(es, e) ==> |Run(es).pending| == 5000 && Cheapest(Run(es).pending, e)
  {
    if es.Then? {
      var s, s' := Run(es.past), Run(es);
      var tx := Filled(s, es.tx, es.freshId);
      PoolInvariant(es.past, e);
      OfferExact(s, tx);
      OfferKeeps(s, tx, s'.pending, e);
      OfferKeepsFresh(s, tx, s'.pending);
      SameNonces(s, s');
    }
  }

  lemma SameNonces(s: State, t: State)
    requires t == s.(pending := t.pending)
    ensures forall tx :: IsReplay(t, tx) <==> IsReplay(s, tx)
  {
  }

  /** One offer, as made: an id and a nonce are filled in if missing, then it is as above; nothing else
      of the state changes. */
  lemma EnqueueExact(s: State, tx: Transaction, freshId: Str) returns (filled: Transaction)
    ensures filled == tx.(id := filled.id, nonce := filled.nonce)
    ensures filled.id == if tx.id == [] then freshId else tx.id
    ensures filled.nonce == if tx.nonce == 0 then NextOf(s, tx.from) else tx.nonce
    ensures Offered(s, filled, Enqueue(s, tx, freshId).pending)
    ensures Enqueue(s, tx, freshId) == s.(pending := Enqueue(s, tx, freshId).pending)
  {
    filled := Filled(s, tx, freshId);
    OfferExact(s, filled);
  }
}
