/** A chain is bound by the hash of its tip (blockchain.go, domain.go). */
module ChainBinding {
  import opened Domain
  import opened Ledger

  /** Every block after the first is linked to its predecessor. */
  ghost predicate LinkedChain(env: Env, chain: seq<Block>) {
    && chain != [] && chain[0].index == 0
    && forall i {:trigger LinkedAt(env, chain, i)} :: 1 <= i < |chain| ==> LinkedAt(env, chain, i)
  }

  predicate LinkedAt(env: Env, chain: seq<Block>, i: nat)
    requires 1 <= i < |chain|
  {
    Linked(env, chain[i], chain[i - 1])
  }

  lemma ValidIsLinked(s: State, env: Env, chain: seq<Block>)
    requires ValidChain(s, env, chain)
    ensures LinkedChain(env, chain)
  {
    forall i | 1 <= i < |chain|
      ensures LinkedAt(env, chain, i)
    {
      assert ValidAt(s, env, chain, i);
    }
  }

  function Sealed(b: Block): Block { b.(blockHash := []) }

  predicate NoClash(env: Env, x: Block, y: Block) {
    BlockHash(env, x) == BlockHash(env, y) ==> Sealed(x) == Sealed(y)
  }

  /** The hashes of the two chains' blocks do not collide. */
  ghost predicate CollisionFree(env: Env, a: seq<Block>, b: seq<Block>) {
    forall i, j {:trigger NoClash(env, a[i], b[j])} :: 1 <= i < |a| && 1 <= j < |b| ==> NoClash(env, a[i], b[j])
  }

  lemma {:induction false} IndexIsPosition(env: Env, chain: seq<Block>, i: nat)
    requires LinkedChain(env, chain) && i < |chain| < TWO64
    ensures chain[i].index == i
  {
    if i > 0 {
      IndexIsPosition(env, chain, i - 1);
      assert LinkedAt(env, chain, i);
    }
  }

  lemma SameHashSameBlock(env: Env, a: seq<Block>, b: seq<Block>, i: nat, j: nat)
    requires LinkedChain(env, a) && LinkedChain(env, b) && CollisionFree(env, a, b)
    requires 1 <= i < |a| && 1 <= j < |b| && a[i].blockHash == b[j].blockHash
    ensures a[i] == b[j]
  {
    assert LinkedAt(env, a, i) && LinkedAt(env, b, j);
    assert NoClash(env, a[i], b[j]);
    assert a[i] == Sealed(a[i]).(blockHash := a[i].blockHash);
    assert b[j] == Sealed(b[j]).(blockHash := b[j].blockHash);
  }

  lemma {:induction false} EqualFrom(env: Env, a: seq<Block>, b: seq<Block>, k: nat)
    requires LinkedChain(env, a) && LinkedChain(env, b) && CollisionFree(env, a, b)
    requires |a| == |b| && 1 <= k < |a| && a[k] == b[k]
    ensures forall i :: 1 <= i <= k ==> a[i] == b[i]
    ensures a[0].blockHash == b[0].blockHash
  {
    assert LinkedAt(env, a, k) && LinkedAt(env, b, k);
    if k > 1 {
      SameHashSameBlock(env, a, b, k - 1, k - 1);
      EqualFrom(env, a, b, k - 1);
    }
  }

  /** Two accepted chains with the same tip hash, neither a bare genesis, have the same length and the same
      block at every position after genesis; the geneses have the same hash. The two may be validated
      against different states. */
  lemma TipBindsChain(s: State, t: State, env: Env, a: seq<Block>, b: seq<Block>)
    requires ValidChain(s, env, a) && ValidChain(t, env, b) && CollisionFree(env, a, b)
    requires 2 <= |a| < TWO64 && 2 <= |b| < TWO64
    requires a[|a| - 1].blockHash == b[|b| - 1].blockHash
    ensures |a| == |b| && (forall i :: 1 <= i < |a| ==> a[i] == b[i]) && a[0].blockHash == b[0].blockHash
  {
    ValidIsLinked(s, env, a);
    ValidIsLinked(t, env, b);
    SameHashSameBlock(env, a, b, |a| - 1, |b| - 1);
    IndexIsPosition(env, a, |a| - 1);
    IndexIsPosition(env, b, |b| - 1);
    EqualFrom(env, a, b, |a| - 1);
  }

  /** Genesis itself is not bound beyond its stored hash: any other first block carrying that hash passes. */
  lemma GenesisIsNotBound(s: State, env: Env, a: seq<Block>, g: Block)
    requires ValidChain(s, env, a) && g.index == 0 && g.blockHash == a[0].blockHash
    ensures ValidChain(s, env, a[0 := g])
  {
    var b := a[0 := g];
    forall i | 1 <= i < |b|
      ensures ValidAt(s, env, b, i)
    {
      assert ValidAt(s, env, a, i);
    }
  }
}
