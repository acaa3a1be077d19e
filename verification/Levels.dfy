/** Joining a list level by level, two neighbours at a time with an odd last element carried up,
    against the recursive definition that splits at the largest power of two below the length. */
module Levels {

  /** One level up: neighbours joined, an odd last element kept. */
  function Pair<T>(xs: seq<T>, join: (T, T) -> T): (r: seq<T>)
    ensures |r| == (|xs| + 1) / 2
  {
    if |xs| <= 1 then xs else [join(xs[0], xs[1])] + Pair(xs[2..], join)
  }

  /** The level loop. */
  function BottomUp<T>(xs: seq<T>, join: (T, T) -> T): T
    requires xs != []
    decreases |xs|
  {
    if |xs| == 1 then xs[0] else BottomUp(Pair(xs, join), join)
  }

  /** The largest power of two below n. */
  function SplitPoint(n: nat): (k: nat)
    requires n >= 2
    ensures 1 <= k < n <= 2 * k
  {
    if n == 2 then 1 else 2 * SplitPoint((n + 1) / 2)
  }

  /** The recursive definition of section 2.1 of RFC 6962. */
  function Split<T>(xs: seq<T>, join: (T, T) -> T): T
    requires xs != []
    decreases |xs|
  {
    if |xs| == 1 then xs[0]
    else
      var k := SplitPoint(|xs|);
      join(Split(xs[..k], join), Split(xs[k..], join))
  }

  predicate IsPowerOfTwo(k: nat) {
    k == 1 || (k > 1 && k % 2 == 0 && IsPowerOfTwo(k / 2))
  }

  /** SplitPoint is what its name says: with its bounds, the largest power of two below n. */
  lemma {:induction false} SplitPointIsPower(n: nat)
    requires n >= 2
    ensures IsPowerOfTwo(SplitPoint(n))
  {
    if n > 2 {
      SplitPointIsPower((n + 1) / 2);
    }
  }

  lemma {:induction false} PairConcat<T>(xs: seq<T>, ys: seq<T>, join: (T, T) -> T)
    requires |xs| % 2 == 0
    ensures Pair(xs + ys, join) == Pair(xs, join) + Pair(ys, join)
  {
    if xs == [] {
      assert xs + ys == ys;
    } else {
      assert (xs + ys)[2..] == xs[2..] + ys;
      PairConcat(xs[2..], ys, join);
    }
  }

  lemma ConcatParts<T>(l: seq<T>, r: seq<T>, k: nat)
    requires k == |l|
    ensures (l + r)[..k] == l && (l + r)[k..] == r
  {
  }

  /** Going up a level and splitting commute. */
  lemma PairAtSplit<T>(xs: seq<T>, join: (T, T) -> T, h: nat)
    requires |xs| > 2 && h == SplitPoint((|xs| + 1) / 2)
    ensures Pair(xs, join)[..h] == Pair(xs[..2 * h], join)
    ensures Pair(xs, join)[h..] == Pair(xs[2 * h..], join)
  {
    var l, r := xs[..2 * h], xs[2 * h..];
    assert xs == l + r;
    PairConcat(l, r, join);
    ConcatParts(Pair(l, join), Pair(r, join), h);
  }

  lemma SplitOfTwo<T>(xs: seq<T>, join: (T, T) -> T)
    requires |xs| == 2
    ensures Pair(xs, join) == [join(xs[0], xs[1])] && Split(xs, join) == join(xs[0], xs[1])
  {
    assert xs[..1] == [xs[0]] && xs[1..] == [xs[1]] && xs[2..] == [];
  }

  lemma SplitOfThree<T>(xs: seq<T>, join: (T, T) -> T)
    requires |xs| == 3
    ensures Split(xs, join) == join(join(xs[0], xs[1]), xs[2])
  {
    SplitOfTwo(xs[..2], join);
    assert SplitPoint(3) == 2 && xs[2..] == [xs[2]];
  }

  /** The split point of a level is twice that of the next one. */
  lemma SplitAbove<T>(xs: seq<T>, join: (T, T) -> T, h: nat)
    requires |xs| > 2 && h == SplitPoint((|xs| + 1) / 2)
    ensures Split(xs, join) == join(Split(xs[..2 * h], join), Split(xs[2 * h..], join))
  {
  }

  lemma PairOfOne<T>(xs: seq<T>, join: (T, T) -> T)
    requires |xs| == 1
    ensures Split(Pair(xs, join), join) == Split(xs, join)
  {
  }

  lemma {:induction false} PairKeepsSplit<T>(xs: seq<T>, join: (T, T) -> T)
    requires |xs| >= 1
    ensures Split(Pair(xs, join), join) == Split(xs, join)
    decreases |xs|
  {
    if |xs| == 1 {
      PairOfOne(xs, join);
    } else if |xs| == 2 {
      SplitOfTwo(xs, join);
    } else {
      var up := Pair(xs, join);
      var h := SplitPoint(|up|);
      PairAtSplit(xs, join, h);
      SplitAbove(xs, join, h);
      PairKeepsSplit(xs[..2 * h], join);
      PairKeepsSplit(xs[2 * h..], join);
    }
  }

  /** The level loop computes the recursive definition. */
  lemma {:induction false} BottomUpIsSplit<T>(xs: seq<T>, join: (T, T) -> T)
    requires xs != []
    ensures BottomUp(xs, join) == Split(xs, join)
    decreases |xs|
  {
    if |xs| > 1 {
      BottomUpIsSplit(Pair(xs, join), join);
      PairKeepsSplit(xs, join);
    }
  }

  lemma PairFrom<T>(nodes: seq<T>, join: (T, T) -> T, i: nat)
    requires i < |nodes|
    ensures Pair(Rest(nodes, i), join) ==
            [if i + 1 < |nodes| then join(nodes[i], nodes[i + 1]) else nodes[i]] + Pair(Rest(nodes, i + 2), join)
  {
    if i + 1 < |nodes| {
      assert nodes[i..][2..] == nodes[i + 2..];
    }
  }

  function Rest<T>(nodes: seq<T>, i: nat): seq<T> { if i <= |nodes| then nodes[i..] else [] }

  /** One turn of the loop below. */
  lemma NextPair<T>(next: seq<T>, nodes: seq<T>, join: (T, T) -> T, i: nat, node: T)
    requires i < |nodes| && next + Pair(Rest(nodes, i), join) == Pair(nodes, join)
    requires node == if i + 1 < |nodes| then join(nodes[i], nodes[i + 1]) else nodes[i]
    ensures (next + [node]) + Pair(Rest(nodes, i + 2), join) == Pair(nodes, join)
  {
    PairFrom(nodes, join, i);
    var rest := Pair(Rest(nodes, i + 2), join);
    assert next + ([node] + rest) == (next + [node]) + rest;
  }

  lemma NoneLeft<T>(next: seq<T>, nodes: seq<T>, join: (T, T) -> T, i: nat)
    requires i >= |nodes| && next + Pair(Rest(nodes, i), join) == Pair(nodes, join)
    ensures next == Pair(nodes, join)
  {
    assert Rest(nodes, i) == [];
  }

  /** The level loop of the source: one pass over the neighbours. */
  method NextLevel<T>(nodes: seq<T>, join: (T, T) -> T) returns (next: seq<T>)
    ensures next == Pair(nodes, join)
  {
    next := [];
    var i := 0;
    assert Rest(nodes, 0) == nodes;
    while i < |nodes|
      invariant 0 <= i
      invariant next + Pair(Rest(nodes, i), join) == Pair(nodes, join)
    {
      var node := if i + 1 < |nodes| then join(nodes[i], nodes[i + 1]) else nodes[i];
      NextPair(next, nodes, join, i, node);
      next := next + [node];
      i := i + 2;
    }
    NoneLeft(next, nodes, join, i);
  }

  /** The outer loop of the source. */
  method LevelLoop<T>(leaves: seq<T>, join: (T, T) -> T) returns (root: T)
    requires leaves != []
    ensures root == Split(leaves, join)
  {
    var nodes := leaves;
    while |nodes| > 1
      invariant nodes != [] && Split(nodes, join) == Split(leaves, join)
      decreases |nodes|
    {
      PairKeepsSplit(nodes, join);
      nodes := NextLevel(nodes, join);
    }
    root := nodes[0];
  }

  function CeilLog2(n: nat): (r: nat)
    requires n >= 1
  {
    if n == 1 then 0 else 1 + CeilLog2((n + 1) / 2)
  }

  function Pow2(e: nat): (r: nat)
    ensures r >= 1
  {
    if e == 0 then 1 else 2 * Pow2(e - 1)
  }

  /** CeilLog2 is the least exponent whose power of two reaches n. */
  lemma {:induction false} CeilLog2IsLeast(n: nat)
    requires n >= 1
    ensures n <= Pow2(CeilLog2(n)) && (n > 1 ==> Pow2(CeilLog2(n) - 1) < n)
  {
    if n > 1 {
      CeilLog2IsLeast((n + 1) / 2);
    }
  }

  lemma {:induction false} CeilLog2Monotone(m: nat, n: nat)
    requires 1 <= m <= n
    ensures CeilLog2(m) <= CeilLog2(n)
  {
    if m > 1 {
      CeilLog2Monotone((m + 1) / 2, (n + 1) / 2);
    }
  }

  lemma {:induction false} CeilLog2Split(n: nat)
    requires n >= 2
    ensures CeilLog2(n) == 1 + CeilLog2(SplitPoint(n))
  {
    if n > 2 {
      CeilLog2Split((n + 1) / 2);
      assert (SplitPoint(n) + 1) / 2 == SplitPoint((n + 1) / 2);
    }
  }
}
