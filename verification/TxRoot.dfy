/** The Merkle root of a block's transactions (domain.go): raw 32-byte digests, hex at the end. */
module TxRoot {
  import opened Domain
  import opened Levels

  type Digest = h: Str -> Str | AlwaysLong(h, 32)
    ghost witness (x: Str) => seq(32, i => '0')

  function HexDigit(n: nat): Byte
    requires n < 16
  {
    if n < 10 then (n + 48) as char else (n + 87) as char
  }

  function HexByte(c: Byte): Str { [HexDigit(c as int / 16), HexDigit(c as int % 16)] }

  function Hex(s: Str): (r: Str)
    ensures |r| == 2 * |s|
  {
    if s == [] then [] else Hex(s[..|s| - 1]) + HexByte(s[|s| - 1])
  }

  lemma HexDigitInjective(x: nat, y: nat)
    requires x < 16 && y < 16 && HexDigit(x) == HexDigit(y)
    ensures x == y
  {
  }

  lemma HexByteInjective(c: Byte, d: Byte)
    requires HexByte(c) == HexByte(d)
    ensures c == d
  {
    assert HexByte(c)[0] == HexByte(d)[0] && HexByte(c)[1] == HexByte(d)[1];
    HexDigitInjective(c as int / 16, d as int / 16);
    HexDigitInjective(c as int % 16, d as int % 16);
  }

  /** Equal concatenations whose second parts have the same length have equal parts. */
  lemma SameParts(p: Str, x: Str, q: Str, y: Str)
    requires p + x == q + y && |x| == |y|
    ensures p == q && x == y
  {
    assert |p| == |q|;
    assert p == (p + x)[..|p|] && q == (q + y)[..|q|];
    assert x == (p + x)[|p|..] && y == (q + y)[|q|..];
  }

  lemma {:induction false} HexInjective(a: Str, b: Str)
    requires Hex(a) == Hex(b)
    ensures a == b
  {
    if a != [] {
      var n := |a| - 1;
      SameParts(Hex(a[..n]), HexByte(a[n]), Hex(b[..n]), HexByte(b[n]));
      HexInjective(a[..n], b[..n]);
      HexByteInjective(a[n], b[n]);
    }
  }

  function JoinDigests(h: Digest): (Str, Str) -> Str { (a: Str, b: Str) => h(a + b) }

  function Digests(h: Digest, ids: seq<Str>): seq<Str> {
    seq(|ids|, i requires 0 <= i < |ids| => h(ids[i]))
  }

  function Ids(txs: seq<Transaction>): seq<Str> {
    seq(|txs|, i requires 0 <= i < |txs| => txs[i].id)
  }

  function RootOfIds(h: Digest, ids: seq<Str>): Str {
    if ids == [] then [] else Hex(Split(Digests(h, ids), JoinDigests(h)))
  }

  function MerkleRoot(h: Digest, txs: seq<Transaction>): Str { RootOfIds(h, Ids(txs)) }

  method CalculateMerkleRoot(h: Digest, txs: seq<Transaction>) returns (root: Str)
    ensures root == MerkleRoot(h, txs)
  {
    if |txs| == 0 {
      return [];
    }
    var hashes: seq<Str> := [];
    for i := 0 to |txs|
      invariant hashes == Digests(h, Ids(txs))[..i]
    {
      hashes := hashes + [h(txs[i].id)];
    }
    assert hashes == Digests(h, Ids(txs));
    var top := LevelLoop(hashes, JoinDigests(h));
    root := Hex(top);
  }

  // ---------------------------------------------------------------------------------------------
  // The root binds the list of ids, as long as the strings hashed for the two lists do not collide.

  predicate NoClash(h: Digest, x: Str, y: Str) { h(x) == h(y) ==> x == y }

  ghost predicate CollisionFree(h: Digest, inputs: set<Str>) {
    forall x, y {:trigger NoClash(h, x, y)} :: x in inputs && y in inputs ==> NoClash(h, x, y)
  }

  function SplitInputs(h: Digest, ds: seq<Str>): set<Str>
    requires ds != []
    decreases |ds|
  {
    if |ds| == 1 then {}
    else
      var k := SplitPoint(|ds|);
      {Split(ds[..k], JoinDigests(h)) + Split(ds[k..], JoinDigests(h))}
      + SplitInputs(h, ds[..k]) + SplitInputs(h, ds[k..])
  }

  /** Every string hashed while computing the root. */
  function RootInputs(h: Digest, ids: seq<Str>): set<Str> {
    if ids == [] then {} else (set x | x in ids) + SplitInputs(h, Digests(h, ids))
  }

  lemma SplitLength(h: Digest, ds: seq<Str>)
    requires ds != [] && forall i :: 0 <= i < |ds| ==> |ds[i]| == 32
    ensures |Split(ds, JoinDigests(h))| == 32
  {
  }

  predicate AllDigests(ds: seq<Str>) { ds != [] && forall i :: 0 <= i < |ds| ==> |ds[i]| == 32 }

  /** Equal roots of two lists have equal roots below. */
  lemma SplitBindsBelow(h: Digest, ds: seq<Str>, es: seq<Str>, inputs: set<Str>, k: nat)
    requires |ds| == |es| > 1 && AllDigests(ds) && AllDigests(es) && k == SplitPoint(|ds|)
    requires Split(ds, JoinDigests(h)) == Split(es, JoinDigests(h))
    requires CollisionFree(h, inputs) && SplitInputs(h, ds) <= inputs && SplitInputs(h, es) <= inputs
    ensures Split(ds[..k], JoinDigests(h)) == Split(es[..k], JoinDigests(h))
    ensures Split(ds[k..], JoinDigests(h)) == Split(es[k..], JoinDigests(h))
  {
    var join := JoinDigests(h);
    var dl, dr, el, er := Split(ds[..k], join), Split(ds[k..], join), Split(es[..k], join), Split(es[k..], join);
    assert dl + dr in SplitInputs(h, ds) && el + er in SplitInputs(h, es);
    assert NoClash(h, dl + dr, el + er);
    SplitLength(h, ds[k..]);
    SplitLength(h, es[k..]);
    SameParts(dl, dr, el, er);
  }

  lemma SameHalves(ds: seq<Str>, es: seq<Str>, k: nat)
    requires k <= |ds| == |es| && ds[..k] == es[..k] && ds[k..] == es[k..]
    ensures ds == es
  {
    assert ds == ds[..k] + ds[k..] && es == es[..k] + es[k..];
  }

  lemma InputsBelow(h: Digest, ds: seq<Str>, k: nat)
    requires |ds| > 1 && AllDigests(ds) && k == SplitPoint(|ds|)
    ensures AllDigests(ds[..k]) && AllDigests(ds[k..])
    ensures SplitInputs(h, ds[..k]) <= SplitInputs(h, ds) && SplitInputs(h, ds[k..]) <= SplitInputs(h, ds)
  {
  }

  lemma {:induction false} SplitBinds(h: Digest, ds: seq<Str>, es: seq<Str>, inputs: set<Str>)
    requires |ds| == |es| && AllDigests(ds) && AllDigests(es)
    requires Split(ds, JoinDigests(h)) == Split(es, JoinDigests(h))
    requires CollisionFree(h, inputs) && SplitInputs(h, ds) <= inputs && SplitInputs(h, es) <= inputs
    ensures ds == es
    decreases |ds|
  {
    if |ds| > 1 {
      var k := SplitPoint(|ds|);
      SplitBindsBelow(h, ds, es, inputs, k);
      InputsBelow(h, ds, k);
      InputsBelow(h, es, k);
      SplitBinds(h, ds[..k], es[..k], inputs);
      SplitBinds(h, ds[k..], es[k..], inputs);
      SameHalves(ds, es, k);
    }
  }

  /** Equal roots over equally many transactions mean the same ids in the same order. */
  lemma RootBindsIds(h: Digest, a: seq<Str>, b: seq<Str>)
    requires |a| == |b| && RootOfIds(h, a) == RootOfIds(h, b)
    requires CollisionFree(h, RootInputs(h, a) + RootInputs(h, b))
    ensures a == b
  {
    if a != [] {
      var ds, es := Digests(h, a), Digests(h, b);
      HexInjective(Split(ds, JoinDigests(h)), Split(es, JoinDigests(h)));
      SplitBinds(h, ds, es, RootInputs(h, a) + RootInputs(h, b));
      forall i | 0 <= i < |a|
        ensures a[i] == b[i]
      {
        assert ds[i] == es[i];
        assert a[i] in RootInputs(h, a) && b[i] in RootInputs(h, b);
        assert NoClash(h, a[i], b[i]);
      }
    }
  }

  /** The root of three ids: the first two are joined, then the third as it is. */
  lemma RootOfThree(h: Digest, a: Str, b: Str, c: Str)
    ensures RootOfIds(h, [a, b, c]) == Hex(h(h(h(a) + h(b)) + h(c)))
  {
    var ds := Digests(h, [a, b, c]);
    assert ds == [h(a), h(b), h(c)];
    SplitOfThree(ds, JoinDigests(h));
  }
}
