/** Merkle trees with membership proofs (merkle.go). `h` stands for SHA-256 followed by hex. */
module Merkle {
  import opened Domain
  import opened Levels

  type Hash = h: Str -> Str | AlwaysLong(h, 64)
    ghost witness (x: Str) => seq(64, i => '0')

  datatype Tree = Nil | Node(hash: Str, left: Tree, right: Tree)

  function HashOf(t: Tree): Str { if t.Nil? then [] else t.hash }

  function Leaf(h: Hash, item: Str): Tree { Node(h(item), Nil, Nil) }

  function Join(h: Hash): (Tree, Tree) -> Tree {
    (l: Tree, r: Tree) => Node(h(HashOf(l) + HashOf(r)), l, r)
  }

  function Leaves(h: Hash, items: seq<Str>): seq<Tree> {
    seq(|items|, i requires 0 <= i < |items| => Leaf(h, items[i]))
  }

  /** The tree by the recursive definition: split at the largest power of two below the length. */
  function TreeOf(h: Hash, items: seq<Str>): Tree
    requires items != []
  {
    Split(Leaves(h, items), Join(h))
  }

  /** The source's bottom-up loop builds the recursively defined tree. */
  method BuildMerkleTree(h: Hash, items: seq<Str>) returns (root: Option<Tree>)
    ensures root == if items == [] then None else Some(TreeOf(h, items))
  {
    if |items| == 0 {
      return None;
    }
    var nodes: seq<Tree> := [];
    for k := 0 to |items|
      invariant nodes == Leaves(h, items)[..k]
    {
      nodes := nodes + [Node(h(items[k]), Nil, Nil)];
    }
    assert nodes == Leaves(h, items);
    var t := LevelLoop(nodes, Join(h));
    root := Some(t);
  }

  // ---------------------------------------------------------------------------------------------
  // Proofs.

  const LEFT: Byte := 0 as char
  const RIGHT: Byte := 1 as char

  /** The siblings from the first node (in preorder) with this hash up to the root. */
  function PathTo(t: Tree, hex: Str): Option<seq<Str>> {
    if t.Nil? then None
    else if t.hash == hex then Some([])
    else match PathTo(t.left, hex)
      case Some(p) => Some(if t.right.Nil? then p else p + [[RIGHT] + t.right.hash])
      case None =>
        match PathTo(t.right, hex)
        case Some(p) => Some(if t.left.Nil? then p else p + [[LEFT] + t.left.hash])
        case None => None
  }

  /** The recursive closure of the source; `proof` is the captured variable. */
  method FindProof(node: Tree, targetHex: Str, proof: seq<Str>) returns (found: bool, proof': seq<Str>)
    ensures found == PathTo(node, targetHex).Some?
    ensures proof' == if found then proof + PathTo(node, targetHex).value else proof
  {
    found, proof' := false, proof;
    if node == Nil {
      return;
    }
    if node.hash == targetHex {
      return true, proof;
    }
    found, proof' := FindProof(node.left, targetHex, proof);
    if found {
      if node.right != Nil {
        proof' := proof' + [[RIGHT] + node.right.hash];
      }
      return;
    }
    found, proof' := FindProof(node.right, targetHex, proof);
    if found && node.left != Nil {
      proof' := proof' + [[LEFT] + node.left.hash];
    }
  }

  method GenerateProof(h: Hash, root: Tree, target: Str) returns (r: Option<seq<Str>>)
    ensures r == PathTo(root, h(target))
  {
    if root == Nil {
      return None;
    }
    var found, proof := FindProof(root, h(target), []);
    r := if found then Some(proof) else None;
    assert found ==> proof == PathTo(root, h(target)).value;
  }

  /** What one sibling is hashed into. */
  function Combined(current: Str, sibling: Str): Str
    requires sibling != []
  {
    if sibling[0] == RIGHT then current + sibling[1..] else sibling[1..] + current
  }

  function Climb(h: Hash, current: Str, proof: seq<Str>): Option<Str> {
    if proof == [] then Some(current)
    else
      var last := |proof| - 1;
      match Climb(h, current, proof[..last])
      case None => None
      case Some(c) => if proof[last] == [] then None else Some(h(Combined(c, proof[last])))
  }

  predicate Verifies(h: Hash, rootHash: Str, target: Str, proof: seq<Str>) {
    Climb(h, h(target), proof) == Some(rootHash)
  }

  lemma {:induction false} EmptySiblingFails(h: Hash, current: Str, proof: seq<Str>, i: nat)
    requires i < |proof| && proof[i] == []
    ensures Climb(h, current, proof) == None
  {
    if i < |proof| - 1 {
      EmptySiblingFails(h, current, proof[..|proof| - 1], i);
    }
  }

  method VerifyMerkleProof(h: Hash, rootHash: Str, target: Str, proof: seq<Str>) returns (ok: bool)
    ensures ok == Verifies(h, rootHash, target, proof)
  {
    var currentHex := h(target);
    if currentHex == rootHash && |proof| == 0 {
      return true;
    }
    for k := 0 to |proof|
      invariant Climb(h, h(target), proof[..k]) == Some(currentHex)
    {
      assert proof[..k + 1][..k] == proof[..k];
      if |proof[k]| == 0 {
        EmptySiblingFails(h, h(target), proof, k);
        return false;
      }
      var sibling := proof[k][1..];
      var combined := if proof[k][0] == RIGHT then currentHex + sibling else sibling + currentHex;
      currentHex := h(combined);
    }
    assert proof[..|proof|] == proof;
    ok := currentHex == rootHash;
  }

  // ---------------------------------------------------------------------------------------------
  // Completeness: every item of a built tree has a proof, it verifies, and it is short.

  /** Inner nodes have two children and the hash of their hashes. */
  predicate Authentic(h: Hash, t: Tree) {
    t.Node? &&
    ((t.left.Nil? && t.right.Nil?) ||
     (t.hash == h(HashOf(t.left) + HashOf(t.right)) && Authentic(h, t.left) && Authentic(h, t.right)))
  }

  predicate HasHash(t: Tree, hex: Str) {
    t.Node? && (t.hash == hex || HasHash(t.left, hex) || HasHash(t.right, hex))
  }

  function Height(t: Tree): nat {
    if t.Nil? || (t.left.Nil? && t.right.Nil?) then 0
    else 1 + if Height(t.left) < Height(t.right) then Height(t.right) else Height(t.left)
  }

  lemma {:induction false} FoundIffPresent(t: Tree, hex: Str)
    ensures PathTo(t, hex).Some? <==> HasHash(t, hex)
  {
    if t.Node? {
      FoundIffPresent(t.left, hex);
      FoundIffPresent(t.right, hex);
    }
  }

  lemma ClimbOneMore(h: Hash, current: Str, proof: seq<Str>, sibling: Str, hex: Str)
    requires Climb(h, current, proof) == Some(hex) && sibling != []
    ensures Climb(h, current, proof + [sibling]) == Some(h(Combined(hex, sibling)))
  {
    assert (proof + [sibling])[..|proof|] == proof;
  }

  lemma CombinedSides(current: Str, other: Str)
    ensures Combined(current, [RIGHT] + other) == current + other
    ensures Combined(current, [LEFT] + other) == other + current
  {
    assert ([RIGHT] + other)[1..] == other && ([LEFT] + other)[1..] == other;
  }

  lemma {:induction false} PathVerifies(h: Hash, t: Tree, hex: Str)
    requires Authentic(h, t) && PathTo(t, hex).Some?
    ensures Climb(h, hex, PathTo(t, hex).value) == Some(t.hash)
  {
    if t.hash != hex {
      if PathTo(t.left, hex).Some? {
        PathVerifies(h, t.left, hex);
        CombinedSides(t.left.hash, t.right.hash);
        ClimbOneMore(h, hex, PathTo(t.left, hex).value, [RIGHT] + t.right.hash, t.left.hash);
      } else {
        PathVerifies(h, t.right, hex);
        CombinedSides(t.right.hash, t.left.hash);
        ClimbOneMore(h, hex, PathTo(t.right, hex).value, [LEFT] + t.left.hash, t.right.hash);
      }
    }
  }

  lemma {:induction false} PathIsShort(h: Hash, t: Tree, hex: Str)
    requires Authentic(h, t) && PathTo(t, hex).Some?
    ensures |PathTo(t, hex).value| <= Height(t)
  {
    if t.hash != hex {
      PathIsShort(h, if PathTo(t.left, hex).Some? then t.left else t.right, hex);
    }
  }

  predicate AllLeaves(leaves: seq<Tree>) {
    leaves != [] && forall i :: 0 <= i < |leaves| ==> leaves[i].Node? && leaves[i].left.Nil? && leaves[i].right.Nil?
  }

  lemma {:induction false} BuiltTreeIsAuthentic(h: Hash, leaves: seq<Tree>)
    requires AllLeaves(leaves)
    ensures Authentic(h, Split(leaves, Join(h)))
    decreases |leaves|
  {
    if |leaves| > 1 {
      var k := SplitPoint(|leaves|);
      BuiltTreeIsAuthentic(h, leaves[..k]);
      BuiltTreeIsAuthentic(h, leaves[k..]);
    }
  }

  lemma JoinHeight(h: Hash, l: Tree, r: Tree, n: nat)
    requires Height(l) <= n && Height(r) <= n
    ensures Height(Join(h)(l, r)) <= n + 1
  {
  }

  lemma {:induction false} BuiltTreeIsLow(h: Hash, leaves: seq<Tree>)
    requires AllLeaves(leaves)
    ensures Height(Split(leaves, Join(h))) <= CeilLog2(|leaves|)
    decreases |leaves|
  {
    if |leaves| > 1 {
      var k := SplitPoint(|leaves|);
      var l, r := Split(leaves[..k], Join(h)), Split(leaves[k..], Join(h));
      assert Height(l) <= CeilLog2(k) by {
        BuiltTreeIsLow(h, leaves[..k]);
      }
      assert Height(r) <= CeilLog2(k) by {
        BuiltTreeIsLow(h, leaves[k..]);
        CeilLog2Monotone(|leaves| - k, k);
      }
      JoinHeight(h, l, r, CeilLog2(k));
      CeilLog2Split(|leaves|);
    }
  }

  lemma {:induction false} LeafIsPresent(h: Hash, leaves: seq<Tree>, i: nat)
    requires i < |leaves| && leaves[i].Node?
    ensures HasHash(Split(leaves, Join(h)), leaves[i].hash)
    decreases |leaves|
  {
    if |leaves| > 1 {
      var k := SplitPoint(|leaves|);
      if i < k {
        LeafIsPresent(h, leaves[..k], i);
      } else {
        LeafIsPresent(h, leaves[k..], i - k);
      }
    }
  }

  /** Every item of a built tree gets a proof that verifies, of at most ceil(log2 n) entries.
      Nothing is assumed of the hash. */
  lemma EveryItemProves(h: Hash, items: seq<Str>, i: nat)
    requires i < |items|
    ensures var t, p := TreeOf(h, items), PathTo(TreeOf(h, items), h(items[i]));
            p.Some? && Verifies(h, HashOf(t), items[i], p.value) && |p.value| <= CeilLog2(|items|)
  {
    var leaves := Leaves(h, items);
    BuiltTreeIsAuthentic(h, leaves);
    BuiltTreeIsLow(h, leaves);
    LeafIsPresent(h, leaves, i);
    FoundIffPresent(TreeOf(h, items), h(items[i]));
    PathVerifies(h, TreeOf(h, items), h(items[i]));
    PathIsShort(h, TreeOf(h, items), h(items[i]));
  }

  // ---------------------------------------------------------------------------------------------
  // Soundness. A function into 64 characters has collisions somewhere; what is needed is only that
  // the strings hashed while building this tree and checking this proof do not collide.

  predicate NoClash(h: Hash, x: Str, y: Str) { h(x) == h(y) ==> x == y }

  ghost predicate CollisionFree(h: Hash, inputs: set<Str>) {
    forall x, y {:trigger NoClash(h, x, y)} :: x in inputs && y in inputs ==> NoClash(h, x, y)
  }

  function InnerInputs(t: Tree): set<Str> {
    if t.Nil? || (t.left.Nil? && t.right.Nil?) then {}
    else {HashOf(t.left) + HashOf(t.right)} + InnerInputs(t.left) + InnerInputs(t.right)
  }

  function ClimbInputs(h: Hash, target: Str, proof: seq<Str>): set<Str> {
    if proof == [] then {target}
    else
      var last := |proof| - 1;
      var c := Climb(h, h(target), proof[..last]);
      ClimbInputs(h, target, proof[..last]) +
      (if c.Some? && proof[last] != [] then {Combined(c.value, proof[last])} else {})
  }

  function Inputs(h: Hash, items: seq<Str>, target: Str, proof: seq<Str>): set<Str>
    requires items != []
  {
    (set x | x in items) + InnerInputs(TreeOf(h, items)) + ClimbInputs(h, target, proof)
  }

  /** Every leaf is the hash of an item, every inner node the hash of its children's hashes. */
  ghost predicate Over(h: Hash, t: Tree, items: seq<Str>) {
    t.Node? &&
    (if t.left.Nil? && t.right.Nil? then exists i :: 0 <= i < |items| && t.hash == h(items[i])
     else t.hash == h(HashOf(t.left) + HashOf(t.right)) && Over(h, t.left, items) && Over(h, t.right, items))
  }

  lemma {:induction false} BuiltOver(h: Hash, leaves: seq<Tree>, items: seq<Str>)
    requires leaves != []
    requires forall i :: 0 <= i < |leaves| ==> Over(h, leaves[i], items)
    ensures Over(h, Split(leaves, Join(h)), items)
    decreases |leaves|
  {
    if |leaves| > 1 {
      var k := SplitPoint(|leaves|);
      BuiltOver(h, leaves[..k], items);
      BuiltOver(h, leaves[k..], items);
    }
  }

  lemma ClimbLength(h: Hash, target: Str, proof: seq<Str>)
    requires Climb(h, h(target), proof).Some?
    ensures |Climb(h, h(target), proof).value| == 64
  {
  }

  /** The last thing hashed while climbing to a node's hash. */
  lemma LastHashed(h: Hash, target: Str, proof: seq<Str>) returns (x: Str)
    requires Climb(h, h(target), proof).Some?
    ensures x in ClimbInputs(h, target, proof) && h(x) == Climb(h, h(target), proof).value
    ensures x == if proof == [] then target
                 else Combined(Climb(h, h(target), proof[..|proof| - 1]).value, proof[|proof| - 1])
  {
    if proof == [] {
      x := target;
    } else {
      x := Combined(Climb(h, h(target), proof[..|proof| - 1]).value, proof[|proof| - 1]);
    }
  }

  lemma CombinedParts(c: Str, sib: Str)
    requires |c| == 64 && |sib| == 65
    ensures |Combined(c, sib)| == 128
    ensures c == if sib[0] == RIGHT then Combined(c, sib)[..64] else Combined(c, sib)[64..]
  {
  }

  predicate Siblings64(proof: seq<Str>) {
    forall i :: 0 <= i < |proof| ==> |proof[i]| == 65
  }

  lemma SoundAtLeaf(h: Hash, t: Tree, items: seq<Str>, target: Str, proof: seq<Str>, inputs: set<Str>)
    requires Over(h, t, items) && t.left.Nil? && t.right.Nil? && Verifies(h, t.hash, target, proof)
    requires CollisionFree(h, inputs) && (forall x :: x in items ==> x in inputs && |x| != 128)
    requires ClimbInputs(h, target, proof) <= inputs && Siblings64(proof)
    ensures target in items
  {
    var x := LastHashed(h, target, proof);
    var i :| 0 <= i < |items| && t.hash == h(items[i]);
    assert items[i] in items;
    assert NoClash(h, x, items[i]);
    if proof != [] {
      ClimbLength(h, target, proof[..|proof| - 1]);
      CombinedParts(Climb(h, h(target), proof[..|proof| - 1]).value, proof[|proof| - 1]);
      assert false;
    }
  }

  /** A proof of an inner node's hash goes through one of its children. */
  lemma StepDown(h: Hash, t: Tree, target: Str, proof: seq<Str>, inputs: set<Str>) returns (child: Tree)
    requires t.Node? && t.left.Node? && t.right.Node? && |t.left.hash| == 64 && |t.right.hash| == 64
    requires t.hash == h(t.left.hash + t.right.hash) && Verifies(h, t.hash, target, proof)
    requires CollisionFree(h, inputs) && InnerInputs(t) <= inputs && ClimbInputs(h, target, proof) <= inputs
    requires |target| != 128 && Siblings64(proof)
    ensures proof != [] && child in {t.left, t.right} && Verifies(h, child.hash, target, proof[..|proof| - 1])
  {
    var x := LastHashed(h, target, proof);
    var y := HashOf(t.left) + HashOf(t.right);
    assert y in InnerInputs(t);
    assert NoClash(h, x, y);
    assert x == y && |y| == 128;
    var before, sib := proof[..|proof| - 1], proof[|proof| - 1];
    ClimbLength(h, target, before);
    CombinedParts(Climb(h, h(target), before).value, sib);
    child := if sib[0] == RIGHT then t.left else t.right;
    assert y[..64] == t.left.hash && y[64..] == t.right.hash;
  }

  lemma {:induction false} SoundAt(h: Hash, t: Tree, items: seq<Str>, target: Str, proof: seq<Str>, inputs: set<Str>)
    requires Over(h, t, items) && Verifies(h, t.hash, target, proof)
    requires CollisionFree(h, inputs) && (forall x :: x in items ==> x in inputs && |x| != 128)
    requires InnerInputs(t) <= inputs && ClimbInputs(h, target, proof) <= inputs
    requires |target| != 128 && Siblings64(proof)
    ensures target in items
    decreases t
  {
    if t.left.Nil? && t.right.Nil? {
      SoundAtLeaf(h, t, items, target, proof, inputs);
    } else {
      OverLength(h, t.left, items);
      OverLength(h, t.right, items);
      var child := StepDown(h, t, target, proof, inputs);
      SoundAt(h, child, items, target, proof[..|proof| - 1], inputs);
    }
  }

  /** A verifying proof with 64-character siblings has its target among the items, as long as neither
      the target nor an item has the length of two concatenated hashes. */
  lemma VerifiedIsMember(h: Hash, items: seq<Str>, target: Str, proof: seq<Str>)
    requires items != [] && Verifies(h, HashOf(TreeOf(h, items)), target, proof)
    requires CollisionFree(h, Inputs(h, items, target, proof))
    requires Siblings64(proof)
    requires |target| != 128 && forall x :: x in items ==> |x| != 128
    ensures target in items
  {
    BuiltOver(h, Leaves(h, items), items);
    SoundAt(h, TreeOf(h, items), items, target, proof, Inputs(h, items, target, proof));
  }

  /** The length condition cannot be dropped: leaves and inner nodes are hashed alike, so the
      concatenated child hashes of the root verify with an empty proof. */
  lemma InnerStringVerifies(h: Hash, items: seq<Str>)
    requires |items| >= 2 && forall x :: x in items ==> |x| != 128
    ensures var t := TreeOf(h, items);
            t.Node? && var target := HashOf(t.left) + HashOf(t.right);
            Verifies(h, t.hash, target, []) && target !in items
  {
    var leaves := Leaves(h, items);
    var k := SplitPoint(|leaves|);
    BuiltOver(h, leaves[..k], items);
    BuiltOver(h, leaves[k..], items);
    var t := TreeOf(h, items);
    assert t.left == Split(leaves[..k], Join(h)) && t.right == Split(leaves[k..], Join(h));
    OverLength(h, t.left, items);
    OverLength(h, t.right, items);
  }

  lemma OverLength(h: Hash, t: Tree, items: seq<Str>)
    requires Over(h, t, items)
    ensures |t.hash| == 64
  {
  }

  /** Nor can the condition on the siblings: an item that starts with the hash of a string lets that string
      verify, with the rest of the item as its sibling. */
  lemma OddSiblingVerifies(h: Hash, target: Str, rest: Str)
    requires |rest| != 64 && |target| != 128 && |target| != 64 + |rest|
    ensures var items := [h(target) + rest];
            && (forall x :: x in items ==> |x| != 128) && target !in items
            && Verifies(h, HashOf(TreeOf(h, items)), target, [[RIGHT] + rest])
  {
    var item := h(target) + rest;
    assert Leaves(h, [item]) == [Leaf(h, item)];
    assert TreeOf(h, [item]) == Leaf(h, item);
    CombinedSides(h(target), rest);
    ClimbOneMore(h, h(target), [], [RIGHT] + rest, h(target));
    assert [] + [[RIGHT] + rest] == [[RIGHT] + rest];
  }

  lemma JoinedHash(h: Hash, l: Tree, r: Tree)
    requires l.Node? && r.Node?
    ensures Join(h)(l, r) == Node(h(l.hash + r.hash), l, r)
  {
    assert HashOf(l) == l.hash && HashOf(r) == r.hash;
    assert Join(h)(l, r) == Node(h(HashOf(l) + HashOf(r)), l, r);
  }

  /** The root of three items: the first two are joined, then the third as it is. */
  lemma RootOfThree(h: Hash, a: Str, b: Str, c: Str)
    ensures HashOf(TreeOf(h, [a, b, c])) == h(h(h(a) + h(b)) + h(c))
  {
    var la, lb, lc := Leaf(h, a), Leaf(h, b), Leaf(h, c);
    assert Leaves(h, [a, b, c]) == [la, lb, lc];
    SplitOfThree([la, lb, lc], Join(h));
    JoinedHash(h, la, lb);
    JoinedHash(h, Join(h)(la, lb), lc);
  }

  lemma ClimbOne(h: Hash, current: Str, sibling: Str)
    requires sibling != []
    ensures Climb(h, current, [sibling]) == Some(h(Combined(current, sibling)))
  {
    ClimbOneMore(h, current, [], sibling, current);
    assert [] + [sibling] == [sibling];
  }

  /** A sibling marked 1 is joined on the right, one marked 0 on the left. */
  lemma SidesOfSiblings(h: Hash, current: Str, other: Str)
    ensures Climb(h, current, [[1 as char] + other]) == Some(h(current + other))
    ensures Climb(h, current, [[0 as char] + other]) == Some(h(other + current))
  {
    ClimbOne(h, current, [RIGHT] + other);
    ClimbOne(h, current, [LEFT] + other);
    CombinedSides(current, other);
  }
}
