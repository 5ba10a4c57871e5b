/**
  The Merkle tree of a list of hashes, built level by level: its root, the way from every leaf to it, and how
  far the root tells lists apart.
 */
module Merkle {
  import opened Bytes

  /** The hash of two hashes one after the other. */
  type PairHash = (bytes, bytes) -> bytes

  // ----- the specification

  /** Neighbours are hashed together; one that is left over is hashed with itself. */
  function PairUp(pair: PairHash, hs: seq<bytes>): (r: seq<bytes>)
    ensures |r| == (|hs| + 1) / 2
    ensures forall i {:trigger r[i]} :: 0 <= i < |r| ==>
              r[i] == pair(hs[2 * i], if 2 * i + 1 == |hs| then hs[2 * i] else hs[2 * i + 1])
  {
    if hs == [] then []
    else if |hs| == 1 then [pair(hs[0], hs[0])]
    else
      var rest := PairUp(pair, hs[2..]);
      assert forall i :: 0 <= i < |rest| ==>
        rest[i] == pair(hs[2 * i + 2], if 2 * i + 3 == |hs| then hs[2 * i + 2] else hs[2 * i + 3]);
      [pair(hs[0], hs[1])] + rest
  }

  function RootOf(pair: PairHash, hs: seq<bytes>): bytes
    requires hs != []
    decreases |hs|
  {
    if |hs| == 1 then hs[0] else RootOf(pair, PairUp(pair, hs))
  }

  /** The number of levels above the leaves. */
  function Height(n: nat): nat
    requires n > 0
  {
    if n == 1 then 0 else 1 + Height((n + 1) / 2)
  }

  function Pow2(k: nat): nat { if k == 0 then 1 else 2 * Pow2(k - 1) }

  /** The height is the logarithm of the number of leaves, rounded up. */
  lemma {:induction false} HeightIsLog(n: nat)
    requires n > 0
    ensures n <= Pow2(Height(n)) && (n > 1 ==> Pow2(Height(n) - 1) < n)
  {
    if n > 1 {
      HeightIsLog((n + 1) / 2);
      if n == 2 { assert Height(1) == 0; }
    }
  }

  /** Nothing else hashes to what a and b hash to. */
  ghost predicate OnlyPair(pair: PairHash, a: bytes, b: bytes) {
    forall c, d :: pair(c, d) == pair(a, b) ==> c == a && d == b
  }

  ghost predicate Injective(pair: PairHash) {
    forall a, b {:trigger OnlyPair(pair, a, b)} :: OnlyPair(pair, a, b)
  }

  lemma SamePair(pair: PairHash, a: bytes, b: bytes, c: bytes, d: bytes)
    requires Injective(pair) && pair(a, b) == pair(c, d)
    ensures a == c && b == d
  {
    assert OnlyPair(pair, c, d);
  }

  lemma PairUpInjective(pair: PairHash, a: seq<bytes>, b: seq<bytes>)
    requires Injective(pair) && |a| == |b| && PairUp(pair, a) == PairUp(pair, b)
    ensures a == b
  {
    forall k | 0 <= k < |a| ensures a[k] == b[k] { PairedAt(pair, a, b, k / 2, k); }
  }

  lemma PairedAt(pair: PairHash, a: seq<bytes>, b: seq<bytes>, i: nat, k: nat)
    requires Injective(pair) && |a| == |b| && PairUp(pair, a) == PairUp(pair, b)
    requires k < |a| && (k == 2 * i || k == 2 * i + 1)
    ensures a[k] == b[k]
  {
    var up, vp, j := PairUp(pair, a), PairUp(pair, b), if 2 * i + 1 == |a| then 2 * i else 2 * i + 1;
    assert up[i] == pair(a[2 * i], a[j]) && vp[i] == pair(b[2 * i], b[j]);
    SamePair(pair, a[2 * i], a[j], b[2 * i], b[j]);
  }

  /** Lists of the same length with the same root are the same, if the pair hash is injective. */
  lemma {:induction false} RootTellsLists(pair: PairHash, a: seq<bytes>, b: seq<bytes>)
    requires Injective(pair) && |a| == |b| && a != [] && RootOf(pair, a) == RootOf(pair, b)
    ensures a == b
    decreases |a|
  {
    if |a| > 1 {
      RootTellsLists(pair, PairUp(pair, a), PairUp(pair, b));
      PairUpInjective(pair, a, b);
    }
  }

  // ----- when lists of any lengths have the same root

  function Min(a: int, b: int): int { if a <= b then a else b }

  /** The hash that stands for leaf j in the full tree over a list of n: on each level the last one fills the gap. */
  function Source(n: nat, j: nat): (i: nat)
    requires n > 0
    ensures i < n
  {
    if n == 1 then 0 else Min(2 * Source((n + 1) / 2, j / 2) + j % 2, n - 1)
  }

  /** Filled up to a full tree, the lists have the same leaves. */
  ghost predicate SameLeaves(a: seq<bytes>, b: seq<bytes>) {
    && a != [] && b != [] && Height(|a|) == Height(|b|)
    && forall j {:trigger Source(|a|, j)} :: 0 <= j < Pow2(Height(|a|)) ==> a[Source(|a|, j)] == b[Source(|b|, j)]
  }

  /** The two leaves below node i of the level above. */
  lemma LeavesBelow(pair: PairHash, a: seq<bytes>, i: nat)
    requires |a| > 1
    ensures var p := Source((|a| + 1) / 2, i);
            && p < |PairUp(pair, a)|
            && PairUp(pair, a)[p] == pair(a[Source(|a|, 2 * i)], a[Source(|a|, 2 * i + 1)])
  {
    var n, p := |a|, Source((|a| + 1) / 2, i);
    assert 2 * i / 2 == i && (2 * i + 1) / 2 == i;
    assert Source(n, 2 * i) == 2 * p && Source(n, 2 * i + 1) == Min(2 * p + 1, n - 1);
    assert PairUp(pair, a)[p] == pair(a[2 * p], if 2 * p + 1 == n then a[2 * p] else a[2 * p + 1]);
  }

  lemma SameLeavesUp(pair: PairHash, a: seq<bytes>, b: seq<bytes>)
    requires |a| > 1 && |b| > 1 && SameLeaves(a, b)
    ensures SameLeaves(PairUp(pair, a), PairUp(pair, b))
  {
    var up, vp := PairUp(pair, a), PairUp(pair, b);
    forall i | 0 <= i < Pow2(Height(|up|)) ensures up[Source(|up|, i)] == vp[Source(|vp|, i)] {
      LeavesBelow(pair, a, i);
      LeavesBelow(pair, b, i);
      assert a[Source(|a|, 2 * i)] == b[Source(|b|, 2 * i)] && a[Source(|a|, 2 * i + 1)] == b[Source(|b|, 2 * i + 1)];
    }
  }

  /** The pair of leaves below a node is known from the node. */
  lemma PairDown(pair: PairHash, a: seq<bytes>, b: seq<bytes>, i: nat)
    requires |a| > 1 && |b| > 1 && Injective(pair)
    requires PairUp(pair, a)[Source((|a| + 1) / 2, i)] == PairUp(pair, b)[Source((|b| + 1) / 2, i)]
    ensures a[Source(|a|, 2 * i)] == b[Source(|b|, 2 * i)] && a[Source(|a|, 2 * i + 1)] == b[Source(|b|, 2 * i + 1)]
  {
    LeavesBelow(pair, a, i);
    LeavesBelow(pair, b, i);
    SamePair(pair, a[Source(|a|, 2 * i)], a[Source(|a|, 2 * i + 1)], b[Source(|b|, 2 * i)], b[Source(|b|, 2 * i + 1)]);
  }

  lemma LeafDown(pair: PairHash, a: seq<bytes>, b: seq<bytes>, j: nat)
    requires |a| > 1 && |b| > 1 && Injective(pair)
    requires PairUp(pair, a)[Source((|a| + 1) / 2, j / 2)] == PairUp(pair, b)[Source((|b| + 1) / 2, j / 2)]
    ensures a[Source(|a|, j)] == b[Source(|b|, j)]
  {
    PairDown(pair, a, b, j / 2);
    assert j == 2 * (j / 2) || j == 2 * (j / 2) + 1;
  }

  lemma SameLeavesDown(pair: PairHash, a: seq<bytes>, b: seq<bytes>)
    requires |a| > 1 && |b| > 1 && Injective(pair) && SameLeaves(PairUp(pair, a), PairUp(pair, b))
    ensures SameLeaves(a, b)
  {
    var up, vp := PairUp(pair, a), PairUp(pair, b);
    forall j | 0 <= j < Pow2(Height(|a|)) ensures a[Source(|a|, j)] == b[Source(|b|, j)] {
      assert up[Source(|up|, j / 2)] == vp[Source(|vp|, j / 2)];
      LeafDown(pair, a, b, j);
    }
  }

  /** Trees of the same height have the same root if and only if they have the same leaves when filled up. */
  lemma {:induction false} SameHeightExactly(pair: PairHash, a: seq<bytes>, b: seq<bytes>)
    requires Injective(pair) && a != [] && b != [] && Height(|a|) == Height(|b|)
    ensures RootOf(pair, a) == RootOf(pair, b) <==> SameLeaves(a, b)
    decreases |a|
  {
    if |a| == 1 {
      assert |b| == 1;
      assert Pow2(0) == 1 && Source(1, 0) == 0;
    } else {
      SameHeightExactly(pair, PairUp(pair, a), PairUp(pair, b));
      if SameLeaves(a, b) {
        SameLeavesUp(pair, a, b);
      } else if SameLeaves(PairUp(pair, a), PairUp(pair, b)) {
        SameLeavesDown(pair, a, b);
      }
    }
  }

  /** The level k above the leaves. */
  function LevelUp(pair: PairHash, hs: seq<bytes>, k: nat): (r: seq<bytes>)
    requires hs != [] && k <= Height(|hs|)
    ensures r != [] && Height(|r|) == Height(|hs|) - k
    decreases k
  {
    if k == 0 then hs else LevelUp(pair, PairUp(pair, hs), k - 1)
  }

  lemma {:induction false} LevelHasRoot(pair: PairHash, hs: seq<bytes>, k: nat)
    requires hs != [] && k <= Height(|hs|)
    ensures RootOf(pair, LevelUp(pair, hs, k)) == RootOf(pair, hs)
    decreases k
  {
    if k > 0 { LevelHasRoot(pair, PairUp(pair, hs), k - 1); }
  }

  /**
    When two lists have the same root, if the pair hash is injective: the lower tree and the level of the
    higher one that is as high as it have the same leaves when filled up.
   */
  lemma SameRootExactly(pair: PairHash, a: seq<bytes>, b: seq<bytes>)
    requires Injective(pair) && a != [] && b != [] && Height(|a|) <= Height(|b|)
    ensures RootOf(pair, a) == RootOf(pair, b) <==> SameLeaves(a, LevelUp(pair, b, Height(|b|) - Height(|a|)))
  {
    var k: nat := Height(|b|) - Height(|a|);
    LevelHasRoot(pair, b, k);
    SameRootAt(pair, a, LevelUp(pair, b, k), RootOf(pair, b));
  }

  lemma SameRootAt(pair: PairHash, a: seq<bytes>, up: seq<bytes>, root: bytes)
    requires Injective(pair) && a != [] && up != [] && Height(|a|) == Height(|up|) && RootOf(pair, up) == root
    ensures RootOf(pair, a) == root <==> SameLeaves(a, up)
  {
    SameHeightExactly(pair, a, up);
  }

  /** So lists of different lengths can have the same root: a last hash without neighbour may be repeated. */
  lemma LastMayBeRepeated(pair: PairHash, hs: seq<bytes>)
    requires |hs| > 1 && |hs| % 2 == 1
    ensures RootOf(pair, hs + [hs[|hs| - 1]]) == RootOf(pair, hs)
  {
    var more := hs + [hs[|hs| - 1]];
    assert PairUp(pair, more) == PairUp(pair, hs);
  }

  // ----- the tree

  class MerkleTreeNode {
    var hash: bytes
    var parent: MerkleTreeNode?
    var leftChild: MerkleTreeNode?
    var rightChild: MerkleTreeNode?

    constructor (h: bytes)
      ensures hash == h && parent == null && leftChild == null && rightChild == null
    {
      hash, parent, leftChild, rightChild := h, null, null, null;
    }
  }

  ghost predicate Distinct(nodes: seq<MerkleTreeNode>) {
    forall i, j {:trigger nodes[i], nodes[j]} :: 0 <= i < j < |nodes| ==> nodes[i] != nodes[j]
  }

  ghost function Hashes(nodes: seq<MerkleTreeNode>): (r: seq<bytes>)
    reads nodes
    ensures |r| == |nodes| && forall i :: 0 <= i < |r| ==> r[i] == nodes[i].hash
  {
    seq(|nodes|, i requires 0 <= i < |nodes| reads nodes => nodes[i].hash)
  }

  /** hi is the level above lo. */
  ghost predicate Linked(pair: PairHash, lo: seq<MerkleTreeNode>, hi: seq<MerkleTreeNode>)
    reads lo, hi
  {
    && |hi| == (|lo| + 1) / 2
    && (forall i {:trigger lo[i].parent} :: 0 <= i < |lo| ==> lo[i].parent == hi[i / 2])
    && (forall j {:trigger Joins(pair, hi[j], lo, j)} :: 0 <= j < |hi| ==> Joins(pair, hi[j], lo, j))
  }

  /** The j-th node of the level above has its two children, which are the same if there is only one left. */
  ghost predicate Joins(pair: PairHash, n: MerkleTreeNode, lo: seq<MerkleTreeNode>, j: nat)
    requires 2 * j < |lo|
    reads n, lo
  {
    var right := if 2 * j + 1 == |lo| then lo[2 * j] else lo[2 * j + 1];
    n.leftChild == lo[2 * j] && n.rightChild == right && n.hash == pair(lo[2 * j].hash, right.hash)
  }

  lemma LinkedHashes(pair: PairHash, lo: seq<MerkleTreeNode>, hi: seq<MerkleTreeNode>)
    requires Linked(pair, lo, hi)
    ensures Hashes(hi) == PairUp(pair, Hashes(lo))
  {
    forall j | 0 <= j < |hi| ensures Hashes(hi)[j] == PairUp(pair, Hashes(lo))[j] {
      assert Joins(pair, hi[j], lo, j);
    }
  }

  ghost function Nodes(levels: seq<seq<MerkleTreeNode>>): set<MerkleTreeNode> {
    set k, i | 0 <= k < |levels| && 0 <= i < |levels[k]| :: levels[k][i]
  }

  ghost predicate LinkedAt(pair: PairHash, levels: seq<seq<MerkleTreeNode>>, k: nat)
    requires k < |levels| - 1
    reads levels[k], levels[k + 1]
  {
    Linked(pair, levels[k], levels[k + 1])
  }

  /** The levels from the leaves to the root. */
  ghost predicate Levels(pair: PairHash, levels: seq<seq<MerkleTreeNode>>, root: MerkleTreeNode)
    reads Nodes(levels)
  {
    && |levels| > 0 && levels[|levels| - 1] == [root] && root in Nodes(levels) && root.parent == null
    && forall k {:trigger LinkedAt(pair, levels, k)} :: 0 <= k < |levels| - 1 ==> LinkedAt(pair, levels, k)
  }

  // ----- building it

  /** The parents made so far: they join the leaves before position 2 * |parents|, and those point to them. */
  ghost predicate Joined(pair: PairHash, leaves: seq<MerkleTreeNode>, parents: seq<MerkleTreeNode>)
    reads leaves, parents
  {
    && |parents| <= (|leaves| + 1) / 2 && Distinct(parents)
    && (forall j {:trigger parents[j]} :: 0 <= j < |parents| ==>
          parents[j].parent == null && Joins(pair, parents[j], leaves, j))
    && (forall i {:trigger leaves[i].parent} ::
          0 <= i < |leaves| && i < 2 * |parents| ==> leaves[i].parent == parents[i / 2])
  }

  /** A node with its children; their links to it are set. */
  method NewParent(pair: PairHash, leaves: seq<MerkleTreeNode>, i: nat) returns (p: MerkleTreeNode)
    requires 2 * i < |leaves| && Distinct(leaves)
    modifies leaves`parent
    ensures fresh(p) && p.parent == null && Joins(pair, p, leaves, i)
    ensures forall k {:trigger leaves[k].parent} :: 0 <= k < |leaves| ==>
              leaves[k].parent == if k / 2 == i then p else old(leaves[k].parent)
  {
    p := new MerkleTreeNode([]);
    p.leftChild := leaves[i * 2];
    leaves[i * 2].parent := p;
    if i * 2 + 1 == |leaves| {
      p.rightChild := p.leftChild;
    } else {
      p.rightChild := leaves[i * 2 + 1];
      leaves[i * 2 + 1].parent := p;
    }
    p.hash := pair(p.leftChild.hash, p.rightChild.hash);
  }

  /** One more parent. */
  method Join(pair: PairHash, leaves: seq<MerkleTreeNode>, ghost parents: seq<MerkleTreeNode>, i: nat)
    returns (p: MerkleTreeNode)
    requires Joined(pair, leaves, parents) && |parents| == i < (|leaves| + 1) / 2 && Distinct(leaves)
    requires forall n :: n in parents ==> n !in leaves
    modifies leaves`parent
    ensures fresh(p) && Joined(pair, leaves, parents + [p])
  {
    p := NewParent(pair, leaves, i);
    ghost var ps := parents + [p];
    forall j | 0 <= j < |ps| ensures ps[j].parent == null && Joins(pair, ps[j], leaves, j) {
      if j < i { assert ps[j] == parents[j] && parents[j] in parents; }
    }
  }

  method JoinAll(pair: PairHash, leaves: seq<MerkleTreeNode>) returns (parents: seq<MerkleTreeNode>)
    requires |leaves| > 1 && Distinct(leaves)
    modifies leaves`parent
    ensures fresh(parents) && Joined(pair, leaves, parents) && Linked(pair, leaves, parents)
  {
    parents := [];
    for i := 0 to (|leaves| + 1) / 2
      invariant |parents| == i && fresh(parents) && Joined(pair, leaves, parents)
    {
      var p := Join(pair, leaves, parents, i);
      parents := parents + [p];
    }
  }

  /** Linking the upper level further does not loosen it from the lower one. */
  twostate lemma LinkedKept(p: (PairHash, seq<MerkleTreeNode>, seq<MerkleTreeNode>))
    requires old(Linked(p.0, p.1, p.2))
    requires forall i {:trigger p.1[i]} :: 0 <= i < |p.1| ==> unchanged(p.1[i])
    requires forall j {:trigger p.2[j].leftChild} :: 0 <= j < |p.2| ==>
               && p.2[j].leftChild == old(p.2[j].leftChild) && p.2[j].rightChild == old(p.2[j].rightChild)
               && p.2[j].hash == old(p.2[j].hash)
    ensures Linked(p.0, p.1, p.2)
  {
    forall j | 0 <= j < |p.2| ensures Joins(p.0, p.2[j], p.1, j) {
      var n := p.2[j];
      assert n.leftChild == old(n.leftChild) && old(Joins(p.0, n, p.1, j));
      assert unchanged(p.1[2 * j]) && (2 * j + 1 < |p.1| ==> unchanged(p.1[2 * j + 1]));
    }
  }

  lemma LevelsPrepended(pair: PairHash, lo: seq<MerkleTreeNode>, upper: seq<seq<MerkleTreeNode>>, root: MerkleTreeNode)
    requires Levels(pair, upper, root) && Linked(pair, lo, upper[0])
    ensures Levels(pair, [lo] + upper, root) && ([lo] + upper)[1..] == upper
    ensures Nodes(upper) == Nodes(upper[1..]) + set n | n in upper[0]
  {
    var levels := [lo] + upper;
    assert levels[|levels| - 1][0] in Nodes(levels);
    forall k | 0 <= k < |levels| - 1 ensures LinkedAt(pair, levels, k) {
      if k > 0 { assert LinkedAt(pair, upper, k - 1) && levels[k] == upper[k - 1]; }
    }
    assert upper == [upper[0]] + upper[1..];
    forall n | n in Nodes(upper) ensures n in Nodes(upper[1..]) || n in upper[0] {
      var k, i :| 0 <= k < |upper| && 0 <= i < |upper[k]| && upper[k][i] == n;
      if k > 0 { assert upper[1..][k - 1][i] == n; }
    }
    forall n | n in Nodes(upper[1..]) ensures n in Nodes(upper) {
      var k, i :| 0 <= k < |upper[1..]| && 0 <= i < |upper[1..][k]| && upper[1..][k][i] == n;
      assert upper[k + 1][i] == n;
    }
    forall n | n in upper[0] ensures n in Nodes(upper) {
      var i :| 0 <= i < |upper[0]| && upper[0][i] == n;
      assert upper[0][i] in Nodes(upper);
    }
  }

  /** Builds the levels above the leaves. */
  method BuildMerkleTree(pair: PairHash, leaves: seq<MerkleTreeNode>)
    returns (root: MerkleTreeNode, ghost levels: seq<seq<MerkleTreeNode>>)
    requires leaves != [] && Distinct(leaves) && forall i {:trigger leaves[i]} :: 0 <= i < |leaves| ==>
               leaves[i].parent == null
    modifies leaves`parent
    ensures Levels(pair, levels, root) && levels[0] == leaves && |levels| == Height(|leaves|) + 1
    ensures root.hash == old(RootOf(pair, Hashes(leaves)))
    ensures fresh(Nodes(levels[1..]))
    decreases |leaves|
  {
    if |leaves| == 1 {
      root, levels := leaves[0], [leaves];
      assert levels[0][0] in Nodes(levels);
      return;
    }
    ghost var hs := Hashes(leaves);
    var parents := JoinAll(pair, leaves);
    LinkedHashes(pair, leaves, parents);
    assert Hashes(leaves) == hs;
    ghost var upper;
    label Linked1:
    root, upper := BuildMerkleTree(pair, parents);
    LinkedKept@Linked1((pair, leaves, parents));
    LevelsPrepended(pair, leaves, upper, root);
    levels := [leaves] + upper;
  }

  // ----- the way up

  /** The node k parent links above n, followed inside a set of nodes. */
  ghost function Ancestor(n: MerkleTreeNode, k: nat, within: set<MerkleTreeNode>): (a: MerkleTreeNode?)
    reads within
    decreases k
  {
    if k == 0 then n
    else if n !in within || n.parent == null then null
    else Ancestor(n.parent, k - 1, within)
  }

  /** From every node of level k the links lead to the root, in as many steps as there are levels above. */
  lemma {:induction false} LinksLeadToRoot(pair: PairHash, levels: seq<seq<MerkleTreeNode>>, root: MerkleTreeNode,
                                           k: nat, i: nat)
    requires Levels(pair, levels, root) && k < |levels| && i < |levels[k]|
    ensures Ancestor(levels[k][i], |levels| - 1 - k, Nodes(levels)) == root
    decreases |levels| - k
  {
    var n := levels[k][i];
    assert n in Nodes(levels);
    if k < |levels| - 1 {
      assert LinkedAt(pair, levels, k);
      assert levels[k][i].parent == levels[k + 1][i / 2];
      LinksLeadToRoot(pair, levels, root, k + 1, i / 2);
    }
  }

  /** depth is a constant in the program, whatever the height of the tree. */
  class MerkleTree {
    const root: MerkleTreeNode
    const depth: nat

    constructor (r: MerkleTreeNode)
      ensures root == r && depth == 1
    {
      root, depth := r, 1;
    }

    function Root(): bytes
      reads root
    {
      root.hash
    }
  }

  method NewNodes(hashes: seq<bytes>) returns (nodes: seq<MerkleTreeNode>)
    ensures fresh(nodes) && Distinct(nodes) && Hashes(nodes) == hashes
    ensures forall i {:trigger nodes[i]} :: 0 <= i < |nodes| ==> nodes[i].parent == null
  {
    nodes := [];
    for i := 0 to |hashes|
      invariant |nodes| == i && fresh(nodes) && Distinct(nodes)
      invariant forall k {:trigger nodes[k]} :: 0 <= k < i ==> nodes[k].parent == null && nodes[k].hash == hashes[k]
    {
      var n := new MerkleTreeNode(hashes[i]);
      nodes := nodes + [n];
    }
  }

  /** The tree of a list of hashes; there is none for the empty list. Every leaf is Height(n) links below the root. */
  method NewMerkleTree(pair: PairHash, hashes: seq<bytes>)
    returns (t: MerkleTree?, ghost levels: seq<seq<MerkleTreeNode>>)
    ensures t == null <==> hashes == []
    ensures t != null ==> t.Root() == RootOf(pair, hashes)
    ensures t != null ==>
              Levels(pair, levels, t.root) && |levels| == Height(|hashes|) + 1 && Hashes(levels[0]) == hashes
    ensures t != null ==> forall i {:trigger levels[0][i]} :: 0 <= i < |hashes| ==>
              Ancestor(levels[0][i], Height(|hashes|), Nodes(levels)) == t.root
  {
    levels := [];
    if |hashes| == 0 {
      return null, levels;
    }
    var nodes := NewNodes(hashes);
    var root;
    root, levels := BuildMerkleTree(pair, nodes);
    t := new MerkleTree(root);
    forall i | 0 <= i < |hashes| ensures Ancestor(levels[0][i], Height(|hashes|), Nodes(levels)) == root {
      LinksLeadToRoot(pair, levels, root, 0, i);
    }
  }
}
