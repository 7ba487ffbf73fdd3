/**
 Merkle batches (app/crypto/merkle.py).

 The digest of two concatenated nodes is a parameter `h`; everything about honest trees holds
 for every `h`, and the binding results say exactly where they need `h` to be injective on pairs.
 Leaves carry no prefix, so a leaf may itself be the digest of a pair.
 */
module Merkle {
  import opened Prelude

  // ---------------------------------------------------------------------------------------
  // The tree, one level at a time
  // ---------------------------------------------------------------------------------------

  /** An odd level repeats its last node. */
  function Padded<D>(level: seq<D>): (p: seq<D>)
    ensures |p| % 2 == 0 && |level| <= |p| <= |level| + 1
  {
    if |level| % 2 == 1 then level + [level[|level| - 1]] else level
  }

  /** Digests of consecutive pairs. */
  function Pairs<D>(h: (D, D) -> D, level: seq<D>): (up: seq<D>)
    requires |level| % 2 == 0
    ensures |up| == |level| / 2
  {
    seq(|level| / 2, i requires 0 <= i < |level| / 2 => h(level[2 * i], level[2 * i + 1]))
  }

  /** The parent level. */
  function LevelUp<D>(h: (D, D) -> D, level: seq<D>): (up: seq<D>)
    ensures |up| == (|level| + 1) / 2
  {
    Pairs(h, Padded(level))
  }

  ghost function Root<D>(h: (D, D) -> D, leaves: seq<D>): D
    requires leaves != []
    decreases |leaves|
  {
    if |leaves| == 1 then leaves[0] else Root(h, LevelUp(h, leaves))
  }

  /** The sibling of every node on the path from leaf `i` to the root. */
  ghost function Siblings<D>(h: (D, D) -> D, leaves: seq<D>, i: nat): seq<D>
    requires i < |leaves|
    decreases |leaves|
  {
    if |leaves| == 1 then []
    else [Padded(leaves)[Sibling(i)]] + Siblings(h, LevelUp(h, leaves), i / 2)
  }

  function Sibling(i: int): int {
    if i % 2 == 1 then i - 1 else i + 1
  }

  /** What a verifier recomputes from a leaf, its claimed position and a proof. */
  ghost function Climb<D>(h: (D, D) -> D, node: D, i: int, proof: seq<D>): D
    decreases |proof|
  {
    if proof == [] then node
    else Climb(h, if i % 2 == 1 then h(proof[0], node) else h(node, proof[0]), i / 2, proof[1..])
  }

  lemma AppendCons<D>(xs: seq<D>, x: D, ys: seq<D>)
    ensures xs + ([x] + ys) == xs + [x] + ys
  {
  }

  /** One level of a proof, moved from what is left to what is done. */
  lemma {:induction false} ProofStep<D>(h: (D, D) -> D, proof: seq<D>, level: seq<D>, i: nat)
    requires i < |level| && |level| > 1
    ensures 0 <= Sibling(i) < |Padded(level)|
    ensures proof + Siblings(h, level, i) ==
            proof + [Padded(level)[Sibling(i)]] + Siblings(h, LevelUp(h, level), i / 2)
  {
    AppendCons(proof, Padded(level)[Sibling(i)], Siblings(h, LevelUp(h, level), i / 2));
  }

  // ---------------------------------------------------------------------------------------
  // The loops of the source
  // ---------------------------------------------------------------------------------------

  method MerkleRoot<D>(h: (D, D) -> D, empty: D, leaves: seq<D>) returns (root: D)
    ensures leaves == [] ==> root == empty
    ensures leaves != [] ==> root == Root(h, leaves)
  {
    if leaves == [] {
      return empty;
    }
    var level := leaves;
    while |level| > 1
      invariant level != []
      invariant Root(h, level) == Root(h, leaves)
    {
      ghost var before := level;
      if |level| % 2 == 1 {
        level := level + [level[|level| - 1]];
      }
      assert level == Padded(before);
      level := Pairs(h, level);
    }
    root := level[0];
  }

  datatype ProofError = IndexOutOfRange(index: int, leaves: nat)

  method MerkleProof<D>(h: (D, D) -> D, leaves: seq<D>, index: int) returns (r: Result<seq<D>, ProofError>)
    ensures leaves == [] ==> r == Ok([])
    ensures leaves != [] && !(0 <= index < |leaves|) ==> r == Err(IndexOutOfRange(index, |leaves|))
    ensures 0 <= index < |leaves| ==> r == Ok(Siblings(h, leaves, index))
  {
    if leaves == [] {
      return Ok([]);
    }
    if index < 0 || index >= |leaves| {
      return Err(IndexOutOfRange(index, |leaves|));
    }
    ghost var whole := Siblings(h, leaves, index);
    var level, idx, proof := leaves, index, [];
    while |level| > 1
      invariant 0 <= idx < |level|
      invariant whole == proof + Siblings(h, level, idx)
    {
      ProofStep(h, proof, level, idx);
      ghost var padded := Padded(level);
      if |level| % 2 == 1 {
        level := level + [level[|level| - 1]];
      }
      assert level == padded;
      proof := proof + [level[Sibling(idx)]];
      level, idx := Pairs(h, level), idx / 2;
    }
    assert proof + Siblings(h, level, idx) == proof;
    r := Ok(proof);
  }

  method VerifyMerkleProof<D(==)>(h: (D, D) -> D, leaf: D, index: int, proof: seq<D>, root: D)
    returns (ok: bool)
    ensures ok <==> Climb(h, leaf, index, proof) == root
  {
    var current, idx := leaf, index;
    for k := 0 to |proof|
      invariant Climb(h, leaf, index, proof) == Climb(h, current, idx, proof[k..])
    {
      assert proof[k..][1..] == proof[k + 1..];
      var sibling := proof[k];
      current := if idx % 2 == 1 then h(sibling, current) else h(current, sibling);
      idx := idx / 2;
    }
    ok := current == root;
  }

  // ---------------------------------------------------------------------------------------
  // Honest proofs verify
  // ---------------------------------------------------------------------------------------

  /** The parent of node i is the digest of i and its sibling, in position order. */
  lemma ParentOf<D>(h: (D, D) -> D, level: seq<D>, i: nat)
    requires i < |level|
    ensures 0 <= Sibling(i) < |Padded(level)|
    ensures i % 2 == 0 ==> LevelUp(h, level)[i / 2] == h(level[i], Padded(level)[Sibling(i)])
    ensures i % 2 == 1 ==> LevelUp(h, level)[i / 2] == h(Padded(level)[Sibling(i)], level[i])
  {
    var j := i / 2;
    assert LevelUp(h, level)[j] == h(Padded(level)[2 * j], Padded(level)[2 * j + 1]);
  }

  lemma ClimbCons<D>(h: (D, D) -> D, node: D, i: nat, sibling: D, rest: seq<D>)
    ensures i % 2 == 0 ==> Climb(h, node, i, [sibling] + rest) == Climb(h, h(node, sibling), i / 2, rest)
    ensures i % 2 == 1 ==> Climb(h, node, i, [sibling] + rest) == Climb(h, h(sibling, node), i / 2, rest)
  {
    assert ([sibling] + rest)[1..] == rest;
  }

  /** Every honest proof recomputes the root, at every batch size and position. */
  lemma {:induction false} HonestProofVerifies<D>(h: (D, D) -> D, leaves: seq<D>, i: nat)
    requires i < |leaves|
    ensures Climb(h, leaves[i], i, Siblings(h, leaves, i)) == Root(h, leaves)
    decreases |leaves|
  {
    if |leaves| > 1 {
      var up, j := LevelUp(h, leaves), i / 2;
      ParentOf(h, leaves, i);
      ClimbCons(h, leaves[i], i, Padded(leaves)[Sibling(i)], Siblings(h, up, j));
      HonestProofVerifies(h, up, j);
    }
  }

  /** Number of levels above the leaves. */
  function Height(n: nat): nat
    requires n > 0
  {
    if n == 1 then 0 else 1 + Height((n + 1) / 2)
  }

  lemma {:induction false} ProofLength<D>(h: (D, D) -> D, leaves: seq<D>, i: nat)
    requires i < |leaves|
    ensures |Siblings(h, leaves, i)| == Height(|leaves|)
    decreases |leaves|
  {
    if |leaves| > 1 {
      ProofLength(h, LevelUp(h, leaves), i / 2);
    }
  }

  // ---------------------------------------------------------------------------------------
  // Binding
  // ---------------------------------------------------------------------------------------

  ghost predicate PairInjective<D(!new)>(h: (D, D) -> D) {
    forall a, b, c, d :: h(a, b) == h(c, d) ==> a == c && b == d
  }

  /** A value no pair hashes to; event hashes are digests of JSON objects, never of a node pair. */
  ghost predicate NotANode<D(!new)>(h: (D, D) -> D, x: D) {
    forall a, b :: h(a, b) != x
  }

  lemma {:induction false} ClimbInjective<D(!new)>(h: (D, D) -> D, x: D, y: D, i: int, p: seq<D>, q: seq<D>)
    requires PairInjective(h) && |p| == |q|
    requires Climb(h, x, i, p) == Climb(h, y, i, q)
    ensures x == y && p == q
    decreases |p|
  {
    if p != [] {
      var x' := if i % 2 == 1 then h(p[0], x) else h(x, p[0]);
      var y' := if i % 2 == 1 then h(q[0], y) else h(y, q[0]);
      ClimbInjective(h, x', y', i / 2, p[1..], q[1..]);
      assert p == [p[0]] + p[1..] && q == [q[0]] + q[1..];
    }
  }

  /** Position binding: a verifying proof of honest length is the honest proof of the honest leaf. */
  lemma {:induction false} PositionBinding<D(!new)>(h: (D, D) -> D, leaves: seq<D>, i: nat, leaf: D, proof: seq<D>)
    requires PairInjective(h) && i < |leaves|
    requires |proof| == Height(|leaves|)
    ensures Climb(h, leaf, i, proof) == Root(h, leaves) <==>
            leaf == leaves[i] && proof == Siblings(h, leaves, i)
  {
    HonestProofVerifies(h, leaves, i);
    ProofLength(h, leaves, i);
    if Climb(h, leaf, i, proof) == Root(h, leaves) {
      ClimbInjective(h, leaf, leaves[i], i, proof, Siblings(h, leaves, i));
    }
  }

  /** Two batches of the same size with the same root are the same batch. */
  lemma EqualLengthRootsBind<D(!new)>(h: (D, D) -> D, a: seq<D>, b: seq<D>)
    requires PairInjective(h) && a != [] && |a| == |b|
    ensures Root(h, a) == Root(h, b) <==> a == b
  {
    if Root(h, a) == Root(h, b) {
      forall i | 0 <= i < |a|
        ensures a[i] == b[i]
      {
        HonestProofVerifies(h, a, i);
        ProofLength(h, a, i);
        PositionBinding(h, b, i, a[i], Siblings(h, a, i));
      }
    }
  }

  /** An odd batch of three or more leaves has the root of the batch with its last leaf repeated. */
  lemma OddBatchCollides<D>(h: (D, D) -> D, leaves: seq<D>)
    requires |leaves| >= 3 && |leaves| % 2 == 1
    ensures Root(h, leaves + [leaves[|leaves| - 1]]) == Root(h, leaves)
  {
    assert Padded(leaves + [leaves[|leaves| - 1]]) == Padded(leaves);
    assert LevelUp(h, leaves + [leaves[|leaves| - 1]]) == LevelUp(h, leaves);
  }

  // ---------------------------------------------------------------------------------------
  // Exactly which batches share a root
  // ---------------------------------------------------------------------------------------

  /** For each leaf slot of the completed tree over n leaves, the leaf that fills it. */
  function Slots(n: nat): (s: seq<nat>)
    requires n > 0
    ensures s != []
    ensures forall k :: 0 <= k < |s| ==> s[k] < n
    decreases n
  {
    if n == 1 then [0] else Children(Slots((n + 1) / 2), n)
  }

  /** The two slots below each parent slot. */
  function Children(parents: seq<nat>, n: nat): (s: seq<nat>)
    requires n > 0
    ensures |s| == 2 * |parents| && forall k :: 0 <= k < |s| ==> s[k] < n
  {
    seq(2 * |parents|, k requires 0 <= k < 2 * |parents| => Slot(parents[k / 2], k % 2, n))
  }

  lemma ChildrenAt(parents: seq<nat>, n: nat, k: nat)
    requires n > 0 && k < |parents|
    ensures Children(parents, n)[2 * k] == Slot(parents[k], 0, n)
    ensures Children(parents, n)[2 * k + 1] == Slot(parents[k], 1, n)
  {
    assert (2 * k) / 2 == k == (2 * k + 1) / 2;
  }

  function Slot(parent: nat, side: nat, n: nat): nat
    requires n > 0
  {
    if 2 * parent + side < n then 2 * parent + side else n - 1
  }

  /** The leaves of the completed tree, repeats included. */
  ghost function Completed<D>(leaves: seq<D>): (c: seq<D>)
    requires leaves != []
    ensures |c| == |Slots(|leaves|)|
    ensures forall k :: 0 <= k < |c| ==> c[k] == leaves[Slots(|leaves|)[k]]
  {
    seq(|Slots(|leaves|)|, k requires 0 <= k < |Slots(|leaves|)| => leaves[Slots(|leaves|)[k]])
  }

  lemma {:induction false} SlotsOfChildren(n: nat, k: nat)
    requires n > 1 && k < |Slots((n + 1) / 2)|
    ensures |Slots(n)| == 2 * |Slots((n + 1) / 2)|
    ensures Slots(n)[2 * k] == Slot(Slots((n + 1) / 2)[k], 0, n)
    ensures Slots(n)[2 * k + 1] == Slot(Slots((n + 1) / 2)[k], 1, n)
  {
    ChildrenAt(Slots((n + 1) / 2), n, k);
  }

  lemma {:induction false} CompletedLevel<D>(h: (D, D) -> D, leaves: seq<D>, k: nat)
    requires |leaves| > 1 && k < |Slots((|leaves| + 1) / 2)|
    ensures |Completed(leaves)| == 2 * |Slots((|leaves| + 1) / 2)|
    ensures Completed(LevelUp(h, leaves))[k] == h(Completed(leaves)[2 * k], Completed(leaves)[2 * k + 1])
  {
    var n := |leaves|;
    var i := Slots((n + 1) / 2)[k];
    SlotsOfChildren(n, k);
    LevelUpSlots(h, leaves, i);
  }

  lemma LevelUpSlots<D>(h: (D, D) -> D, leaves: seq<D>, i: nat)
    requires 2 * i < |leaves|
    ensures LevelUp(h, leaves)[i] == h(leaves[Slot(i, 0, |leaves|)], leaves[Slot(i, 1, |leaves|)])
  {
    PaddedSlots(leaves, i);
    assert LevelUp(h, leaves)[i] == h(Padded(leaves)[2 * i], Padded(leaves)[2 * i + 1]);
  }

  lemma PaddedSlots<D>(leaves: seq<D>, i: nat)
    requires 2 * i < |leaves|
    ensures Padded(leaves)[2 * i] == leaves[Slot(i, 0, |leaves|)]
    ensures 2 * i + 1 < |Padded(leaves)| && Padded(leaves)[2 * i + 1] == leaves[Slot(i, 1, |leaves|)]
  {
  }

  lemma {:induction false} SlotsDetermineHeight(m: nat, n: nat)
    requires m > 0 && n > 0 && |Slots(m)| == |Slots(n)|
    ensures Height(m) == Height(n)
    decreases m + n
  {
    if m > 1 && n > 1 {
      SlotsDetermineHeight((m + 1) / 2, (n + 1) / 2);
    }
  }

  lemma {:induction false} SlotsFromHeight(m: nat, n: nat)
    requires m > 0 && n > 0 && Height(m) == Height(n)
    ensures |Slots(m)| == |Slots(n)|
    decreases m + n
  {
    if m > 1 && n > 1 {
      SlotsFromHeight((m + 1) / 2, (n + 1) / 2);
    }
  }

  lemma PairedAgreement<D(!new)>(h: (D, D) -> D, a: seq<D>, b: seq<D>, a': seq<D>, b': seq<D>)
    requires PairInjective(h) && |a| == |b| == 2 * |a'| == 2 * |b'|
    requires forall k :: 0 <= k < |a'| ==> a'[k] == h(a[2 * k], a[2 * k + 1])
    requires forall k :: 0 <= k < |b'| ==> b'[k] == h(b[2 * k], b[2 * k + 1])
    ensures a' == b' <==> a == b
  {
    if a' == b' {
      forall j | 0 <= j < |a|
        ensures a[j] == b[j]
      {
        var k := j / 2;
        assert a'[k] == b'[k] && (j == 2 * k || j == 2 * k + 1);
      }
    }
  }

  lemma {:induction false} SameHeightCollision<D(!new)>(h: (D, D) -> D, a: seq<D>, b: seq<D>)
    requires PairInjective(h) && a != [] && b != [] && Height(|a|) == Height(|b|)
    ensures Root(h, a) == Root(h, b) <==> Completed(a) == Completed(b)
    decreases |a|
  {
    SlotsFromHeight(|a|, |b|);
    if |a| == 1 {
      assert Completed(a) == a && Completed(b) == b;
    } else {
      var a', b' := LevelUp(h, a), LevelUp(h, b);
      SameHeightCollision(h, a', b');
      forall k | 0 <= k < |Completed(a')|
        ensures Completed(a')[k] == h(Completed(a)[2 * k], Completed(a)[2 * k + 1])
        ensures Completed(b')[k] == h(Completed(b)[2 * k], Completed(b)[2 * k + 1])
      {
        CompletedLevel(h, a, k);
        CompletedLevel(h, b, k);
      }
      PairedAgreement(h, Completed(a), Completed(b), Completed(a'), Completed(b'));
    }
  }

  function Pow2(k: nat): (p: nat)
    ensures p > 0
  {
    if k == 0 then 1 else 2 * Pow2(k - 1)
  }

  /** The balanced tree over a row of leaves, from the top: the digest of the left half's and the right half's. */
  ghost function Tree<D>(h: (D, D) -> D, row: seq<D>): D
    requires row != []
    decreases |row|
  {
    if |row| == 1 then row[0] else h(Tree(h, row[..|row| / 2]), Tree(h, row[|row| / 2..]))
  }

  lemma {:induction false} TreeOfPairs<D>(h: (D, D) -> D, row: seq<D>, up: seq<D>, k: nat)
    requires |up| == Pow2(k) && |row| == 2 * |up|
    requires forall i :: 0 <= i < |up| ==> up[i] == h(row[2 * i], row[2 * i + 1])
    ensures Tree(h, row) == Tree(h, up)
    decreases k
  {
    if k == 0 {
      assert row[..1] == [row[0]] && row[1..] == [row[1]];
    } else {
      var half := |up| / 2;
      assert half == Pow2(k - 1) && |row| / 2 == 2 * half;
      TreeOfPairs(h, row[..2 * half], up[..half], k - 1);
      TreeOfPairs(h, row[2 * half..], up[half..], k - 1);
    }
  }

  lemma {:induction false} SlotsComplete(n: nat)
    requires n > 0
    ensures |Slots(n)| == Pow2(Height(n)) && n <= |Slots(n)| && |Slots(n)| < 2 * n
    ensures forall k :: 0 <= k < n ==> Slots(n)[k] == k
    decreases n
  {
    if n > 1 {
      SlotsComplete((n + 1) / 2);
      forall k | 0 <= k < n
        ensures Slots(n)[k] == k
      {
        SlotsOfPair(n, k / 2);
        assert k == 2 * (k / 2) || k == 2 * (k / 2) + 1;
      }
      SlotsOfChildren(n, 0);
      HeightLeast(n);
    }
  }

  lemma {:induction false} SlotsOfPair(n: nat, j: nat)
    requires n > 1 && j < |Slots((n + 1) / 2)| && Slots((n + 1) / 2)[j] == j
    ensures |Slots(n)| > 2 * j + 1
    ensures (2 * j < n ==> Slots(n)[2 * j] == 2 * j) && (2 * j + 1 < n ==> Slots(n)[2 * j + 1] == 2 * j + 1)
  {
    SlotsOfChildren(n, j);
  }

  /** The height is the least at which a full row takes n leaves. */
  lemma {:induction false} HeightLeast(n: nat)
    requires n > 0
    ensures n <= Pow2(Height(n)) && (n > 1 ==> Pow2(Height(n) - 1) < n)
    decreases n
  {
    if n > 1 {
      HeightLeast((n + 1) / 2);
    }
  }

  /**
   The root of a batch is the balanced tree over its completed row: the leaves in order, filled up with repeats
   to the least power of two.
   */
  lemma {:induction false} RootIsTree<D>(h: (D, D) -> D, leaves: seq<D>)
    requires leaves != []
    ensures Root(h, leaves) == Tree(h, Completed(leaves))
    ensures |leaves| <= |Completed(leaves)| == Pow2(Height(|leaves|)) < 2 * |leaves|
    ensures Completed(leaves)[..|leaves|] == leaves
    decreases |leaves|
  {
    SlotsComplete(|leaves|);
    if |leaves| > 1 {
      RootIsTree(h, LevelUp(h, leaves));
      TreeOfLevel(h, leaves);
    }
  }

  lemma {:induction false} TreeOfLevel<D>(h: (D, D) -> D, leaves: seq<D>)
    requires |leaves| > 1
    ensures Tree(h, Completed(leaves)) == Tree(h, Completed(LevelUp(h, leaves)))
  {
    var up := LevelUp(h, leaves);
    SlotsComplete(|up|);
    forall k | 0 <= k < |Completed(up)|
      ensures |Completed(leaves)| == 2 * |Completed(up)|
      ensures Completed(up)[k] == h(Completed(leaves)[2 * k], Completed(leaves)[2 * k + 1])
    {
      CompletedLevel(h, leaves, k);
    }
    TreeOfPairs(h, Completed(leaves), Completed(up), Height(|up|));
  }

  /** Peeling the last step off the climb of the leftmost leaf. */
  lemma {:induction false} ClimbLeftEdge<D>(h: (D, D) -> D, x: D, p: seq<D>)
    requires p != []
    ensures Climb(h, x, 0, p) == h(Climb(h, x, 0, p[..|p| - 1]), p[|p| - 1])
    decreases |p|
  {
    if |p| > 1 {
      ClimbLeftEdge(h, h(x, p[0]), p[1..]);
      assert p[1..][..|p| - 2] == p[..|p| - 1][1..];
    }
  }

  lemma {:induction false} LeftEdgesDiffer<D(!new)>(h: (D, D) -> D, x: D, p: seq<D>, y: D, q: seq<D>)
    requires PairInjective(h) && NotANode(h, x) && |p| < |q|
    ensures Climb(h, x, 0, p) != Climb(h, y, 0, q)
    decreases |p|
  {
    ClimbLeftEdge(h, y, q);
    if p != [] {
      ClimbLeftEdge(h, x, p);
      LeftEdgesDiffer(h, x, p[..|p| - 1], y, q[..|q| - 1]);
    }
  }

  /**
   The root commits to the batch exactly up to completion: over leaves that are not node digests,
   two batches of any sizes share a root if and only if their completed trees agree.
   */
  lemma RootsCollideExactly<D(!new)>(h: (D, D) -> D, a: seq<D>, b: seq<D>)
    requires PairInjective(h) && a != [] && b != []
    requires forall x :: x in a || x in b ==> NotANode(h, x)
    ensures Root(h, a) == Root(h, b) <==> Completed(a) == Completed(b)
  {
    if Height(|a|) == Height(|b|) {
      SameHeightCollision(h, a, b);
    } else {
      HonestProofVerifies(h, a, 0);
      HonestProofVerifies(h, b, 0);
      ProofLength(h, a, 0);
      ProofLength(h, b, 0);
      assert a[0] in a && b[0] in b;
      if Height(|a|) < Height(|b|) {
        LeftEdgesDiffer(h, a[0], Siblings(h, a, 0), b[0], Siblings(h, b, 0));
      } else {
        LeftEdgesDiffer(h, b[0], Siblings(h, b, 0), a[0], Siblings(h, a, 0));
      }
      if Completed(a) == Completed(b) {
        SlotsDetermineHeight(|a|, |b|);
      }
    }
  }
}
