/**
 The append-only tree the pool keeps: one pass of `depth` hashes per insertion, remembering only the
 latest left node of each level. The sparse builder must arrive at the same root from scratch.
 */
module IncrementalTree {
  import opened Wrappers
  import opened MerkleSpec
  import MerkleTree

  lemma {:induction false} RootAncestor(i: nat, d: nat)
    requires i < Pow2(d)
    ensures Ancestor(i, d) == 0
  {
    if d > 0 {
      RootAncestor(i / 2, d - 1);
      AncestorHalf(i, d - 1);
    }
  }

  /** The next leaf's ancestor is this leaf's, or the one after it. */
  lemma {:induction false} NextAncestor(i: nat, d: nat)
    ensures Ancestor(i, d) <= Ancestor(i + 1, d) <= Ancestor(i, d) + 1
  {
    if d > 0 {
      NextAncestor(i, d - 1);
    }
  }

  lemma {:induction false} WidthAfterInsert(n: nat, d: nat)
    ensures Width(n + 1, d) == Ancestor(n, d) + 1
  {
    if d > 0 {
      WidthAfterInsert(n, d - 1);
    }
  }

  /** Appending a leaf leaves every node to the left of its ancestors untouched. */
  lemma {:induction false} LeftOfInsertUnchanged(H: Hasher, leaves: seq<Felt>, leaf: Felt, d: nat, j: nat)
    requires j < Ancestor(|leaves|, d)
    ensures Node(H, leaves + [leaf], d, j) == Node(H, leaves, d, j)
  {
    if d > 0 {
      LeftOfInsertUnchanged(H, leaves, leaf, d - 1, 2 * j);
      LeftOfInsertUnchanged(H, leaves, leaf, d - 1, 2 * j + 1);
    }
  }

  /** One level of an insertion: the parent of the inserted leaf's ancestor on level `d`. */
  lemma InsertLevel(H: Hasher, zeros: seq<Felt>, leaves: seq<Felt>, leaf: Felt, d: nat, filled: Felt)
    requires ZeroTable(H, zeros) && d < |zeros|
    requires Ancestor(|leaves|, d) % 2 == 1 ==> filled == Node(H, leaves, d, Ancestor(|leaves|, d) - 1)
    ensures var i := Ancestor(|leaves|, d); var grown := leaves + [leaf]; var node := Node(H, grown, d, i);
      Node(H, grown, d + 1, i / 2) == if i % 2 == 0 then H(node, zeros[d]) else H(filled, node)
  {
    hide Node, ZeroNode, Ancestor;
    var i, grown := Ancestor(|leaves|, d), leaves + [leaf];
    NodeAbove(H, grown, d, i / 2);
    if i % 2 == 0 {
      WidthAfterInsert(|leaves|, d);
      ZeroRegion(H, grown, d, i + 1);
      ZeroTableEntry(H, zeros, d);
    } else {
      LeftOfInsertUnchanged(H, leaves, leaf, d, i - 1);
    }
  }

  /** Where the ancestor of the next free leaf is a right child, its left sibling is remembered. */
  ghost predicate Remembers(H: Hasher, leaves: seq<Felt>, filled: seq<Felt>) {
    forall d :: 0 <= d < |filled| && Ancestor(|leaves|, d) % 2 == 1 ==>
      filled[d] == Node(H, leaves, d, Ancestor(|leaves|, d) - 1)
  }

  lemma LeftSibling(H: Hasher, leaves: seq<Felt>, filled: seq<Felt>, d: nat)
    requires Remembers(H, leaves, filled) && d < |filled|
    ensures Ancestor(|leaves|, d) % 2 == 1 ==> filled[d] == Node(H, leaves, d, Ancestor(|leaves|, d) - 1)
  {
  }

  /** What an insertion writes: the new leaf's ancestor wherever it is a left child. */
  ghost predicate UpdatedFor(H: Hasher, grown: seq<Felt>, n: nat, filled: seq<Felt>, filled': seq<Felt>, upTo: nat)
    requires upTo <= |filled| == |filled'|
  {
    && (forall d :: 0 <= d < upTo ==>
        filled'[d] == if Ancestor(n, d) % 2 == 0 then Node(H, grown, d, Ancestor(n, d)) else filled[d])
    && (forall d :: upTo <= d < |filled| ==> filled'[d] == filled[d])
  }

  lemma RememberedAfterInsert(H: Hasher, leaves: seq<Felt>, leaf: Felt, filled: seq<Felt>, filled': seq<Felt>)
    requires |filled| == |filled'|
    requires Remembers(H, leaves, filled)
    requires UpdatedFor(H, leaves + [leaf], |leaves|, filled, filled', |filled|)
    ensures Remembers(H, leaves + [leaf], filled')
  {
    var n, grown := |leaves|, leaves + [leaf];
    forall d | 0 <= d < |filled'| && Ancestor(n + 1, d) % 2 == 1
      ensures filled'[d] == Node(H, grown, d, Ancestor(n + 1, d) - 1)
    {
      NextAncestor(n, d);
      if Ancestor(n, d) % 2 == 1 {
        LeftOfInsertUnchanged(H, leaves, leaf, d, Ancestor(n, d) - 1);
      }
    }
  }

  class Tree {
    const H: Hasher
    const zeros: seq<Felt>
    const depth: nat
    var filledSubtrees: seq<Felt>
    var leaves: seq<Felt>
    var root: Felt

    ghost predicate Valid()
      reads this
    {
      && ZeroTable(H, zeros) && depth < |zeros|
      && |filledSubtrees| == depth && |leaves| <= Pow2(depth)
      && Remembers(H, leaves, filledSubtrees)
      && root == NaiveRoot(H, leaves, depth)
    }

    constructor (H: Hasher, zeros: seq<Felt>, depth: nat)
      requires ZeroTable(H, zeros) && depth < |zeros|
      ensures Valid() && leaves == []
      ensures this.H == H && this.depth == depth
    {
      this.H, this.zeros, this.depth := H, zeros, depth;
      filledSubtrees, leaves, root := zeros[..depth], [], zeros[depth];
      new;
      forall d: nat ensures Ancestor(0, d) == 0 {
        EmptyAncestor(d);
      }
      MerkleTree.EmptyLevel(H, zeros, depth, depth);
    }

    method Insert(leaf: Felt) returns (r: Result<nat, string>)
      requires Valid()
      modifies this
      ensures Valid()
      ensures old(|leaves|) == Pow2(depth) ==> r.Err? && unchanged(this)
      ensures old(|leaves|) < Pow2(depth) ==>
        r == Ok(old(|leaves|)) && leaves == old(leaves) + [leaf]
    {
      hide Node, NaiveLevel, Ancestor, ZeroTable, Remembers;
      if |leaves| >= Pow2(depth) {
        return Err("tree full");
      }
      ghost var before, filled, n := leaves, filledSubtrees, |leaves|;
      ghost var grown := leaves + [leaf];
      var currentIndex := |leaves|;
      var currentHash := leaf;
      leaves := leaves + [leaf];
      AncestorSteps(n, 0);
      LeafNode(H, grown, n);
      for d := 0 to depth
        invariant leaves == grown && |filledSubtrees| == depth && root == old(root)
        invariant currentIndex == Ancestor(n, d)
        invariant currentHash == Node(H, grown, d, currentIndex)
        invariant UpdatedFor(H, grown, n, filled, filledSubtrees, d)
      {
        AncestorSteps(n, d);
        LeftSibling(H, before, filled, d);
        InsertLevel(H, zeros, before, leaf, d, filled[d]);
        var left, right := currentHash, zeros[d];
        if currentIndex % 2 == 0 {
          filledSubtrees := filledSubtrees[d := currentHash];
        } else {
          left, right := filledSubtrees[d], currentHash;
        }
        currentHash := H(left, right);
        currentIndex := currentIndex / 2;
      }
      RememberedAfterInsert(H, before, leaf, filled, filledSubtrees);
      RootAncestor(n, depth);
      NaiveLevelNode(H, grown, depth, depth, 0);
      root := currentHash;
      r := Ok(|leaves| - 1);
    }
  }

  lemma {:induction false} EmptyAncestor(d: nat)
    ensures Ancestor(0, d) == 0
  {
    if d > 0 {
      EmptyAncestor(d - 1);
    }
  }

  /**
   Inserting the leaves one at a time and building the sparse tree in one go give the same root, so
   a path extracted from the sparse tree verifies against the root the pool keeps.
   */
  method IncrementalAndSparseAgree(H: Hasher, zeros: seq<Felt>, leaves: seq<Felt>, depth: nat)
    returns (incremental: Felt, sparse: Option<Felt>)
    requires ZeroTable(H, zeros) && |zeros| == MerkleTree.TABLE_SIZE > depth && |leaves| <= Pow2(depth)
    ensures incremental == NaiveRoot(H, leaves, depth)
    ensures sparse == Some(incremental) <==> (depth > 0 || leaves != [])
  {
    var tree := new Tree(H, zeros, depth);
    for i := 0 to |leaves|
      invariant tree.Valid() && tree.leaves == leaves[..i] && fresh(tree)
      invariant tree.H == H && tree.depth == depth
    {
      var inserted := tree.Insert(leaves[i]);
    }
    assert leaves[..|leaves|] == leaves;
    incremental := tree.root;
    var built, _ := MerkleTree.BuildPoseidonMerkleTree(H, zeros, leaves, depth);
    sparse := built.value.root;
  }
}
