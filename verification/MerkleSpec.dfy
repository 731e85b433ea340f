/**
 The reference tree: pad the leaves to full width, then hash neighbouring pairs level by level.
 The hash is a parameter, so everything here holds for Poseidon and for any other two-input hash.
 */
module MerkleSpec {

  /** A field element. */
  datatype Felt = Felt(value: nat)

  const ZERO := Felt(0)

  type Hasher = (Felt, Felt) -> Felt

  function Pow2(k: nat): (r: nat)
    ensures r >= 1
  {
    if k == 0 then 1 else 2 * Pow2(k - 1)
  }

  /** The full-width leaf layer: missing leaves are the zero leaf. */
  function Pad(leaves: seq<Felt>, depth: nat): (level: seq<Felt>)
    ensures |level| == Pow2(depth)
  {
    seq(Pow2(depth), i => if 0 <= i < |leaves| then leaves[i] else ZERO)
  }

  /** One level of naive hashing. */
  function PairUp(H: Hasher, level: seq<Felt>): seq<Felt> {
    seq(|level| / 2, i requires 0 <= i < |level| / 2 => H(level[2 * i], level[2 * i + 1]))
  }

  /** Level `d` of the naive, fully padded tree. */
  function NaiveLevel(H: Hasher, leaves: seq<Felt>, depth: nat, d: nat): (level: seq<Felt>)
    requires d <= depth
    ensures |level| == Pow2(depth - d)
  {
    if d == 0 then Pad(leaves, depth) else PairUp(H, NaiveLevel(H, leaves, depth, d - 1))
  }

  function NaiveRoot(H: Hasher, leaves: seq<Felt>, depth: nat): Felt {
    NaiveLevel(H, leaves, depth, depth)[0]
  }

  /** Hash of an all-zero subtree of height `d`. */
  function ZeroNode(H: Hasher, d: nat): Felt {
    if d == 0 then ZERO else H(ZeroNode(H, d - 1), ZeroNode(H, d - 1))
  }

  /** The contract of the precomputed table of zero-subtree hashes. */
  ghost predicate ZeroTable(H: Hasher, zeros: seq<Felt>) {
    && |zeros| >= 1
    && zeros[0] == ZERO
    && forall d :: 0 <= d < |zeros| - 1 ==> zeros[d + 1] == H(zeros[d], zeros[d])
  }

  lemma {:induction false} ZeroTableEntry(H: Hasher, zeros: seq<Felt>, d: nat)
    requires ZeroTable(H, zeros) && d < |zeros|
    ensures zeros[d] == ZeroNode(H, d)
  {
    if d > 0 {
      ZeroTableEntry(H, zeros, d - 1);
      assert zeros[d - 1 + 1] == H(zeros[d - 1], zeros[d - 1]);
    }
  }

  // ---- The same tree addressed node by node, over an endless zero padding ----

  function Node(H: Hasher, leaves: seq<Felt>, d: nat, i: nat): Felt {
    if d == 0 then if i < |leaves| then leaves[i] else ZERO
    else H(Node(H, leaves, d - 1, 2 * i), Node(H, leaves, d - 1, 2 * i + 1))
  }

  lemma LeafNode(H: Hasher, leaves: seq<Felt>, i: nat)
    ensures Node(H, leaves, 0, i) == if i < |leaves| then leaves[i] else ZERO
  {
  }

  lemma NodeAbove(H: Hasher, leaves: seq<Felt>, d: nat, i: nat)
    ensures Node(H, leaves, d + 1, i) == H(Node(H, leaves, d, 2 * i), Node(H, leaves, d, 2 * i + 1))
  {
  }

  lemma NaiveLevelLeaf(H: Hasher, leaves: seq<Felt>, depth: nat, i: nat)
    requires i < Pow2(depth)
    ensures NaiveLevel(H, leaves, depth, 0)[i] == Node(H, leaves, 0, i)
  {
  }

  lemma NaiveLevelPaired(H: Hasher, leaves: seq<Felt>, depth: nat, d: nat)
    requires d < depth
    ensures NaiveLevel(H, leaves, depth, d + 1) == PairUp(H, NaiveLevel(H, leaves, depth, d))
  {
    hide PairUp, Pad, Pow2;
  }

  lemma NaiveLevelAbove(H: Hasher, leaves: seq<Felt>, depth: nat, d: nat, i: nat)
    requires d < depth && i < Pow2(depth - (d + 1))
    ensures Pow2(depth - d) == 2 * Pow2(depth - (d + 1))
    ensures NaiveLevel(H, leaves, depth, d + 1)[i] ==
            H(NaiveLevel(H, leaves, depth, d)[2 * i], NaiveLevel(H, leaves, depth, d)[2 * i + 1])
  {
    hide NaiveLevel;
    NaiveLevelPaired(H, leaves, depth, d);
  }

  lemma {:induction false} NaiveLevelNode(H: Hasher, leaves: seq<Felt>, depth: nat, d: nat, i: nat)
    requires d <= depth && i < Pow2(depth - d)
    ensures NaiveLevel(H, leaves, depth, d)[i] == Node(H, leaves, d, i)
  {
    hide NaiveLevel, Node, Pow2;
    if d == 0 {
      NaiveLevelLeaf(H, leaves, depth, i);
    } else {
      NaiveLevelAbove(H, leaves, depth, d - 1, i);
      NodeAbove(H, leaves, d - 1, i);
      NaiveLevelNode(H, leaves, depth, d - 1, 2 * i);
      NaiveLevelNode(H, leaves, depth, d - 1, 2 * i + 1);
    }
  }

  /** The index of the ancestor of leaf `i` on level `d`. */
  function Ancestor(i: nat, d: nat): nat {
    if d == 0 then i else Ancestor(i, d - 1) / 2
  }

  lemma AncestorSteps(i: nat, d: nat)
    ensures Ancestor(i, 0) == i && Ancestor(i, d + 1) == Ancestor(i, d) / 2
  {
  }

  lemma {:induction false} AncestorHalf(i: nat, d: nat)
    ensures Ancestor(i, d + 1) == Ancestor(i / 2, d)
  {
    if d > 0 {
      AncestorHalf(i, d - 1);
    }
  }

  /** Number of nodes of level `d` above at least one of the first `n` leaves. */
  function Width(n: nat, d: nat): nat {
    if d == 0 then n else (Width(n, d - 1) + 1) / 2
  }

  /** `Width(n, d)` is the quotient of `n` by `2^d`, rounded up. */
  lemma {:induction false} WidthIsCeiling(n: nat, d: nat)
    ensures n <= Width(n, d) * Pow2(d) < n + Pow2(d)
  {
    if d > 0 {
      WidthIsCeiling(n, d - 1);
      HalfRoundedUp(Width(n, d - 1), Pow2(d - 1));
    }
  }

  lemma HalfRoundedUp(w: nat, p: nat)
    ensures w * p <= (w + 1) / 2 * (2 * p) <= w * p + p
  {
    var half := (w + 1) / 2;
    assert half * (2 * p) == (2 * half) * p;
    if w % 2 == 0 {
      assert 2 * half == w;
    } else {
      assert 2 * half == w + 1;
      assert (w + 1) * p == w * p + p;
    }
  }

  lemma {:induction false} WidthWithinCapacity(n: nat, depth: nat, d: nat)
    requires d <= depth && n <= Pow2(depth)
    ensures Width(n, d) <= Pow2(depth - d)
  {
    if d > 0 {
      WidthWithinCapacity(n, depth, d - 1);
    }
  }

  lemma {:induction false} WidthPositive(n: nat, d: nat)
    ensures n > 0 <==> Width(n, d) > 0
  {
    if d > 0 {
      WidthPositive(n, d - 1);
    }
  }

  /** Beyond the prefix every node of a level is that level's zero hash. */
  lemma {:induction false} ZeroRegion(H: Hasher, leaves: seq<Felt>, d: nat, i: nat)
    requires i >= Width(|leaves|, d)
    ensures Node(H, leaves, d, i) == ZeroNode(H, d)
  {
    if d > 0 {
      ZeroRegion(H, leaves, d - 1, 2 * i);
      ZeroRegion(H, leaves, d - 1, 2 * i + 1);
    }
  }

  // ---- Membership paths ----

  /** Least-significant-first binary digits of `i`, padded to `k` digits. */
  function Bits(i: nat, k: nat): (bits: seq<nat>)
    ensures |bits| == k
  {
    if k == 0 then [] else [i % 2] + Bits(i / 2, k - 1)
  }

  function FromBits(bits: seq<nat>): nat {
    if bits == [] then 0 else bits[0] + 2 * FromBits(bits[1..])
  }

  lemma {:induction false} BitsSpellIndex(i: nat, k: nat)
    requires i < Pow2(k)
    ensures FromBits(Bits(i, k)) == i
    ensures forall b :: b in Bits(i, k) ==> b == 0 || b == 1
  {
    if k > 0 {
      BitsSpellIndex(i / 2, k - 1);
      assert Bits(i, k)[1..] == Bits(i / 2, k - 1);
    }
  }

  /** What the verifying circuit computes: fold a value up a path, left or right as each bit says. */
  function Fold(H: Hasher, value: Felt, elements: seq<Felt>, bits: seq<nat>): Felt
    requires |elements| == |bits|
    decreases |bits|
  {
    if bits == [] then value
    else Fold(H, if bits[0] == 1 then H(elements[0], value) else H(value, elements[0]), elements[1..], bits[1..])
  }

  function SiblingIndex(i: nat): nat {
    if i % 2 == 1 then i - 1 else i + 1
  }

  /** The siblings of the `k` nodes above node `(d, i)` in the naive tree. */
  function HonestPath(H: Hasher, leaves: seq<Felt>, d: nat, i: nat, k: nat): (path: seq<Felt>)
    ensures |path| == k
    decreases k
  {
    if k == 0 then []
    else [Node(H, leaves, d, SiblingIndex(i))] + HonestPath(H, leaves, d + 1, i / 2, k - 1)
  }

  /** The parent of node `i`, from `i` and its sibling. */
  lemma ParentNode(H: Hasher, leaves: seq<Felt>, d: nat, i: nat)
    ensures Node(H, leaves, d + 1, i / 2) == Join(H, Node(H, leaves, d, i), Node(H, leaves, d, SiblingIndex(i)), i)
  {
    var h := i / 2;
    assert i == 2 * h || i == 2 * h + 1;
  }

  function Join(H: Hasher, value: Felt, sibling: Felt, i: nat): Felt {
    if i % 2 == 1 then H(sibling, value) else H(value, sibling)
  }

  lemma FoldStep(H: Hasher, value: Felt, elements: seq<Felt>, i: nat, k: nat)
    requires |elements| == k > 0
    ensures Fold(H, value, elements, Bits(i, k)) ==
            Fold(H, Join(H, value, elements[0], i), elements[1..], Bits(i / 2, k - 1))
  {
    assert Bits(i, k)[1..] == Bits(i / 2, k - 1);
  }

  lemma {:induction false} HonestPathFolds(H: Hasher, leaves: seq<Felt>, d: nat, i: nat, k: nat)
    requires i < Pow2(k)
    ensures Fold(H, Node(H, leaves, d, i), HonestPath(H, leaves, d, i, k), Bits(i, k)) == Node(H, leaves, d + k, 0)
    decreases k
  {
    hide Node;
    var node, path := Node(H, leaves, d, i), HonestPath(H, leaves, d, i, k);
    if k > 0 {
      assert path[0] == Node(H, leaves, d, SiblingIndex(i));
      assert path[1..] == HonestPath(H, leaves, d + 1, i / 2, k - 1);
      calc {
        Fold(H, node, path, Bits(i, k));
        { FoldStep(H, node, path, i, k); }
        Fold(H, Join(H, node, path[0], i), path[1..], Bits(i / 2, k - 1));
        { ParentNode(H, leaves, d, i); }
        Fold(H, Node(H, leaves, d + 1, i / 2), path[1..], Bits(i / 2, k - 1));
        { HonestPathFolds(H, leaves, d + 1, i / 2, k - 1); }
        Node(H, leaves, d + k, 0);
      }
    }
  }

  // ---- Binding ----

  /** The left node is hashed first: in the tree, and in the folding, where bit 0 says the value is the left one. */
  lemma LeftIsFirst(H: Hasher, a: Felt, b: Felt)
    ensures NaiveRoot(H, [a, b], 1) == H(a, b)
    ensures Fold(H, a, [b], [0]) == H(a, b) && Fold(H, b, [a], [1]) == H(a, b)
  {
    assert Pad([a, b], 1) == [a, b];
    assert NaiveLevel(H, [a, b], 1, 1) == PairUp(H, NaiveLevel(H, [a, b], 1, 0));
  }

  ghost predicate Collision(H: Hasher, a: Felt, b: Felt, a': Felt, b': Felt) {
    (a, b) != (a', b') && H(a, b) == H(a', b')
  }

  ghost predicate HasCollision(H: Hasher) {
    exists a, b, a', b' :: Collision(H, a, b, a', b')
  }

  /** An injective hash, the ideal the verifier assumes, has no collision. */
  lemma InjectiveHasNoCollision(H: Hasher)
    ensures HasCollision(H) <==> !(forall a, b, a', b' :: H(a, b) == H(a', b') ==> a == a' && b == b')
  {
    if !(forall a, b, a', b' :: H(a, b) == H(a', b') ==> a == a' && b == b') {
      var a, b, a', b' :| H(a, b) == H(a', b') && !(a == a' && b == b');
      assert Collision(H, a, b, a', b');
    }
  }

  /**
   A path that folds to a node of the tree either carries the tree's own value and siblings, or
   exhibits two different inputs with the same hash.
   */
  lemma {:induction false} FoldBinds(
    H: Hasher, leaves: seq<Felt>, d: nat, i: nat, k: nat, value: Felt, elements: seq<Felt>)
    requires i < Pow2(k) && |elements| == k
    requires Fold(H, value, elements, Bits(i, k)) == Node(H, leaves, d + k, 0)
    ensures (value == Node(H, leaves, d, i) && elements == HonestPath(H, leaves, d, i, k))
         || HasCollision(H)
    decreases k
  {
    if k > 0 {
      var e := elements[0];
      FoldStep(H, value, elements, i, k);
      FoldBinds(H, leaves, d + 1, i / 2, k - 1, Join(H, value, e, i), elements[1..]);
      if !HasCollision(H) {
        ParentNode(H, leaves, d, i);
        var node, sibling := Node(H, leaves, d, i), Node(H, leaves, d, SiblingIndex(i));
        if i % 2 == 1 {
          assert !Collision(H, e, value, sibling, node);
        } else {
          assert !Collision(H, value, e, node, sibling);
        }
        assert elements == [e] + elements[1..];
      }
    }
  }

  /** Equal roots mean equal leaves, padding included, or a hash collision. */
  lemma RootsBind(H: Hasher, a: seq<Felt>, b: seq<Felt>, depth: nat, i: nat)
    requires NaiveRoot(H, a, depth) == NaiveRoot(H, b, depth) && i < Pow2(depth)
    ensures (if i < |a| then a[i] else ZERO) == (if i < |b| then b[i] else ZERO) || HasCollision(H)
  {
    hide NaiveLevel, Fold, Bits, HonestPath, HasCollision;
    NaiveLevelNode(H, a, depth, depth, 0);
    NaiveLevelNode(H, b, depth, depth, 0);
    HonestPathFolds(H, a, 0, i, depth);
    FoldBinds(H, b, 0, i, depth, Node(H, a, 0, i), HonestPath(H, a, 0, i, depth));
  }
}
