/**
 The sparse Merkle builder and the membership-path extractor: only the prefix of each level that
 lies above real leaves is stored and hashed; everything to its right comes from a table.
 */
module MerkleTree {
  import opened Wrappers
  import opened MerkleSpec

  const TABLE_SIZE: nat := 21
  const CONCURRENCY: nat := 64

  datatype TreeError =
    | TooManyLeaves
    | DepthExceedsTable
    | IndexOutOfBounds
    | IndexInZeroRegion
    | NoLayers

  /** `root` is `None` where the source would read `undefined`: no leaves at depth 0. */
  datatype SparseTree = SparseTree(
    root: Option<Felt>,
    layers: seq<seq<Felt>>,
    zeroHashes: seq<Felt>,
    depth: nat
  )

  datatype MerkleProof = MerkleProof(pathElements: seq<Felt>, pathIndices: seq<nat>)

  /** Stored length of level `d`; an empty tree still stores one zero hash on each upper level. */
  function PrefixLength(n: nat, d: nat): nat {
    if n == 0 && d > 0 then 1 else Width(n, d)
  }

  /** Nodes above the leaves on levels `1..d`: what there is to hash. */
  function StoredAbove(n: nat, d: nat): nat {
    if d == 0 then 0 else StoredAbove(n, d - 1) + Width(n, d)
  }

  lemma {:induction false} NothingAbove(d: nat)
    ensures StoredAbove(0, d) == 0
  {
    if d > 0 {
      NothingAbove(d - 1);
      WidthPositive(0, d);
    }
  }

  /** Every stored layer is the matching prefix of the naive tree's level. */
  ghost predicate LayersArePrefixes(H: Hasher, leaves: seq<Felt>, depth: nat, layers: seq<seq<Felt>>)
    requires |layers| <= depth + 1
  {
    forall d :: 0 <= d < |layers| ==>
      && PrefixLength(|leaves|, d) <= Pow2(depth - d)
      && layers[d] == NaiveLevel(H, leaves, depth, d)[..PrefixLength(|leaves|, d)]
  }

  ghost predicate BuiltFrom(H: Hasher, leaves: seq<Felt>, depth: nat, tree: SparseTree) {
    && tree.depth == depth
    && |tree.layers| == depth + 1
    && LayersArePrefixes(H, leaves, depth, tree.layers)
    && ZeroTable(H, tree.zeroHashes) && |tree.zeroHashes| == TABLE_SIZE > depth
    && tree.root == if depth == 0 && leaves == [] then None else Some(NaiveRoot(H, leaves, depth))
  }

  // ---- Building one level ----

  /** Neighbouring pairs of a prefix; an odd last node is paired with the level's zero hash. */
  method CollectPairs(current: seq<Felt>, zero: Felt) returns (pairs: seq<(Felt, Felt)>)
    ensures |pairs| == (|current| + 1) / 2
    ensures forall i :: 0 <= i < |pairs| ==>
      pairs[i] == (current[2 * i], if 2 * i + 1 < |current| then current[2 * i + 1] else zero)
  {
    pairs := [];
    var i := 0;
    while i < |current|
      invariant i == 2 * |pairs| <= |current| + 1
      invariant forall j :: 0 <= j < |pairs| ==>
        pairs[j] == (current[2 * j], if 2 * j + 1 < |current| then current[2 * j + 1] else zero)
    {
      var right := if i + 1 < |current| then current[i + 1] else zero;
      pairs := pairs + [(current[i], right)];
      i := i + 2;
    }
  }

  /** Hash all pairs of a level, at most `CONCURRENCY` in flight at once. */
  method HashLevel(H: Hasher, pairs: seq<(Felt, Felt)>) returns (level: seq<Felt>, ghost calls: nat)
    ensures |level| == |pairs|
    ensures forall i :: 0 <= i < |pairs| ==> level[i] == H(pairs[i].0, pairs[i].1)
    ensures calls == |pairs|
  {
    var next := new Felt[|pairs|];
    calls := 0;
    var off := 0;
    while off < |pairs|
      invariant calls == if off < |pairs| then off else |pairs|
      invariant forall k :: 0 <= k < off && k < |pairs| ==> next[k] == H(pairs[k].0, pairs[k].1)
    {
      var end := if off + CONCURRENCY < |pairs| then off + CONCURRENCY else |pairs|;
      var chunk := pairs[off..end];
      var hashed: seq<Felt> := seq(|chunk|, i requires 0 <= i < |chunk| => H(chunk[i].0, chunk[i].1));
      calls := calls + |chunk|;
      for i := 0 to |hashed|
        invariant forall k :: 0 <= k < off + i ==> next[k] == H(pairs[k].0, pairs[k].1)
      {
        assert chunk[i] == pairs[off + i];
        next[off + i] := hashed[i];
      }
      off := off + CONCURRENCY;
    }
    level := next[..];
  }

  /** Node `i` of a level's stored prefix, or the level's zero hash past its end. */
  lemma PrefixNode(H: Hasher, zeros: seq<Felt>, leaves: seq<Felt>, depth: nat, d: nat, current: seq<Felt>, i: nat)
    requires ZeroTable(H, zeros) && d <= depth && d < |zeros|
    requires Width(|leaves|, d) <= Pow2(depth - d)
    requires current == NaiveLevel(H, leaves, depth, d)[..Width(|leaves|, d)]
    ensures (if i < |current| then current[i] else zeros[d]) == Node(H, leaves, d, i)
  {
    if i < |current| {
      NaiveLevelNode(H, leaves, depth, d, i);
    } else {
      ZeroRegion(H, leaves, d, i);
      ZeroTableEntry(H, zeros, d);
    }
  }

  /** Hashing a stored prefix yields exactly the next naive level's prefix. */
  lemma PrefixStep(H: Hasher, zeros: seq<Felt>, leaves: seq<Felt>, depth: nat, d: nat,
                   current: seq<Felt>, pairs: seq<(Felt, Felt)>, next: seq<Felt>)
    requires ZeroTable(H, zeros) && d < depth < |zeros| && 0 < |leaves| <= Pow2(depth)
    requires Width(|leaves|, d) <= Pow2(depth - d)
    requires current == NaiveLevel(H, leaves, depth, d)[..Width(|leaves|, d)]
    requires |pairs| == |next| == (|current| + 1) / 2
    requires forall i :: 0 <= i < |pairs| ==>
      pairs[i] == (current[2 * i], if 2 * i + 1 < |current| then current[2 * i + 1] else zeros[d])
    requires forall i :: 0 <= i < |pairs| ==> next[i] == H(pairs[i].0, pairs[i].1)
    ensures Width(|leaves|, d + 1) <= Pow2(depth - (d + 1))
    ensures next == NaiveLevel(H, leaves, depth, d + 1)[..Width(|leaves|, d + 1)]
  {
    hide NaiveLevel, Node, ZeroTable;
    WidthWithinCapacity(|leaves|, depth, d + 1);
    var up := NaiveLevel(H, leaves, depth, d + 1);
    forall i | 0 <= i < |next| ensures next[i] == up[i] {
      PrefixNode(H, zeros, leaves, depth, d, current, 2 * i);
      PrefixNode(H, zeros, leaves, depth, d, current, 2 * i + 1);
      NodeAbove(H, leaves, d, i);
      NaiveLevelNode(H, leaves, depth, d + 1, i);
      assert next[i] == H(Node(H, leaves, d, 2 * i), Node(H, leaves, d, 2 * i + 1));
    }
  }

  /** With no leaves at all, each level is one zero hash. */
  lemma EmptyLevel(H: Hasher, zeros: seq<Felt>, depth: nat, d: nat)
    requires ZeroTable(H, zeros) && d <= depth < |zeros|
    ensures NaiveLevel(H, [], depth, d)[..1] == [zeros[d]]
  {
    WidthPositive(0, d);
    NaiveLevelNode(H, [], depth, d, 0);
    ZeroRegion(H, [], d, 0);
    ZeroTableEntry(H, zeros, d);
  }

  lemma LeafLayer(H: Hasher, leaves: seq<Felt>, depth: nat)
    requires |leaves| <= Pow2(depth)
    ensures leaves == NaiveLevel(H, leaves, depth, 0)[..|leaves|]
  {
  }

  /**
   Build a sparse tree. The root equals the naive builder's in every case but one: with no leaves
   at depth 0 the source reads past the end of an empty layer.
   */
  method BuildPoseidonMerkleTree(H: Hasher, zeros: seq<Felt>, leaves: seq<Felt>, depth: nat)
    returns (r: Result<SparseTree, TreeError>, ghost hashes: nat)
    requires ZeroTable(H, zeros) && |zeros| == TABLE_SIZE
    ensures |leaves| > Pow2(depth) ==> r == Err(TooManyLeaves)
    ensures |leaves| <= Pow2(depth) && depth > 20 ==> r == Err(DepthExceedsTable)
    ensures |leaves| <= Pow2(depth) && depth <= 20 ==>
      r.Ok? && BuiltFrom(H, leaves, depth, r.value) && r.value.zeroHashes == zeros
    ensures r.Ok? ==> hashes == StoredAbove(|leaves|, depth) <= if leaves == [] then 0 else |leaves| - 1 + depth
  {
    hide NaiveLevel, Node, ZeroTable;
    hashes := 0;
    if |leaves| > Pow2(depth) {
      return Err(TooManyLeaves), 0;
    }
    if depth >= |zeros| {
      return Err(DepthExceedsTable), 0;
    }
    var layers := [leaves];
    var current := leaves;
    LeafLayer(H, leaves, depth);
    var d := 0;
    while d < depth
      invariant 0 <= d <= depth && |layers| == d + 1
      invariant LayersArePrefixes(H, leaves, depth, layers)
      invariant current == layers[d]
      invariant leaves == [] ==> d == 0
      invariant hashes == StoredAbove(|leaves|, d)
      invariant leaves != [] ==> hashes + |current| <= |leaves| + d
    {
      if |current| == 0 {
        WidthPositive(|leaves|, d);
        layers := FillZeroLayers(H, zeros, depth, layers);
        current := layers[|layers| - 1];
        NothingAbove(d);
        NothingAbove(depth);
        d := depth;
        break;
      }
      WidthPositive(|leaves|, d);
      var pairs := CollectPairs(current, zeros[d]);
      var next, calls := HashLevel(H, pairs);
      PrefixStep(H, zeros, leaves, depth, d, current, pairs, next);
      hashes := hashes + calls;
      layers := layers + [next];
      current := next;
      d := d + 1;
    }
    if leaves != [] {
      WidthPositive(|leaves|, depth);
    }
    r := Ok(SparseTree(if |current| > 0 then Some(current[0]) else None, layers, zeros, depth));
  }

  /** The early exit: no real values remain, so every further layer is read off the table. */
  method FillZeroLayers(H: Hasher, zeros: seq<Felt>, depth: nat, start: seq<seq<Felt>>)
    returns (layers: seq<seq<Felt>>)
    requires ZeroTable(H, zeros) && 0 < depth < |zeros| && start == [[]]
    ensures |layers| == depth + 1 && LayersArePrefixes(H, [], depth, layers)
  {
    hide NaiveLevel, ZeroTable, Pow2;
    layers := start;
    LeafLayer(H, [], depth);
    for dd := 0 to depth
      invariant |layers| == dd + 1 && LayersArePrefixes(H, [], depth, layers)
    {
      EmptyLevel(H, zeros, depth, dd + 1);
      layers := layers + [[zeros[dd + 1]]];
    }
  }

  // ---- Extracting a membership path ----

  /** Either call shape: a built tree, or bare layers with an optional zero table. */
  datatype ProofSource =
    | FromTree(tree: SparseTree)
    | FromLayers(rawLayers: seq<seq<Felt>>, rawZeros: Option<seq<Felt>>)
  {
    function Layers(): seq<seq<Felt>> {
      if FromTree? then tree.layers else rawLayers
    }

    function Zeros(table: seq<Felt>): seq<Felt> {
      if FromTree? then tree.zeroHashes else if rawZeros.Some? then rawZeros.value else table
    }
  }

  function StoredOrZero(layers: seq<seq<Felt>>, zeros: seq<Felt>, d: nat, i: nat): Felt
    requires d < |layers|
  {
    if i < |layers[d]| then layers[d][i] else if d < |zeros| then zeros[d] else ZERO
  }

  function SiblingPath(layers: seq<seq<Felt>>, zeros: seq<Felt>, d: nat, i: nat): (path: seq<Felt>)
    requires d < |layers|
    ensures |path| == |layers| - 1 - d
    decreases |layers| - d
  {
    if d == |layers| - 1 then []
    else [StoredOrZero(layers, zeros, d, SiblingIndex(i))] + SiblingPath(layers, zeros, d + 1, i / 2)
  }

  lemma PathStep(layers: seq<seq<Felt>>, zeros: seq<Felt>, d: nat, i: nat)
    requires d < |layers| - 1
    ensures SiblingPath(layers, zeros, d, i) ==
            [StoredOrZero(layers, zeros, d, SiblingIndex(i))] + SiblingPath(layers, zeros, d + 1, i / 2)
    ensures Bits(i, |layers| - 1 - d) == [i % 2] + Bits(i / 2, |layers| - 1 - d - 1)
  {
  }

  lemma PathEnd(layers: seq<seq<Felt>>, zeros: seq<Felt>, i: nat)
    requires |layers| > 0
    ensures SiblingPath(layers, zeros, |layers| - 1, i) == [] && Bits(i, 0) == []
  {
  }

  lemma ShiftHead<T>(done: seq<T>, x: T, rest: seq<T>, tail: seq<T>)
    requires rest == [x] + tail
    ensures (done + [x]) + tail == done + rest
  {
  }

  /** The element read for level `d`: the neighbour of the node above leaf `i`, or the level's zero hash. */
  ghost predicate ReadsSibling(layers: seq<seq<Felt>>, zeros: seq<Felt>, i: nat, d: nat, element: Felt)
    requires d < |layers|
  {
    var node := Ancestor(i, d);
    var sibling := if node % 2 == 1 then node - 1 else node + 1;
    element == if sibling < |layers[d]| then layers[d][sibling] else if d < |zeros| then zeros[d] else Felt(0)
  }

  ghost predicate ReadsSiblings(layers: seq<seq<Felt>>, zeros: seq<Felt>, i: nat, elements: seq<Felt>) {
    |elements| + 1 == |layers| &&
    forall d :: 0 <= d < |elements| ==> ReadsSibling(layers, zeros, i, d, elements[d])
  }

  lemma {:induction false} SiblingPathReads(layers: seq<seq<Felt>>, zeros: seq<Felt>, e: nat, i: nat, d: nat)
    requires e + d < |layers| - 1
    ensures var node := Ancestor(i, d);
      SiblingPath(layers, zeros, e, i)[d] ==
      StoredOrZero(layers, zeros, e + d, if node % 2 == 1 then node - 1 else node + 1)
    decreases d
  {
    hide StoredOrZero;
    if d > 0 {
      SiblingPathReads(layers, zeros, e + 1, i / 2, d - 1);
      AncestorHalf(i, d - 1);
    }
  }

  lemma PathReadsSiblings(layers: seq<seq<Felt>>, zeros: seq<Felt>, i: nat)
    requires |layers| > 0
    ensures ReadsSiblings(layers, zeros, i, SiblingPath(layers, zeros, 0, i))
  {
    var elements := SiblingPath(layers, zeros, 0, i);
    hide SiblingPath;
    forall d | 0 <= d < |elements| ensures ReadsSibling(layers, zeros, i, d, elements[d]) {
      SiblingPathReads(layers, zeros, 0, i, d);
    }
  }

  /** Either call shape reads its own layers, and its own zero hashes or else the module's table. */
  ghost predicate ReadsFrom(source: ProofSource, table: seq<Felt>, i: nat, elements: seq<Felt>) {
    match source
    case FromTree(tree) => ReadsSiblings(tree.layers, tree.zeroHashes, i, elements)
    case FromLayers(layers, Some(zeros)) => ReadsSiblings(layers, zeros, i, elements)
    case FromLayers(layers, None) => ReadsSiblings(layers, table, i, elements)
  }

  method GetMerkleProofFromTree(source: ProofSource, table: seq<Felt>, leafIndex: int)
    returns (r: Result<MerkleProof, TreeError>)
    ensures |source.Layers()| == 0 ==> r.Err?
    ensures |source.Layers()| > 0 && !(0 <= leafIndex < Pow2(|source.Layers()| - 1)) ==> r == Err(IndexOutOfBounds)
    ensures |source.Layers()| > 0 && |source.Layers()[0]| <= leafIndex < Pow2(|source.Layers()| - 1) && 0 <= leafIndex ==>
      r == Err(IndexInZeroRegion)
    ensures |source.Layers()| > 0 && 0 <= leafIndex < Pow2(|source.Layers()| - 1) && leafIndex < |source.Layers()[0]| ==>
      r == Ok(MerkleProof(SiblingPath(source.Layers(), source.Zeros(table), 0, leafIndex),
                          Bits(leafIndex, |source.Layers()| - 1)))
    ensures r.Ok? ==> leafIndex >= 0 && ReadsFrom(source, table, leafIndex, r.value.pathElements)
  {
    var layers := source.Layers();
    var zeros := source.Zeros(table);
    if |layers| == 0 {
      return Err(NoLayers);
    }
    var depth := |layers| - 1;
    if leafIndex < 0 || leafIndex >= Pow2(depth) {
      return Err(IndexOutOfBounds);
    }
    if leafIndex >= |layers[0]| {
      return Err(IndexInZeroRegion);
    }
    PathReadsSiblings(layers, zeros, leafIndex);
    hide SiblingPath, Bits, ReadsSiblings;
    var elements: seq<Felt>, indices: seq<nat> := [], [];
    assert elements + SiblingPath(layers, zeros, 0, leafIndex) == SiblingPath(layers, zeros, 0, leafIndex);
    assert indices + Bits(leafIndex, depth) == Bits(leafIndex, depth);
    var idx: nat := leafIndex;
    for d := 0 to depth
      invariant |elements| == |indices| == d
      invariant elements + SiblingPath(layers, zeros, d, idx) == SiblingPath(layers, zeros, 0, leafIndex)
      invariant indices + Bits(idx, depth - d) == Bits(leafIndex, depth)
    {
      var isRight := idx % 2;
      var siblingIdx := if isRight == 1 then idx - 1 else idx + 1;
      var sibling := if siblingIdx < |layers[d]| then layers[d][siblingIdx]
                     else if d < |zeros| then zeros[d] else ZERO;
      PathStep(layers, zeros, d, idx);
      ShiftHead(elements, sibling, SiblingPath(layers, zeros, d, idx), SiblingPath(layers, zeros, d + 1, idx / 2));
      ShiftHead(indices, isRight, Bits(idx, depth - d), Bits(idx / 2, depth - d - 1));
      elements := elements + [sibling];
      indices := indices + [isRight];
      idx := idx / 2;
    }
    PathEnd(layers, zeros, idx);
    assert elements + [] == elements && indices + [] == indices;
    r := Ok(MerkleProof(elements, indices));
  }

  // ---- Completeness and binding of extracted paths ----

  /**
   What the path extractor relies on: each layer is a prefix of the naive level that is either full
   or reaches past the last real leaf, in which case the table supplies the rest.
   */
  ghost predicate CoversTree(H: Hasher, leaves: seq<Felt>, layers: seq<seq<Felt>>, zeros: seq<Felt>)
    requires |layers| > 0
  {
    forall d :: 0 <= d < |layers| ==>
      && layers[d] <= NaiveLevel(H, leaves, |layers| - 1, d)
      && (|layers[d]| == Pow2(|layers| - 1 - d)
          || (|layers[d]| >= Width(|leaves|, d) && d < |zeros| && zeros[d] == ZeroNode(H, d)))
  }

  lemma StoredNode(H: Hasher, leaves: seq<Felt>, layers: seq<seq<Felt>>, zeros: seq<Felt>, d: nat, i: nat)
    requires |layers| > 0 && CoversTree(H, leaves, layers, zeros)
    requires d < |layers| && i < Pow2(|layers| - 1 - d)
    ensures StoredOrZero(layers, zeros, d, i) == Node(H, leaves, d, i)
  {
    hide NaiveLevel, Node;
    NaiveLevelNode(H, leaves, |layers| - 1, d, i);
    if i >= |layers[d]| {
      ZeroRegion(H, leaves, d, i);
    }
  }

  lemma {:induction false} SiblingPathIsHonest(
    H: Hasher, leaves: seq<Felt>, layers: seq<seq<Felt>>, zeros: seq<Felt>, d: nat, i: nat)
    requires |layers| > 0 && CoversTree(H, leaves, layers, zeros)
    requires d < |layers| && i < Pow2(|layers| - 1 - d)
    ensures SiblingPath(layers, zeros, d, i) == HonestPath(H, leaves, d, i, |layers| - 1 - d)
    decreases |layers| - d
  {
    hide NaiveLevel, Node, CoversTree;
    var k := |layers| - 1 - d;
    if k > 0 {
      assert Pow2(k) == 2 * Pow2(k - 1);
      StoredNode(H, leaves, layers, zeros, d, SiblingIndex(i));
      SiblingPathIsHonest(H, leaves, layers, zeros, d + 1, i / 2);
      assert HonestPath(H, leaves, d, i, k) ==
             [Node(H, leaves, d, SiblingIndex(i))] + HonestPath(H, leaves, d + 1, i / 2, k - 1);
    }
  }

  /** Every extracted path folds its leaf to the naive root, for either call shape. */
  lemma ExtractedPathFoldsToRoot(
    H: Hasher, leaves: seq<Felt>, layers: seq<seq<Felt>>, zeros: seq<Felt>, i: nat)
    requires |layers| > 0 && CoversTree(H, leaves, layers, zeros)
    requires i < Pow2(|layers| - 1) && i < |layers[0]|
    ensures Fold(H, layers[0][i], SiblingPath(layers, zeros, 0, i), Bits(i, |layers| - 1)) ==
            NaiveRoot(H, leaves, |layers| - 1)
  {
    hide NaiveLevel, Node, HonestPath, SiblingPath, Fold, Bits, CoversTree;
    var depth := |layers| - 1;
    SiblingPathIsHonest(H, leaves, layers, zeros, 0, i);
    HonestPathFolds(H, leaves, 0, i, depth);
    StoredNode(H, leaves, layers, zeros, 0, i);
    NaiveLevelNode(H, leaves, depth, depth, 0);
  }

  lemma BuiltTreeLeaves(H: Hasher, leaves: seq<Felt>, depth: nat, tree: SparseTree)
    requires BuiltFrom(H, leaves, depth, tree) && leaves != []
    ensures tree.layers[0] == leaves && tree.root == Some(NaiveRoot(H, leaves, depth))
  {
    assert PrefixLength(|leaves|, 0) <= Pow2(depth - 0);
    LeafLayer(H, leaves, depth);
  }

  lemma BuiltTreeCovers(H: Hasher, leaves: seq<Felt>, depth: nat, tree: SparseTree)
    requires BuiltFrom(H, leaves, depth, tree)
    ensures CoversTree(H, leaves, tree.layers, tree.zeroHashes)
  {
    forall d | 0 <= d < |tree.layers|
      ensures tree.layers[d] <= NaiveLevel(H, leaves, depth, d)
      ensures |tree.layers[d]| >= Width(|leaves|, d) && tree.zeroHashes[d] == ZeroNode(H, d)
    {
      ZeroTableEntry(H, tree.zeroHashes, d);
      WidthPositive(|leaves|, d);
    }
  }

  /** Layers a caller has already padded to full width need no zero table at all. */
  lemma FullLayersCover(H: Hasher, leaves: seq<Felt>, depth: nat, layers: seq<seq<Felt>>, zeros: seq<Felt>)
    requires |layers| == depth + 1
    requires forall d :: 0 <= d <= depth ==> layers[d] == NaiveLevel(H, leaves, depth, d)
    ensures CoversTree(H, leaves, layers, zeros)
  {
    hide NaiveLevel;
  }

  ghost predicate Opens(leaves: seq<Felt>, tree: SparseTree, i: nat, value: Felt, elements: seq<Felt>)
    requires |tree.layers| > 0
  {
    && value == (if i < |leaves| then leaves[i] else ZERO)
    && elements == SiblingPath(tree.layers, tree.zeroHashes, 0, i)
  }

  /**
   Membership in a built tree, both ways. The tree's own value at `i` (the zero leaf past the last
   real one) with the extracted siblings folds to the root, and its bits spell `i`; any other value
   or any other siblings that fold to the root exhibit a collision of the hash.
   */
  lemma BuiltTreeMembership(
    H: Hasher, leaves: seq<Felt>, depth: nat, tree: SparseTree, i: nat, value: Felt, elements: seq<Felt>)
    requires BuiltFrom(H, leaves, depth, tree)
    requires i < Pow2(depth) && |elements| == depth && tree.root.Some?
    ensures FromBits(Bits(i, depth)) == i
    ensures Opens(leaves, tree, i, value, elements) ==>
      Fold(H, value, elements, Bits(i, depth)) == tree.root.value
    ensures Fold(H, value, elements, Bits(i, depth)) == tree.root.value ==>
      Opens(leaves, tree, i, value, elements) || HasCollision(H)
  {
    hide NaiveLevel, SiblingPath, HonestPath, Bits, Fold;
    BitsSpellIndex(i, depth);
    BuiltTreeCovers(H, leaves, depth, tree);
    SiblingPathIsHonest(H, leaves, tree.layers, tree.zeroHashes, 0, i);
    HonestPathFolds(H, leaves, 0, i, depth);
    NaiveLevelNode(H, leaves, depth, depth, 0);
    if Fold(H, value, elements, Bits(i, depth)) == tree.root.value {
      FoldBinds(H, leaves, 0, i, depth, value, elements);
    }
  }

  lemma BuiltTreePathFolds(H: Hasher, leaves: seq<Felt>, depth: nat, tree: SparseTree, i: nat)
    requires BuiltFrom(H, leaves, depth, tree) && i < |leaves| <= Pow2(depth)
    ensures tree.root == Some(NaiveRoot(H, leaves, depth))
    ensures |tree.layers| == depth + 1 && tree.layers[0] == leaves
    ensures Fold(H, leaves[i], SiblingPath(tree.layers, tree.zeroHashes, 0, i), Bits(i, depth)) ==
            NaiveRoot(H, leaves, depth)
  {
    BuiltTreeCovers(H, leaves, depth, tree);
    BuiltTreeLeaves(H, leaves, depth, tree);
    hide NaiveLevel, SiblingPath, Fold, CoversTree, BuiltFrom;
    ExtractedPathFoldsToRoot(H, leaves, tree.layers, tree.zeroHashes, i);
  }

  /** Build, extract, fold: the source's own use of the two functions never disagrees. */
  method ProveMembership(H: Hasher, zeros: seq<Felt>, leaves: seq<Felt>, depth: nat, i: nat)
    returns (root: Felt, proof: MerkleProof)
    requires ZeroTable(H, zeros) && |zeros| == TABLE_SIZE > depth
    requires i < |leaves| <= Pow2(depth)
    ensures |proof.pathElements| == |proof.pathIndices| == depth
    ensures root == NaiveRoot(H, leaves, depth)
    ensures Fold(H, leaves[i], proof.pathElements, proof.pathIndices) == root
    ensures FromBits(proof.pathIndices) == i
  {
    hide NaiveLevel, NaiveRoot, SiblingPath, Fold, Bits, FromBits, BuiltFrom, Pow2;
    var built, _ := BuildPoseidonMerkleTree(H, zeros, leaves, depth);
    var tree := built.value;
    BuiltTreePathFolds(H, leaves, depth, tree, i);
    BitsSpellIndex(i, depth);
    var extracted := GetMerkleProofFromTree(FromTree(tree), zeros, i);
    root, proof := tree.root.value, extracted.value;
  }
}
