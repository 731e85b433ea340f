/**
 From events to a membership proof: scan the pool, check the note, build the tree, extract the path.
 What comes out must verify against the root the pool itself arrives at.
 */
module CommitmentProof {
  import opened Wrappers
  import opened MerkleSpec
  import opened MerkleTree
  import opened ChainHistory
  import opened CommitmentScan
  import opened RangeScan

  const COMMIT_TREE_DEPTH: nat := 20

  datatype Refusal = ScanFailed(cause: ScanError) | NoteNotInTree | TreeFull

  /** Event payloads as field elements. */
  function Felts(leaves: seq<Leaf>, toFelt: Leaf -> Felt): (felts: seq<Felt>)
    ensures |felts| == |leaves|
  {
    seq(|leaves|, i requires 0 <= i < |leaves| => toFelt(leaves[i]))
  }

  /** The root over a list of leaves, in order. */
  function RootOf(H: Hasher, toFelt: Leaf -> Felt, leaves: seq<Leaf>): Felt {
    NaiveRoot(H, Felts(leaves, toFelt), COMMIT_TREE_DEPTH)
  }

  /** The root at block `head`: the pool's own, as far as every commitment log up to there still parses. */
  function PoolRoot(H: Hasher, toFelt: Leaf -> Felt, chain: Chain, deploy: int, head: int): Felt {
    RootOf(H, toFelt, History(chain, deploy, head))
  }

  /** A path proves that the tree over `leaves` holds `commitment` at position `i`. */
  ghost predicate Proves(H: Hasher, toFelt: Leaf -> Felt, leaves: seq<Leaf>,
                         commitment: Leaf, i: int, root: Felt, proof: MerkleProof) {
    && 0 <= i < |leaves| && leaves[i] == commitment
    && |proof.pathElements| == |proof.pathIndices| == COMMIT_TREE_DEPTH
    && root == RootOf(H, toFelt, leaves)
    && Fold(H, toFelt(commitment), proof.pathElements, proof.pathIndices) == root
    && FromBits(proof.pathIndices) == i
  }

  /** The note's position does not hold its commitment. */
  predicate Missing(leaves: seq<Leaf>, commitment: Leaf, i: int) {
    !(0 <= i < |leaves| && leaves[i] == commitment)
  }

  /** A note proved against `leaves`, or refused for what they are; a failed scan says nothing of them. */
  ghost predicate ProvedAgainst(H: Hasher, toFelt: Leaf -> Felt, leaves: seq<Leaf>, commitment: Leaf, i: int,
                                r: Result<(Felt, MerkleProof), Refusal>) {
    match r
    case Ok(proved) => Proves(H, toFelt, leaves, commitment, i, proved.0, proved.1)
    case Err(ScanFailed(_)) => true
    case Err(NoteNotInTree) => Missing(leaves, commitment, i)
    case Err(TreeFull) => !Missing(leaves, commitment, i) && |leaves| > Pow2(20)
  }

  function ReadCheckpoint(stored: Option<ScanState>, world: World): Option<ScanState> {
    if world.storageReadable then stored else None
  }

  /** What a failed scan means: no head could be read, or a query it sent was refused for good. */
  ghost predicate ScanFailure(world: World, asked: Asked, cause: ScanError) {
    if world.head.None? then cause == Unavailable
    else SomeFatal(world.rpc, asked.confirmed + asked.tail, cause)
  }

  /** What proving a note promises for the head it met, given the checkpoint in storage before and after. */
  ghost predicate Promise(deploy: int, before: Option<ScanState>, after: Option<ScanState>, world: World, head: int,
                          H: Hasher, toFelt: Leaf -> Felt, commitment: Leaf, i: int,
                          r: Result<(Felt, MerkleProof), Refusal>) {
    var persisted, chain := ReadCheckpoint(before, world), world.chain;
    && ProvedAgainst(H, toFelt, ScanResult(deploy, persisted, head, chain), commitment, i, r)
    && (ValidOrAbsent(deploy, before, chain) ==> ValidOrAbsent(deploy, after, chain))
    && (ValidOrAbsent(deploy, before, chain) && RepeatsNothing(deploy, persisted, head, chain) ==>
        ProvedAgainst(H, toFelt, History(chain, deploy, SeenBlock(persisted, head)), commitment, i, r))
    && (ValidOrAbsent(deploy, before, chain) && Rereads(persisted, head) ==>
        ProvedAgainst(H, toFelt, RepeatedList(deploy, persisted.value, head, chain), commitment, i, r))
    && (GoodFor(deploy, before, head, chain) ==>
        && ProvedAgainst(H, toFelt, History(chain, deploy, head), commitment, i, r)
        && GoodFor(deploy, after, head, chain))
  }

  /** The snapshot, and after it the last five blocks up to the head, some of them again. */
  function RepeatedList(deploy: int, p: ScanState, head: int, chain: Chain): seq<Leaf> {
    History(chain, deploy, p.lastBlock) + History(chain, Max(deploy, head - 4), head)
  }

  /** The lists that the cases of `Promise` speak of are the one the scan returns. */
  lemma ListsAgree(deploy: int, before: Option<ScanState>, world: World, scan: Scan)
    requires world.head == Some(scan.latest) && scan.chain == world.chain && scan.readable == world.storageReadable
    ensures var persisted, head, chain := ReadCheckpoint(before, world), scan.latest, scan.chain;
      var leaves := ScanResult(deploy, persisted, head, chain);
      && (ValidOrAbsent(deploy, before, chain) ==> ValidOrAbsent(deploy, CheckpointAfter(deploy, before, scan), chain))
      && (ValidOrAbsent(deploy, before, chain) && RepeatsNothing(deploy, persisted, head, chain) ==>
          leaves == History(chain, deploy, SeenBlock(persisted, head)))
      && (ValidOrAbsent(deploy, before, chain) && Rereads(persisted, head) ==>
          leaves == RepeatedList(deploy, persisted.value, head, chain))
      && (GoodFor(deploy, before, head, chain) ==>
          && leaves == History(chain, deploy, head)
          && GoodFor(deploy, CheckpointAfter(deploy, before, scan), head, chain))
  {
    hide History, ScanResult, CheckpointAfter;
    var persisted := ReadCheckpoint(before, world);
    if ValidOrAbsent(deploy, before, scan.chain) {
      CheckpointStaysValid(deploy, before, scan);
      ScanIsHistoryIff(deploy, persisted, scan.latest, scan.chain);
      if Rereads(persisted, scan.latest) {
        ScanFromCheckpoint(deploy, persisted.value, scan.latest, scan.chain);
      }
    }
    if GoodFor(deploy, before, scan.latest, scan.chain) {
      GoodScan(deploy, before, scan);
    }
  }

  /** No commitment is the element that pads the tree. */
  ghost predicate NeverZero(toFelt: Leaf -> Felt, leaves: seq<Leaf>) {
    forall i :: 0 <= i < |leaves| ==> toFelt(leaves[i]) != ZERO
  }

  lemma LongerListOtherRoot(H: Hasher, toFelt: Leaf -> Felt, longer: seq<Leaf>, shorter: seq<Leaf>)
    requires NeverZero(toFelt, longer) && |shorter| < |longer| <= Pow2(COMMIT_TREE_DEPTH)
    ensures RootOf(H, toFelt, longer) != RootOf(H, toFelt, shorter) || HasCollision(H)
  {
    hide NaiveRoot, HasCollision, Pow2;
    assert Felts(longer, toFelt)[|shorter|] != ZERO;
    if RootOf(H, toFelt, longer) == RootOf(H, toFelt, shorter) {
      RootsBind(H, Felts(longer, toFelt), Felts(shorter, toFelt), COMMIT_TREE_DEPTH, |shorter|);
    }
  }

  /**
   For every head: the root a note is proved against is the pool's when the scan repeats nothing, and
   only then, unless the hash collides. A repeated leaf is never harmless.
   */
  lemma RootIsThePoolsIff(H: Hasher, toFelt: Leaf -> Felt, deploy: int, persisted: Option<ScanState>, head: int,
                          chain: Chain)
    requires ValidOrAbsent(deploy, persisted, chain)
    requires NeverZero(toFelt, ScanResult(deploy, persisted, head, chain))
    requires |ScanResult(deploy, persisted, head, chain)| <= Pow2(COMMIT_TREE_DEPTH)
    ensures var same := RootOf(H, toFelt, ScanResult(deploy, persisted, head, chain)) ==
                        PoolRoot(H, toFelt, chain, deploy, SeenBlock(persisted, head));
      && (RepeatsNothing(deploy, persisted, head, chain) ==> same)
      && (same ==> RepeatsNothing(deploy, persisted, head, chain) || HasCollision(H))
  {
    hide History, ScanResult, RootOf, HasCollision, NeverZero, Pow2;
    ScanIsHistoryIff(deploy, persisted, head, chain);
    if !RepeatsNothing(deploy, persisted, head, chain) {
      var p, again := persisted.value, Max(deploy, head - 4);
      ScanFromCheckpoint(deploy, p, head, chain);
      HistorySplit(chain, again, p.lastBlock, head);
      HistorySplit(chain, deploy, p.lastBlock, head);
      LongerListOtherRoot(H, toFelt, ScanResult(deploy, persisted, head, chain), History(chain, deploy, head));
    }
  }

  /**
   Prove a note from a scan in flight, at whatever head the node reports. The proof is for the list
   the scan returns: the pool's own unless the head makes the scan repeat leaves.
   */
  method ProveNote(scanner: CommitmentScanner, key: string, now: int, world: World, H: Hasher, zeros: seq<Felt>,
                   toFelt: Leaf -> Felt, commitment: Leaf, leafIndex: int)
    returns (r: Result<(Felt, MerkleProof), Refusal>, ghost asked: Asked)
    requires scanner.Valid() && key in scanner.inFlight
    requires ZeroTable(H, zeros) && |zeros| == TABLE_SIZE
    modifies scanner
    ensures scanner.Valid()
    ensures world.head.None? ==> r == Err(ScanFailed(Unavailable))
    ensures world.head.Some? ==>
      Promise(scanner.deployBlock, MapGet(old(scanner.stored), key), MapGet(scanner.stored, key), world,
              world.head.value, H, toFelt, commitment, leafIndex, r)
    ensures world.head.Some? ==>
      AskedWithin(scanner.deployBlock, ReadCheckpoint(MapGet(old(scanner.stored), key), world),
                  world.head.value, asked)
    ensures r.Err? && r.error.ScanFailed? ==> ScanFailure(world, asked, r.error.cause)
  {
    hide ScanResult, Proves, ValidOrAbsent, RepeatsNothing, Rereads, GoodFor, AskedWithin, SomeFatal, NoneFatal;
    hide History, CheckpointAfter, SeenBlock, RepeatedList, Pow2;
    ghost var before := MapGet(scanner.stored, key);
    var scanned, scan, queries := scanner.RunScan(key, now, world);
    asked := queries;
    if scan.Some? {
      ListsAgree(scanner.deployBlock, before, world, scan.value);
    }
    if scanned.Err? {
      return Err(ScanFailed(scanned.error)), asked;
    }
    var leaves := scanned.value;
    if leafIndex < 0 || leafIndex >= |leaves| || leaves[leafIndex] != commitment {
      return Err(NoteNotInTree), asked;
    }
    var felts := Felts(leaves, toFelt);
    if |felts| > Pow2(COMMIT_TREE_DEPTH) {
      return Err(TreeFull), asked;
    }
    var root, proof := ProveMembership(H, zeros, felts, COMMIT_TREE_DEPTH, leafIndex);
    Proved(H, toFelt, leaves, leafIndex, root, proof);
    r := Ok((root, proof));
  }

  lemma Proved(H: Hasher, toFelt: Leaf -> Felt, leaves: seq<Leaf>, i: nat, root: Felt, proof: MerkleProof)
    requires i < |leaves| && |proof.pathElements| == |proof.pathIndices| == COMMIT_TREE_DEPTH
    requires root == RootOf(H, toFelt, leaves)
    requires Fold(H, Felts(leaves, toFelt)[i], proof.pathElements, proof.pathIndices) == root
    requires FromBits(proof.pathIndices) == i
    ensures Proves(H, toFelt, leaves, leaves[i], i, root, proof)
  {
  }
}
