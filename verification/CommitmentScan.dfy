/**
 The checkpointed scanner: blocks up to `CONFIRMATIONS` behind the head are scanned once and saved,
 the tail is read again on every scan, and callers within the cache lifetime share one result.
 */
module CommitmentScan {
  import opened Sequences
  import opened Wrappers
  import opened ChainHistory
  import opened RangeScan

  const CONFIRMATIONS: int := 5
  const CACHE_TTL_MS: int := 3_000

  /** A checkpoint: all leaves from the deploy block through `lastBlock`. */
  datatype ScanState = ScanState(lastBlock: int, leaves: seq<Leaf>)

  datatype CacheEntry = CacheEntry(at: int, state: ScanState)

  function Max(a: int, b: int): int {
    if a >= b then a else b
  }

  function Confirmed(deploy: int, latest: int): int {
    Max(deploy - 1, latest - CONFIRMATIONS)
  }

  function StartBlock(deploy: int, persisted: Option<ScanState>): int {
    if persisted.Some? then persisted.value.lastBlock + 1 else deploy
  }

  ghost predicate Lagging(persisted: Option<ScanState>, latest: int) {
    persisted.Some? && latest < persisted.value.lastBlock
  }

  function ConfirmedLeaves(deploy: int, persisted: Option<ScanState>, latest: int, chain: Chain): seq<Leaf> {
    (if persisted.Some? then persisted.value.leaves else [])
    + History(chain, StartBlock(deploy, persisted), Confirmed(deploy, latest))
  }

  /** What a scan that reads head `latest` returns when no query fails. */
  ghost function ScanResult(deploy: int, persisted: Option<ScanState>, latest: int, chain: Chain): seq<Leaf> {
    if Lagging(persisted, latest) then persisted.value.leaves
    else ConfirmedLeaves(deploy, persisted, latest, chain) + History(chain, Confirmed(deploy, latest) + 1, latest)
  }

  /** The checkpoint left in storage; it moves only past a scanned confirmed range whose save landed. */
  ghost function NextCheckpoint(deploy: int, stored: Option<ScanState>, persisted: Option<ScanState>,
                                latest: int, chain: Chain, saved: bool): Option<ScanState> {
    if !Lagging(persisted, latest) && StartBlock(deploy, persisted) <= Confirmed(deploy, latest) && saved
    then Some(ScanState(Confirmed(deploy, latest), ConfirmedLeaves(deploy, persisted, latest, chain)))
    else stored
  }

  // ---- What a scan returns for an arbitrary head ----

  ghost predicate ValidCheckpoint(deploy: int, p: ScanState, chain: Chain) {
    p.lastBlock >= deploy && p.leaves == History(chain, deploy, p.lastBlock)
  }

  /**
   A scan from a valid checkpoint, for every head the node may report. A head in
   `[lastBlock, lastBlock + CONFIRMATIONS)` slips past the lagging-node guard and repeats blocks.
   */
  lemma ScanFromCheckpoint(deploy: int, p: ScanState, latest: int, chain: Chain)
    requires ValidCheckpoint(deploy, p, chain)
    ensures latest < p.lastBlock ==> ScanResult(deploy, Some(p), latest, chain) == p.leaves
    ensures latest >= p.lastBlock + CONFIRMATIONS ==>
      ScanResult(deploy, Some(p), latest, chain) == History(chain, deploy, latest)
    ensures p.lastBlock <= latest < p.lastBlock + CONFIRMATIONS ==>
      ScanResult(deploy, Some(p), latest, chain) ==
      History(chain, deploy, p.lastBlock) + History(chain, Max(deploy, latest - 4), latest)
  {
    hide History;
    var confirmed := Confirmed(deploy, latest);
    EmptyHistory(chain, p.lastBlock + 1, confirmed);
    if latest >= p.lastBlock + CONFIRMATIONS {
      HistorySplit(chain, deploy, p.lastBlock, confirmed);
      HistorySplit(chain, deploy, confirmed, latest);
    }
  }

  /** In that window the result is right exactly when the repeated blocks hold no leaves. */
  lemma RepeatedBlocksMustBeEmpty(deploy: int, p: ScanState, latest: int, chain: Chain)
    requires ValidCheckpoint(deploy, p, chain)
    requires p.lastBlock <= latest < p.lastBlock + CONFIRMATIONS
    ensures ScanResult(deploy, Some(p), latest, chain) == History(chain, deploy, latest)
      <==> History(chain, Max(deploy, latest - 4), p.lastBlock) == []
  {
    hide History, ScanResult;
    ScanFromCheckpoint(deploy, p, latest, chain);
    HistorySplit(chain, Max(deploy, latest - 4), p.lastBlock, latest);
    HistorySplit(chain, deploy, p.lastBlock, latest);
  }

  ghost predicate ValidOrAbsent(deploy: int, stored: Option<ScanState>, chain: Chain) {
    stored.Some? ==> ValidCheckpoint(deploy, stored.value, chain)
  }

  /** The block whose leaves a scan stands for: a lagging node is answered from a snapshot above its head. */
  ghost function SeenBlock(persisted: Option<ScanState>, latest: int): int {
    if Lagging(persisted, latest) then persisted.value.lastBlock else latest
  }

  /** The blocks that a head just above its checkpoint makes the scan read again. */
  ghost predicate Rereads(persisted: Option<ScanState>, latest: int) {
    persisted.Some? && persisted.value.lastBlock <= latest < persisted.value.lastBlock + CONFIRMATIONS
  }

  ghost predicate RepeatsNothing(deploy: int, persisted: Option<ScanState>, latest: int, chain: Chain) {
    Rereads(persisted, latest) ==> History(chain, Max(deploy, latest - 4), persisted.value.lastBlock) == []
  }

  /** For every head, a scan is right exactly when the blocks it reads again hold no leaves. */
  lemma ScanIsHistoryIff(deploy: int, persisted: Option<ScanState>, latest: int, chain: Chain)
    requires ValidOrAbsent(deploy, persisted, chain)
    ensures ScanResult(deploy, persisted, latest, chain) == History(chain, deploy, SeenBlock(persisted, latest))
      <==> RepeatsNothing(deploy, persisted, latest, chain)
  {
    hide History, ScanResult;
    if persisted.None? {
      GoodScan(deploy, None, Scan(latest, chain, true, true, true, true));
    } else {
      ScanFromCheckpoint(deploy, persisted.value, latest, chain);
      if Rereads(persisted, latest) {
        RepeatedBlocksMustBeEmpty(deploy, persisted.value, latest, chain);
      }
    }
  }

  /** A concrete miss: one leaf in block 100, checkpointed, then a node reporting that same block. */
  lemma HeadJustBehindRepeatsALeaf()
    ensures var chain: Chain := n => if n == 100 then [Some("7")] else [];
      && ValidCheckpoint(100, ScanState(100, ["7"]), chain)
      && ScanResult(100, Some(ScanState(100, ["7"])), 100, chain) == ["7", "7"]
      && History(chain, 100, 100) == ["7"]
  {
    var chain: Chain := n => if n == 100 then [Some("7")] else [];
    var log: Log := Some("7");
    assert [log][..0] == [];
    assert Parsed([log]) == ["7"];
    assert History(chain, 100, 100) == History(chain, 100, 99) + Parsed(chain(100));
    ScanFromCheckpoint(100, ScanState(100, ["7"]), 100, chain);
  }

  // ---- Runs of scans ----

  /** One scan: the head and chain it saw, whether it could read its checkpoint, and which parts worked. */
  datatype Scan = Scan(latest: int, chain: Chain, readable: bool, confirmedOk: bool, tailOk: bool, saveOk: bool)

  function Persisted(stored: Option<ScanState>, scan: Scan): Option<ScanState> {
    if scan.readable then stored else None
  }

  ghost function CheckpointAfter(deploy: int, stored: Option<ScanState>, scan: Scan): Option<ScanState> {
    NextCheckpoint(deploy, stored, Persisted(stored, scan), scan.latest, scan.chain, scan.confirmedOk && scan.saveOk)
  }

  /** The checkpoint in storage before scan `i` of a run that starts with none. */
  ghost function CheckpointBefore(deploy: int, run: seq<Scan>, i: nat): Option<ScanState>
    requires i <= |run|
  {
    if i == 0 then None else CheckpointAfter(deploy, CheckpointBefore(deploy, run, i - 1), run[i - 1])
  }

  ghost function Returned(deploy: int, run: seq<Scan>, i: nat): seq<Leaf>
    requires i < |run|
  {
    ScanResult(deploy, Persisted(CheckpointBefore(deploy, run, i), run[i]), run[i].latest, run[i].chain)
  }

  /** The head never recedes, and only the last `CONFIRMATIONS` blocks below a seen head are ever rewritten. */
  ghost predicate ChainGrows(run: seq<Scan>) {
    forall i :: 0 <= i < |run| - 1 ==>
      && run[i].latest <= run[i + 1].latest
      && AgreeThrough(run[i].chain, run[i + 1].chain, run[i].latest - CONFIRMATIONS)
  }

  /** A checkpoint is good for a scan: canonical, and at least `CONFIRMATIONS` behind the head. */
  ghost predicate GoodFor(deploy: int, stored: Option<ScanState>, latest: int, chain: Chain) {
    stored.Some? ==>
      && ValidCheckpoint(deploy, stored.value, chain)
      && stored.value.lastBlock + CONFIRMATIONS <= latest
  }

  /** A fresh scan from a good checkpoint returns the canonical history, and leaves a good checkpoint. */
  lemma GoodScan(deploy: int, stored: Option<ScanState>, scan: Scan)
    requires GoodFor(deploy, stored, scan.latest, scan.chain)
    ensures ScanResult(deploy, Persisted(stored, scan), scan.latest, scan.chain) ==
            History(scan.chain, deploy, scan.latest)
    ensures GoodFor(deploy, CheckpointAfter(deploy, stored, scan), scan.latest, scan.chain)
  {
    hide History;
    var persisted := Persisted(stored, scan);
    var confirmed := Confirmed(deploy, scan.latest);
    EmptyHistory(scan.chain, deploy, scan.latest);
    EmptyHistory(scan.chain, deploy, confirmed);
    EmptyHistory(scan.chain, confirmed + 1, scan.latest);
    if persisted.Some? {
      ScanFromCheckpoint(deploy, persisted.value, scan.latest, scan.chain);
      HistorySplit(scan.chain, deploy, persisted.value.lastBlock, confirmed);
    } else if scan.latest >= deploy {
      HistorySplit(scan.chain, deploy, confirmed, scan.latest);
    }
  }

  /** Rewriting blocks above a good checkpoint's horizon leaves it good for the next scan. */
  lemma ReorgKeepsCheckpoint(deploy: int, stored: Option<ScanState>, latest: int, chain: Chain,
                             latest': int, chain': Chain)
    requires GoodFor(deploy, stored, latest, chain)
    requires latest <= latest' && AgreeThrough(chain, chain', latest - CONFIRMATIONS)
    ensures GoodFor(deploy, stored, latest', chain')
  {
    if stored.Some? {
      HistoryAgrees(chain, chain', deploy, stored.value.lastBlock);
    }
  }

  lemma {:induction false} CheckpointsStayGood(deploy: int, run: seq<Scan>, i: nat)
    requires ChainGrows(run) && i < |run|
    ensures GoodFor(deploy, CheckpointBefore(deploy, run, i), run[i].latest, run[i].chain)
  {
    if i > 0 {
      CheckpointsStayGood(deploy, run, i - 1);
      GoodScan(deploy, CheckpointBefore(deploy, run, i - 1), run[i - 1]);
      assert run[i - 1].latest <= run[i - 1 + 1].latest;
      ReorgKeepsCheckpoint(deploy, CheckpointBefore(deploy, run, i),
                           run[i - 1].latest, run[i - 1].chain, run[i].latest, run[i].chain);
    }
  }

  /**
   Over every run with a growing chain, whatever was lost, unsaved or rewritten near the head, each
   scan returns the canonical leaves of blocks `deploy..latest`, in order, with no gap and no repeat,
   and every checkpoint it starts from is canonical.
   */
  lemma EveryScanIsCanonical(deploy: int, run: seq<Scan>, i: nat)
    requires ChainGrows(run) && i < |run|
    ensures Returned(deploy, run, i) == History(run[i].chain, deploy, run[i].latest)
    ensures var stored := CheckpointBefore(deploy, run, i);
      stored.Some? ==> stored.value.leaves == History(run[i].chain, deploy, stored.value.lastBlock)
  {
    CheckpointsStayGood(deploy, run, i);
    GoodScan(deploy, CheckpointBefore(deploy, run, i), run[i]);
  }

  /** So saving checkpoints only ever saves time: a run that could never read one returns the same. */
  lemma CheckpointsOnlySaveTime(deploy: int, run: seq<Scan>, i: nat)
    requires ChainGrows(run) && i < |run|
    ensures Returned(deploy, run, i) == ScanResult(deploy, None, run[i].latest, run[i].chain)
  {
    EveryScanIsCanonical(deploy, run, i);
    GoodScan(deploy, None, run[i].(readable := false));
  }

  // ---- Heads that recede ----

  /** The highest head of scans `0..i`. */
  function HighestHead(run: seq<Scan>, i: nat): int
    requires i < |run|
  {
    if i == 0 then run[0].latest else Max(HighestHead(run, i - 1), run[i].latest)
  }

  /** Heads may recede at will; only the last `CONFIRMATIONS` blocks below the highest one are ever rewritten. */
  ghost predicate ReorgsAreShallow(run: seq<Scan>) {
    forall i :: 0 <= i < |run| - 1 ==>
      AgreeThrough(run[i].chain, run[i + 1].chain, HighestHead(run, i) - CONFIRMATIONS)
  }

  /** From a valid checkpoint or none, a scan at any head leaves a valid one or none. */
  lemma CheckpointStaysValid(deploy: int, stored: Option<ScanState>, scan: Scan)
    requires ValidOrAbsent(deploy, stored, scan.chain)
    ensures var after := CheckpointAfter(deploy, stored, scan);
      && ValidOrAbsent(deploy, after, scan.chain)
      && (after == stored || (after.Some? && after.value.lastBlock == scan.latest - CONFIRMATIONS))
  {
    hide History;
    var persisted, confirmed := Persisted(stored, scan), Confirmed(deploy, scan.latest);
    if persisted.Some? && persisted.value.lastBlock <= confirmed {
      HistorySplit(scan.chain, deploy, persisted.value.lastBlock, confirmed);
    }
  }

  /** There are settled blocks that the checkpoint read, if any, does not hold yet. */
  ghost predicate HasNewSettledBlocks(deploy: int, read: Option<ScanState>, latest: int) {
    latest - 5 >= deploy && (read.Some? ==> read.value.lastBlock < latest - 5)
  }

  /** What must be in storage after a scan whose confirmed part worked and whose save landed. */
  ghost predicate SavedThrough(deploy: int, read: Option<ScanState>, after: Option<ScanState>,
                               latest: int, chain: Chain) {
    && after.Some? && after.value.lastBlock == latest - 5
    && (ValidOrAbsent(deploy, read, chain) ==> after.value.leaves == History(chain, deploy, latest - 5))
  }

  /** Progress is saved exactly when there is some: otherwise storage is left as it was. */
  lemma CheckpointMoves(deploy: int, stored: Option<ScanState>, scan: Scan)
    ensures var after := CheckpointAfter(deploy, stored, scan);
      var read := if scan.readable then stored else None;
      if HasNewSettledBlocks(deploy, read, scan.latest) && scan.confirmedOk && scan.saveOk
      then SavedThrough(deploy, read, after, scan.latest, scan.chain)
      else ValidOrAbsent(deploy, stored, scan.chain) ==> after == stored
  {
    hide History;
    var persisted, confirmed := Persisted(stored, scan), Confirmed(deploy, scan.latest);
    if persisted.Some? && persisted.value.lastBlock <= confirmed && ValidOrAbsent(deploy, persisted, scan.chain) {
      HistorySplit(scan.chain, deploy, persisted.value.lastBlock, confirmed);
    }
  }

  /** The checkpoint before scan `i` holds the canonical leaves of blocks far enough below the highest head. */
  ghost predicate Settled(deploy: int, run: seq<Scan>, i: nat)
    requires i < |run|
  {
    var stored := CheckpointBefore(deploy, run, i);
    && ValidOrAbsent(deploy, stored, run[i].chain)
    && (stored.Some? ==> stored.value.lastBlock <= HighestHead(run, i) - CONFIRMATIONS)
  }

  /** No node, however far behind, can spoil the stored checkpoint. */
  lemma {:induction false} CheckpointsStaySettled(deploy: int, run: seq<Scan>, i: nat)
    requires ReorgsAreShallow(run) && i < |run|
    ensures Settled(deploy, run, i)
  {
    if i > 0 {
      CheckpointsStaySettled(deploy, run, i - 1);
      hide NextCheckpoint;
      CheckpointStaysValid(deploy, CheckpointBefore(deploy, run, i - 1), run[i - 1]);
      assert AgreeThrough(run[i - 1].chain, run[i - 1 + 1].chain, HighestHead(run, i - 1) - CONFIRMATIONS);
      var stored := CheckpointBefore(deploy, run, i);
      if stored.Some? {
        HistoryAgrees(run[i - 1].chain, run[i].chain, deploy, stored.value.lastBlock);
      }
    }
  }

  /** After a scan at the highest head that worked and was saved, the checkpoint stands five blocks below it. */
  lemma WorkingScanCatchesUp(deploy: int, run: seq<Scan>, i: nat)
    requires ReorgsAreShallow(run) && i < |run|
    requires run[i].latest == HighestHead(run, i) && run[i].latest - 5 >= deploy
    requires run[i].confirmedOk && run[i].saveOk
    ensures CheckpointBefore(deploy, run, i + 1) ==
            Some(ScanState(run[i].latest - 5, History(run[i].chain, deploy, run[i].latest - 5)))
  {
    hide CheckpointAfter, History, ReorgsAreShallow, HighestHead;
    CheckpointsStaySettled(deploy, run, i);
    CheckpointMoves(deploy, CheckpointBefore(deploy, run, i), run[i]);
  }

  /**
   Over every run, whatever heads the nodes report: a scan's result is spoiled only by the blocks it
   reads again itself, never by an earlier scan.
   */
  lemma AnyHeadScansAreRightIff(deploy: int, run: seq<Scan>, i: nat)
    requires ReorgsAreShallow(run) && i < |run|
    ensures var persisted := Persisted(CheckpointBefore(deploy, run, i), run[i]);
      Returned(deploy, run, i) == History(run[i].chain, deploy, SeenBlock(persisted, run[i].latest))
      <==> RepeatsNothing(deploy, persisted, run[i].latest, run[i].chain)
  {
    CheckpointsStaySettled(deploy, run, i);
    ScanIsHistoryIff(deploy, Persisted(CheckpointBefore(deploy, run, i), run[i]), run[i].latest, run[i].chain);
  }

  // ---- The scanner itself ----

  lemma LaggingScan(deploy: int, persisted: Option<ScanState>, latest: int, chain: Chain)
    requires Lagging(persisted, latest)
    ensures ScanResult(deploy, persisted, latest, chain) == persisted.value.leaves
  {
  }

  /** The confirmed part, whether or not there are confirmed blocks left to scan. */
  lemma AssembleConfirmed(deploy: int, persisted: Option<ScanState>, latest: int, chain: Chain)
    ensures var base := if persisted.Some? then persisted.value.leaves else [];
      var from, to := StartBlock(deploy, persisted), Confirmed(deploy, latest);
      && ConfirmedLeaves(deploy, persisted, latest, chain) == base + History(chain, from, to)
      && (from > to ==> ConfirmedLeaves(deploy, persisted, latest, chain) == base)
  {
  }

  /** The whole result, whether or not there is a tail and whether or not it holds leaves. */
  lemma AssembleScan(deploy: int, persisted: Option<ScanState>, latest: int, chain: Chain, confirmed: seq<Leaf>)
    requires !Lagging(persisted, latest)
    requires confirmed == ConfirmedLeaves(deploy, persisted, latest, chain)
    ensures var tail := History(chain, Confirmed(deploy, latest) + 1, latest);
      && confirmed + tail == ScanResult(deploy, persisted, latest, chain)
      && (Confirmed(deploy, latest) >= latest ==> tail == [])
      && (tail == [] ==> confirmed == ScanResult(deploy, persisted, latest, chain))
  {
  }

  /** Everything outside the app that one scan depends on. */
  datatype World = World(head: Option<int>, chain: Chain, rpc: Rpc, storageReadable: bool, saveLands: bool)

  /** The queries one scan sends, for its confirmed part and for its tail. */
  datatype Asked = Asked(confirmed: seq<Query>, tail: seq<Query>)

  /** Each part asks for its own blocks only, and for no range twice. */
  ghost predicate AskedWithin(deploy: int, persisted: Option<ScanState>, latest: int, asked: Asked) {
    var confirmed := Confirmed(deploy, latest);
    && Within(asked.confirmed, StartBlock(deploy, persisted), confirmed) && Distinct(asked.confirmed)
    && Within(asked.tail, confirmed + 1, latest) && Distinct(asked.tail)
  }

  /** The first failure among the two parts' queries. */
  lemma FailedPart(rpc: Rpc, asked: Asked, error: ScanError)
    requires SomeFatal(rpc, asked.confirmed, error) || SomeFatal(rpc, asked.tail, error)
    ensures SomeFatal(rpc, asked.confirmed + asked.tail, error)
    ensures SomeFatal(rpc, asked.confirmed, error) ==> !NoneFatal(rpc, asked.confirmed)
    ensures SomeFatal(rpc, asked.tail, error) ==> !NoneFatal(rpc, asked.tail)
  {
    var q :| (q in asked.confirmed || q in asked.tail) && Fatal(rpc, q) && error == ErrorOf(rpc(q.0, q.1));
    assert q in asked.confirmed + asked.tail;
  }

  lemma NothingAsked(rpc: Rpc, deploy: int, persisted: Option<ScanState>, latest: int)
    ensures AskedWithin(deploy, persisted, latest, Asked([], [])) && NoneFatal(rpc, [])
  {
  }

  datatype Answer = Cached(leaves: seq<Leaf>) | Shared(run: nat) | Started(run: nat)

  function MapGet<K, V>(m: map<K, V>, k: K): Option<V> {
    if k in m then Some(m[k]) else None
  }

  ghost predicate SameElsewhere<V>(a: map<string, V>, b: map<string, V>, key: string) {
    forall k :: k != key ==> MapGet(a, k) == MapGet(b, k)
  }

  class CommitmentScanner {
    const deployBlock: int
    var memCache: map<string, CacheEntry>
    var inFlight: map<string, nat>
    var stored: map<string, ScanState>
    var nextRun: nat

    /** Every scan that completed, with the time it ended. */
    ghost var completed: set<(string, CacheEntry)>

    ghost predicate Valid()
      reads this
    {
      && (forall key :: key in memCache ==> (key, memCache[key]) in completed)
      && (forall key :: key in inFlight ==> inFlight[key] < nextRun)
      && (forall a, b :: a in inFlight && b in inFlight && inFlight[a] == inFlight[b] ==> a == b)
    }

    constructor (deployBlock: int)
      ensures Valid() && this.deployBlock == deployBlock
      ensures memCache == map[] && inFlight == map[] && stored == map[]
    {
      this.deployBlock := deployBlock;
      memCache, inFlight, stored, nextRun := map[], map[], map[], 0;
      completed := {};
    }

    /**
     A caller asks for a pool's leaves: answered from the cache while it is young enough, else by
     joining the scan in flight, else by starting the only scan of that pool.
     */
    method GetCommitmentLeaves(key: string, now: int) returns (a: Answer)
      requires Valid()
      modifies this`inFlight, this`nextRun
      ensures Valid()
      ensures a.Cached? ==> inFlight == old(inFlight)
      ensures a.Cached? ==>
        exists entry :: (key, entry) in completed && now - entry.at < CACHE_TTL_MS && a.leaves == entry.state.leaves
      ensures a.Cached? <==> key in memCache && now - memCache[key].at < 3_000
      ensures a.Cached? ==> a.leaves == memCache[key].state.leaves
      ensures a.Shared? ==> inFlight == old(inFlight) && MapGet(inFlight, key) == Some(a.run)
      ensures a.Started? ==> key !in old(inFlight) && a.run !in old(inFlight).Values
      ensures a.Started? ==> inFlight == old(inFlight)[key := a.run]
    {
      if key in memCache && now - memCache[key].at < CACHE_TTL_MS {
        return Cached(memCache[key].state.leaves);
      }
      if key in inFlight {
        return Shared(inFlight[key]);
      }
      inFlight := inFlight[key := nextRun];
      a := Started(nextRun);
      nextRun := nextRun + 1;
    }

    /** The scan behind an in-flight entry: it runs to its end, and the entry is always removed. */
    method RunScan(key: string, now: int, world: World)
      returns (r: Result<seq<Leaf>, ScanError>, ghost scan: Option<Scan>, ghost asked: Asked)
      requires Valid() && key in inFlight
      modifies this`inFlight, this`memCache, this`stored, this`completed
      ensures Valid() && inFlight == old(inFlight) - {key}
      ensures SameElsewhere(stored, old(stored), key) && SameElsewhere(memCache, old(memCache), key)
      ensures scan.None? <==> world.head.None?
      ensures scan.None? ==> r == Err(Unavailable) && stored == old(stored)
      ensures scan.Some? ==> Describes(world, scan.value)
      ensures scan.Some? ==>
        MapGet(stored, key) == CheckpointAfter(deployBlock, MapGet(old(stored), key), scan.value)
      ensures scan.Some? ==>
        Saves(MapGet(old(stored), key), MapGet(stored, key), world, scan.value)
      ensures r.Ok? ==> ReturnsScan(MapGet(old(stored), key), scan, r.value)
      ensures r.Ok? ==> CachedAs(key, now, r.value) && completed == old(completed) + {(key, memCache[key])}
      ensures scan.Some? ==>
        && AskedWithin(deployBlock, Persisted(MapGet(old(stored), key), scan.value), scan.value.latest, asked)
        && AnsweredBy(world.rpc, scan.value, asked, r)
        && ReusesCheckpoint(MapGet(old(stored), key), world, scan.value, asked)
        && Ends(world.rpc, asked.confirmed + asked.tail, r)
      ensures r.Err? ==> memCache == old(memCache) && completed == old(completed)
    {
      hide ReturnsScan, AskedWithin, AnsweredBy, ReusesCheckpoint, Ends, Saves, CheckpointAfter;
      r, scan, asked := ScanPool(key, now, world);
      if scan.Some? {
        SavesAsMoved(MapGet(old(stored), key), world, scan.value);
        AskedAfterCheckpoint(MapGet(old(stored), key), world, scan.value, asked);
        AnsweredEnds(world.rpc, scan.value, asked, r);
      }
      inFlight := inFlight - {key};
    }

    ghost predicate Describes(world: World, scan: Scan) {
      && world.head == Some(scan.latest) && scan.chain == world.chain
      && scan.readable == world.storageReadable && scan.saveOk == world.saveLands
    }

    /** If the save lands, the checkpoint stands five blocks below the head wherever it can. */
    ghost predicate CaughtUp(before: Option<ScanState>, after: Option<ScanState>, world: World, latest: int) {
      var read := if world.storageReadable then before else None;
      world.saveLands && latest - 5 >= deployBlock && (read.Some? ==> read.value.lastBlock < latest - 5) ==>
        after.Some? && after.value.lastBlock == latest - 5
    }

    /** The checkpoint moves to five blocks below the head if it can, and stays where it is if it cannot. */
    ghost predicate Saves(before: Option<ScanState>, after: Option<ScanState>, world: World, scan: Scan) {
      var read := if world.storageReadable then before else None;
      if HasNewSettledBlocks(deployBlock, read, scan.latest) && scan.confirmedOk && world.saveLands
      then SavedThrough(deployBlock, read, after, scan.latest, world.chain)
      else ValidOrAbsent(deployBlock, before, world.chain) ==> after == before
    }

    /** A part fails exactly when one of its queries was fatal; the scan ends there, with that query's error. */
    ghost predicate AnsweredBy(rpc: Rpc, scan: Scan, asked: Asked, r: Result<seq<Leaf>, ScanError>) {
      && (scan.confirmedOk <==> NoneFatal(rpc, asked.confirmed))
      && (scan.tailOk <==> NoneFatal(rpc, asked.tail))
      && (!scan.confirmedOk ==> asked.tail == [])
      && (r.Ok? <==> scan.confirmedOk && scan.tailOk)
      && (r.Err? ==> SomeFatal(rpc, asked.confirmed + asked.tail, r.error))
    }

    /** What a readable checkpoint holds is not asked for again, but for the last five blocks. */
    ghost predicate ReusesCheckpoint(before: Option<ScanState>, world: World, scan: Scan, asked: Asked) {
      world.storageReadable && before.Some? ==>
        forall q :: q in asked.confirmed || q in asked.tail ==>
          q.0 > before.value.lastBlock || q.0 > scan.latest - 5
    }

    lemma SavesAsMoved(before: Option<ScanState>, world: World, scan: Scan)
      requires Describes(world, scan)
      ensures Saves(before, CheckpointAfter(deployBlock, before, scan), world, scan)
    {
      hide CheckpointAfter, SavedThrough;
      CheckpointMoves(deployBlock, before, scan);
    }

    lemma AskedAfterCheckpoint(before: Option<ScanState>, world: World, scan: Scan, asked: Asked)
      requires Describes(world, scan) && AskedWithin(deployBlock, Persisted(before, scan), scan.latest, asked)
      ensures ReusesCheckpoint(before, world, scan, asked)
    {
    }

    lemma AnsweredEnds(rpc: Rpc, scan: Scan, asked: Asked, r: Result<seq<Leaf>, ScanError>)
      requires AnsweredBy(rpc, scan, asked, r)
      ensures Ends(rpc, asked.confirmed + asked.tail, r)
    {
      ExplainedEnds(rpc, asked.confirmed + asked.tail, r);
    }

    ghost predicate ReturnsScan(before: Option<ScanState>, scan: Option<Scan>, leaves: seq<Leaf>) {
      && scan.Some? && scan.value.confirmedOk && scan.value.tailOk
      && leaves == ScanResult(deployBlock, Persisted(before, scan.value), scan.value.latest, scan.value.chain)
    }

    ghost predicate CachedAs(key: string, now: int, leaves: seq<Leaf>)
      reads this
    {
      key in memCache && memCache[key].at == now && memCache[key].state.leaves == leaves
    }

    /**
     One scan of a pool. `scan` reports which parts worked, so that the result and the next checkpoint
     are those of `ScanResult` and `CheckpointAfter`.
     */
    method ScanPool(key: string, now: int, world: World)
      returns (r: Result<seq<Leaf>, ScanError>, ghost scan: Option<Scan>, ghost asked: Asked)
      requires Valid()
      modifies this`memCache, this`stored, this`completed
      ensures Valid()
      ensures SameElsewhere(stored, old(stored), key) && SameElsewhere(memCache, old(memCache), key)
      ensures scan.None? <==> world.head.None?
      ensures scan.None? ==> r == Err(Unavailable) && stored == old(stored)
      ensures scan.Some? ==> Describes(world, scan.value)
      ensures scan.Some? ==>
        MapGet(stored, key) == CheckpointAfter(deployBlock, MapGet(old(stored), key), scan.value)
      ensures scan.Some? && scan.value.confirmedOk ==>
        CaughtUp(MapGet(old(stored), key), MapGet(stored, key), world, scan.value.latest)
      ensures r.Ok? ==> ReturnsScan(MapGet(old(stored), key), scan, r.value)
      ensures r.Ok? ==> CachedAs(key, now, r.value) && completed == old(completed) + {(key, memCache[key])}
      ensures scan.Some? ==>
        && AskedWithin(deployBlock, Persisted(MapGet(old(stored), key), scan.value), scan.value.latest, asked)
        && AnsweredBy(world.rpc, scan.value, asked, r)
      ensures r.Err? ==> memCache == old(memCache) && completed == old(completed)
    {
      hide History, Within, Distinct, NoneFatal, SomeFatal, StopsAtFailure, Ends, ScanResult, ConfirmedLeaves;
      asked := Asked([], []);
      var persisted := if world.storageReadable then MapGet(stored, key) else None;
      if world.head.None? {
        return Err(Unavailable), None, asked;
      }
      var latest := world.head.value;
      NothingAsked(world.rpc, deployBlock, persisted, latest);
      scan := Some(Scan(latest, world.chain, world.storageReadable, true, true, world.saveLands));
      if persisted.Some? && latest < persisted.value.lastBlock {
        LaggingScan(deployBlock, persisted, latest, world.chain);
        Remember(key, now, persisted.value);
        return Ok(persisted.value.leaves), scan, asked;
      }
      var confirmed := Max(deployBlock - 1, latest - CONFIRMATIONS);
      var persistedStart := if persisted.Some? then persisted.value.lastBlock + 1 else deployBlock;
      var needConfirmedScan := persistedStart <= confirmed;
      var needTailScan := confirmed < latest;
      AssembleConfirmed(deployBlock, persisted, latest, world.chain);
      if !needConfirmedScan && !needTailScan {
        var state := if persisted.Some? then persisted.value else ScanState(deployBlock - 1, []);
        AssembleScan(deployBlock, persisted, latest, world.chain, state.leaves);
        Remember(key, now, state);
        return Ok(state.leaves), scan, asked;
      }
      var confirmedLeaves := if persisted.Some? then persisted.value.leaves else [];
      if needConfirmedScan {
        var scanned, queries := ScanNewRange(world.chain, world.rpc, persistedStart, confirmed);
        asked := asked.(confirmed := queries);
        if scanned.Err? {
          FailedPart(world.rpc, asked, scanned.error);
          return Err(scanned.error), Some(scan.value.(confirmedOk := false)), asked;
        }
        confirmedLeaves := confirmedLeaves + scanned.value;
        if world.saveLands {
          stored := stored[key := ScanState(confirmed, confirmedLeaves)];
        }
      }
      AssembleScan(deployBlock, persisted, latest, world.chain, confirmedLeaves);
      var tail := [];
      if needTailScan {
        var scanned, queries := ScanNewRange(world.chain, world.rpc, confirmed + 1, latest);
        asked := asked.(tail := queries);
        if scanned.Err? {
          FailedPart(world.rpc, asked, scanned.error);
          return Err(scanned.error), Some(scan.value.(tailOk := false)), asked;
        }
        tail := scanned.value;
      }
      var leaves := if |tail| > 0 then confirmedLeaves + tail else confirmedLeaves;
      Remember(key, now, ScanState(latest, leaves));
      r := Ok(leaves);
    }

    method Remember(key: string, now: int, state: ScanState)
      requires Valid()
      modifies this`memCache, this`completed
      ensures Valid()
      ensures memCache == old(memCache)[key := CacheEntry(now, state)]
      ensures completed == old(completed) + {(key, memCache[key])}
    {
      memCache := memCache[key := CacheEntry(now, state)];
      completed := completed + {(key, memCache[key])};
    }
  }
}
