/**
 Reading a block range from an RPC node that may refuse any query: fixed-size chunks, bisected where
 the node says a range holds too many logs.
 */
module RangeScan {
  import opened Sequences
  import opened Wrappers
  import opened ChainHistory

  const CHUNK_BLOCKS: int := 5_000
  const MAX_PARALLEL_CHUNKS: int := 4

  datatype RpcAnswer = Served | LogLimit | Failed

  /** The node's reaction to a query for blocks `from..to`. No scan asks the same range twice. */
  type Rpc = (int, int) -> RpcAnswer

  type Query = (int, int)

  datatype ScanError = TooManyLogs | Unavailable

  /** The refusals bisection cannot get around: any other failure, or one block that is too dense. */
  ghost predicate Fatal(rpc: Rpc, q: Query) {
    rpc(q.0, q.1) == Failed || (rpc(q.0, q.1) == LogLimit && q.0 >= q.1)
  }

  function ErrorOf(answer: RpcAnswer): ScanError {
    if answer == LogLimit then TooManyLogs else Unavailable
  }

  ghost predicate Within(queries: seq<Query>, from: int, to: int) {
    forall q :: q in queries ==> from <= q.0 <= q.1 <= to
  }

  ghost predicate NoneFatal(rpc: Rpc, queries: seq<Query>) {
    forall q :: q in queries ==> !Fatal(rpc, q)
  }

  /** One of the queries failed beyond rescue, with `error`. */
  ghost predicate SomeFatal(rpc: Rpc, queries: seq<Query>, error: ScanError) {
    exists q :: q in queries && Fatal(rpc, q) && error == ErrorOf(rpc(q.0, q.1))
  }

  /** A result is right for the queries that were sent: all were survivable, or one of them was not. */
  ghost predicate Explains(rpc: Rpc, queries: seq<Query>, r: Result<seq<Leaf>, ScanError>) {
    && (r.Ok? ==> NoneFatal(rpc, queries))
    && (r.Err? ==> SomeFatal(rpc, queries, r.error))
  }

  /**
   What the answers to the queries mean for the result: any failure ends the scan, and so does a
   log-limit refusal of one block; a refusal of more blocks does not.
   */
  ghost predicate Ends(rpc: Rpc, queries: seq<Query>, r: Result<seq<Leaf>, ScanError>) {
    && (r.Ok? <==> forall q :: q in queries ==> rpc(q.0, q.1) == Served || (rpc(q.0, q.1) == LogLimit && q.0 < q.1))
    && (r == Err(Unavailable) ==> exists q :: q in queries && rpc(q.0, q.1) == Failed)
    && (r == Err(TooManyLogs) ==> exists q :: q in queries && rpc(q.0, q.1) == LogLimit && q.0 >= q.1)
  }

  lemma ExplainedEnds(rpc: Rpc, queries: seq<Query>, r: Result<seq<Leaf>, ScanError>)
    requires Explains(rpc, queries, r)
    ensures Ends(rpc, queries, r)
  {
    if r.Err? {
      var q :| q in queries && Fatal(rpc, q) && r.error == ErrorOf(rpc(q.0, q.1));
      assert rpc(q.0, q.1) != Served;
    } else {
      forall q | q in queries ensures rpc(q.0, q.1) == Served || (rpc(q.0, q.1) == LogLimit && q.0 < q.1) {
        assert !Fatal(rpc, q);
      }
    }
  }

  function LowerHalf(q: Query): Query {
    (q.0, q.0 + (q.1 - q.0) / 2)
  }

  function UpperHalf(q: Query): Query {
    (q.0 + (q.1 - q.0) / 2 + 1, q.1)
  }

  /** The halves make up the range, and the lower one has at most one block more. */
  lemma HalvesAreEven(q: Query)
    requires q.0 < q.1
    ensures LowerHalf(q).0 == q.0 && UpperHalf(q).1 == q.1 && UpperHalf(q).0 == LowerHalf(q).1 + 1
    ensures var lower, upper := LowerHalf(q).1 - LowerHalf(q).0 + 1, UpperHalf(q).1 - UpperHalf(q).0 + 1;
      upper >= 1 && upper <= lower <= upper + 1
  {
  }

  ghost predicate Splits(rpc: Rpc, q: Query) {
    rpc(q.0, q.1) == LogLimit && q.0 < q.1
  }

  /** Exactly the bisection of a range: it is asked, and of what is refused for its logs both halves are. */
  ghost predicate Bisects(rpc: Rpc, queries: seq<Query>, whole: Query) {
    && whole in queries
    && (forall q :: q in queries && Splits(rpc, q) ==> LowerHalf(q) in queries && UpperHalf(q) in queries)
    && (forall q :: q in queries && q != whole ==>
          exists p :: p in queries && Splits(rpc, p) && (q == LowerHalf(p) || q == UpperHalf(p)))
  }

  lemma BisectsBoth(rpc: Rpc, whole: Query, lo: seq<Query>, hi: seq<Query>)
    requires Splits(rpc, whole)
    requires Bisects(rpc, lo, LowerHalf(whole)) && Bisects(rpc, hi, UpperHalf(whole))
    ensures Bisects(rpc, [whole] + (lo + hi), whole)
  {
    var all := [whole] + (lo + hi);
    assert forall q :: q in all <==> q == whole || q in lo || q in hi;
    hide LowerHalf, UpperHalf, Splits;
    forall q | q in all && q != whole
      ensures exists p :: p in all && Splits(rpc, p) && (q == LowerHalf(p) || q == UpperHalf(p))
    {
      if q == LowerHalf(whole) || q == UpperHalf(whole) {
        assert whole in all;
      } else if q in lo {
        var p :| p in lo && Splits(rpc, p) && (q == LowerHalf(p) || q == UpperHalf(p));
        assert p in all;
      } else {
        var p :| p in hi && Splits(rpc, p) && (q == LowerHalf(p) || q == UpperHalf(p));
        assert p in all;
      }
    }
  }

  lemma ConcatQueries(rpc: Rpc, a: seq<Query>, b: seq<Query>, from: int, mid: int, to: int)
    requires from - 1 <= mid <= to
    requires Within(a, from, mid) && Distinct(a)
    requires Within(b, mid + 1, to) && Distinct(b)
    ensures Within(a + b, from, to) && Distinct(a + b)
  {
    var ab := a + b;
    forall i, j | 0 <= i < j < |ab| ensures ab[i] != ab[j] {
      assert i < |a| ==> ab[i] in a;
      assert j >= |a| ==> ab[j] in b;
    }
  }

  lemma OwnQueryFirst(q: Query, rest: seq<Query>)
    requires Within(rest, q.0, q.1) && Distinct(rest)
    requires q.0 <= q.1 && q !in rest
    ensures Within([q] + rest, q.0, q.1) && Distinct([q] + rest)
  {
    forall i, j | 0 <= i < j < |[q] + rest| ensures ([q] + rest)[i] != ([q] + rest)[j] {
      assert ([q] + rest)[j] in rest;
    }
  }

  method ParseEvents(events: seq<Log>) returns (out: seq<Leaf>)
    ensures out == Parsed(events)
  {
    out := [];
    for i := 0 to |events|
      invariant out == Parsed(events[..i])
    {
      assert events[..i + 1][..i] == events[..i];
      if events[i].Some? && events[i].value != "" {
        out := out + [events[i].value];
      }
    }
    assert events[..|events|] == events;
  }

  /** What is known of the queries for one range and of the result they gave. */
  ghost predicate Fetched(rpc: Rpc, queries: seq<Query>, whole: Query, r: Result<seq<Leaf>, ScanError>) {
    && Explains(rpc, queries, r) && Bisects(rpc, queries, whole)
    && Within(queries, whole.0, whole.1) && Distinct(queries)
    && 1 <= |queries| <= 2 * (whole.1 - whole.0 + 1) - 1
  }

  lemma FetchedAtOnce(rpc: Rpc, q: Query, r: Result<seq<Leaf>, ScanError>)
    requires q.0 <= q.1 && !Splits(rpc, q)
    requires r.Ok? <==> rpc(q.0, q.1) == Served
    requires r.Err? ==> r.error == ErrorOf(rpc(q.0, q.1))
    ensures Fetched(rpc, [q], q, r)
  {
    assert forall p :: p in [q] <==> p == q;
    assert r.Err? ==> Fatal(rpc, q);
  }

  lemma FetchedInHalves(rpc: Rpc, whole: Query, qLo: seq<Query>, lo: Result<seq<Leaf>, ScanError>,
                        qHi: seq<Query>, hi: Result<seq<Leaf>, ScanError>, r: Result<seq<Leaf>, ScanError>)
    requires Splits(rpc, whole)
    requires Fetched(rpc, qLo, LowerHalf(whole), lo) && Fetched(rpc, qHi, UpperHalf(whole), hi)
    requires r.Ok? <==> lo.Ok? && hi.Ok?
    requires r.Err? ==> r == lo || r == hi
    ensures Fetched(rpc, [whole] + (qLo + qHi), whole, r)
  {
    hide Bisects;
    assert whole !in qLo + qHi;
    BisectsBoth(rpc, whole, qLo, qHi);
    hide Explains, Within, Distinct;
    ConcatQueries(rpc, qLo, qHi, whole.0, LowerHalf(whole).1, whole.1);
    OwnQueryFirst(whole, qLo + qHi);
    ExplainsBoth(rpc, qLo, lo, qHi, hi, r);
    Survived(rpc, whole);
    ExplainsBoth(rpc, [whole], Ok([]), qLo + qHi, r, r);
  }

  lemma Survived(rpc: Rpc, q: Query)
    requires Splits(rpc, q)
    ensures Explains(rpc, [q], Ok([]))
  {
  }

  /** One chunk, bisected on a log-limit refusal. Both halves are always asked. */
  method FetchChunk(chain: Chain, rpc: Rpc, from: int, to: int)
    returns (r: Result<seq<Leaf>, ScanError>, ghost queries: seq<Query>)
    requires from <= to
    ensures r.Ok? ==> r.value == History(chain, from, to)
    ensures Fetched(rpc, queries, (from, to), r) && Ends(rpc, queries, r)
    ensures rpc(from, to) == Failed ==> r == Err(Unavailable) && queries == [(from, to)]
    decreases 1 + to - from
  {
    hide History, RangeLogs, Parsed, Ends, Fetched, Explains;
    queries := [(from, to)];
    if rpc(from, to) == Served {
      var out := ParseEvents(RangeLogs(chain, from, to));
      FlatQueryIsHistory(chain, from, to);
      r := Ok(out);
      FetchedAtOnce(rpc, (from, to), r);
      FetchedEnds(rpc, queries, (from, to), r);
      return;
    }
    if rpc(from, to) != LogLimit || from >= to {
      r := Err(ErrorOf(rpc(from, to)));
      FetchedAtOnce(rpc, (from, to), r);
      FetchedEnds(rpc, queries, (from, to), r);
      return;
    }
    var mid := from + (to - from) / 2;
    var lo, qLo := FetchChunk(chain, rpc, from, mid);
    var hi, qHi := FetchChunk(chain, rpc, mid + 1, to);
    queries := [(from, to)] + (qLo + qHi);
    r := JoinPair(lo, hi);
    HistorySplit(chain, from, mid, to);
    FetchedInHalves(rpc, (from, to), qLo, lo, qHi, hi, r);
    FetchedEnds(rpc, queries, (from, to), r);
  }

  lemma FetchedEnds(rpc: Rpc, queries: seq<Query>, whole: Query, r: Result<seq<Leaf>, ScanError>)
    requires Fetched(rpc, queries, whole, r)
    ensures Ends(rpc, queries, r)
  {
    ExplainedEnds(rpc, queries, r);
  }

  /** Waiting for two requests at once: the first rejection wins, whichever comes first. */
  method JoinPair(lo: Result<seq<Leaf>, ScanError>, hi: Result<seq<Leaf>, ScanError>)
    returns (r: Result<seq<Leaf>, ScanError>)
    ensures lo.Ok? && hi.Ok? ==> r == Ok(lo.value + hi.value)
    ensures lo.Err? || hi.Err? ==> r.Err? && (r == lo || r == hi)
  {
    if lo.Ok? && hi.Ok? {
      r := Ok(lo.value + hi.value);
    } else if lo.Ok? {
      r := hi;
    } else if hi.Ok? {
      r := lo;
    } else if * {
      r := lo;
    } else {
      r := hi;
    }
  }

  // ---- Tiling a range ----

  /** Consecutive ranges covering `from..to` exactly; all but the last have the full chunk size. */
  ghost predicate Tiles(ranges: seq<Query>, from: int, to: int) {
    && (ranges == [] <==> from > to)
    && (ranges != [] ==> ranges[0].0 == from && ranges[|ranges| - 1].1 == to)
    && (forall i :: 0 <= i < |ranges| ==> ranges[i].0 <= ranges[i].1 < ranges[i].0 + CHUNK_BLOCKS)
    && (forall i :: 0 <= i < |ranges| - 1 ==>
        ranges[i].1 == ranges[i].0 + CHUNK_BLOCKS - 1 && ranges[i + 1].0 == ranges[i].1 + 1)
  }

  method TileRange(fromBlock: int, toBlock: int) returns (ranges: seq<Query>)
    ensures Tiles(ranges, fromBlock, toBlock)
  {
    ranges := [];
    var from := fromBlock;
    while from <= toBlock
      invariant fromBlock <= from && (fromBlock <= toBlock ==> from <= toBlock + 1)
      invariant fromBlock > toBlock ==> from == fromBlock
      invariant Tiles(ranges, fromBlock, from - 1)
      invariant from <= toBlock ==> forall i :: 0 <= i < |ranges| ==> ranges[i].1 == ranges[i].0 + CHUNK_BLOCKS - 1
      decreases toBlock - from
    {
      var end := if from + CHUNK_BLOCKS - 1 < toBlock then from + CHUNK_BLOCKS - 1 else toBlock;
      ranges := ranges + [(from, end)];
      from := if from + CHUNK_BLOCKS < toBlock + 1 then from + CHUNK_BLOCKS else toBlock + 1;
    }
  }

  /** First block not covered by the first `k` tiles. */
  ghost function Frontier(ranges: seq<Query>, from: int, k: nat): int
    requires k <= |ranges|
  {
    if k == 0 then from else ranges[k - 1].1 + 1
  }

  /** The blocks of one batch of chunks. */
  const BATCH_BLOCKS: int := 20_000

  /** Where one query was fatal, nothing past its batch was asked any more. */
  ghost predicate StopsAtFailure(rpc: Rpc, queries: seq<Query>, from: int) {
    forall p, q :: p in queries && q in queries && Fatal(rpc, p) ==>
      q.0 < from + BATCH_BLOCKS * ((p.0 - from) / BATCH_BLOCKS + 1)
  }

  lemma {:induction false} TileStarts(ranges: seq<Query>, from: int, to: int, k: nat)
    requires Tiles(ranges, from, to) && k < |ranges|
    ensures ranges[k].0 == from + CHUNK_BLOCKS * k
  {
    if k > 0 {
      TileStarts(ranges, from, to, k - 1);
      assert ranges[k - 1 + 1].0 == ranges[k - 1].1 + 1;
    }
  }

  /** The queries so far: those of earlier batches were survivable, the others start in the batch at tile `i`. */
  ghost predicate InBatch(rpc: Rpc, earlier: seq<Query>, current: seq<Query>, from: int, i: nat, end: nat) {
    && i % MAX_PARALLEL_CHUNKS == 0 && end <= i + MAX_PARALLEL_CHUNKS
    && NoneFatal(rpc, earlier)
    && (forall q :: q in current ==> from + CHUNK_BLOCKS * i <= q.0)
    && (forall q :: q in earlier || q in current ==> q.0 < from + CHUNK_BLOCKS * end)
  }

  lemma BatchStops(rpc: Rpc, earlier: seq<Query>, current: seq<Query>, from: int, i: nat, end: nat)
    requires InBatch(rpc, earlier, current, from, i, end)
    ensures StopsAtFailure(rpc, earlier + current, from)
  {
    var all := earlier + current;
    forall p, q | p in all && q in all && Fatal(rpc, p)
      ensures q.0 < from + BATCH_BLOCKS * ((p.0 - from) / BATCH_BLOCKS + 1)
    {
      assert p in current;
      assert p.0 - from >= CHUNK_BLOCKS * i == BATCH_BLOCKS * (i / MAX_PARALLEL_CHUNKS);
    }
  }

  lemma BatchGrows(rpc: Rpc, earlier: seq<Query>, current: seq<Query>, ranges: seq<Query>, from: int, to: int,
                   i: nat, k: nat, asked: seq<Query>)
    requires InBatch(rpc, earlier, current, from, i, k) && i <= k < |ranges| && k < i + MAX_PARALLEL_CHUNKS
    requires Tiles(ranges, from, to) && Within(asked, ranges[k].0, ranges[k].1)
    ensures InBatch(rpc, earlier, current + asked, from, i, k + 1)
  {
    TileStarts(ranges, from, to, k);
  }

  lemma BatchDone(rpc: Rpc, earlier: seq<Query>, current: seq<Query>, from: int, i: nat, end: nat,
                  r: Result<seq<Leaf>, ScanError>)
    requires InBatch(rpc, earlier, current, from, i, end) && Explains(rpc, earlier + current, r)
    ensures r.Ok? && end % MAX_PARALLEL_CHUNKS == 0 ==> InBatch(rpc, earlier + current, [], from, end, end)
  {
    if r.Ok? {
      assert forall q :: q in earlier + current ==> !Fatal(rpc, q);
    }
  }

  /** Fetch all chunks in batches; later batches are not sent once one has failed. */
  method ScanNewRange(chain: Chain, rpc: Rpc, fromBlock: int, toBlock: int)
    returns (r: Result<seq<Leaf>, ScanError>, ghost queries: seq<Query>)
    ensures r.Ok? ==> r.value == History(chain, fromBlock, toBlock)
    ensures Explains(rpc, queries, r) && Ends(rpc, queries, r)
    ensures StopsAtFailure(rpc, queries, fromBlock)
    ensures Within(queries, fromBlock, toBlock) && Distinct(queries)
    ensures |queries| <= if fromBlock <= toBlock then 2 * (toBlock - fromBlock + 1) - 1 else 0
  {
    hide History, Tiles, Explains, Ends, Fetched, Distinct, Within, Progress, Frontier, InBatch, StopsAtFailure;
    var ranges := TileRange(fromBlock, toBlock);
    var out := [];
    queries := [];
    Started(chain, rpc, ranges, fromBlock, toBlock);
    var i := 0;
    while i < |ranges|
      invariant 0 <= i <= |ranges|
      invariant out == History(chain, fromBlock, Frontier(ranges, fromBlock, i) - 1)
      invariant Progress(rpc, ranges, fromBlock, toBlock, i, queries)
      invariant Explains(rpc, queries, Ok(out)) && StopsAtFailure(rpc, queries, fromBlock)
      invariant i < |ranges| ==> InBatch(rpc, queries, [], fromBlock, i, i)
    {
      var end := if i + MAX_PARALLEL_CHUNKS < |ranges| then i + MAX_PARALLEL_CHUNKS else |ranges|;
      BatchIndex(rpc, queries, fromBlock, i);
      var settled: Result<seq<Leaf>, ScanError> := Ok(out);
      ghost var earlier, current := queries, [];
      assert earlier + [] == queries;
      for k := i to end
        invariant Progress(rpc, ranges, fromBlock, toBlock, k, queries)
        invariant settled.Ok? ==> settled.value == History(chain, fromBlock, Frontier(ranges, fromBlock, k) - 1)
        invariant Explains(rpc, queries, settled)
        invariant queries == earlier + current && InBatch(rpc, earlier, current, fromBlock, i, k)
      {
        TileBounds(ranges, fromBlock, toBlock, k, rpc, queries);
        var chunk, asked := FetchChunk(chain, rpc, ranges[k].0, ranges[k].1);
        ProgressStep(rpc, ranges, fromBlock, toBlock, k, queries, asked, chunk);
        HistorySplit(chain, fromBlock, ranges[k].0 - 1, ranges[k].1);
        var joined := JoinPair(settled, chunk);
        ExplainsBoth(rpc, queries, settled, asked, chunk, joined);
        BatchGrows(rpc, earlier, current, ranges, fromBlock, toBlock, i, k, asked);
        assert queries + asked == earlier + (current + asked);
        queries, settled, current := queries + asked, joined, current + asked;
      }
      BatchStops(rpc, earlier, current, fromBlock, i, end);
      if settled.Err? {
        Finished(chain, rpc, ranges, fromBlock, toBlock, end, queries);
        ExplainedEnds(rpc, queries, settled);
        return settled, queries;
      }
      BatchDone(rpc, earlier, current, fromBlock, i, end, settled);
      out := settled.value;
      i := end;
    }
    Finished(chain, rpc, ranges, fromBlock, toBlock, i, queries);
    r := Ok(out);
    ExplainedEnds(rpc, queries, r);
  }

  lemma BatchIndex(rpc: Rpc, queries: seq<Query>, from: int, i: nat)
    requires InBatch(rpc, queries, [], from, i, i)
    ensures i % MAX_PARALLEL_CHUNKS == 0
  {
  }

  lemma Started(chain: Chain, rpc: Rpc, ranges: seq<Query>, from: int, to: int)
    requires Tiles(ranges, from, to)
    ensures Progress(rpc, ranges, from, to, 0, [])
    ensures History(chain, from, Frontier(ranges, from, 0) - 1) == []
    ensures forall leaves :: Explains(rpc, [], Ok(leaves))
    ensures StopsAtFailure(rpc, [], from) && InBatch(rpc, [], [], from, 0, 0)
  {
  }

  lemma TileBounds(ranges: seq<Query>, from: int, to: int, k: nat, rpc: Rpc, queries: seq<Query>)
    requires k < |ranges| && Progress(rpc, ranges, from, to, k, queries)
    ensures from <= ranges[k].0 == Frontier(ranges, from, k) <= ranges[k].1
    ensures Frontier(ranges, from, k + 1) == ranges[k].1 + 1
  {
    FrontierStarts(ranges, from, to, k);
  }

  lemma Finished(chain: Chain, rpc: Rpc, ranges: seq<Query>, from: int, to: int, k: nat, queries: seq<Query>)
    requires Progress(rpc, ranges, from, to, k, queries)
    ensures Within(queries, from, to) && Distinct(queries)
    ensures |queries| <= if from <= to then 2 * (to - from + 1) - 1 else 0
    ensures k == |ranges| ==> History(chain, from, Frontier(ranges, from, k) - 1) == History(chain, from, to)
  {
    if 0 < k < |ranges| {
      FrontierRises(ranges, from, to, k, |ranges|);
    }
  }

  lemma {:induction false} FrontierRises(ranges: seq<Query>, from: int, to: int, k: nat, m: nat)
    requires Tiles(ranges, from, to) && k <= m <= |ranges|
    ensures Frontier(ranges, from, k) <= Frontier(ranges, from, m)
  {
    if k < m {
      FrontierRises(ranges, from, to, k, m - 1);
      FrontierStarts(ranges, from, to, m - 1);
    }
  }

  /** The queries sent for the first `k` tiles stay inside them, never repeat and are few. */
  ghost predicate Progress(rpc: Rpc, ranges: seq<Query>, from: int, to: int, k: nat, queries: seq<Query>) {
    && k <= |ranges| && Tiles(ranges, from, to)
    && Within(queries, from, Frontier(ranges, from, k) - 1) && Distinct(queries)
    && |queries| <= 2 * (Frontier(ranges, from, k) - from) - k
  }

  lemma ProgressStep(rpc: Rpc, ranges: seq<Query>, from: int, to: int, k: nat, queries: seq<Query>,
                     asked: seq<Query>, chunk: Result<seq<Leaf>, ScanError>)
    requires k < |ranges| && Progress(rpc, ranges, from, to, k, queries)
    requires Fetched(rpc, asked, ranges[k], chunk)
    ensures Explains(rpc, asked, chunk) && Within(asked, ranges[k].0, ranges[k].1) && Tiles(ranges, from, to)
    ensures ranges[k].0 == Frontier(ranges, from, k) && from <= ranges[k].0
    ensures Progress(rpc, ranges, from, to, k + 1, queries + asked)
  {
    FrontierStarts(ranges, from, to, k);
    ConcatQueries(rpc, queries, asked, from, ranges[k].0 - 1, ranges[k].1);
  }

  lemma {:induction false} FrontierStarts(ranges: seq<Query>, from: int, to: int, k: nat)
    requires k < |ranges| && Tiles(ranges, from, to)
    ensures ranges[k].0 == Frontier(ranges, from, k) >= from
  {
    if k > 0 {
      FrontierStarts(ranges, from, to, k - 1);
      assert ranges[k - 1 + 1].0 == ranges[k - 1].1 + 1;
    }
  }

  /** Two results awaited together are explained by both sets of queries. */
  lemma ExplainsBoth(rpc: Rpc, qLo: seq<Query>, lo: Result<seq<Leaf>, ScanError>,
                     qHi: seq<Query>, hi: Result<seq<Leaf>, ScanError>, r: Result<seq<Leaf>, ScanError>)
    requires Explains(rpc, qLo, lo) && Explains(rpc, qHi, hi)
    requires r.Ok? <==> lo.Ok? && hi.Ok?
    requires r.Err? ==> r == lo || r == hi
    ensures Explains(rpc, qLo + qHi, r)
  {
    if r.Err? {
      var q :| (q in qLo || q in qHi) && Fatal(rpc, q) && r.error == ErrorOf(rpc(q.0, q.1));
      assert q in qLo + qHi;
    }
  }

  /** Log-limit refusals of ranges longer than one block never make a scan fail. */
  lemma OnlyDenseBlocksFail(rpc: Rpc, queries: seq<Query>, r: Result<seq<Leaf>, ScanError>, from: int, to: int)
    requires Explains(rpc, queries, r) && Within(queries, from, to)
    requires forall q: Query :: from <= q.0 <= q.1 <= to ==> rpc(q.0, q.1) != Failed
    ensures r.Err? ==> r.error == TooManyLogs && exists b :: from <= b <= to && rpc(b, b) == LogLimit
  {
    if r.Err? {
      var q :| q in queries && Fatal(rpc, q) && r.error == ErrorOf(rpc(q.0, q.1));
      assert rpc(q.0, q.0) == LogLimit;
    }
  }
}
