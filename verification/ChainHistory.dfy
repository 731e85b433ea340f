/** The chain as the scanner sees it: block number to the pool events of that block, in log order. */
module ChainHistory {
  import opened Wrappers

  type Leaf = string

  /** One event log; `None` when the bundled ABI can no longer parse it. */
  type Log = Option<Leaf>

  type Chain = int -> seq<Log>

  /** Commitments of a run of logs, in order; unparseable and empty ones are skipped. */
  function Parsed(logs: seq<Log>): seq<Leaf> {
    if logs == [] then []
    else
      var last := logs[|logs| - 1];
      Parsed(logs[..|logs| - 1]) + if last.Some? && last.value != "" then [last.value] else []
  }

  /** All logs of blocks `from..to`, as one flat range query returns them. */
  function RangeLogs(chain: Chain, from: int, to: int): seq<Log>
    decreases 1 + to - from
  {
    if from > to then [] else RangeLogs(chain, from, to - 1) + chain(to)
  }

  /** The leaves of blocks `from..to` in insertion order: the Merkle leaf order. */
  function History(chain: Chain, from: int, to: int): seq<Leaf>
    decreases 1 + to - from
  {
    if from > to then [] else History(chain, from, to - 1) + Parsed(chain(to))
  }

  ghost predicate AgreeThrough(a: Chain, b: Chain, block: int) {
    forall n :: n <= block ==> a(n) == b(n)
  }

  lemma {:induction false} ParsedConcat(a: seq<Log>, b: seq<Log>)
    ensures Parsed(a + b) == Parsed(a) + Parsed(b)
  {
    if b == [] {
      assert a + b == a;
    } else {
      var init := b[..|b| - 1];
      ParsedConcat(a, init);
      assert (a + b)[..|a + b| - 1] == a + init;
    }
  }

  /** Every log still parses to a commitment, so none is skipped. */
  ghost predicate AllParse(logs: seq<Log>) {
    forall i :: 0 <= i < |logs| ==> logs[i].Some? && logs[i].value != ""
  }

  /** Leaves stand at their own logs' positions exactly when no log is skipped. */
  lemma {:induction false} ParsedInPlace(logs: seq<Log>)
    ensures |Parsed(logs)| <= |logs|
    ensures |Parsed(logs)| == |logs| <==> AllParse(logs)
    ensures AllParse(logs) ==> forall i :: 0 <= i < |logs| ==> Parsed(logs)[i] == logs[i].value
  {
    if logs != [] {
      ParsedInPlace(logs[..|logs| - 1]);
    }
  }

  lemma EmptyHistory(chain: Chain, from: int, to: int)
    ensures from > to ==> History(chain, from, to) == []
  {
  }

  /** Parsing a flat query gives the history of its range. */
  lemma {:induction false} FlatQueryIsHistory(chain: Chain, from: int, to: int)
    ensures Parsed(RangeLogs(chain, from, to)) == History(chain, from, to)
    decreases 1 + to - from
  {
    if from <= to {
      FlatQueryIsHistory(chain, from, to - 1);
      ParsedConcat(RangeLogs(chain, from, to - 1), chain(to));
    }
  }

  /** The leaves stand where the pool put them exactly when no log of the range is skipped. */
  lemma NothingSkippedIff(chain: Chain, from: int, to: int)
    ensures |History(chain, from, to)| == |RangeLogs(chain, from, to)| <==> AllParse(RangeLogs(chain, from, to))
    ensures AllParse(RangeLogs(chain, from, to)) ==>
      forall i :: 0 <= i < |History(chain, from, to)| ==>
        History(chain, from, to)[i] == RangeLogs(chain, from, to)[i].value
  {
    FlatQueryIsHistory(chain, from, to);
    ParsedInPlace(RangeLogs(chain, from, to));
  }

  lemma {:induction false} HistorySplit(chain: Chain, from: int, mid: int, to: int)
    requires from - 1 <= mid <= to
    ensures History(chain, from, to) == History(chain, from, mid) + History(chain, mid + 1, to)
    decreases 1 + to - mid
  {
    if mid < to {
      HistorySplit(chain, from, mid, to - 1);
    }
  }

  lemma {:induction false} HistoryAgrees(a: Chain, b: Chain, from: int, to: int)
    requires AgreeThrough(a, b, to)
    ensures History(a, from, to) == History(b, from, to)
    decreases 1 + to - from
  {
    if from <= to {
      HistoryAgrees(a, b, from, to - 1);
    }
  }
}
