/** The activity feed: per-source truncation, one stable sort by block, and the newest rows. */
module RecentActivity {
  import opened Sequences

  const MAX_ITEMS: nat := 20

  datatype Log = Log(txHash: string, block: nat, index: nat, details: string)

  /** One row; `kind` is the position of the event source it came from. */
  datatype Item = Item(kind: nat, log: Log)

  /** What one event query came back with. */
  datatype Fetch = Rejected | Fetched(logs: seq<Log>)

  function LastFew<T>(s: seq<T>): seq<T> {
    if |s| <= MAX_ITEMS then s else s[|s| - MAX_ITEMS..]
  }

  function FirstFew<T>(s: seq<T>): seq<T> {
    if |s| <= MAX_ITEMS then s else s[..MAX_ITEMS]
  }

  function Rows(kind: nat, logs: seq<Log>): (rows: seq<Item>)
    ensures |rows| == |logs|
  {
    seq(|logs|, i requires 0 <= i < |logs| => Item(kind, logs[i]))
  }

  function Logs(f: Fetch): seq<Log> {
    if f.Fetched? then f.logs else []
  }

  /** The logs of one source that are gathered. */
  function Taken(f: Fetch, cut: bool): seq<Log> {
    if cut then LastFew(Logs(f)) else Logs(f)
  }

  /** All rows of all sources that answered, each source's logs cut by `LastFew` when `cut` is set. */
  function Gathered(results: seq<Fetch>, cut: bool): seq<Item> {
    if results == [] then []
    else
      var k := |results| - 1;
      Gathered(results[..k], cut) + Rows(k, Taken(results[k], cut))
  }

  // ---- The stable sort, newest block first ----

  function Insert(x: Item, s: seq<Item>): seq<Item> {
    if s == [] || x.log.block >= s[0].log.block then [x] + s
    else [s[0]] + Insert(x, s[1..])
  }

  function SortNewestFirst(s: seq<Item>): seq<Item> {
    if s == [] then [] else Insert(s[0], SortNewestFirst(s[1..]))
  }

  ghost predicate NewestFirst(s: seq<Item>) {
    forall i, j :: 0 <= i < j < |s| ==> s[i].log.block >= s[j].log.block
  }

  lemma {:induction false} InsertPermutes(x: Item, s: seq<Item>)
    ensures multiset(Insert(x, s)) == multiset(s) + multiset{x}
  {
    if s != [] {
      assert s == [s[0]] + s[1..];
      if x.log.block < s[0].log.block {
        InsertPermutes(x, s[1..]);
      }
    }
  }

  lemma {:induction false} InsertKeepsOrder(x: Item, s: seq<Item>)
    requires NewestFirst(s)
    ensures NewestFirst(Insert(x, s))
    ensures forall top :: top >= x.log.block && (s != [] ==> top >= s[0].log.block) ==> AllAtMost(Insert(x, s), top)
  {
    if s != [] && x.log.block < s[0].log.block {
      InsertKeepsOrder(x, s[1..]);
      assert AllAtMost(Insert(x, s[1..]), s[0].log.block);
      HeadOnTop(s[0], Insert(x, s[1..]));
    } else {
      assert s != [] ==> AllAtMost(s, s[0].log.block);
      HeadOnTop(x, s);
    }
  }

  ghost predicate AllAtMost(s: seq<Item>, top: nat) {
    forall i :: 0 <= i < |s| ==> s[i].log.block <= top
  }

  lemma HeadOnTop(x: Item, s: seq<Item>)
    requires NewestFirst(s) && AllAtMost(s, x.log.block)
    ensures NewestFirst([x] + s)
    ensures forall top :: top >= x.log.block ==> AllAtMost([x] + s, top)
  {
  }

  lemma {:induction false} SortSorts(s: seq<Item>)
    ensures NewestFirst(SortNewestFirst(s))
    ensures multiset(SortNewestFirst(s)) == multiset(s)
  {
    if s != [] {
      hide Insert, NewestFirst;
      SortSorts(s[1..]);
      InsertKeepsOrder(s[0], SortNewestFirst(s[1..]));
      InsertPermutes(s[0], SortNewestFirst(s[1..]));
      assert s == [s[0]] + s[1..];
    }
  }

  lemma SortLength(s: seq<Item>)
    ensures |SortNewestFirst(s)| == |s|
  {
    SortSorts(s);
    hide SortNewestFirst;
    assert |SortNewestFirst(s)| == |multiset(SortNewestFirst(s))| == |multiset(s)|;
  }

  /** Rows of one block keep their order: the sort is stable. */
  lemma {:induction false} SortKeepsTies(s: seq<Item>, block: nat)
    requires forall i :: 0 <= i < |s| ==> s[i].log.block == block
    ensures SortNewestFirst(s) == s
  {
    if s != [] {
      SortKeepsTies(s[1..], block);
    }
  }

  // ---- Counting rows at or above a block ----

  function CountFrom(s: seq<Item>, block: nat): nat {
    if s == [] then 0
    else CountFrom(s[..|s| - 1], block) + if s[|s| - 1].log.block >= block then 1 else 0
  }

  lemma {:induction false} CountConcat(a: seq<Item>, b: seq<Item>, block: nat)
    ensures CountFrom(a + b, block) == CountFrom(a, block) + CountFrom(b, block)
  {
    if b == [] {
      assert a + b == a;
    } else {
      assert (a + b)[..|a + b| - 1] == a + b[..|b| - 1];
      CountConcat(a, b[..|b| - 1], block);
    }
  }

  lemma {:induction false} CountInsert(x: Item, s: seq<Item>, block: nat)
    ensures CountFrom(Insert(x, s), block) == CountFrom(s, block) + CountFrom([x], block)
  {
    if s == [] || x.log.block >= s[0].log.block {
      CountConcat([x], s, block);
    } else {
      CountInsert(x, s[1..], block);
      CountConcat([s[0]], Insert(x, s[1..]), block);
      CountConcat([s[0]], s[1..], block);
      assert s == [s[0]] + s[1..];
    }
  }

  lemma {:induction false} CountSorted(s: seq<Item>, block: nat)
    ensures CountFrom(SortNewestFirst(s), block) == CountFrom(s, block)
  {
    if s != [] {
      CountSorted(s[1..], block);
      CountInsert(s[0], SortNewestFirst(s[1..]), block);
      CountConcat([s[0]], s[1..], block);
      assert s == [s[0]] + s[1..];
    }
  }

  lemma {:induction false} CountAll(s: seq<Item>)
    ensures CountFrom(s, 0) == |s|
  {
    if s != [] {
      CountAll(s[..|s| - 1]);
    }
  }

  /** In newest-first order, row `k` is at or above a block exactly when more than `k` rows are. */
  lemma {:induction false} RankByCount(s: seq<Item>, block: nat, k: nat)
    requires NewestFirst(s) && k < |s|
    ensures s[k].log.block >= block <==> CountFrom(s, block) > k
    ensures CountFrom(s, block) <= |s|
  {
    var init := s[..|s| - 1];
    if k < |init| {
      RankByCount(init, block, k);
      assert init[k] == s[k];
    } else if init != [] {
      RankByCount(init, block, |init| - 1);
    }
  }

  // ---- Truncation ----

  ghost predicate Ascending(logs: seq<Log>) {
    forall i, j :: 0 <= i < j < |logs| ==> logs[i].block <= logs[j].block
  }

  /** Event queries answer in block order. */
  ghost predicate InBlockOrder(results: seq<Fetch>) {
    forall k :: 0 <= k < |results| ==> Ascending(Logs(results[k]))
  }

  lemma OldRows(kind: nat, logs: seq<Log>, block: nat)
    requires logs != [] && Ascending(logs) && logs[|logs| - 1].block < block
    ensures CountFrom(Rows(kind, logs), block) == 0
  {
    NoneAbove(Rows(kind, logs), block);
  }

  lemma CountRowsLast(kind: nat, logs: seq<Log>, block: nat)
    requires logs != []
    ensures CountFrom(Rows(kind, logs), block) ==
            CountFrom(Rows(kind, logs[..|logs| - 1]), block) + if logs[|logs| - 1].block >= block then 1 else 0
  {
    var rows := Rows(kind, logs);
    assert rows[..|rows| - 1] == Rows(kind, logs[..|logs| - 1]);
  }

  lemma {:induction false} CountTail(kind: nat, logs: seq<Log>, m: nat, block: nat)
    requires Ascending(logs) && m <= |logs|
    ensures CountFrom(Rows(kind, logs[|logs| - m..]), block) == Least(m, CountFrom(Rows(kind, logs), block))
    ensures CountFrom(Rows(kind, logs), block) <= |logs|
  {
    CountBelow(kind, logs, block);
    if m > 0 {
      hide CountFrom, Rows;
      var init, last, tail := logs[..|logs| - 1], logs[|logs| - 1], logs[|logs| - m..];
      CountTail(kind, init, m - 1, block);
      CountRowsLast(kind, logs, block);
      CountRowsLast(kind, tail, block);
      assert tail[..|tail| - 1] == init[|init| - (m - 1)..];
      if last.block < block {
        OldRows(kind, logs, block);
      }
    } else {
      assert logs[|logs| - m..] == [];
    }
  }

  lemma {:induction false} CountBelow(kind: nat, logs: seq<Log>, block: nat)
    ensures CountFrom(Rows(kind, logs), block) <= |logs|
  {
    if logs != [] {
      var rows := Rows(kind, logs);
      assert rows[..|rows| - 1] == Rows(kind, logs[..|logs| - 1]);
      CountBelow(kind, logs[..|logs| - 1], block);
    }
  }

  lemma {:induction false} NoneAbove(s: seq<Item>, block: nat)
    requires forall i :: 0 <= i < |s| ==> s[i].log.block < block
    ensures CountFrom(s, block) == 0
  {
    if s != [] {
      NoneAbove(s[..|s| - 1], block);
    }
  }

  lemma CountLastFew(kind: nat, logs: seq<Log>, block: nat)
    requires Ascending(logs)
    ensures CountFrom(Rows(kind, LastFew(logs)), block) == Least(MAX_ITEMS, CountFrom(Rows(kind, logs), block))
  {
    hide CountFrom, Rows;
    if |logs| > MAX_ITEMS {
      CountTail(kind, logs, MAX_ITEMS, block);
    } else {
      CountBelow(kind, logs, block);
    }
  }

  lemma GatherStep(results: seq<Fetch>, block: nat)
    requires results != []
    ensures var k := |results| - 1;
      && CountFrom(Gathered(results, true), block) ==
         CountFrom(Gathered(results[..k], true), block) + CountFrom(Rows(k, LastFew(Logs(results[k]))), block)
      && CountFrom(Gathered(results, false), block) ==
         CountFrom(Gathered(results[..k], false), block) + CountFrom(Rows(k, Logs(results[k])), block)
  {
    var k := |results| - 1;
    hide CountFrom;
    CountConcat(Gathered(results[..k], true), Rows(k, LastFew(Logs(results[k]))), block);
    CountConcat(Gathered(results[..k], false), Rows(k, Logs(results[k])), block);
  }

  /** Cutting every source to its last few rows changes no count that the feed can show. */
  lemma {:induction false} CountAfterCut(results: seq<Fetch>, block: nat)
    requires InBlockOrder(results)
    ensures Least(MAX_ITEMS, CountFrom(Gathered(results, true), block)) ==
            Least(MAX_ITEMS, CountFrom(Gathered(results, false), block))
  {
    if results != [] {
      hide CountFrom, Gathered, Rows;
      var k := |results| - 1;
      CountAfterCut(results[..k], block);
      GatherStep(results, block);
      CountLastFew(k, Logs(results[k]), block);
    }
  }

  function Blocks(items: seq<Item>): (blocks: seq<nat>)
    ensures |blocks| == |items|
  {
    seq(|items|, i requires 0 <= i < |items| => items[i].log.block)
  }

  /** The newest rows of everything the sources returned, had nothing been cut. */
  function Newest(results: seq<Fetch>): seq<Item> {
    FirstFew(SortNewestFirst(Gathered(results, false)))
  }

  function NewestOfCut(results: seq<Fetch>): seq<Item> {
    FirstFew(SortNewestFirst(Gathered(results, true)))
  }

  lemma CutCounts(results: seq<Fetch>, block: nat, k: nat)
    requires InBlockOrder(results) && k < MAX_ITEMS
    ensures CountFrom(SortNewestFirst(Gathered(results, true)), block) > k
      <==> CountFrom(SortNewestFirst(Gathered(results, false)), block) > k
  {
    CountAfterCut(results, block);
    CountSorted(Gathered(results, true), block);
    CountSorted(Gathered(results, false), block);
  }

  lemma SameLength(results: seq<Fetch>)
    requires InBlockOrder(results)
    ensures |NewestOfCut(results)| == |Newest(results)|
  {
    var cut, full := Gathered(results, true), Gathered(results, false);
    CountAfterCut(results, 0);
    CountAll(cut);
    CountAll(full);
    SortLength(cut);
    SortLength(full);
  }

  /** Cutting first loses no block from the feed, for any number of sources and logs. */
  lemma CutLosesNoBlock(results: seq<Fetch>)
    requires InBlockOrder(results)
    ensures Blocks(NewestOfCut(results)) == Blocks(Newest(results))
  {
    var cut, full := SortNewestFirst(Gathered(results, true)), SortNewestFirst(Gathered(results, false));
    SameLength(results);
    SortSorts(Gathered(results, true));
    SortSorts(Gathered(results, false));
    hide Gathered, SortNewestFirst, CountFrom, NewestFirst;
    forall k | 0 <= k < |Newest(results)| ensures cut[k].log.block == full[k].log.block {
      CutCounts(results, cut[k].log.block, k);
      CutCounts(results, full[k].log.block, k);
      RankByCount(cut, cut[k].log.block, k);
      RankByCount(full, cut[k].log.block, k);
      RankByCount(cut, full[k].log.block, k);
      RankByCount(full, full[k].log.block, k);
    }
  }

  ghost predicate DistinctBlocks(items: seq<Item>) {
    forall a, b :: a in items && b in items && a.log.block == b.log.block ==> a == b
  }

  lemma {:induction false} CutIsPart(results: seq<Fetch>, x: Item)
    requires x in Gathered(results, true)
    ensures x in Gathered(results, false)
  {
    var k := |results| - 1;
    var logs := Logs(results[k]);
    if x in Gathered(results[..k], true) {
      CutIsPart(results[..k], x);
    } else {
      var i :| 0 <= i < |LastFew(logs)| && x == Rows(k, LastFew(logs))[i];
      var j := i + |logs| - |LastFew(logs)|;
      assert x == Rows(k, logs)[j];
    }
  }

  /** When no two rows share a block, the feed shows the very same rows. */
  lemma CutLosesNoRow(results: seq<Fetch>)
    requires InBlockOrder(results) && DistinctBlocks(Gathered(results, false))
    ensures NewestOfCut(results) == Newest(results)
  {
    var cut, full := NewestOfCut(results), Newest(results);
    CutLosesNoBlock(results);
    SortSorts(Gathered(results, true));
    SortSorts(Gathered(results, false));
    hide Gathered, SortNewestFirst;
    forall k | 0 <= k < |full| ensures cut[k] == full[k] {
      assert Blocks(cut)[k] == Blocks(full)[k];
      assert cut[k] in multiset(SortNewestFirst(Gathered(results, true)));
      assert full[k] in multiset(SortNewestFirst(Gathered(results, false)));
      CutIsPart(results, cut[k]);
    }
  }

  /**
   With a shared block the rows can differ: a source with more logs in one block than the feed holds
   is cut to its last ones, while the stable sort alone would have kept its first ones.
   */
  lemma SharedBlockShowsOtherRows(logs: seq<Log>, block: nat)
    requires |logs| > MAX_ITEMS && forall i :: 0 <= i < |logs| ==> logs[i].block == block
    ensures NewestOfCut([Fetched(logs)]) == Rows(0, logs[|logs| - MAX_ITEMS..])
    ensures Newest([Fetched(logs)]) == Rows(0, logs[..MAX_ITEMS])
  {
    var results := [Fetched(logs)];
    assert Gathered(results[..0], true) == [] && Gathered(results[..0], false) == [];
    assert Gathered(results, true) == Rows(0, LastFew(logs));
    assert Gathered(results, false) == Rows(0, logs);
    SortKeepsTies(Gathered(results, true), block);
    SortKeepsTies(Gathered(results, false), block);
  }

  // ---- Which rows the cut feed keeps ----

  /** The rows of `s` that occur in `rows`, in order. */
  function Only(s: seq<Item>, rows: seq<Item>): (part: seq<Item>)
    ensures forall x :: x in part ==> x in s && x in rows
  {
    if s == [] then []
    else (if s[0] in rows then [s[0]] else []) + Only(s[1..], rows)
  }

  lemma {:induction false} OnlyConcat(a: seq<Item>, b: seq<Item>, rows: seq<Item>)
    ensures Only(a + b, rows) == Only(a, rows) + Only(b, rows)
  {
    if a == [] {
      assert a + b == b;
    } else {
      assert (a + b)[1..] == a[1..] + b;
      OnlyConcat(a[1..], b, rows);
    }
  }

  lemma {:induction false} OnlyAll(s: seq<Item>, rows: seq<Item>)
    requires forall x :: x in s ==> x in rows
    ensures Only(s, rows) == s
  {
    if s != [] {
      OnlyAll(s[1..], rows);
    }
  }

  lemma {:induction false} OnlyNone(s: seq<Item>, rows: seq<Item>)
    requires forall x :: x in s ==> x !in rows
    ensures Only(s, rows) == []
  {
    if s != [] {
      OnlyNone(s[1..], rows);
    }
  }

  lemma OnlyCons(x: Item, s: seq<Item>, rows: seq<Item>)
    ensures Only([x] + s, rows) == (if x in rows then [x] else []) + Only(s, rows)
  {
    assert ([x] + s)[1..] == s;
  }

  lemma {:induction false} OnlyInsert(x: Item, s: seq<Item>, rows: seq<Item>)
    requires NewestFirst(s)
    ensures Only(Insert(x, s), rows) == if x in rows then Insert(x, Only(s, rows)) else Only(s, rows)
  {
    hide Only;
    OnlyCons(x, s, rows);
    if s != [] && x.log.block < s[0].log.block {
      var rest := s[1..];
      assert s == [s[0]] + rest;
      OnlyInsert(x, rest, rows);
      OnlyCons(s[0], rest, rows);
      OnlyCons(s[0], Insert(x, rest), rows);
      if s[0] in rows {
        assert Only(s, rows) == [s[0]] + Only(rest, rows);
        assert Only(s, rows)[1..] == Only(rest, rows);
      } else {
        assert Only(s, rows) == Only(rest, rows);
        assert Only([s[0]] + Insert(x, rest), rows) == Only(Insert(x, rest), rows);
      }
    } else if Only(s, rows) != [] {
      assert Only(s, rows)[0] in s;
    }
  }

  /** A stable sort commutes with leaving rows out. */
  lemma {:induction false} SortOfPart(s: seq<Item>, rows: seq<Item>)
    ensures SortNewestFirst(Only(s, rows)) == Only(SortNewestFirst(s), rows)
  {
    if s == [] {
      assert Only(s, rows) == [];
    } else {
      hide Insert, NewestFirst, Only;
      SortOfPart(s[1..], rows);
      SortSorts(s[1..]);
      OnlyInsert(s[0], SortNewestFirst(s[1..]), rows);
      assert s == [s[0]] + s[1..];
      OnlyCons(s[0], s[1..], rows);
      if s[0] in rows {
        assert Only(s, rows) == [s[0]] + Only(s[1..], rows);
        assert Only(s, rows)[1..] == Only(s[1..], rows);
      } else {
        assert Only(s, rows) == Only(s[1..], rows);
      }
    }
  }

  /** Leaving rows out of a sort changes its first rows exactly when it leaves out one of them. */
  lemma FirstFewOfPart(s: seq<Item>, rows: seq<Item>)
    ensures FirstFew(SortNewestFirst(Only(s, rows))) == FirstFew(SortNewestFirst(s))
      <==> forall x :: x in FirstFew(SortNewestFirst(s)) ==> x in rows
  {
    var sorted := SortNewestFirst(s);
    var first := FirstFew(sorted);
    var rest := sorted[|first|..];
    SortOfPart(s, rows);
    hide SortNewestFirst, Only;
    assert sorted == first + rest;
    OnlyConcat(first, rest, rows);
    if forall x :: x in first ==> x in rows {
      OnlyAll(first, rows);
      if rest == [] {
        OnlyAll(rest, rows);
      }
    } else {
      var x :| x in first && x !in rows;
      assert forall y :: y in FirstFew(Only(sorted, rows)) ==> y in Only(sorted, rows);
    }
  }

  /** No source returns the same log twice. */
  ghost predicate DistinctLogs(results: seq<Fetch>) {
    forall k :: 0 <= k < |results| ==> Distinct(Logs(results[k]))
  }

  function Dropped(logs: seq<Log>): (d: nat)
    ensures d <= |logs|
  {
    |logs| - |LastFew(logs)|
  }

  lemma {:induction false} GatheredKinds(results: seq<Fetch>, cut: bool, x: Item)
    ensures x in Gathered(results, cut) <==> x.kind < |results| && x.log in Taken(results[x.kind], cut)
  {
    if results != [] {
      hide LastFew, Rows;
      var k := |results| - 1;
      GatheredKinds(results[..k], cut, x);
      RowsOf(k, Taken(results[k], cut), x);
      assert x in Gathered(results, cut) <==>
             x in Gathered(results[..k], cut) || x in Rows(k, Taken(results[k], cut));
    }
  }

  lemma RowsOf(kind: nat, logs: seq<Log>, x: Item)
    ensures x in Rows(kind, logs) <==> x.kind == kind && x.log in logs
  {
    if x.kind == kind && x.log in logs {
      var i :| 0 <= i < |logs| && x.log == logs[i];
      assert Rows(kind, logs)[i] == x;
    }
  }

  lemma RowsConcat(kind: nat, a: seq<Log>, b: seq<Log>)
    ensures Rows(kind, a + b) == Rows(kind, a) + Rows(kind, b)
  {
  }

  lemma CutSplits(logs: seq<Log>)
    ensures logs == logs[..Dropped(logs)] + LastFew(logs)
  {
  }

  lemma KeptRowsStay(results: seq<Fetch>, k: nat)
    requires k < |results|
    ensures var rows := Rows(k, LastFew(Logs(results[k])));
      Only(rows, Gathered(results, true)) == rows
  {
    hide Gathered, Only, Rows, LastFew;
    var kept := LastFew(Logs(results[k]));
    forall x | x in Rows(k, kept) ensures x in Gathered(results, true) {
      RowsOf(k, kept, x);
      GatheredKinds(results, true, x);
    }
    OnlyAll(Rows(k, kept), Gathered(results, true));
  }

  lemma DroppedRowsGo(results: seq<Fetch>, k: nat)
    requires k < |results| && Distinct(Logs(results[k]))
    ensures var logs := Logs(results[k]);
      Only(Rows(k, logs[..Dropped(logs)]), Gathered(results, true)) == []
  {
    hide Gathered, Only, Rows, LastFew, Distinct;
    var logs := Logs(results[k]);
    var gone := logs[..Dropped(logs)];
    forall x | x in Rows(k, gone) ensures x !in Gathered(results, true) {
      RowsOf(k, gone, x);
      GatheredKinds(results, true, x);
      DroppedIsGone(logs, x.log);
    }
    OnlyNone(Rows(k, gone), Gathered(results, true));
  }

  /** Of distinct logs, cutting leaves exactly the rows that the cut sources hold. */
  lemma CutSource(results: seq<Fetch>, k: nat)
    requires k < |results| && Distinct(Logs(results[k]))
    ensures Only(Rows(k, Logs(results[k])), Gathered(results, true)) == Rows(k, LastFew(Logs(results[k])))
  {
    hide Gathered, Only, Rows, LastFew, Dropped, Distinct;
    var logs := Logs(results[k]);
    var gone, kept := logs[..Dropped(logs)], LastFew(logs);
    CutSplits(logs);
    RowsConcat(k, gone, kept);
    assert Rows(k, logs) == Rows(k, gone) + Rows(k, kept);
    OnlyConcat(Rows(k, gone), Rows(k, kept), Gathered(results, true));
    DroppedRowsGo(results, k);
    KeptRowsStay(results, k);
  }

  lemma DroppedIsGone(logs: seq<Log>, log: Log)
    requires Distinct(logs) && log in logs[..Dropped(logs)]
    ensures log !in LastFew(logs)
  {
    var i :| 0 <= i < Dropped(logs) && log == logs[i];
    forall j | 0 <= j < |LastFew(logs)| ensures LastFew(logs)[j] != log {
      assert LastFew(logs)[j] == logs[Dropped(logs) + j];
    }
  }

  lemma {:induction false} CutIsOnly(results: seq<Fetch>, m: nat)
    requires m <= |results| && DistinctLogs(results)
    ensures Gathered(results[..m], true) == Only(Gathered(results[..m], false), Gathered(results, true))
  {
    if m > 0 {
      hide Rows, Only, DistinctLogs;
      CutIsOnly(results, m - 1);
      CutSource(results, m - 1);
      assert results[..m][..m - 1] == results[..m - 1];
      OnlyConcat(Gathered(results[..m - 1], false), Rows(m - 1, Logs(results[m - 1])), Gathered(results, true));
    } else {
      assert results[..m] == [];
    }
  }

  lemma SameRowsIffNoneCut(results: seq<Fetch>)
    requires DistinctLogs(results)
    ensures NewestOfCut(results) == Newest(results)
      <==> forall x :: x in Newest(results) ==> x in Gathered(results, true)
  {
    hide Gathered, Only, SortNewestFirst, DistinctLogs;
    CutIsOnly(results, |results|);
    assert results[..|results|] == results;
    FirstFewOfPart(Gathered(results, false), Gathered(results, true));
  }

  // ---- Where a row stands in the sorted feed ----

  lemma CountCons(x: Item, s: seq<Item>, block: nat)
    ensures CountFrom([x] + s, block) == CountFrom(s, block) + if x.log.block >= block then 1 else 0
  {
    CountConcat([x], s, block);
    assert [x][..0] == [];
  }

  lemma {:induction false} InsertPosition(x: Item, s: seq<Item>)
    requires NewestFirst(s)
    ensures CountFrom(s, x.log.block + 1) <= |s|
    ensures |Insert(x, s)| == |s| + 1 && Insert(x, s)[CountFrom(s, x.log.block + 1)] == x
  {
    hide CountFrom;
    if s == [] || x.log.block >= s[0].log.block {
      NoneAbove(s, x.log.block + 1);
    } else {
      InsertPosition(x, s[1..]);
      CountCons(s[0], s[1..], x.log.block + 1);
      assert s == [s[0]] + s[1..];
    }
  }

  lemma {:induction false} InsertMoves(y: Item, s: seq<Item>, p: nat)
    requires NewestFirst(s) && p < |s|
    ensures |Insert(y, s)| == |s| + 1
    ensures Insert(y, s)[p + if y.log.block >= s[p].log.block then 1 else 0] == s[p]
  {
    if y.log.block < s[0].log.block {
      if p > 0 {
        InsertMoves(y, s[1..], p - 1);
      } else {
        hide CountFrom;
        InsertPosition(y, s[1..]);
      }
    }
  }

  /** Where `x` stands in the sort of `a`, `x` and `b`: after newer blocks and earlier rows of its own. */
  function Rank(a: seq<Item>, x: Item, b: seq<Item>): nat {
    CountFrom(a, x.log.block) + CountFrom(b, x.log.block + 1)
  }

  lemma {:induction false} Position(a: seq<Item>, x: Item, b: seq<Item>)
    ensures Rank(a, x, b) < |SortNewestFirst(a + [x] + b)|
    ensures SortNewestFirst(a + [x] + b)[Rank(a, x, b)] == x
  {
    hide NewestFirst, Insert, CountFrom;
    var s := a + [x] + b;
    SortSorts(s[1..]);
    if a == [] {
      assert s[1..] == b;
      InsertPosition(x, SortNewestFirst(b));
      CountSorted(b, x.log.block + 1);
      NoneAbove(a, x.log.block);
    } else {
      assert s[1..] == a[1..] + [x] + b;
      Position(a[1..], x, b);
      CountCons(a[0], a[1..], x.log.block);
      assert a == [a[0]] + a[1..];
      InsertMoves(a[0], SortNewestFirst(s[1..]), Rank(a[1..], x, b));
    }
  }

  lemma {:induction false} GatheredSplit(results: seq<Fetch>, k: nat) returns (tail: seq<Item>)
    requires k < |results|
    ensures Gathered(results, false) == Gathered(results[..k], false) + Rows(k, Logs(results[k])) + tail
  {
    var n := |results| - 1;
    if k == n {
      tail := [];
    } else {
      var before := GatheredSplit(results[..n], k);
      assert results[..n][..k] == results[..k];
      tail := before + Rows(n, Logs(results[n]));
    }
  }

  // ---- Exactly when cutting changes no row of the feed ----

  function CountAt(s: seq<Item>, block: nat): nat {
    if s == [] then 0
    else CountAt(s[..|s| - 1], block) + if s[|s| - 1].log.block == block then 1 else 0
  }

  lemma {:induction false} CountByBlock(s: seq<Item>, block: nat)
    ensures CountFrom(s, block) == CountFrom(s, block + 1) + CountAt(s, block)
  {
    if s != [] {
      CountByBlock(s[..|s| - 1], block);
    }
  }

  /** The rows in blocks above `block`, and those in `block` from a source before `k`. */
  function RowsAhead(results: seq<Fetch>, k: nat, block: nat): nat
    requires k < |results|
  {
    CountFrom(Gathered(results, false), block + 1) + CountAt(Gathered(results[..k], false), block)
  }

  /** If the cut of source `k` splits a block, a full feed comes before the rows of that block. */
  ghost predicate SplitIsHidden(results: seq<Fetch>, k: nat)
    requires k < |results|
  {
    var logs := Logs(results[k]);
    var d := Dropped(logs);
    d > 0 && logs[d - 1].block == logs[d].block ==> RowsAhead(results, k, logs[d].block) >= 20
  }

  /** Row `j` of source `k` among all rows: its place, and what puts it there. */
  lemma RowRank(results: seq<Fetch>, k: nat, j: nat) returns (a: seq<Item>, b: seq<Item>)
    requires k < |results| && j < |Logs(results[k])|
    ensures var logs := Logs(results[k]);
      && Gathered(results, false) == a + [Item(k, logs[j])] + b
      && Rank(a, Item(k, logs[j]), b) ==
         RowsAhead(results, k, logs[j].block)
         + CountFrom(Rows(k, logs[..j]), logs[j].block) - CountFrom(Rows(k, logs[..j]), logs[j].block + 1)
  {
    hide Gathered, CountFrom, CountAt;
    var logs := Logs(results[k]);
    var before, block := Gathered(results[..k], false), logs[j].block;
    var x := Item(k, logs[j]);
    var tail := GatheredSplit(results, k);
    var head, rest := Rows(k, logs[..j]), Rows(k, logs[j + 1..]);
    assert Rows(k, logs) == head + [x] + rest;
    a := before + head;
    b := rest + tail;
    assert Gathered(results, false) == a + [x] + b;
    CountConcat(before, head, block);
    CountConcat(before, head, block + 1);
    CountConcat(a + [x], b, block + 1);
    CountConcat(a, [x], block + 1);
    NoneAbove([x], block + 1);
    CountByBlock(before, block);
  }

  lemma {:induction false} AllAbove(s: seq<Item>, block: nat)
    requires forall i :: 0 <= i < |s| ==> s[i].log.block >= block
    ensures CountFrom(s, block) == |s|
  {
    if s != [] {
      AllAbove(s[..|s| - 1], block);
    }
  }

  lemma CountSource(results: seq<Fetch>, k: nat, block: nat)
    requires k < |results|
    ensures CountFrom(Gathered(results, false), block) >= CountFrom(Rows(k, Logs(results[k])), block)
  {
    hide Gathered, CountFrom, Rows;
    var before, rows := Gathered(results[..k], false), Rows(k, Logs(results[k]));
    var tail := GatheredSplit(results, k);
    CountConcat(before, rows, block);
    CountConcat(before + rows, tail, block);
  }

  /** The rows a cut keeps of a source are a feed's length. */
  lemma KeptRowsCount(kind: nat, logs: seq<Log>, block: nat)
    requires Ascending(logs) && Dropped(logs) > 0 && logs[Dropped(logs)].block >= block
    ensures CountFrom(Rows(kind, logs), block) >= MAX_ITEMS
  {
    hide CountFrom;
    AllAbove(Rows(kind, LastFew(logs)), block);
    CountLastFew(kind, logs, block);
  }

  /** Dropped rows that stand behind all kept rows of their source, or in a hidden block, are not shown. */
  lemma DroppedRowIsLate(results: seq<Fetch>, k: nat, j: nat) returns (a: seq<Item>, b: seq<Item>)
    requires k < |results| && Ascending(Logs(results[k])) && j < Dropped(Logs(results[k]))
    requires SplitIsHidden(results, k)
    ensures Gathered(results, false) == a + [Item(k, Logs(results[k])[j])] + b
    ensures Rank(a, Item(k, Logs(results[k])[j]), b) >= MAX_ITEMS
  {
    hide Gathered, CountFrom, CountAt, Rank, Rows;
    var logs := Logs(results[k]);
    var d, block := Dropped(logs), logs[j].block;
    a, b := RowRank(results, k, j);
    CountByBlock(Rows(k, logs[..j]), block);
    if logs[d].block > block {
      KeptRowsCount(k, logs, block + 1);
      CountSource(results, k, block + 1);
    } else {
      assert logs[d - 1].block == block;
    }
  }

  lemma FirstOfBlock(logs: seq<Log>, m: nat) returns (f: nat)
    requires Ascending(logs) && m < |logs|
    ensures f <= m && logs[f].block == logs[m].block
    ensures forall i :: 0 <= i < f ==> logs[i].block < logs[m].block
  {
    f := m;
    while f > 0 && logs[f - 1].block == logs[m].block
      invariant f <= m && logs[f].block == logs[m].block
    {
      f := f - 1;
    }
  }

  /** A split block that is not hidden shows its first row, which the cut drops. */
  lemma FirstOfSplitIsShown(results: seq<Fetch>, k: nat) returns (x: Item)
    requires InBlockOrder(results) && DistinctLogs(results)
    requires k < |results| && !SplitIsHidden(results, k)
    ensures x in Newest(results) && x !in Gathered(results, true)
  {
    var logs := Logs(results[k]);
    var d := Dropped(logs);
    assert Ascending(logs) && Distinct(logs);
    var f := FirstOfBlock(logs, d - 1);
    x := Item(k, logs[f]);
    var a, b := RowRank(results, k, f);
    hide Gathered, CountFrom, CountAt, InBlockOrder, DistinctLogs, SortNewestFirst;
    NoneAbove(Rows(k, logs[..f]), x.log.block);
    NoneAbove(Rows(k, logs[..f]), x.log.block + 1);
    Position(a, x, b);
    assert x == Newest(results)[Rank(a, x, b)];
    assert x.log == logs[..d][f];
    DroppedIsGone(logs, x.log);
    GatheredKinds(results, true, x);
  }

  lemma {:induction false} GatheredDistinct(results: seq<Fetch>)
    requires DistinctLogs(results)
    ensures Distinct(Gathered(results, false))
  {
    if results != [] {
      var k := |results| - 1;
      var before, rows := Gathered(results[..k], false), Rows(k, Logs(results[k]));
      GatheredDistinct(results[..k]);
      assert Distinct(rows);
      forall i | 0 <= i < |before| ensures before[i].kind < k {
        GatheredKinds(results[..k], false, before[i]);
      }
    }
  }

  lemma LateRowIsNotShown(a: seq<Item>, x: Item, b: seq<Item>)
    requires Distinct(a + [x] + b) && Rank(a, x, b) >= MAX_ITEMS
    ensures x !in FirstFew(SortNewestFirst(a + [x] + b))
  {
    hide SortNewestFirst, Rank;
    var sorted := SortNewestFirst(a + [x] + b);
    SortSorts(a + [x] + b);
    SameElementsStayDistinct(a + [x] + b, sorted);
    Position(a, x, b);
    assert sorted[Rank(a, x, b)] == x;
  }

  lemma ShownRowOrigin(results: seq<Fetch>, x: Item) returns (j: nat)
    requires x in Newest(results)
    ensures x.kind < |results| && j < |Logs(results[x.kind])| && Logs(results[x.kind])[j] == x.log
  {
    var full := Gathered(results, false);
    SortSorts(full);
    assert x in multiset(SortNewestFirst(full));
    hide Gathered, SortNewestFirst;
    GatheredKinds(results, false, x);
    j :| 0 <= j < |Logs(results[x.kind])| && Logs(results[x.kind])[j] == x.log;
  }

  lemma LaterRowIsKept(results: seq<Fetch>, k: nat, j: nat)
    requires k < |results| && Dropped(Logs(results[k])) <= j < |Logs(results[k])|
    ensures Item(k, Logs(results[k])[j]) in Gathered(results, true)
  {
    hide Gathered;
    var logs := Logs(results[k]);
    assert logs[j] == LastFew(logs)[j - Dropped(logs)];
    GatheredKinds(results, true, Item(k, logs[j]));
  }

  lemma ShownRowIsKept(results: seq<Fetch>, x: Item)
    requires InBlockOrder(results) && DistinctLogs(results)
    requires forall k :: 0 <= k < |results| ==> SplitIsHidden(results, k)
    requires x in Newest(results)
    ensures x in Gathered(results, true)
  {
    var j := ShownRowOrigin(results, x);
    assert Ascending(Logs(results[x.kind]));
    assert x == Item(x.kind, Logs(results[x.kind])[j]);
    hide Gathered, SortNewestFirst, SplitIsHidden, Rank, FirstFew, Dropped;
    hide DistinctLogs, InBlockOrder, Ascending, Distinct;
    if j < Dropped(Logs(results[x.kind])) {
      var a, b := DroppedRowIsLate(results, x.kind, j);
      GatheredDistinct(results);
      LateRowIsNotShown(a, x, b);
      assert false;
    } else {
      LaterRowIsKept(results, x.kind, j);
    }
  }

  /**
   Exactly when truncating first shows the same rows: whenever the cut of a source splits a block,
   at least a feed's length of rows is newer than the rows of that block or stands before them.
   */
  lemma CutShowsNewestRows(results: seq<Fetch>)
    requires InBlockOrder(results) && DistinctLogs(results)
    ensures NewestOfCut(results) == Newest(results)
      <==> forall k :: 0 <= k < |results| ==> SplitIsHidden(results, k)
  {
    hide InBlockOrder, DistinctLogs, SplitIsHidden, Newest, NewestOfCut, Gathered;
    SameRowsIffNoneCut(results);
    if k :| 0 <= k < |results| && !SplitIsHidden(results, k) {
      var x := FirstOfSplitIsShown(results, k);
    } else {
      forall x | x in Newest(results) ensures x in Gathered(results, true) {
        ShownRowIsKept(results, x);
      }
    }
  }

  /** Append one source's newest rows; a rejected query adds none. */
  method Collect(before: seq<Item>, res: Fetch, kind: nat) returns (items: seq<Item>)
    ensures items == before + Rows(kind, LastFew(Logs(res)))
  {
    items := before;
    if res.Rejected? {
      return;
    }
    var kept := LastFew(res.logs);
    for i := 0 to |kept|
      invariant items == before + Rows(kind, kept[..i])
    {
      items := items + [Item(kind, kept[i])];
      assert Rows(kind, kept[..i + 1]) == Rows(kind, kept[..i]) + [Item(kind, kept[i])];
    }
    assert kept[..|kept|] == kept;
  }

  /** The feed as computed: collect a cut of each source, sort, keep the first rows. */
  method CollectFeed(results: seq<Fetch>) returns (top: seq<Item>)
    ensures top == NewestOfCut(results)
    ensures InBlockOrder(results) ==> Blocks(top) == Blocks(Newest(results))
    ensures InBlockOrder(results) && DistinctBlocks(Gathered(results, false)) ==> top == Newest(results)
    ensures InBlockOrder(results) && DistinctLogs(results) ==>
      (top == Newest(results) <==> forall k :: 0 <= k < |results| ==> SplitIsHidden(results, k))
  {
    hide InBlockOrder, DistinctBlocks, DistinctLogs, SplitIsHidden, SortNewestFirst, Blocks, Rows;
    var items := [];
    for k := 0 to |results|
      invariant items == Gathered(results[..k], true)
    {
      assert results[..k + 1][..k] == results[..k];
      items := Collect(items, results[k], k);
    }
    assert results[..|results|] == results;
    var sorted := SortNewestFirst(items);
    top := FirstFew(sorted);
    if InBlockOrder(results) {
      CutLosesNoBlock(results);
      if DistinctBlocks(Gathered(results, false)) {
        CutLosesNoRow(results);
      }
      if DistinctLogs(results) {
        CutShowsNewestRows(results);
      }
    }
  }
}
