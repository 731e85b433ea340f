/**
 The per-relayer order books: one pass groups all orders by relayer and token pair, and every
 (relayer, pair option) lookup must give what a scan of all orders would.
 */
module RelayerBook {
  import opened Sequences

  datatype Order = Order(relayer: string, sellToken: string, buyToken: string,
                         pubKeyAx: string, sellAmount: string, buyAmount: string)

  datatype Entry = Entry(maker: string, sellAmount: string, buyAmount: string)

  datatype Book = Book(pair: string, sells: seq<Entry>, buys: seq<Entry>)

  datatype Token = Token(address: string, isNative: bool)

  function LowerChar(c: char): (d: char)
    ensures !('A' <= d <= 'Z')
    ensures d == c || ('A' <= c <= 'Z' && d as int == c as int + 32)
  {
    if 'A' <= c <= 'Z' then c - 'A' + 'a' else c
  }

  function Lower(s: string): (t: string)
    ensures |t| == |s|
  {
    seq(|s|, i requires 0 <= i < |s| => LowerChar(s[i]))
  }

  function PairKey(a: string, b: string): string {
    a + "-" + b
  }

  predicate DashFree(s: string) {
    '-' !in s
  }

  /** Up to the first dash. */
  function BeforeDash(s: string): string {
    if s == [] || s[0] == '-' then [] else [s[0]] + BeforeDash(s[1..])
  }

  /** From after the first dash; the source would see `undefined` where there is none. */
  function AfterDash(s: string): string {
    if s == [] then [] else if s[0] == '-' then s[1..] else AfterDash(s[1..])
  }

  /** The two tokens a pair option's value stands for. */
  function SplitPair(value: string): (string, string) {
    (Lower(BeforeDash(value)), Lower(BeforeDash(AfterDash(value))))
  }

  lemma {:induction false} BeforeDashOf(a: string, rest: string)
    requires DashFree(a)
    ensures BeforeDash(a + "-" + rest) == a && AfterDash(a + "-" + rest) == rest
  {
    if a == [] {
      assert (a + "-" + rest)[1..] == rest;
    } else {
      BeforeDashOf(a[1..], rest);
      assert (a + "-" + rest)[1..] == a[1..] + "-" + rest;
    }
  }

  lemma {:induction false} BeforeDashWhole(a: string)
    requires DashFree(a)
    ensures BeforeDash(a) == a
  {
    if a != [] {
      BeforeDashWhole(a[1..]);
    }
  }

  lemma SplitPairKey(a: string, b: string)
    requires DashFree(a) && DashFree(b) && Lower(a) == a && Lower(b) == b
    ensures SplitPair(PairKey(a, b)) == (a, b)
  {
    BeforeDashOf(a, b);
    BeforeDashWhole(b);
  }

  /** A key of two dash-free tokens is no other pair's key, whatever strings the other pair holds. */
  lemma PairKeyDetermines(a: string, b: string, s: string, t: string)
    requires DashFree(a) && DashFree(b)
    ensures PairKey(s, t) == PairKey(a, b) <==> s == a && t == b
  {
    var k := PairKey(a, b);
    assert forall i :: 0 <= i < |a| ==> k[i] != '-';
    assert forall i :: |a| < i < |k| ==> k[i] == b[i - |a| - 1] && b[i - |a| - 1] in b;
    if PairKey(s, t) == k {
      assert k[|s|] == '-';
      assert |s| == |a|;
      assert s == k[..|s|] && a == k[..|s|];
      assert t == k[|s| + 1..] && b == k[|s| + 1..];
    }
  }

  // ---- Grouping ----

  function ToEntry(o: Order): Entry {
    Entry(o.pubKeyAx, o.sellAmount, o.buyAmount)
  }

  function OrderKey(o: Order): string {
    PairKey(Lower(o.sellToken), Lower(o.buyToken))
  }

  /** The scan the index replaces: one relayer's orders selling `sell` for `buy`, in feed order. */
  function Scan(orders: seq<Order>, relayer: string, sell: string, buy: string): seq<Entry> {
    if orders == [] then []
    else
      var o := orders[|orders| - 1];
      Scan(orders[..|orders| - 1], relayer, sell, buy)
      + if Lower(o.relayer) == relayer && Lower(o.sellToken) == sell && Lower(o.buyToken) == buy
        then [ToEntry(o)] else []
  }

  function Keyed(orders: seq<Order>, relayer: string, key: string): seq<Entry> {
    if orders == [] then []
    else
      var o := orders[|orders| - 1];
      Keyed(orders[..|orders| - 1], relayer, key)
      + if Lower(o.relayer) == relayer && OrderKey(o) == key then [ToEntry(o)] else []
  }

  lemma {:induction false} KeyedIsScan(orders: seq<Order>, relayer: string, a: string, b: string)
    requires DashFree(a) && DashFree(b)
    ensures Keyed(orders, relayer, PairKey(a, b)) == Scan(orders, relayer, a, b)
  {
    if orders != [] {
      var o := orders[|orders| - 1];
      KeyedIsScan(orders[..|orders| - 1], relayer, a, b);
      PairKeyDetermines(a, b, Lower(o.sellToken), Lower(o.buyToken));
    }
  }

  /** The positions of the orders a scan takes up. */
  ghost function ScannedAt(orders: seq<Order>, relayer: string, sell: string, buy: string): seq<nat> {
    if orders == [] then []
    else
      var o := orders[|orders| - 1];
      ScannedAt(orders[..|orders| - 1], relayer, sell, buy)
      + if Lower(o.relayer) == relayer && Lower(o.sellToken) == sell && Lower(o.buyToken) == buy
        then [|orders| - 1] else []
  }

  /** An entry shows its order's maker and amounts as they are. */
  predicate Shows(e: Entry, o: Order) {
    e.maker == o.pubKeyAx && e.sellAmount == o.sellAmount && e.buyAmount == o.buyAmount
  }

  predicate Trades(o: Order, relayer: string, sell: string, buy: string) {
    Lower(o.relayer) == relayer && Lower(o.sellToken) == sell && Lower(o.buyToken) == buy
  }

  function TradedIn(orders: seq<Order>, relayer: string, sell: string, buy: string): nat -> bool {
    (i: nat) => i < |orders| && Trades(orders[i], relayer, sell, buy)
  }

  /** The entries are those of exactly this relayer's orders for these tokens, in feed order. */
  ghost predicate Lists(entries: seq<Entry>, orders: seq<Order>, relayer: string, sell: string, buy: string) {
    exists at: seq<nat> :: ListedAt(entries, orders, relayer, sell, buy, at)
  }

  ghost predicate ListedAt(entries: seq<Entry>, orders: seq<Order>, relayer: string, sell: string, buy: string,
                           at: seq<nat>)
  {
    Positions(at, |orders|, TradedIn(orders, relayer, sell, buy)) && ShowsAt(entries, orders, at)
  }

  ghost predicate ShowsAt(entries: seq<Entry>, orders: seq<Order>, at: seq<nat>) {
    |at| == |entries| && forall m :: 0 <= m < |at| ==> at[m] < |orders| && Shows(entries[m], orders[at[m]])
  }

  lemma ShowsMore(entries: seq<Entry>, orders: seq<Order>, at: seq<nat>, o: Order)
    requires ShowsAt(entries, orders, at)
    ensures ShowsAt(entries, orders + [o], at)
    ensures ShowsAt(entries + [ToEntry(o)], orders + [o], at + [|orders|])
  {
  }

  lemma TradedMore(at: seq<nat>, orders: seq<Order>, o: Order, relayer: string, sell: string, buy: string)
    requires Positions(at, |orders|, TradedIn(orders, relayer, sell, buy))
    ensures Positions(if Trades(o, relayer, sell, buy) then at + [|orders|] else at, |orders| + 1,
                      TradedIn(orders + [o], relayer, sell, buy))
  {
    hide Positions, Trades;
    var more := TradedIn(orders + [o], relayer, sell, buy);
    PositionsAlike(at, |orders|, TradedIn(orders, relayer, sell, buy), more);
    PositionsMore(at, |orders|, more);
  }

  lemma {:induction false} ScanLists(orders: seq<Order>, relayer: string, sell: string, buy: string)
    ensures ListedAt(Scan(orders, relayer, sell, buy), orders, relayer, sell, buy,
                     ScannedAt(orders, relayer, sell, buy))
    ensures Lists(Scan(orders, relayer, sell, buy), orders, relayer, sell, buy)
  {
    if orders != [] {
      hide Lower, Positions, TradedIn, ShowsAt, ToEntry;
      var init, o := orders[..|orders| - 1], orders[|orders| - 1];
      ScanLists(init, relayer, sell, buy);
      assert orders == init + [o];
      ShowsMore(Scan(init, relayer, sell, buy), init, ScannedAt(init, relayer, sell, buy), o);
      TradedMore(ScannedAt(init, relayer, sell, buy), init, o, relayer, sell, buy);
    }
  }

  lemma KeyedMore(orders: seq<Order>, i: nat, relayer: string, key: string)
    requires i < |orders|
    ensures Keyed(orders[..i + 1], relayer, key) == Keyed(orders[..i], relayer, key)
      + if Lower(orders[i].relayer) == relayer && OrderKey(orders[i]) == key then [ToEntry(orders[i])] else []
  {
    assert orders[..i + 1][..i] == orders[..i];
  }

  type Index = map<string, map<string, seq<Entry>>>

  function Lookup(index: Index, relayer: string, key: string): seq<Entry> {
    if relayer in index && key in index[relayer] then index[relayer][key] else []
  }

  method GroupOrders(orders: seq<Order>) returns (index: Index)
    ensures forall relayer, key :: Lookup(index, relayer, key) == Keyed(orders, relayer, key)
  {
    index := map[];
    for i := 0 to |orders|
      invariant forall relayer, key :: Lookup(index, relayer, key) == Keyed(orders[..i], relayer, key)
    {
      var o := orders[i];
      var relayerKey, pairKey := Lower(o.relayer), OrderKey(o);
      ghost var before := index;
      var pairMap := if relayerKey in index then index[relayerKey] else map[];
      var list := if pairKey in pairMap then pairMap[pairKey] + [ToEntry(o)] else [ToEntry(o)];
      index := index[relayerKey := pairMap[pairKey := list]];
      hide Lower, OrderKey, Keyed, PairKey;
      forall relayer, key ensures Lookup(index, relayer, key) == Keyed(orders[..i + 1], relayer, key) {
        KeyedMore(orders, i, relayer, key);
        assert Lookup(before, relayer, key) == Keyed(orders[..i], relayer, key);
      }
    }
    assert orders[..|orders|] == orders;
  }

  // ---- Pair options ----

  /** Lower-case addresses of the tokens that trade under their own contract. */
  function Tradable(tokens: seq<Token>): (addrs: seq<string>)
  {
    if tokens == [] then []
    else
      var t := tokens[|tokens| - 1];
      Tradable(tokens[..|tokens| - 1]) + if t.isNative then [] else [Lower(t.address)]
  }

  ghost function TradedAt(tokens: seq<Token>): seq<nat> {
    if tokens == [] then []
    else TradedAt(tokens[..|tokens| - 1]) + if tokens[|tokens| - 1].isNative then [] else [|tokens| - 1]
  }

  function NotNativeIn(tokens: seq<Token>): nat -> bool {
    (i: nat) => i < |tokens| && !tokens[i].isNative
  }

  /** The tokens that are not native, by their lower-case addresses and in their order. */
  ghost predicate NotNative(addrs: seq<string>, tokens: seq<Token>, at: seq<nat>) {
    && |at| == |addrs|
    && Positions(at, |tokens|, NotNativeIn(tokens))
    && forall m :: 0 <= m < |at| ==> at[m] < |tokens| && addrs[m] == Lower(tokens[at[m]].address)
  }

  lemma NotNativeMore(addrs: seq<string>, tokens: seq<Token>, at: seq<nat>, t: Token)
    requires NotNative(addrs, tokens, at)
    ensures t.isNative ==> NotNative(addrs, tokens + [t], at)
    ensures !t.isNative ==> NotNative(addrs + [Lower(t.address)], tokens + [t], at + [|tokens|])
  {
    hide Positions, Lower;
    var more := NotNativeIn(tokens + [t]);
    PositionsAlike(at, |tokens|, NotNativeIn(tokens), more);
    PositionsMore(at, |tokens|, more);
  }

  lemma {:induction false} TradableAreNotNative(tokens: seq<Token>)
    ensures NotNative(Tradable(tokens), tokens, TradedAt(tokens))
  {
    if tokens != [] {
      hide Lower, NotNative;
      var init, t := tokens[..|tokens| - 1], tokens[|tokens| - 1];
      TradableAreNotNative(init);
      assert tokens == init + [t];
      NotNativeMore(Tradable(init), init, TradedAt(init), t);
    }
  }

  /** What the configured token list is taken to be: distinct addresses without dashes. */
  ghost predicate GoodTokens(addrs: seq<string>) {
    Distinct(addrs) && forall i :: 0 <= i < |addrs| ==> DashFree(addrs[i]) && Lower(addrs[i]) == addrs[i]
  }

  /** Position pair `(i, j)` of option `k`: its value names tokens `i` and `j`, in either order. */
  ghost predicate Names(addrs: seq<string>, values: seq<string>, origin: seq<(nat, nat)>) {
    && |values| == |origin|
    && (forall k :: 0 <= k < |origin| ==> origin[k].0 <= origin[k].1 < |addrs|)
    && (forall k :: 0 <= k < |origin| ==>
        || values[k] == PairKey(addrs[origin[k].0], addrs[origin[k].1])
        || values[k] == PairKey(addrs[origin[k].1], addrs[origin[k].0]))
  }

  /** Exactly the listed position pairs, each once. */
  ghost predicate EachOnce(origin: seq<(nat, nat)>, listed: (nat, nat) -> bool) {
    Distinct(origin) && forall i: nat, j: nat :: (i, j) in origin <==> listed(i, j)
  }

  /** Each value puts the token that compares lower first. */
  ghost predicate Oriented(addrs: seq<string>, values: seq<string>, origin: seq<(nat, nat)>,
                           compare: (string, string) -> int) {
    && |values| == |origin|
    && forall k :: 0 <= k < |origin| && origin[k].0 < |addrs| && origin[k].1 < |addrs| ==>
         var (a, b) := (addrs[origin[k].0], addrs[origin[k].1]);
         values[k] == if origin[k].0 == origin[k].1 || compare(a, b) <= 0 then PairKey(a, b) else PairKey(b, a)
  }

  /** Menu order: pairs of different tokens row by row, then each token with itself. */
  predicate MenuBefore(p: (nat, nat), q: (nat, nat)) {
    var crossP, crossQ := p.0 != p.1, q.0 != q.1;
    if crossP == crossQ then p.0 < q.0 || (p.0 == q.0 && p.1 < q.1) else crossP
  }

  ghost predicate InMenuOrder(origin: seq<(nat, nat)>) {
    forall k, m :: 0 <= k < m < |origin| ==> MenuBefore(origin[k], origin[m])
  }

  /** A menu so far: the listed position pairs, each once, in order, oriented and named. */
  ghost predicate Menu(addrs: seq<string>, values: seq<string>, origin: seq<(nat, nat)>,
                       compare: (string, string) -> int, listed: (nat, nat) -> bool) {
    && Names(addrs, values, origin) && Oriented(addrs, values, origin, compare)
    && EachOnce(origin, listed) && InMenuOrder(origin)
  }

  /** All unordered pairs of tokens, each oriented by `compare`, then each token with itself. */
  method BuildPairOptions(tokens: seq<Token>, compare: (string, string) -> int)
    returns (values: seq<string>, ghost origin: seq<(nat, nat)>)
    ensures Menu(Tradable(tokens), values, origin, compare, (i, j) => i <= j < |Tradable(tokens)|)
  {
    var addrs := Tradable(tokens);
    values, origin := [], [];
    MenuEmpty(addrs, compare, (a, b) => a < 0 && a < b < |addrs|);
    hide Menu, PairKey, Tradable;
    for i := 0 to |addrs|
      invariant Menu(addrs, values, origin, compare, (a, b) => a < i && a < b < |addrs|)
    {
      Relist(addrs, values, origin, compare, (a, b) => a < i && a < b < |addrs|,
             (a, b) => (a < i && a < b < |addrs|) || (a == i && i < b < i + 1));
      for j := i + 1 to |addrs|
        invariant Menu(addrs, values, origin, compare, (a, b) => (a < i && a < b < |addrs|) || (a == i && i < b < j))
      {
        var value := if compare(addrs[i], addrs[j]) <= 0
                     then PairKey(addrs[i], addrs[j]) else PairKey(addrs[j], addrs[i]);
        AddOption(addrs, values, origin, compare, (a, b) => (a < i && a < b < |addrs|) || (a == i && i < b < j),
                  i, j, value,
                  (a, b) => (a < i && a < b < |addrs|) || (a == i && i < b < j + 1));
        values, origin := values + [value], origin + [(i, j)];
      }
      Relist(addrs, values, origin, compare, (a, b) => (a < i && a < b < |addrs|) || (a == i && i < b < |addrs|),
             (a, b) => a < i + 1 && a < b < |addrs|);
    }
    Relist(addrs, values, origin, compare, (a, b) => a < |addrs| && a < b < |addrs|,
           (a, b) => a < b < |addrs| || (a == b && a < 0));
    for i := 0 to |addrs|
      invariant Menu(addrs, values, origin, compare, (a, b) => a < b < |addrs| || (a == b && a < i))
    {
      AddOption(addrs, values, origin, compare, (a, b) => a < b < |addrs| || (a == b && a < i), i, i,
                PairKey(addrs[i], addrs[i]), (a, b) => a < b < |addrs| || (a == b && a < i + 1));
      values, origin := values + [PairKey(addrs[i], addrs[i])], origin + [(i, i)];
    }
    Relist(addrs, values, origin, compare, (a, b) => a < b < |addrs| || (a == b && a < |addrs|),
           (a, b) => a <= b < |addrs|);
  }

  /** For a comparison that is never positive both ways, every option has its lower token first. */
  lemma LowerTokenFirst(addrs: seq<string>, values: seq<string>, origin: seq<(nat, nat)>,
                        compare: (string, string) -> int, k: nat)
    requires Names(addrs, values, origin) && Oriented(addrs, values, origin, compare) && k < |values|
    requires forall x, y :: compare(x, y) > 0 ==> compare(y, x) <= 0
    ensures exists x, y :: x in addrs && y in addrs && values[k] == x + "-" + y
                           && (origin[k].0 != origin[k].1 ==> compare(x, y) <= 0)
  {
    var (a, b) := (addrs[origin[k].0], addrs[origin[k].1]);
    assert values[k] == a + "-" + b || values[k] == b + "-" + a;
  }

  /** Different tokens come before same tokens, and each kind row by row. */
  lemma MenuRows(origin: seq<(nat, nat)>, k: nat, m: nat)
    requires InMenuOrder(origin) && k < m < |origin|
    ensures origin[k].0 == origin[k].1 ==> origin[m].0 == origin[m].1
    ensures (origin[k].0 == origin[k].1 <==> origin[m].0 == origin[m].1) ==>
      origin[k].0 < origin[m].0 || (origin[k].0 == origin[m].0 && origin[k].1 < origin[m].1)
  {
    assert MenuBefore(origin[k], origin[m]);
  }

  lemma MenuEmpty(addrs: seq<string>, compare: (string, string) -> int, listed: (nat, nat) -> bool)
    requires forall a: nat, b: nat :: !listed(a, b)
    ensures Menu(addrs, [], [], compare, listed)
  {
  }

  /** The same positions, described another way. */
  lemma Relist(addrs: seq<string>, values: seq<string>, origin: seq<(nat, nat)>, compare: (string, string) -> int,
               listed: (nat, nat) -> bool, listed': (nat, nat) -> bool)
    requires Menu(addrs, values, origin, compare, listed)
    requires forall a: nat, b: nat :: listed'(a, b) <==> listed(a, b)
    ensures Menu(addrs, values, origin, compare, listed')
  {
    assert forall a: nat, b: nat :: (a, b) in origin <==> listed(a, b);
  }

  lemma AddOption(addrs: seq<string>, values: seq<string>, origin: seq<(nat, nat)>, compare: (string, string) -> int,
                  listed: (nat, nat) -> bool, i: nat, j: nat, value: string, listed': (nat, nat) -> bool)
    requires Menu(addrs, values, origin, compare, listed) && i <= j < |addrs| && !listed(i, j)
    requires value == if i == j || compare(addrs[i], addrs[j]) <= 0
                      then PairKey(addrs[i], addrs[j]) else PairKey(addrs[j], addrs[i])
    requires forall a: nat, b: nat :: listed'(a, b) <==> listed(a, b) || (a == i && b == j)
    requires forall a: nat, b: nat :: listed(a, b) ==> MenuBefore((a, b), (i, j))
    ensures Menu(addrs, values + [value], origin + [(i, j)], compare, listed')
  {
    AddLast(origin, listed, i, j);
    AddOne(origin, listed, i, j, listed');
    hide EachOnce, InMenuOrder, PairKey;
  }

  /** A position pair after all listed ones comes last in the menu. */
  lemma AddLast(origin: seq<(nat, nat)>, listed: (nat, nat) -> bool, i: nat, j: nat)
    requires EachOnce(origin, listed) && InMenuOrder(origin)
    requires forall a: nat, b: nat :: listed(a, b) ==> MenuBefore((a, b), (i, j))
    ensures InMenuOrder(origin + [(i, j)])
  {
    var more := origin + [(i, j)];
    forall k, m | 0 <= k < m < |more| ensures MenuBefore(more[k], more[m]) {
      if m == |origin| {
        assert origin[k] in origin && listed(origin[k].0, origin[k].1);
      }
    }
  }

  lemma AddOne(origin: seq<(nat, nat)>, listed: (nat, nat) -> bool, i: nat, j: nat, listed': (nat, nat) -> bool)
    requires EachOnce(origin, listed) && !listed(i, j)
    requires forall a: nat, b: nat :: listed'(a, b) <==> listed(a, b) || (a == i && b == j)
    ensures EachOnce(origin + [(i, j)], listed')
  {
    assert (i, j) !in origin;
    forall a: nat, b: nat ensures (a, b) in origin + [(i, j)] <==> listed'(a, b) {
      assert (a, b) in origin <==> listed(a, b);
    }
  }

  // ---- Buckets ----

  datatype Side = Sells | Buys

  /** The (sell, buy) tokens whose orders an option shows on one side. */
  function Bucket(value: string, side: Side): (string, string) {
    var (a, b) := SplitPair(value);
    if side.Sells? then (a, b) else (b, a)
  }

  /** A position pair's own option shows exactly its two token orders. */
  lemma OwnBuckets(addrs: seq<string>, values: seq<string>, origin: seq<(nat, nat)>, k: nat, side: Side)
    requires GoodTokens(addrs) && Names(addrs, values, origin) && k < |values|
    ensures Bucket(values[k], side) == (addrs[origin[k].0], addrs[origin[k].1])
         || Bucket(values[k], side) == (addrs[origin[k].1], addrs[origin[k].0])
    ensures Bucket(values[k], Buys) == (Bucket(values[k], Sells).1, Bucket(values[k], Sells).0)
  {
    SplitPairKey(addrs[origin[k].0], addrs[origin[k].1]);
    SplitPairKey(addrs[origin[k].1], addrs[origin[k].0]);
  }

  /** Only the option of two tokens' own position pair shows orders between them. */
  lemma BucketOwner(addrs: seq<string>, values: seq<string>, origin: seq<(nat, nat)>, k: nat, side: Side, x: nat, y: nat)
    requires GoodTokens(addrs) && Names(addrs, values, origin) && k < |values| && x <= y < |addrs|
    requires Bucket(values[k], side) == (addrs[x], addrs[y]) || Bucket(values[k], side) == (addrs[y], addrs[x])
    ensures origin[k] == (x, y)
  {
    OwnBuckets(addrs, values, origin, k, side);
    hide Bucket, PairKey;
    var (i, j) := origin[k];
    assert Distinct(addrs);
  }

  ghost predicate IsOnlyBucket(values: seq<string>, k: nat, side: Side, sell: string, buy: string) {
    && k < |values| && Bucket(values[k], side) == (sell, buy)
    && forall k', side' :: 0 <= k' < |values| && Bucket(values[k'], side') == (sell, buy) ==> k' == k && side' == side
  }

  ghost predicate IsOnlyScatter(values: seq<string>, k: nat, token: string) {
    && k < |values| && Bucket(values[k], Sells) == (token, token) == Bucket(values[k], Buys)
    && forall k', side' :: 0 <= k' < |values| && Bucket(values[k'], side') == (token, token) ==> k' == k
  }

  /** Orders between two different listed tokens are shown under exactly one option, on one side. */
  lemma CrossOrdersHaveOneBucket(addrs: seq<string>, values: seq<string>, origin: seq<(nat, nat)>, x: nat, y: nat)
    returns (k: nat, side: Side)
    requires GoodTokens(addrs) && Names(addrs, values, origin)
    requires EachOnce(origin, (i, j) => i <= j < |addrs|)
    requires x < |addrs| && y < |addrs| && x != y
    ensures IsOnlyBucket(values, k, side, addrs[x], addrs[y])
  {
    var lo, hi := if x < y then x else y, if x < y then y else x;
    assert (lo, hi) in origin;
    k :| 0 <= k < |origin| && origin[k] == (lo, hi);
    OwnBuckets(addrs, values, origin, k, Sells);
    side := if Bucket(values[k], Sells) == (addrs[x], addrs[y]) then Sells else Buys;
    forall k': nat, side': Side | k' < |values| && Bucket(values[k'], side') == (addrs[x], addrs[y])
      ensures k' == k && side' == side
    {
      BucketOwner(addrs, values, origin, k', side', lo, hi);
      assert Distinct(origin) && Distinct(addrs);
    }
  }

  /** Same-token orders are shown under exactly one option, on both of its sides. */
  lemma ScatterOrdersHaveOneOption(addrs: seq<string>, values: seq<string>, origin: seq<(nat, nat)>, x: nat)
    returns (k: nat)
    requires GoodTokens(addrs) && Names(addrs, values, origin)
    requires EachOnce(origin, (i, j) => i <= j < |addrs|)
    requires x < |addrs|
    ensures IsOnlyScatter(values, k, addrs[x])
  {
    assert (x, x) in origin;
    k :| 0 <= k < |origin| && origin[k] == (x, x);
    OwnBuckets(addrs, values, origin, k, Sells);
    forall k': nat, side': Side | k' < |values| && Bucket(values[k'], side') == (addrs[x], addrs[x])
      ensures k' == k
    {
      BucketOwner(addrs, values, origin, k', side', x, x);
      assert Distinct(origin);
    }
  }

  // ---- The books ----

  ghost function Elems(s: seq<string>): set<string> {
    set x | x in s
  }

  /** The book of one relayer and option, by scanning all orders. */
  function ScannedBook(orders: seq<Order>, relayer: string, value: string): Book {
    var (a, b) := SplitPair(value);
    Book(value, Scan(orders, Lower(relayer), a, b), Scan(orders, Lower(relayer), b, a))
  }

  ghost predicate BooksRight(books: map<string, map<string, Book>>, relayers: set<string>,
                             values: set<string>, orders: seq<Order>) {
    && books.Keys == relayers
    && forall r :: r in relayers ==> BookRow(books[r], r, values, orders)
  }

  ghost predicate BookRow(row: map<string, Book>, relayer: string, values: set<string>, orders: seq<Order>) {
    row.Keys == values && forall v :: v in values ==> row[v] == ScannedBook(orders, relayer, v)
  }

  lemma SplitIsDashFree(value: string)
    ensures DashFree(SplitPair(value).0) && DashFree(SplitPair(value).1)
  {
    BeforeDashFree(value);
    BeforeDashFree(AfterDash(value));
  }

  lemma {:induction false} BeforeDashFree(s: string)
    ensures DashFree(BeforeDash(s)) && DashFree(Lower(BeforeDash(s)))
  {
    if s != [] && s[0] != '-' {
      BeforeDashFree(s[1..]);
    }
    var b := BeforeDash(s);
    forall i | 0 <= i < |b| ensures Lower(b)[i] != '-' {
      assert b[i] in b;
    }
  }

  /** Books for every target relayer and option: lookups in the one-pass index, yet equal to full scans. */
  method LoadOrderbooks(targets: seq<string>, values: seq<string>, orders: seq<Order>)
    returns (results: map<string, map<string, Book>>)
    ensures BooksRight(results, Elems(targets), Elems(values), orders)
  {
    var index := GroupOrders(orders);
    results := map[];
    for i := 0 to |targets|
      invariant BooksRight(results, Elems(targets[..i]), Elems(values), orders)
    {
      var row := LoadRow(targets[i], values, orders, index);
      results := results[targets[i] := row];
      assert targets[..i + 1] == targets[..i] + [targets[i]];
    }
    assert targets[..|targets|] == targets;
  }

  method LoadRow(relayer: string, values: seq<string>, ghost orders: seq<Order>, index: Index)
    returns (row: map<string, Book>)
    requires forall relayer, key :: Lookup(index, relayer, key) == Keyed(orders, relayer, key)
    ensures BookRow(row, relayer, Elems(values), orders)
  {
    hide SplitPair, Lower, PairKey, DashFree, Keyed, Scan, Lookup;
    row := map[];
    for i := 0 to |values|
      invariant BookRow(row, relayer, Elems(values[..i]), orders)
    {
      var value := values[i];
      var (a, b) := SplitPair(value);
      var sells := Lookup(index, Lower(relayer), PairKey(a, b));
      var buys := Lookup(index, Lower(relayer), PairKey(b, a));
      SplitIsDashFree(value);
      KeyedIsScan(orders, Lower(relayer), a, b);
      KeyedIsScan(orders, Lower(relayer), b, a);
      row := row[value := Book(value, sells, buys)];
      assert values[..i + 1] == values[..i] + [value];
    }
    assert values[..|values|] == values;
  }

  // ---- What one relayer's books show in all ----

  function SideOf(row: map<string, Book>, value: string, side: Side): seq<Entry> {
    if value !in row then []
    else if side.Sells? then row[value].sells
    else row[value].buys
  }

  lemma SideIsScan(row: map<string, Book>, relayer: string, values: seq<string>, orders: seq<Order>, k: nat, side: Side)
    requires BookRow(row, relayer, Elems(values), orders) && k < |values|
    ensures SideOf(row, values[k], side) ==
            Scan(orders, Lower(relayer), Bucket(values[k], side).0, Bucket(values[k], side).1)
    ensures Lists(SideOf(row, values[k], side), orders, Lower(relayer),
                  Bucket(values[k], side).0, Bucket(values[k], side).1)
  {
    ScanLists(orders, Lower(relayer), Bucket(values[k], side).0, Bucket(values[k], side).1);
    hide Scan, ScannedAt, Lists, ListedAt;
  }

  /** The book of an option `a-b`: it sells what sells `a` for `b`, and buys what sells `b` for `a`. */
  ghost predicate BookOf(book: Book, orders: seq<Order>, relayer: string, a: string, b: string) {
    && book.pair == a + "-" + b
    && Lists(book.sells, orders, Lower(relayer), a, b)
    && Lists(book.buys, orders, Lower(relayer), b, a)
  }

  lemma BookOfPair(row: map<string, Book>, relayer: string, values: set<string>, orders: seq<Order>,
                   a: string, b: string)
    requires BookRow(row, relayer, values, orders) && a + "-" + b in values
    requires DashFree(a) && DashFree(b) && Lower(a) == a && Lower(b) == b
    ensures a + "-" + b in row && BookOf(row[a + "-" + b], orders, relayer, a, b)
  {
    SplitPairKey(a, b);
    ScanLists(orders, Lower(relayer), a, b);
    ScanLists(orders, Lower(relayer), b, a);
    hide Scan, ScannedAt, SplitPair, Lists, ListedAt;
  }

  /** One option and side, and no other, show orders of these two tokens: all of them, in order. */
  ghost predicate ShownOnce(values: seq<string>, row: map<string, Book>, orders: seq<Order>, relayer: string,
                            sell: string, buy: string)
  {
    exists k: nat, side :: IsOnlyBucket(values, k, side, sell, buy)
                           && Lists(SideOf(row, values[k], side), orders, Lower(relayer), sell, buy)
  }

  /** One option, and no other, shows the token's orders for itself: all of them, in order, on both sides. */
  ghost predicate ShownOnBothSides(values: seq<string>, row: map<string, Book>, orders: seq<Order>, relayer: string,
                                   token: string)
  {
    exists k: nat :: IsOnlyScatter(values, k, token)
                     && Lists(SideOf(row, values[k], Sells), orders, Lower(relayer), token, token)
                     && Lists(SideOf(row, values[k], Buys), orders, Lower(relayer), token, token)
  }

  /** The entries on both sides of all options. */
  function EntryCount(row: map<string, Book>, values: seq<string>): nat {
    if values == [] then 0
    else
      var value := values[|values| - 1];
      EntryCount(row, values[..|values| - 1]) + |SideOf(row, value, Sells)| + |SideOf(row, value, Buys)|
  }

  /** How often an order of these tokens is to be shown. */
  function Weight(addrs: seq<string>, sell: string, buy: string): nat {
    if sell !in addrs || buy !in addrs then 0 else if sell == buy then 2 else 1
  }

  function Showings(orders: seq<Order>, relayer: string, addrs: seq<string>): nat {
    if orders == [] then 0
    else
      var o := orders[|orders| - 1];
      Showings(orders[..|orders| - 1], relayer, addrs)
      + if Lower(o.relayer) == relayer then Weight(addrs, Lower(o.sellToken), Lower(o.buyToken)) else 0
  }

  /** The sides that show orders of these tokens. */
  function Matches(values: seq<string>, sell: string, buy: string): nat {
    if values == [] then 0
    else
      var value := values[|values| - 1];
      Matches(values[..|values| - 1], sell, buy)
      + (if Bucket(value, Sells) == (sell, buy) then 1 else 0)
      + (if Bucket(value, Buys) == (sell, buy) then 1 else 0)
  }

  lemma {:induction false} OneMatch(values: seq<string>, m: nat, k: nat, side: Side, sell: string, buy: string)
    requires IsOnlyBucket(values, k, side, sell, buy) && m <= |values|
    ensures Matches(values[..m], sell, buy) == if k < m then 1 else 0
  {
    if m > 0 {
      hide Bucket;
      OneMatch(values, m - 1, k, side, sell, buy);
      assert values[..m][..m - 1] == values[..m - 1];
      assert side == Sells || side == Buys;
    }
  }

  lemma {:induction false} TwoMatches(values: seq<string>, m: nat, k: nat, token: string)
    requires IsOnlyScatter(values, k, token) && m <= |values|
    ensures Matches(values[..m], token, token) == if k < m then 2 else 0
  {
    if m > 0 {
      hide Bucket;
      TwoMatches(values, m - 1, k, token);
      assert values[..m][..m - 1] == values[..m - 1];
    }
  }

  lemma {:induction false} NoMatch(addrs: seq<string>, values: seq<string>, origin: seq<(nat, nat)>, m: nat,
                                   sell: string, buy: string)
    requires GoodTokens(addrs) && Names(addrs, values, origin) && m <= |values|
    requires sell !in addrs || buy !in addrs
    ensures Matches(values[..m], sell, buy) == 0
  {
    if m > 0 {
      hide Bucket, GoodTokens, PairKey;
      NoMatch(addrs, values, origin, m - 1, sell, buy);
      assert values[..m][..m - 1] == values[..m - 1];
      OwnBuckets(addrs, values, origin, m - 1, Sells);
      OwnBuckets(addrs, values, origin, m - 1, Buys);
    }
  }

  /** The menu shows every order as often as it is to be shown. */
  lemma MatchesAreWeight(addrs: seq<string>, values: seq<string>, origin: seq<(nat, nat)>, sell: string, buy: string)
    requires GoodTokens(addrs) && Names(addrs, values, origin)
    requires EachOnce(origin, (i, j) => i <= j < |addrs|)
    ensures Matches(values, sell, buy) == Weight(addrs, sell, buy)
  {
    hide GoodTokens, Names, EachOnce, Bucket;
    assert values[..|values|] == values;
    if sell !in addrs || buy !in addrs {
      NoMatch(addrs, values, origin, |values|, sell, buy);
    } else {
      var x :| 0 <= x < |addrs| && addrs[x] == sell;
      var y :| 0 <= y < |addrs| && addrs[y] == buy;
      if sell == buy {
        var k := ScatterOrdersHaveOneOption(addrs, values, origin, x);
        TwoMatches(values, |values|, k, sell);
      } else {
        var k, side := CrossOrdersHaveOneBucket(addrs, values, origin, x, y);
        OneMatch(values, |values|, k, side, sell, buy);
      }
    }
  }

  /** The entries that scans of all sides find. */
  function ScannedCount(orders: seq<Order>, relayer: string, values: seq<string>): nat {
    if values == [] then 0
    else
      var (a, b) := SplitPair(values[|values| - 1]);
      ScannedCount(orders, relayer, values[..|values| - 1])
      + |Scan(orders, relayer, a, b)| + |Scan(orders, relayer, b, a)|
  }

  lemma {:induction false} EntriesAreScanned(row: map<string, Book>, relayer: string, values: seq<string>,
                                             orders: seq<Order>, m: nat)
    requires BookRow(row, relayer, Elems(values), orders) && m <= |values|
    ensures EntryCount(row, values[..m]) == ScannedCount(orders, Lower(relayer), values[..m])
  {
    if m > 0 {
      EntriesAreScanned(row, relayer, values, orders, m - 1);
      assert values[..m][..m - 1] == values[..m - 1];
      hide BookRow, Scan, SplitPair, Lists;
      SideIsScan(row, relayer, values, orders, m - 1, Sells);
      SideIsScan(row, relayer, values, orders, m - 1, Buys);
    }
  }

  /** One more order adds an entry to each side that shows its tokens. */
  lemma {:induction false} OrderAdds(orders: seq<Order>, relayer: string, values: seq<string>)
    requires orders != []
    ensures var o := orders[|orders| - 1];
      ScannedCount(orders, relayer, values) == ScannedCount(orders[..|orders| - 1], relayer, values)
        + if Lower(o.relayer) == relayer then Matches(values, Lower(o.sellToken), Lower(o.buyToken)) else 0
  {
    if values != [] {
      OrderAdds(orders, relayer, values[..|values| - 1]);
      hide Lower, SplitPair;
    }
  }

  lemma {:induction false} NothingScanned(relayer: string, values: seq<string>)
    ensures ScannedCount([], relayer, values) == 0
  {
    if values != [] {
      NothingScanned(relayer, values[..|values| - 1]);
    }
  }

  lemma {:induction false} ScannedAreShowings(orders: seq<Order>, relayer: string, addrs: seq<string>,
                                              values: seq<string>, origin: seq<(nat, nat)>)
    requires GoodTokens(addrs) && Names(addrs, values, origin)
    requires EachOnce(origin, (i, j) => i <= j < |addrs|)
    ensures ScannedCount(orders, relayer, values) == Showings(orders, relayer, addrs)
  {
    hide GoodTokens, Names, EachOnce, ScannedCount, Weight, Lower;
    if orders == [] {
      NothingScanned(relayer, values);
    } else {
      var o := orders[|orders| - 1];
      ScannedAreShowings(orders[..|orders| - 1], relayer, addrs, values, origin);
      OrderAdds(orders, relayer, values);
      MatchesAreWeight(addrs, values, origin, Lower(o.sellToken), Lower(o.buyToken));
    }
  }

  /**
   One relayer's books over the whole menu: every order between two different listed tokens is shown
   under one option and side only, every order of a token for itself under one option on both, and
   there is no other entry.
   */
  ghost predicate ShowsAll(addrs: seq<string>, values: seq<string>, row: map<string, Book>, orders: seq<Order>,
                           relayer: string)
  {
    && (forall sell, buy :: sell in addrs && buy in addrs && sell != buy ==>
          ShownOnce(values, row, orders, relayer, sell, buy))
    && (forall token :: token in addrs ==> ShownOnBothSides(values, row, orders, relayer, token))
    && (forall k :: 0 <= k < |values| ==> OwnBook(addrs, values[k], row, orders, relayer))
    && EntryCount(row, values) == Showings(orders, Lower(relayer), addrs)
  }

  /** An option's book is that of the two tokens its value names. */
  ghost predicate OwnBook(addrs: seq<string>, value: string, row: map<string, Book>, orders: seq<Order>,
                          relayer: string)
  {
    exists a, b :: a in addrs && b in addrs && value in row && value == a + "-" + b
                   && BookOf(row[value], orders, relayer, a, b)
  }

  lemma OptionHasOwnBook(addrs: seq<string>, values: seq<string>, origin: seq<(nat, nat)>, row: map<string, Book>,
                         orders: seq<Order>, relayer: string, k: nat)
    requires GoodTokens(addrs) && Names(addrs, values, origin) && k < |values|
    requires BookRow(row, relayer, Elems(values), orders)
    ensures OwnBook(addrs, values[k], row, orders, relayer)
  {
    hide BookRow, BookOf, Lower, DashFree;
    var (i, j) := origin[k];
    var (a, b) := if values[k] == PairKey(addrs[i], addrs[j]) then (addrs[i], addrs[j]) else (addrs[j], addrs[i]);
    assert values[k] in Elems(values) && values[k] == a + "-" + b;
    BookOfPair(row, relayer, Elems(values), orders, a, b);
  }

  lemma CrossIsShownOnce(addrs: seq<string>, values: seq<string>, origin: seq<(nat, nat)>, row: map<string, Book>,
                         orders: seq<Order>, relayer: string, sell: string, buy: string)
    requires GoodTokens(addrs) && Names(addrs, values, origin)
    requires EachOnce(origin, (i, j) => i <= j < |addrs|)
    requires BookRow(row, relayer, Elems(values), orders)
    requires sell in addrs && buy in addrs && sell != buy
    ensures ShownOnce(values, row, orders, relayer, sell, buy)
  {
    hide GoodTokens, Names, EachOnce, BookRow, Scan, SideOf, Bucket, Lists;
    var x :| 0 <= x < |addrs| && addrs[x] == sell;
    var y :| 0 <= y < |addrs| && addrs[y] == buy;
    var k, side := CrossOrdersHaveOneBucket(addrs, values, origin, x, y);
    SideIsScan(row, relayer, values, orders, k, side);
  }

  lemma ScatterIsShownOnBothSides(addrs: seq<string>, values: seq<string>, origin: seq<(nat, nat)>,
                                  row: map<string, Book>, orders: seq<Order>, relayer: string, token: string)
    requires GoodTokens(addrs) && Names(addrs, values, origin)
    requires EachOnce(origin, (i, j) => i <= j < |addrs|)
    requires BookRow(row, relayer, Elems(values), orders)
    requires token in addrs
    ensures ShownOnBothSides(values, row, orders, relayer, token)
  {
    hide GoodTokens, Names, EachOnce, BookRow, Scan, SideOf, Bucket, Lists;
    var x :| 0 <= x < |addrs| && addrs[x] == token;
    var k := ScatterOrdersHaveOneOption(addrs, values, origin, x);
    SideIsScan(row, relayer, values, orders, k, Sells);
    SideIsScan(row, relayer, values, orders, k, Buys);
  }

  lemma BooksShowAll(addrs: seq<string>, values: seq<string>, origin: seq<(nat, nat)>, row: map<string, Book>,
                     orders: seq<Order>, relayer: string)
    requires GoodTokens(addrs) && Names(addrs, values, origin)
    requires EachOnce(origin, (i, j) => i <= j < |addrs|)
    requires BookRow(row, relayer, Elems(values), orders)
    ensures ShowsAll(addrs, values, row, orders, relayer)
  {
    hide GoodTokens, Names, EachOnce, BookRow, ShownOnce, ShownOnBothSides, OwnBook;
    forall k | 0 <= k < |values| ensures OwnBook(addrs, values[k], row, orders, relayer) {
      OptionHasOwnBook(addrs, values, origin, row, orders, relayer, k);
    }
    forall sell, buy | sell in addrs && buy in addrs && sell != buy
      ensures ShownOnce(values, row, orders, relayer, sell, buy)
    {
      CrossIsShownOnce(addrs, values, origin, row, orders, relayer, sell, buy);
    }
    forall token | token in addrs ensures ShownOnBothSides(values, row, orders, relayer, token) {
      ScatterIsShownOnBothSides(addrs, values, origin, row, orders, relayer, token);
    }
    EntriesAreScanned(row, relayer, values, orders, |values|);
    assert values[..|values|] == values;
    ScannedAreShowings(orders, Lower(relayer), addrs, values, origin);
  }

  /** The page: build the menu, load the books. Nothing a target relayer offers is lost or shown too often. */
  method ShowOrderbooks(tokens: seq<Token>, compare: (string, string) -> int, targets: seq<string>, orders: seq<Order>)
    returns (values: seq<string>, results: map<string, map<string, Book>>)
    ensures results.Keys == Elems(targets)
    ensures GoodTokens(Tradable(tokens)) ==>
      forall r :: r in targets ==> ShowsAll(Tradable(tokens), values, results[r], orders, r)
  {
    hide GoodTokens, Tradable, Names, EachOnce, Oriented, InMenuOrder, BookRow, ShowsAll;
    ghost var origin;
    values, origin := BuildPairOptions(tokens, compare);
    results := LoadOrderbooks(targets, values, orders);
    if GoodTokens(Tradable(tokens)) {
      forall r | r in targets ensures ShowsAll(Tradable(tokens), values, results[r], orders, r) {
        BooksShowAll(Tradable(tokens), values, origin, results[r], orders, r);
      }
    }
  }
}
