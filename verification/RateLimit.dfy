/** The fixed-window rate limiter with periodic cleanup. */
module RateLimit {

  const CLEANUP_INTERVAL: int := 60_000

  datatype Entry = Entry(count: int, resetAt: int)

  datatype Config = Config(limit: int, windowMs: int)

  datatype Decision = Decision(allowed: bool, remaining: int, resetAt: int)

  type Store = map<string, Entry>

  /** Drop the windows that have ended. */
  function Live(store: Store, now: int): Store {
    map key | key in store && store[key].resetAt > now :: store[key]
  }

  function Find(store: Store, key: string, now: int): (live: bool) {
    key in store && store[key].resetAt > now
  }

  /** The decision for one request, and the entry it leaves. */
  function Decide(store: Store, key: string, config: Config, now: int): (Decision, Entry) {
    if !Find(store, key, now) then
      (Decision(true, config.limit - 1, now + config.windowMs), Entry(1, now + config.windowMs))
    else
      var entry := store[key];
      if entry.count >= config.limit then (Decision(false, 0, entry.resetAt), entry)
      else (Decision(true, config.limit - (entry.count + 1), entry.resetAt), entry.(count := entry.count + 1))
  }

  /** A request; the clock is read once for the cleanup and once for the decision. */
  datatype Request = Request(key: string, cleanupAt: int, now: int)

  datatype Limiter = Limiter(store: Store, lastCleanup: int)

  function AfterCleanup(l: Limiter, now: int): Limiter {
    if now - l.lastCleanup < CLEANUP_INTERVAL then l else Limiter(Live(l.store, now), now)
  }

  function Next(l: Limiter, configs: string -> Config, q: Request): Limiter {
    var cleaned := AfterCleanup(l, q.cleanupAt);
    cleaned.(store := cleaned.store[q.key := Decide(cleaned.store, q.key, configs(q.key), q.now).1])
  }

  function Answer(l: Limiter, configs: string -> Config, q: Request): Decision {
    Decide(AfterCleanup(l, q.cleanupAt).store, q.key, configs(q.key), q.now).0
  }

  function Run(l: Limiter, configs: string -> Config, requests: seq<Request>): Limiter {
    if requests == [] then l
    else Next(Run(l, configs, requests[..|requests| - 1]), configs, requests[|requests| - 1])
  }

  /** The limiter as deployed: module-level state changed by every request. */
  class RateLimiter {
    var store: Store
    var lastCleanup: int

    function State(): Limiter
      reads this
    {
      Limiter(store, lastCleanup)
    }

    constructor (now: int)
      ensures State() == Limiter(map[], now)
    {
      store, lastCleanup := map[], now;
    }

    method Cleanup(now: int)
      modifies this
      ensures State() == AfterCleanup(old(State()), now)
      ensures now - old(lastCleanup) >= CLEANUP_INTERVAL ==>
        && lastCleanup == now
        && (forall key :: key in store <==> key in old(store) && old(store)[key].resetAt > now)
        && (forall key :: key in store ==> store[key] == old(store)[key])
      ensures now - old(lastCleanup) < CLEANUP_INTERVAL ==> State() == old(State())
    {
      if now - lastCleanup < CLEANUP_INTERVAL {
        return;
      }
      lastCleanup := now;
      ghost var before := store;
      var pending := store.Keys;
      while pending != {}
        invariant pending <= before.Keys && lastCleanup == now
        invariant store == map key | key in before && (key in pending || before[key].resetAt > now) :: before[key]
        decreases pending
      {
        var key :| key in pending;
        if store[key].resetAt <= now {
          store := store - {key};
        }
        pending := pending - {key};
      }
      assert store == Live(before, now);
    }

    method CheckRateLimit(key: string, configs: string -> Config, cleanupAt: int, now: int) returns (d: Decision)
      modifies this
      ensures State() == Next(old(State()), configs, Request(key, cleanupAt, now))
      ensures d == Answer(old(State()), configs, Request(key, cleanupAt, now))
      ensures key in store && store[key].resetAt == d.resetAt
      ensures d.allowed ==> d.remaining == configs(key).limit - store[key].count
      ensures !d.allowed ==> d.remaining == 0 && store[key].count >= configs(key).limit
    {
      Cleanup(cleanupAt);
      var config := configs(key);
      if key !in store || store[key].resetAt <= now {
        store := store[key := Entry(1, now + config.windowMs)];
        return Decision(true, config.limit - 1, now + config.windowMs);
      }
      var entry := store[key];
      if entry.count >= config.limit {
        assert store[key := entry] == store;
        return Decision(false, 0, entry.resetAt);
      }
      store := store[key := entry.(count := entry.count + 1)];
      d := Decision(true, config.limit - store[key].count, entry.resetAt);
    }
  }

  // ---- Cleanup never changes a decision ----

  /** The limiter that never deletes anything. */
  function NextKeeping(store: Store, configs: string -> Config, q: Request): Store {
    store[q.key := Decide(store, q.key, configs(q.key), q.now).1]
  }

  function RunKeeping(configs: string -> Config, requests: seq<Request>): Store {
    if requests == [] then map[]
    else NextKeeping(RunKeeping(configs, requests[..|requests| - 1]), configs, requests[|requests| - 1])
  }

  /** The clock never runs backwards, within a request or between requests. */
  ghost predicate ClockRuns(requests: seq<Request>) {
    && (forall i :: 0 <= i < |requests| ==> requests[i].cleanupAt <= requests[i].now)
    && (forall i, j :: 0 <= i < j < |requests| ==> requests[i].now <= requests[j].cleanupAt)
  }

  ghost predicate AgreeOn(a: Store, b: Store, key: string, t: int) {
    && Find(a, key, t) == Find(b, key, t)
    && (Find(a, key, t) ==> a[key] == b[key])
  }

  /** Same live windows from `now` on. */
  ghost predicate SameLive(a: Store, b: Store, now: int) {
    forall key, t :: t >= now ==> AgreeOn(a, b, key, t)
  }

  lemma DecideAlike(a: Store, b: Store, key: string, config: Config, now: int)
    requires SameLive(a, b, now)
    ensures Decide(a, key, config, now) == Decide(b, key, config, now)
    ensures SameLive(a[key := Decide(a, key, config, now).1], b[key := Decide(b, key, config, now).1], now)
  {
    assert AgreeOn(a, b, key, now);
    var entry := Decide(a, key, config, now).1;
    var a', b' := a[key := entry], b[key := entry];
    hide Decide;
    forall k, t | t >= now ensures AgreeOn(a', b', k, t) {
      assert AgreeOn(a, b, k, t);
    }
  }

  lemma CleanupAlike(l: Limiter, b: Store, cleanupAt: int, now: int)
    requires SameLive(l.store, b, cleanupAt) && cleanupAt <= now
    ensures SameLive(AfterCleanup(l, cleanupAt).store, b, now)
  {
    forall key, t | t >= now ensures AgreeOn(AfterCleanup(l, cleanupAt).store, b, key, t) {
      assert AgreeOn(l.store, b, key, t);
    }
  }

  lemma {:induction false} CleanupKeepsLive(l: Limiter, configs: string -> Config, requests: seq<Request>, now: int)
    requires l.store == map[] && ClockRuns(requests)
    requires forall i :: 0 <= i < |requests| ==> requests[i].now <= now
    ensures SameLive(Run(l, configs, requests).store, RunKeeping(configs, requests), now)
  {
    if requests != [] {
      var init, q := requests[..|requests| - 1], requests[|requests| - 1];
      CleanupKeepsLive(l, configs, init, q.cleanupAt);
      var before := Run(l, configs, init);
      CleanupAlike(before, RunKeeping(configs, init), q.cleanupAt, q.now);
      DecideAlike(AfterCleanup(before, q.cleanupAt).store, RunKeeping(configs, init), q.key, configs(q.key), q.now);
    }
  }

  /** Every request gets the answer it would get from a limiter that never cleans up. */
  lemma CleanupIsInvisible(l: Limiter, configs: string -> Config, requests: seq<Request>, q: Request)
    requires l.store == map[] && ClockRuns(requests + [q])
    ensures Answer(Run(l, configs, requests), configs, q) ==
            Decide(RunKeeping(configs, requests), q.key, configs(q.key), q.now).0
  {
    var all := requests + [q];
    forall i | 0 <= i < |requests| ensures requests[i].now <= q.cleanupAt {
      assert all[i] == requests[i] && all[|requests|] == q;
    }
    assert ClockRuns(requests) by {
      assert forall i :: 0 <= i < |requests| ==> all[i] == requests[i];
    }
    assert all[|requests|].cleanupAt <= all[|requests|].now;
    CleanupKeepsLive(l, configs, requests, q.cleanupAt);
    var before := Run(l, configs, requests);
    CleanupAlike(before, RunKeeping(configs, requests), q.cleanupAt, q.now);
    DecideAlike(AfterCleanup(before, q.cleanupAt).store, RunKeeping(configs, requests), q.key, configs(q.key), q.now);
  }

  // ---- Cleanup does forget ----

  /** Nothing that had ended by the last cleanup is still stored. */
  ghost predicate Tidy(l: Limiter) {
    forall key :: key in l.store ==> l.store[key].resetAt > l.lastCleanup
  }

  lemma TidyStep(l: Limiter, configs: string -> Config, q: Request)
    requires Tidy(l) && l.lastCleanup <= q.cleanupAt <= q.now && configs(q.key).windowMs > 0
    ensures Tidy(Next(l, configs, q))
    ensures Next(l, configs, q).lastCleanup <= q.cleanupAt
    ensures q.cleanupAt - Next(l, configs, q).lastCleanup < CLEANUP_INTERVAL
  {
  }

  /** After every request, no stored window ended a cleanup interval or more before it. */
  lemma {:induction false} EndedWindowsGo(l: Limiter, configs: string -> Config, requests: seq<Request>)
    requires Tidy(l) && ClockRuns(requests) && forall key :: configs(key).windowMs > 0
    requires requests != [] ==> l.lastCleanup <= requests[0].cleanupAt
    ensures var after := Run(l, configs, requests);
      && Tidy(after)
      && (requests != [] ==>
          var last := requests[|requests| - 1];
          && after.lastCleanup <= last.cleanupAt
          && forall key :: key in after.store ==> after.store[key].resetAt > last.cleanupAt - 60_000)
  {
    if requests != [] {
      var init, last := requests[..|requests| - 1], requests[|requests| - 1];
      ClockOfPrefix(requests);
      EndedWindowsGo(l, configs, init);
      assert Run(l, configs, requests) == Next(Run(l, configs, init), configs, last);
      if init != [] {
        assert init[|init| - 1].cleanupAt <= init[|init| - 1].now <= last.cleanupAt;
      }
      hide Run, Next, ClockRuns;
      TidyStep(Run(l, configs, init), configs, last);
    }
  }

  // ---- How many requests get through ----

  /** Requests for `key` allowed at a time in `[from, to)`. */
  function AllowedIn(l: Limiter, configs: string -> Config, requests: seq<Request>, key: string,
                     from: int, to: int): nat
  {
    if requests == [] then 0
    else
      var init, q := requests[..|requests| - 1], requests[|requests| - 1];
      AllowedIn(l, configs, init, key, from, to)
      + if q.key == key && from <= q.now < to && Answer(Run(l, configs, init), configs, q).allowed then 1 else 0
  }

  /** A window's first request always passes, even with a limit below one. */
  function Cap(config: Config): nat {
    if config.limit >= 1 then config.limit else 1
  }

  /**
   The most that pass in an interval as long as the window: two windows can meet in it, unless the
   window is a single millisecond.
   */
  function Most(config: Config): nat {
    if config.windowMs <= 0 then 0
    else if config.windowMs == 1 then Cap(config)
    else 2 * Cap(config) - 1
  }

  /**
   The accounting behind the bound, for an interval `[from, from + windowMs)`, a store and the time of
   the latest request. The request that opened the current window matters: one that opened it before
   the interval is itself outside the interval.
   */
  ghost predicate Accounted(store: Store, config: Config, key: string, from: int, allowed: nat, latest: int) {
    && (latest < from ==> allowed == 0)
    && (key !in store ==> allowed == 0)
    && (config.windowMs <= 0 ==> allowed == 0)
    && (key in store ==>
        var entry := store[key];
        var openedAt := entry.resetAt - config.windowMs;
        && 1 <= entry.count <= Cap(config) && openedAt <= latest
        && (entry.resetAt <= from ==> allowed == 0)
        && (openedAt < from ==> allowed <= entry.count - 1)
        && (from <= openedAt < from + config.windowMs ==> allowed <= Cap(config) - 1 + entry.count)
        && (config.windowMs == 1 && openedAt == from ==> allowed <= entry.count)
        && allowed <= Most(config))
  }

  lemma AccountStep(store: Store, config: Config, key: string, from: int, allowed: nat, latest: int, now: int)
    requires Accounted(store, config, key, from, allowed, latest) && latest <= now
    ensures var decided := Decide(store, key, config, now);
      var more := if from <= now < from + config.windowMs && decided.0.allowed then 1 else 0;
      Accounted(store[key := decided.1], config, key, from, allowed + more, now)
  {
  }

  /** Requests for other keys leave the account alone. */
  lemma AccountOther(store: Store, store': Store, config: Config, key: string,
                     from: int, allowed: nat, latest: int, now: int)
    requires Accounted(store, config, key, from, allowed, latest) && latest <= now
    requires key in store <==> key in store'
    requires key in store ==> store'[key] == store[key]
    ensures Accounted(store', config, key, from, allowed, now)
  {
  }

  lemma {:induction false} RunIsAccounted(l: Limiter, configs: string -> Config, requests: seq<Request>,
                                          key: string, from: int, latest: int)
    requires l.store == map[] && ClockRuns(requests)
    requires forall i :: 0 <= i < |requests| ==> requests[i].now <= latest
    ensures Accounted(RunKeeping(configs, requests), configs(key), key, from,
                      AllowedIn(l, configs, requests, key, from, from + configs(key).windowMs), latest)
  {
    if requests != [] {
      var init, q := requests[..|requests| - 1], requests[|requests| - 1];
      hide Accounted;
      ClockOfPrefix(requests);
      RunIsAccounted(l, configs, init, key, from, q.cleanupAt);
      LastCounted(l, configs, requests, key, from, from + configs(key).windowMs);
      hide Run, RunKeeping, AllowedIn, ClockRuns, Decide;
      var before := AllowedIn(l, configs, init, key, from, from + configs(key).windowMs);
      if q.key == key {
        AccountStep(RunKeeping(configs, init), configs(key), key, from, before, q.cleanupAt, q.now);
      } else {
        AccountOther(RunKeeping(configs, init), RunKeeping(configs, requests), configs(key), key,
                     from, before, q.cleanupAt, q.now);
      }
      AccountOther(RunKeeping(configs, requests), RunKeeping(configs, requests), configs(key), key, from,
                   AllowedIn(l, configs, requests, key, from, from + configs(key).windowMs), q.now, latest);
    }
  }

  /**
   In any interval as long as the window, however it lies across windows, at most `Most` requests get
   through, whatever the other keys do and whenever cleanup runs.
   */
  lemma SlidingWindowBound(l: Limiter, configs: string -> Config, requests: seq<Request>, key: string, from: int)
    requires l.store == map[] && ClockRuns(requests)
    ensures AllowedIn(l, configs, requests, key, from, from + configs(key).windowMs) <= Most(configs(key))
  {
    if requests != [] {
      var latest := requests[|requests| - 1].now;
      assert forall i :: 0 <= i < |requests| - 1 ==> requests[i].now <= requests[|requests| - 1].cleanupAt;
      RunIsAccounted(l, configs, requests, key, from, latest);
    }
  }

  // ---- Within one window ----

  /** Request `k` starts a new window for its key. */
  predicate Opens(configs: string -> Config, requests: seq<Request>, k: nat)
    requires k < |requests|
  {
    !Find(RunKeeping(configs, requests[..k]), requests[k].key, requests[k].now)
  }

  /** Once a window opened at `from`: it is current and counts what passed, or it is over. */
  ghost predicate Counted(store: Store, config: Config, key: string, from: int, allowed: nat, latest: int) {
    && key in store
    && 1 <= allowed <= Cap(config)
    && var entry := store[key];
       || (entry.resetAt == from + config.windowMs && allowed == entry.count)
       || (entry.resetAt >= from + 2 * config.windowMs && latest >= from + config.windowMs)
  }

  lemma CountStep(store: Store, config: Config, key: string, from: int, allowed: nat, latest: int, now: int)
    requires Counted(store, config, key, from, allowed, latest) && config.windowMs > 0 && from <= latest <= now
    ensures var decided := Decide(store, key, config, now);
      var more := if from <= now < from + config.windowMs && decided.0.allowed then 1 else 0;
      Counted(store[key := decided.1], config, key, from, allowed + more, now)
  {
  }

  lemma CountOther(store: Store, store': Store, config: Config, key: string,
                   from: int, allowed: nat, latest: int, now: int)
    requires Counted(store, config, key, from, allowed, latest) && latest <= now
    requires key in store' && (key in store ==> store'[key] == store[key])
    ensures Counted(store', config, key, from, allowed, now)
  {
  }

  lemma CountedIsStored(store: Store, config: Config, key: string, from: int, allowed: nat, latest: int)
    requires Counted(store, config, key, from, allowed, latest)
    ensures key in store
  {
  }

  lemma {:induction false} RunIsCounted(l: Limiter, configs: string -> Config, requests: seq<Request>, k: nat)
    requires l.store == map[] && ClockRuns(requests) && k < |requests|
    requires configs(requests[k].key).windowMs > 0 && Opens(configs, requests, k)
    ensures var q := requests[k];
      Counted(RunKeeping(configs, requests), configs(q.key), q.key, q.now,
              AllowedIn(l, configs, requests, q.key, q.now, q.now + configs(q.key).windowMs),
              requests[|requests| - 1].now)
    ensures requests[k].now <= requests[|requests| - 1].now
  {
    hide Run, RunKeeping, AllowedIn, Counted, ClockRuns, Accounted, Decide;
    var init, last := requests[..|requests| - 1], requests[|requests| - 1];
    var q, key, from := requests[k], requests[k].key, requests[k].now;
    var config := configs(key);
    var soFar := AllowedIn(l, configs, init, key, from, from + config.windowMs);
    var store := RunKeeping(configs, init);
    ClockOfPrefix(requests);
    LastCounted(l, configs, requests, key, from, from + config.windowMs);
    if k == |requests| - 1 {
      RunIsAccounted(l, configs, init, key, from, last.cleanupAt);
      WindowStarts(store, config, key, from, soFar, last.cleanupAt);
    } else {
      assert init[..k] == requests[..k] && init[k] == q;
      RunIsCounted(l, configs, init, k);
      var previous := init[|init| - 1];
      assert previous == requests[|requests| - 2];
      CountedIsStored(store, config, key, from, soFar, previous.now);
      if last.key == key {
        CountStep(store, config, key, from, soFar, previous.now, last.now);
      } else {
        CountOther(store, RunKeeping(configs, requests), config, key, from, soFar, previous.now, last.now);
      }
    }
  }

  /** The request that opens a window is the first one counted in it. */
  lemma WindowStarts(store: Store, config: Config, key: string, now: int, allowed: nat, latest: int)
    requires Accounted(store, config, key, now, allowed, latest) && latest <= now
    requires !Find(store, key, now) && config.windowMs > 0
    ensures Decide(store, key, config, now).0.allowed
    ensures Counted(store[key := Decide(store, key, config, now).1], config, key, now, allowed + 1, now)
  {
  }

  /** The last request of a run, in terms of the limiter that never deletes. */
  lemma LastCounted(l: Limiter, configs: string -> Config, requests: seq<Request>, key: string, from: int, to: int)
    requires l.store == map[] && requests != [] && ClockRuns(requests)
    ensures var init, q := requests[..|requests| - 1], requests[|requests| - 1];
      var store := RunKeeping(configs, init);
      && RunKeeping(configs, requests) == store[q.key := Decide(store, q.key, configs(q.key), q.now).1]
      && AllowedIn(l, configs, requests, key, from, to) == AllowedIn(l, configs, init, key, from, to)
         + if q.key == key && from <= q.now < to && Decide(store, key, configs(key), q.now).0.allowed then 1 else 0
  {
    var init, q := requests[..|requests| - 1], requests[|requests| - 1];
    assert init + [q] == requests;
    CleanupIsInvisible(l, configs, init, q);
  }

  lemma ClockOfPrefix(requests: seq<Request>)
    requires requests != [] && ClockRuns(requests)
    ensures ClockRuns(requests[..|requests| - 1])
    ensures forall i :: 0 <= i < |requests| - 1 ==> requests[i].now <= requests[|requests| - 1].cleanupAt
    ensures requests[|requests| - 1].cleanupAt <= requests[|requests| - 1].now
  {
  }

  /** From the request that opens a window until the window ends, at most the limit gets through. */
  lemma WindowBound(l: Limiter, configs: string -> Config, requests: seq<Request>, k: nat)
    requires l.store == map[] && ClockRuns(requests) && k < |requests|
    requires configs(requests[k].key).windowMs > 0 && Opens(configs, requests, k)
    ensures var q := requests[k];
      AllowedIn(l, configs, requests, q.key, q.now, q.now + configs(q.key).windowMs) <= Cap(configs(q.key))
  {
    RunIsCounted(l, configs, requests, k);
  }

  /**
   What a caller is told: within a window, the requests let through so far and the remaining ones it
   reports always make up the limit, and the reset time it reports is the end of that window.
   */
  lemma RemainingAddsUp(l: Limiter, configs: string -> Config, requests: seq<Request>, k: nat, q: Request)
    requires l.store == map[] && ClockRuns(requests + [q]) && k < |requests|
    requires configs(q.key).windowMs > 0 && configs(q.key).limit >= 1
    requires requests[k].key == q.key && Opens(configs, requests, k)
    requires q.now < requests[k].now + configs(q.key).windowMs
    ensures var from, window := requests[k].now, configs(q.key).windowMs;
      var d := Answer(Run(l, configs, requests), configs, q);
      && AllowedIn(l, configs, requests + [q], q.key, from, from + window) + d.remaining == configs(q.key).limit
      && d.resetAt == from + window
  {
    hide Run, RunKeeping, AllowedIn, Answer, Counted, Decide, ClockRuns, Opens;
    var all := requests + [q];
    var from, config := requests[k].now, configs(q.key);
    var soFar := AllowedIn(l, configs, requests, q.key, from, from + config.windowMs);
    assert all[..|all| - 1] == requests && all[|all| - 1] == q;
    assert all[|requests| - 1] == requests[|requests| - 1];
    ClockOfPrefix(all);
    RunIsCounted(l, configs, requests, k);
    CleanupIsInvisible(l, configs, requests, q);
    LastCounted(l, configs, all, q.key, from, from + config.windowMs);
    RemainingInWindow(RunKeeping(configs, requests), config, q.key, from, soFar, requests[|requests| - 1].now, q.now);
  }

  /** The request that opens a window is told the same: it passed, and what remains of the limit until its end. */
  lemma OpenerIsTold(l: Limiter, configs: string -> Config, requests: seq<Request>, q: Request)
    requires l.store == map[] && ClockRuns(requests + [q])
    requires configs(q.key).windowMs > 0 && Opens(configs, requests + [q], |requests|)
    ensures var d, window := Answer(Run(l, configs, requests), configs, q), configs(q.key).windowMs;
      && d.allowed && d.resetAt == q.now + window
      && AllowedIn(l, configs, requests + [q], q.key, q.now, q.now + window) + d.remaining == configs(q.key).limit
  {
    hide Run, RunKeeping, AllowedIn, Answer, ClockRuns, Accounted;
    var all := requests + [q];
    assert all[..|all| - 1] == requests && all[|all| - 1] == q;
    assert !Find(RunKeeping(configs, requests), q.key, q.now) by {
      hide Find;
      assert all[..|requests|] == requests;
    }
    hide Opens;
    CleanupIsInvisible(l, configs, requests, q);
    ClockOfPrefix(all);
    LastCounted(l, configs, all, q.key, q.now, q.now + configs(q.key).windowMs);
    RunIsAccounted(l, configs, requests, q.key, q.now, q.cleanupAt);
    NoneBeforeOpener(RunKeeping(configs, requests), configs(q.key), q.key, q.now,
                     AllowedIn(l, configs, requests, q.key, q.now, q.now + configs(q.key).windowMs), q.cleanupAt);
  }

  lemma NoneBeforeOpener(store: Store, config: Config, key: string, from: int, allowed: nat, latest: int)
    requires Accounted(store, config, key, from, allowed, latest) && !Find(store, key, from)
    ensures allowed == 0
  {
  }

  lemma RemainingInWindow(store: Store, config: Config, key: string, from: int, allowed: nat, latest: int, now: int)
    requires Counted(store, config, key, from, allowed, latest)
    requires config.windowMs > 0 && config.limit >= 1 && from <= latest <= now < from + config.windowMs
    ensures var d := Decide(store, key, config, now).0;
      && allowed + (if d.allowed then 1 else 0) + d.remaining == config.limit
      && d.resetAt == from + config.windowMs
  {
  }

  /** A limit below one does not close the endpoint: each window still lets exactly its first request through. */
  lemma LimitBelowOneLetsOneThrough(l: Limiter, configs: string -> Config, requests: seq<Request>, k: nat)
    requires l.store == map[] && ClockRuns(requests) && k < |requests|
    requires configs(requests[k].key).windowMs > 0 && Opens(configs, requests, k)
    requires configs(requests[k].key).limit < 1
    ensures var q := requests[k];
      AllowedIn(l, configs, requests, q.key, q.now, q.now + configs(q.key).windowMs) == 1
  {
    RunIsCounted(l, configs, requests, k);
  }

  // ---- The sliding bound is met ----

  function Burst(key: string, at: int, n: nat): (requests: seq<Request>)
    ensures |requests| == n
  {
    seq(n, _ => Request(key, at, at))
  }

  /** What one key's requests have come to: its entry, and how many passed in `[from, to)`. */
  ghost predicate Reached(l: Limiter, configs: string -> Config, requests: seq<Request>, key: string,
                          from: int, to: int, entry: Entry, allowed: nat)
  {
    && key in RunKeeping(configs, requests) && RunKeeping(configs, requests)[key] == entry
    && AllowedIn(l, configs, requests, key, from, to) == allowed
  }

  /** A request without a current window passes and opens one. */
  lemma OpenerPasses(l: Limiter, configs: string -> Config, requests: seq<Request>, q: Request, from: int, to: int)
    requires l.store == map[] && ClockRuns(requests + [q])
    requires !Find(RunKeeping(configs, requests), q.key, q.now)
    ensures Reached(l, configs, requests + [q], q.key, from, to, Entry(1, q.now + configs(q.key).windowMs),
                    AllowedIn(l, configs, requests, q.key, from, to) + if from <= q.now < to then 1 else 0)
  {
    hide Run, RunKeeping, AllowedIn, ClockRuns;
    var all := requests + [q];
    assert all[..|all| - 1] == requests && all[|all| - 1] == q;
    LastCounted(l, configs, all, q.key, from, to);
  }

  /** A burst that the current window has room for passes entirely. */
  lemma {:induction false} BurstPasses(l: Limiter, configs: string -> Config, requests: seq<Request>, key: string,
                                       at: int, n: nat, from: int, to: int, entry: Entry, allowed: nat)
    requires l.store == map[] && ClockRuns(requests + Burst(key, at, n))
    requires Reached(l, configs, requests, key, from, to, entry, allowed)
    requires at < entry.resetAt && 1 <= entry.count && entry.count + n <= Cap(configs(key))
    ensures Reached(l, configs, requests + Burst(key, at, n), key, from, to, entry.(count := entry.count + n),
                    allowed + if from <= at < to then n else 0)
  {
    var all := requests + Burst(key, at, n);
    if n == 0 {
      assert all == requests;
    } else {
      var init := requests + Burst(key, at, n - 1);
      assert all[..|all| - 1] == init && all[|all| - 1] == Request(key, at, at);
      hide Run, RunKeeping, AllowedIn, ClockRuns, Burst;
      ClockOfPrefix(all);
      BurstPasses(l, configs, requests, key, at, n - 1, from, to, entry, allowed);
      LastCounted(l, configs, all, key, from, to);
    }
  }

  /** One request opens a window at 0, and `n` more come just before it ends. */
  function OneWindow(key: string, window: int, n: nat): seq<Request> {
    [Request(key, 0, 0)] + Burst(key, window - 1, n)
  }

  /** The same, and `n + 1` requests as soon as it is over. */
  function TwoWindows(key: string, window: int, n: nat): seq<Request> {
    OneWindow(key, window, n) + [Request(key, window, window)] + Burst(key, window, n)
  }

  lemma WindowsRun(key: string, window: int, n: nat)
    requires window > 0
    ensures ClockRuns([Request(key, 0, 0)])
    ensures ClockRuns(OneWindow(key, window, n))
    ensures ClockRuns(OneWindow(key, window, n) + [Request(key, window, window)])
    ensures ClockRuns(TwoWindows(key, window, n))
  {
  }

  lemma NothingYet(l: Limiter, configs: string -> Config, key: string, from: int, to: int, now: int)
    ensures AllowedIn(l, configs, [], key, from, to) == 0
    ensures !Find(RunKeeping(configs, []), key, now)
  {
  }

  lemma FirstWindow(l: Limiter, configs: string -> Config, key: string, from: int, to: int)
    requires l.store == map[] && configs(key).windowMs > 0
    ensures var window, n := configs(key).windowMs, Cap(configs(key)) - 1;
      Reached(l, configs, OneWindow(key, window, n), key, from, to, Entry(n + 1, window),
              (if from <= 0 < to then 1 else 0) + (if from <= window - 1 < to then n else 0))
  {
    hide Run, RunKeeping, AllowedIn, ClockRuns, Reached, Burst;
    var window, n := configs(key).windowMs, Cap(configs(key)) - 1;
    var first := Request(key, 0, 0);
    assert [] + [first] == [first];
    WindowsRun(key, window, n);
    NothingYet(l, configs, key, from, to, 0);
    OpenerPasses(l, configs, [], first, from, to);
    BurstPasses(l, configs, [first], key, window - 1, n, from, to, Entry(1, window), if from <= 0 < to then 1 else 0);
  }

  lemma SecondWindow(l: Limiter, configs: string -> Config, key: string, from: int, to: int, allowed: nat)
    requires l.store == map[] && 0 < configs(key).windowMs && from <= configs(key).windowMs < to
    requires var window, n := configs(key).windowMs, Cap(configs(key)) - 1;
      Reached(l, configs, OneWindow(key, window, n), key, from, to, Entry(n + 1, window), allowed)
    ensures var window, n := configs(key).windowMs, Cap(configs(key)) - 1;
      AllowedIn(l, configs, TwoWindows(key, window, n), key, from, to) == allowed + Cap(configs(key))
  {
    var window, n := configs(key).windowMs, Cap(configs(key)) - 1;
    var opener := Request(key, window, window);
    hide Run, RunKeeping, AllowedIn, ClockRuns, Burst, OneWindow;
    WindowsRun(key, window, n);
    OpenerPasses(l, configs, OneWindow(key, window, n), opener, from, to);
    BurstPasses(l, configs, OneWindow(key, window, n) + [opener], key, window, n, from, to,
                Entry(1, 2 * window), allowed + 1);
  }

  /**
   For every key and every configuration some run lets `Most` requests through in an interval as long
   as the window: one request opens a window, the rest of its limit comes just before it ends, and a
   whole limit just after.
   */
  lemma SlidingWindowBoundIsMet(l: Limiter, configs: string -> Config, key: string)
    returns (requests: seq<Request>, from: int)
    requires l.store == map[]
    ensures ClockRuns(requests)
    ensures AllowedIn(l, configs, requests, key, from, from + configs(key).windowMs) == Most(configs(key))
  {
    var window, n := configs(key).windowMs, Cap(configs(key)) - 1;
    from := if window == 1 then 0 else 1;
    if window <= 0 {
      requests := [];
    } else {
      hide Run, RunKeeping, AllowedIn, ClockRuns, OneWindow, TwoWindows;
      WindowsRun(key, window, n);
      FirstWindow(l, configs, key, from, from + window);
      requests := OneWindow(key, window, n);
      if window >= 2 {
        SecondWindow(l, configs, key, from, from + window, n);
        requests := TwoWindows(key, window, n);
      }
    }
  }
}
