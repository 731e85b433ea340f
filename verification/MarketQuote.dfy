/** The debounced DEX quote: cancelled attempts, kept quotes, and the submit path's reuse test. */
module MarketQuote {
  import opened Wrappers

  datatype Params = Params(chainId: int, sellToken: string, buyToken: string, sellAmount: int,
                           minReceive: int, recipient: string, slippageBps: int)

  datatype Route = Route(calldata: string)

  /** The state the hook returns. */
  datatype Quote = Quote(route: Option<Route>, loading: bool, error: Option<string>, params: Option<Params>)

  /** One run of the effect: waiting for its debounce timer, then for the aggregator. */
  datatype Attempt = Attempt(params: Params, sent: bool)

  /** `current` is the attempt that has not been cancelled; `deps` what the effect last ran for. */
  datatype Hook = Hook(quote: Quote, current: Option<nat>, attempts: map<nat, Attempt>, next: nat,
                       deps: Option<(Option<string>, bool)>)

  datatype Event =
    | Render(params: Option<Params>, enabled: bool)
    | Timer(id: nat)
    | Resolve(id: nat, route: Route)
    | Reject(id: nat, message: string, noRouter: bool)
    | Unmount

  const NO_QUOTE := Quote(None, false, None, None)
  const INITIAL := Hook(NO_QUOTE, None, map[], 0, None)

  function ParamsMatch(a: Option<Params>, b: Option<Params>): bool {
    if a.None? || b.None? then false
    else
      && a.value.chainId == b.value.chainId
      && a.value.sellToken == b.value.sellToken
      && a.value.buyToken == b.value.buyToken
      && a.value.sellAmount == b.value.sellAmount
      && a.value.minReceive == b.value.minReceive
      && a.value.recipient == b.value.recipient
      && a.value.slippageBps == b.value.slippageBps
  }

  /** Two inputs match exactly when both are there and agree in everything. */
  lemma MatchIff(a: Option<Params>, b: Option<Params>)
    ensures ParamsMatch(a, b) <==> a.Some? && a == b
  {
  }

  /** The memoised signature that decides whether the effect runs again. */
  type Signature = Params -> string

  /** Cancelling clears a waiting timer; a fetch already sent can still come back. */
  function Cancel(h: Hook): Hook {
    if h.current.None? then h
    else
      var id := h.current.value;
      h.(current := None,
         attempts := if id in h.attempts && !h.attempts[id].sent then h.attempts - {id} else h.attempts)
  }

  function Begin(h: Hook, params: Option<Params>, enabled: bool): Hook {
    if !enabled || params.None? then h.(quote := NO_QUOTE)
    else
      h.(quote := h.quote.(loading := true, error := None), current := Some(h.next),
         attempts := h.attempts[h.next := Attempt(params.value, false)], next := h.next + 1)
  }

  function Deps(sig: Signature, params: Option<Params>, enabled: bool): (Option<string>, bool) {
    (if params.Some? then Some(sig(params.value)) else None, enabled)
  }

  function Ended(h: Hook, id: nat): Hook {
    h.(attempts := h.attempts - {id})
  }

  function Step(sig: Signature, h: Hook, e: Event): Hook {
    match e
    case Render(params, enabled) =>
      if h.deps == Some(Deps(sig, params, enabled)) then h
      else Begin(Cancel(h), params, enabled).(deps := Some(Deps(sig, params, enabled)))
    case Timer(id) => if id in h.attempts then h.(attempts := h.attempts[id := h.attempts[id].(sent := true)]) else h
    case Resolve(id, route) =>
      if h.current != Some(id) || id !in h.attempts then Ended(h, id)
      else Ended(h, id).(quote := Quote(Some(route), false, None, Some(h.attempts[id].params)))
    case Reject(id, message, noRouter) =>
      if h.current != Some(id) then Ended(h, id)
      else if noRouter then Ended(h, id).(quote := NO_QUOTE)
      else Ended(h, id).(quote := h.quote.(loading := false, error := Some(message)))
    case Unmount => Cancel(h)
  }

  predicate Possible(h: Hook, e: Event) {
    match e
    case Render(_, _) => true
    case Timer(id) => id in h.attempts && !h.attempts[id].sent
    case Resolve(id, _) => id in h.attempts && h.attempts[id].sent
    case Reject(id, _, _) => id in h.attempts && h.attempts[id].sent
    case Unmount => true
  }

  function Run(sig: Signature, events: seq<Event>): Hook {
    if events == [] then INITIAL else Step(sig, Run(sig, events[..|events| - 1]), events[|events| - 1])
  }

  ghost predicate EachPossible(sig: Signature, events: seq<Event>) {
    forall i :: 0 <= i < |events| ==> Possible(Run(sig, events[..i]), events[i])
  }

  lemma PossibleBefore(sig: Signature, events: seq<Event>)
    requires events != [] && EachPossible(sig, events)
    ensures EachPossible(sig, events[..|events| - 1])
    ensures Possible(Run(sig, events[..|events| - 1]), events[|events| - 1])
  {
    var init := events[..|events| - 1];
    forall i | 0 <= i < |init| ensures Possible(Run(sig, init[..i]), init[i]) {
      assert init[..i] == events[..i] && init[i] == events[i];
    }
  }

  // ---- Cancelled attempts ----

  predicate Stale(h: Hook, e: Event) {
    (e.Timer? || e.Resolve? || e.Reject?) && h.current != Some(e.id)
  }

  ghost predicate SameButStale(a: Hook, b: Hook) {
    && a.quote == b.quote && a.current == b.current && a.next == b.next && a.deps == b.deps
    && (a.current.Some? ==>
        && (a.current.value in a.attempts <==> a.current.value in b.attempts)
        && (a.current.value in a.attempts ==> a.attempts[a.current.value] == b.attempts[a.current.value]))
    && (a.current.Some? ==> a.current.value < a.next)
  }

  function Relevant(sig: Signature, events: seq<Event>): seq<Event> {
    if events == [] then []
    else
      var init, last := events[..|events| - 1], events[|events| - 1];
      Relevant(sig, init) + if Stale(Run(sig, init), last) then [] else [last]
  }

  lemma StepAlike(sig: Signature, a: Hook, b: Hook, e: Event)
    requires SameButStale(a, b) && Possible(a, e)
    ensures Stale(a, e) ==> SameButStale(Step(sig, a, e), b)
    ensures !Stale(a, e) ==> Possible(b, e) && SameButStale(Step(sig, a, e), Step(sig, b, e))
  {
  }

  lemma RunMore(sig: Signature, events: seq<Event>, e: Event)
    ensures Run(sig, events + [e]) == Step(sig, Run(sig, events), e)
    ensures EachPossible(sig, events) && Possible(Run(sig, events), e) ==> EachPossible(sig, events + [e])
  {
    var more := events + [e];
    assert more[..|events|] == events;
    if EachPossible(sig, events) && Possible(Run(sig, events), e) {
      forall i | 0 <= i < |more| ensures Possible(Run(sig, more[..i]), more[i]) {
        assert i < |events| ==> more[..i] == events[..i];
      }
    }
  }

  /** Under every interleaving, dropping all that cancelled attempts do leaves the same quote. */
  lemma {:induction false} CancelledAttemptsDoNotMatter(sig: Signature, events: seq<Event>)
    requires EachPossible(sig, events)
    ensures SameButStale(Run(sig, events), Run(sig, Relevant(sig, events)))
    ensures EachPossible(sig, Relevant(sig, events))
  {
    if events != [] {
      var init, last := events[..|events| - 1], events[|events| - 1];
      var kept := Relevant(sig, init);
      PossibleBefore(sig, events);
      CancelledAttemptsDoNotMatter(sig, init);
      assert Run(sig, events) == Step(sig, Run(sig, init), last);
      assert Relevant(sig, events) == if Stale(Run(sig, init), last) then kept else kept + [last];
      hide Run, Relevant, Step, SameButStale, Stale, Possible, EachPossible;
      StepAlike(sig, Run(sig, init), Run(sig, kept), last);
      RunMore(sig, kept, last);
    }
  }

  /** After unmounting, a fetch that still comes back changes no quote. */
  lemma {:induction false} NoQuoteAfterUnmount(sig: Signature, events: seq<Event>, late: seq<Event>)
    requires forall i :: 0 <= i < |late| ==> !late[i].Render?
    ensures Run(sig, events + [Unmount] + late).quote == Run(sig, events).quote
    ensures Run(sig, events + [Unmount] + late).current == None
  {
    var all := events + [Unmount] + late;
    var init := all[..|all| - 1];
    if late == [] {
      assert init == events;
    } else {
      assert init == events + [Unmount] + late[..|late| - 1];
      NoQuoteAfterUnmount(sig, events, late[..|late| - 1]);
    }
  }

  // ---- What each event shows ----

  /** The inputs that every attempt was begun for were rendered, with the quote enabled. */
  ghost predicate BegunForRendered(sig: Signature, events: seq<Event>) {
    forall id :: id in Run(sig, events).attempts ==> Rendered(events, Run(sig, events).attempts[id].params)
  }

  ghost predicate Rendered(events: seq<Event>, p: Params) {
    exists j :: 0 <= j < |events| && events[j] == Render(Some(p), true)
  }

  lemma {:induction false} AttemptsAreForRendered(sig: Signature, events: seq<Event>)
    ensures BegunForRendered(sig, events)
  {
    if events != [] {
      var init, last := events[..|events| - 1], events[|events| - 1];
      AttemptsAreForRendered(sig, init);
      var before, after := Run(sig, init), Run(sig, events);
      assert after == Step(sig, before, last);
      forall id | id in after.attempts ensures Rendered(events, after.attempts[id].params) {
        if id in before.attempts && after.attempts[id].params == before.attempts[id].params {
          var j :| 0 <= j < |init| && init[j] == Render(Some(before.attempts[id].params), true);
          assert events[j] == init[j];
        } else {
          assert events[|init|] == Render(Some(after.attempts[id].params), true);
        }
      }
    }
  }

  /** A route that comes back for the open attempt is shown with the rendered inputs it was asked for. */
  lemma ResolvedIsShown(sig: Signature, events: seq<Event>, id: nat, route: Route)
    requires EachPossible(sig, events + [Resolve(id, route)]) && Run(sig, events).current == Some(id)
    ensures var quote := Run(sig, events + [Resolve(id, route)]).quote;
      && quote.route == Some(route) && !quote.loading && quote.error == None
      && quote.params.Some? && Rendered(events, quote.params.value)
  {
    assert (events + [Resolve(id, route)])[..|events|] == events;
    PossibleBefore(sig, events + [Resolve(id, route)]);
    AttemptsAreForRendered(sig, events);
  }

  /** A failure of the open attempt keeps the last quote and shows the error; without a router all is cleared. */
  lemma RejectedIsShown(sig: Signature, events: seq<Event>, id: nat, message: string, noRouter: bool)
    requires Run(sig, events).current == Some(id)
    ensures var before, after := Run(sig, events).quote, Run(sig, events + [Reject(id, message, noRouter)]).quote;
      && !after.loading
      && (noRouter ==> after.route == None && after.params == None && after.error == None)
      && (!noRouter ==> after.route == before.route && after.params == before.params && after.error == Some(message))
  {
    assert (events + [Reject(id, message, noRouter)])[..|events|] == events;
  }

  /**
   New inputs start loading at once and keep the last quote meanwhile; inputs that cannot be quoted,
   or a disabled quote, clear it; the same inputs again change nothing.
   */
  lemma RenderIsShown(sig: Signature, events: seq<Event>, params: Option<Params>, enabled: bool)
    ensures var before, after := Run(sig, events), Run(sig, events + [Render(params, enabled)]);
      var key := (if params.Some? then Some(sig(params.value)) else None, enabled);
      if before.deps == Some(key) then after == before
      else
        && after.deps == Some(key)
        && (enabled && params.Some? ==>
            && after.quote.loading && after.quote.error == None
            && after.quote.route == before.quote.route && after.quote.params == before.quote.params
            && after.current == Some(before.next) && before.next in after.attempts
            && after.attempts[before.next] == Attempt(params.value, false))
        && (!enabled || params.None? ==>
            && after.quote.route == None && after.quote.params == None && !after.quote.loading
            && after.quote.error == None && after.current == None)
  {
    assert (events + [Render(params, enabled)])[..|events|] == events;
  }

  // ---- Loading ----

  /** Loading exactly while the one uncancelled attempt is outstanding; route and params come together. */
  ghost predicate InStep(h: Hook) {
    && (h.quote.loading <==> h.current.Some? && h.current.value in h.attempts)
    && (h.quote.route.Some? <==> h.quote.params.Some?)
    && (forall id :: id in h.attempts ==> id < h.next)
    && (h.current.Some? ==> h.current.value < h.next)
    && (forall id :: id in h.attempts && h.current != Some(id) ==> h.attempts[id].sent)
  }

  lemma StepStaysInStep(sig: Signature, h: Hook, e: Event)
    requires InStep(h) && Possible(h, e) && !e.Unmount?
    ensures InStep(Step(sig, h, e))
  {
  }

  /** The hook is in step in every run until it unmounts. */
  lemma {:induction false} RunsStayInStep(sig: Signature, events: seq<Event>)
    requires EachPossible(sig, events) && forall i :: 0 <= i < |events| ==> !events[i].Unmount?
    ensures InStep(Run(sig, events))
  {
    if events != [] {
      PossibleBefore(sig, events);
      RunsStayInStep(sig, events[..|events| - 1]);
      StepStaysInStep(sig, Run(sig, events[..|events| - 1]), events[|events| - 1]);
    }
  }

  // ---- What a stored quote was fetched for ----

  /** Some fetch sent with `p` came back with `route`. */
  ghost predicate FetchedFor(sig: Signature, events: seq<Event>, p: Params, route: Route) {
    exists j :: 0 <= j < |events| && IsAnswer(Run(sig, events[..j]), events[j], p, route)
  }

  predicate IsAnswer(h: Hook, e: Event, p: Params, route: Route) {
    e.Resolve? && e.route == route && e.id in h.attempts && h.attempts[e.id] == Attempt(p, true)
  }

  lemma FetchedStays(sig: Signature, events: seq<Event>, p: Params, route: Route)
    requires events != [] && FetchedFor(sig, events[..|events| - 1], p, route)
    ensures FetchedFor(sig, events, p, route)
  {
    var init := events[..|events| - 1];
    var j :| 0 <= j < |init| && IsAnswer(Run(sig, init[..j]), init[j], p, route);
    assert init[..j] == events[..j] && init[j] == events[j];
  }

  /** The stored route always answers a fetch for the stored params, whatever happened since. */
  lemma {:induction false} StoredQuoteWasFetched(sig: Signature, events: seq<Event>)
    requires EachPossible(sig, events)
    ensures var quote := Run(sig, events).quote;
      && (quote.route.Some? <==> quote.params.Some?)
      && (quote.params.Some? ==> FetchedFor(sig, events, quote.params.value, quote.route.value))
  {
    if events != [] {
      var init, last := events[..|events| - 1], events[|events| - 1];
      var before, quote := Run(sig, init), Run(sig, events).quote;
      PossibleBefore(sig, events);
      StoredQuoteWasFetched(sig, init);
      assert Run(sig, events) == Step(sig, before, last);
      if last.Resolve? && before.current == Some(last.id) {
        assert IsAnswer(Run(sig, events[..|init|]), events[|init|], quote.params.value, quote.route.value);
      } else if quote.params.Some? {
        assert quote.params == before.quote.params && quote.route == before.quote.route;
        hide Run, Step, FetchedFor, EachPossible;
        FetchedStays(sig, events, quote.params.value, quote.route.value);
      }
    }
  }

  /** So when the submit path's test passes, the route it reuses was fetched for the submitted inputs. */
  lemma MatchingQuoteIsForTheseInputs(sig: Signature, events: seq<Event>, submitted: Option<Params>)
    requires EachPossible(sig, events)
    requires ParamsMatch(Run(sig, events).quote.params, submitted)
    ensures submitted.Some? && Run(sig, events).quote.route.Some?
    ensures FetchedFor(sig, events, submitted.value, Run(sig, events).quote.route.value)
  {
    hide Run, ParamsMatch;
    StoredQuoteWasFetched(sig, events);
    MatchIff(Run(sig, events).quote.params, submitted);
  }

  // ---- The hook object ----

  class MarketQuoteHook {
    const sig: Signature
    var quote: Quote
    var current: Option<nat>
    var attempts: map<nat, Attempt>
    var next: nat
    var deps: Option<(Option<string>, bool)>

    function State(): Hook
      reads this
    {
      Hook(quote, current, attempts, next, deps)
    }

    constructor (sig: Signature)
      ensures State() == INITIAL && this.sig == sig
    {
      this.sig := sig;
      quote, current, attempts, next, deps := NO_QUOTE, None, map[], 0, None;
    }

    method Cleanup()
      modifies this
      ensures State() == Cancel(old(State()))
    {
      if current.Some? {
        var id := current.value;
        current := None;
        if id in attempts && !attempts[id].sent {
          attempts := attempts - {id};
        }
      }
    }

    method OnRender(params: Option<Params>, enabled: bool)
      modifies this
      ensures State() == Step(sig, old(State()), Render(params, enabled))
    {
      var key := (if params.Some? then Some(sig(params.value)) else None, enabled);
      if deps == Some(key) {
        return;
      }
      Cleanup();
      deps := Some(key);
      if !enabled || params.None? {
        quote := NO_QUOTE;
        return;
      }
      quote := quote.(loading := true, error := None);
      current := Some(next);
      attempts := attempts[next := Attempt(params.value, false)];
      next := next + 1;
    }

    method OnTimer(id: nat)
      requires Possible(State(), Timer(id))
      modifies this
      ensures State() == Step(sig, old(State()), Timer(id))
      ensures id in attempts && attempts[id] == Attempt(old(attempts)[id].params, true) && quote == old(quote)
    {
      attempts := attempts[id := attempts[id].(sent := true)];
    }

    method OnResolve(id: nat, route: Route)
      requires Possible(State(), Resolve(id, route))
      modifies this
      ensures State() == Step(sig, old(State()), Resolve(id, route))
      ensures current == Some(id) ==> quote == Quote(Some(route), false, None, Some(old(attempts)[id].params))
      ensures current != Some(id) ==> quote == old(quote)
    {
      var params := attempts[id].params;
      attempts := attempts - {id};
      if current != Some(id) {
        return;
      }
      quote := Quote(Some(route), false, None, Some(params));
    }

    method OnReject(id: nat, message: string, noRouter: bool)
      requires Possible(State(), Reject(id, message, noRouter))
      modifies this
      ensures State() == Step(sig, old(State()), Reject(id, message, noRouter))
    {
      attempts := attempts - {id};
      if current != Some(id) {
        return;
      }
      if noRouter {
        quote := NO_QUOTE;
        return;
      }
      quote := Quote(quote.route, false, Some(message), quote.params);
    }
  }
}
