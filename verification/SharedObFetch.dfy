/** The shared fetch hook: a request-id guard against out-of-order responses. */
module SharedObFetch {
  import opened Wrappers

  /** Where an outstanding request is waiting. */
  datatype Phase = AwaitResponse | AwaitBody | AwaitErrorBody

  /** Fetched data, with the id of the request that brought it. */
  datatype Shown = Shown(from: nat, body: string)

  datatype Hook = Hook(
    requestId: nat,
    data: Option<Shown>,
    loading: bool,
    error: Option<string>,
    pending: map<nat, Phase>
  )

  datatype Event =
    /** The effect runs: `rerun` when it replaces an earlier one, whose cleanup then runs first. */
    | Effect(rerun: bool, configured: bool, path: Option<string>)
    | Unmount
    | Response(id: nat, ok: bool)
    | Body(id: nat, body: string)
    /** The request, or the reading of its body, failed. An error response ends the same way. */
    | Failure(id: nat, message: string)

  const INITIAL := Hook(0, None, false, None, map[])

  predicate Possible(h: Hook, e: Event) {
    match e
    case Effect(_, _, _) => true
    case Unmount => true
    case Response(id, _) => id in h.pending && h.pending[id] == AwaitResponse
    case Body(id, _) => id in h.pending && h.pending[id] == AwaitBody
    case Failure(id, _) => id in h.pending
  }

  /** The fetch routine up to its first wait. */
  function Fetch(h: Hook, configured: bool, path: Option<string>): Hook {
    if !configured then h
    else if path.None? then h.(requestId := h.requestId + 1, data := None, loading := false, error := None)
    else
      h.(requestId := h.requestId + 1, loading := true, error := None,
         pending := h.pending[h.requestId + 1 := AwaitResponse])
  }

  function Step(h: Hook, e: Event): Hook {
    match e
    case Effect(rerun, configured, path) =>
      Fetch(if rerun then h.(requestId := h.requestId + 1) else h, configured, path)
    case Unmount => h.(requestId := h.requestId + 1)
    case Response(id, ok) =>
      if id != h.requestId then h.(pending := h.pending - {id})
      else h.(pending := h.pending[id := if ok then AwaitBody else AwaitErrorBody])
    case Body(id, body) =>
      var ended := h.(pending := h.pending - {id});
      if id != h.requestId then ended else ended.(data := Some(Shown(id, body)), loading := false)
    case Failure(id, message) =>
      var ended := h.(pending := h.pending - {id});
      if id != h.requestId then ended else ended.(data := None, error := Some(message), loading := false)
  }

  function Run(events: seq<Event>): Hook {
    if events == [] then INITIAL else Step(Run(events[..|events| - 1]), events[|events| - 1])
  }

  /** A run the browser can produce: answers come to outstanding requests only, also after unmounting. */
  ghost predicate EachPossible(events: seq<Event>) {
    forall i :: 0 <= i < |events| ==> Possible(Run(events[..i]), events[i])
  }

  /** So far the hook is mounted: the first effect run is its mount, and it has not been unmounted. */
  ghost predicate Mounted(events: seq<Event>) {
    && EachPossible(events)
    && (forall i :: 0 <= i < |events| && events[i].Effect? ==> (events[i].rerun <==> i > 0))
    && (forall i :: 0 <= i < |events| ==> !events[i].Unmount?)
  }

  lemma PossibleBefore(events: seq<Event>)
    requires events != [] && EachPossible(events)
    ensures EachPossible(events[..|events| - 1])
    ensures Possible(Run(events[..|events| - 1]), events[|events| - 1])
  {
    var init := events[..|events| - 1];
    forall i | 0 <= i < |init| ensures Possible(Run(init[..i]), init[i]) {
      assert init[..i] == events[..i] && init[i] == events[i];
    }
  }

  // ---- Superseded requests ----

  predicate AnswersRequest(e: Event) {
    e.Response? || e.Body? || e.Failure?
  }

  predicate Superseded(h: Hook, e: Event) {
    AnswersRequest(e) && e.id != h.requestId
  }

  ghost predicate SameView(a: Hook, b: Hook) {
    a.data == b.data && a.loading == b.loading && a.error == b.error
  }

  /** Two runs that differ in superseded requests only. */
  ghost predicate SameButSuperseded(a: Hook, b: Hook) {
    && SameView(a, b) && a.requestId == b.requestId
    && (a.requestId in a.pending <==> a.requestId in b.pending)
    && (a.requestId in a.pending ==> a.pending[a.requestId] == b.pending[a.requestId])
    && (forall id :: id in a.pending || id in b.pending ==> id <= a.requestId)
  }

  /** The events that were not answers to superseded requests when they came. */
  function Relevant(events: seq<Event>): seq<Event> {
    if events == [] then []
    else
      var init, last := events[..|events| - 1], events[|events| - 1];
      Relevant(init) + if Superseded(Run(init), last) then [] else [last]
  }

  lemma RunMore(events: seq<Event>, e: Event)
    ensures Run(events + [e]) == Step(Run(events), e)
    ensures EachPossible(events) && Possible(Run(events), e) ==> EachPossible(events + [e])
  {
    var more := events + [e];
    assert more[..|events|] == events;
    if EachPossible(events) && Possible(Run(events), e) {
      forall i | 0 <= i < |more| ensures Possible(Run(more[..i]), more[i]) {
        assert i < |events| ==> more[..i] == events[..i];
      }
    }
  }

  lemma StepAlike(a: Hook, b: Hook, e: Event)
    requires SameButSuperseded(a, b) && Possible(a, e)
    ensures Superseded(a, e) ==> SameButSuperseded(Step(a, e), b)
    ensures !Superseded(a, e) ==> Possible(b, e) && SameButSuperseded(Step(a, e), Step(b, e))
  {
  }

  /**
   Under every interleaving, leaving out all answers to superseded requests changes nothing the
   component sees, now or later, and what is left is itself a possible run.
   */
  lemma {:induction false} SupersededAnswersDoNotMatter(events: seq<Event>)
    requires EachPossible(events)
    ensures SameButSuperseded(Run(events), Run(Relevant(events)))
    ensures EachPossible(Relevant(events))
  {
    if events != [] {
      var init, last := events[..|events| - 1], events[|events| - 1];
      var kept, more := Relevant(init), Relevant(init) + [last];
      PossibleBefore(events);
      SupersededAnswersDoNotMatter(init);
      assert Run(events) == Step(Run(init), last);
      assert Relevant(events) == if Superseded(Run(init), last) then kept else more;
      hide Run, Relevant, Step, SameButSuperseded, Superseded, Possible, EachPossible;
      StepAlike(Run(init), Run(kept), last);
      RunMore(kept, last);
    }
  }

  /** Unmounted with `newest` as its last request: every outstanding one is superseded. */
  ghost predicate Closed(h: Hook, newest: nat) {
    h.requestId == newest + 1 && forall id :: id in h.pending ==> id <= newest
  }

  lemma LateAnswer(h: Hook, e: Event, newest: nat)
    requires Closed(h, newest) && AnswersRequest(e) && Possible(h, e)
    ensures SameView(Step(h, e), h) && Closed(Step(h, e), newest)
  {
  }

  lemma Unmounting(events: seq<Event>)
    requires EachPossible(events)
    ensures SameView(Step(Run(events), Unmount), Run(events))
    ensures Closed(Step(Run(events), Unmount), Run(events).requestId)
  {
    SupersededAnswersDoNotMatter(events);
  }

  /** After unmounting, answers that still come in change nothing that was shown. */
  lemma {:induction false} NothingShownAfterUnmount(events: seq<Event>, late: seq<Event>)
    requires EachPossible(events + [Unmount] + late)
    requires forall i :: 0 <= i < |late| ==> AnswersRequest(late[i])
    ensures SameView(Run(events + [Unmount] + late), Run(events))
    ensures Closed(Run(events + [Unmount] + late), Run(events).requestId)
  {
    hide Step, Run, Closed, Possible, EachPossible, AnswersRequest;
    var all := events + [Unmount] + late;
    PossibleBefore(all);
    if late == [] {
      assert all[..|all| - 1] == events && all == events + [Unmount];
      RunMore(events, Unmount);
      Unmounting(events);
    } else {
      var before, last := events + [Unmount] + late[..|late| - 1], late[|late| - 1];
      assert all[..|all| - 1] == before && all == before + [last];
      NothingShownAfterUnmount(events, late[..|late| - 1]);
      RunMore(before, last);
      LateAnswer(Run(before), last, Run(events).requestId);
    }
  }

  // ---- What is shown ----

  /** Request `id` was answered well, and later its body came. */
  ghost predicate BodyCame(events: seq<Event>, id: nat, body: string) {
    exists i, j :: 0 <= i < j < |events| && events[i] == Response(id, true) && events[j] == Body(id, body)
  }

  ghost predicate Failed(events: seq<Event>, message: string) {
    exists j :: 0 <= j < |events| && events[j].Failure? && events[j].message == message
  }

  /** A request waits for its body only after a good response to it. */
  ghost predicate WaitsAfterResponse(events: seq<Event>) {
    forall id :: id in Run(events).pending && Run(events).pending[id] == AwaitBody ==>
      exists i :: 0 <= i < |events| && events[i] == Response(id, true)
  }

  lemma StillAfterResponse(events: seq<Event>)
    requires events != [] && WaitsAfterResponse(events[..|events| - 1])
    ensures WaitsAfterResponse(events)
  {
    var init, last := events[..|events| - 1], events[|events| - 1];
    forall id | id in Run(events).pending && Run(events).pending[id] == AwaitBody
      ensures exists i :: 0 <= i < |events| && events[i] == Response(id, true)
    {
      if id in Run(init).pending && Run(init).pending[id] == AwaitBody {
        var i :| 0 <= i < |init| && init[i] == Response(id, true);
        assert events[i] == init[i];
      } else {
        assert events[|init|] == Response(id, true);
      }
    }
  }

  lemma BodyStays(events: seq<Event>, e: Event, id: nat, body: string)
    requires BodyCame(events, id, body)
    ensures BodyCame(events + [e], id, body)
  {
    var i, j :| 0 <= i < j < |events| && events[i] == Response(id, true) && events[j] == Body(id, body);
    var more := events + [e];
    assert more[i] == events[i] && more[j] == events[j];
  }

  lemma FailureStays(events: seq<Event>, e: Event, message: string)
    requires Failed(events, message)
    ensures Failed(events + [e], message)
  {
    var j :| 0 <= j < |events| && events[j].Failure? && events[j].message == message;
    assert (events + [e])[j] == events[j];
  }

  /** One event shows nothing but what it carries. */
  lemma StepShows(h: Hook, e: Event)
    ensures Step(h, e).data.Some? && Step(h, e).data != h.data ==>
      e == Body(Step(h, e).data.value.from, Step(h, e).data.value.body)
    ensures Step(h, e).error.Some? && Step(h, e).error != h.error ==>
      e.Failure? && e.message == Step(h, e).error.value
  {
  }

  ghost predicate ShownCameFor(h: Hook, events: seq<Event>) {
    && (h.data.Some? ==> BodyCame(events, h.data.value.from, h.data.value.body))
    && (h.error.Some? ==> Failed(events, h.error.value))
  }

  lemma ShownCameStep(init: seq<Event>, last: Event)
    requires WaitsAfterResponse(init) && Possible(Run(init), last) && ShownCameFor(Run(init), init)
    ensures ShownCameFor(Step(Run(init), last), init + [last])
  {
    hide Run, Step, WaitsAfterResponse, Possible, BodyCame, Failed;
    var before, after := Run(init), Step(Run(init), last);
    StepShows(before, last);
    if after.data.Some? {
      if after.data == before.data {
        BodyStays(init, last, before.data.value.from, before.data.value.body);
      } else {
        NewBodyCame(init, last.id, last.body);
      }
    }
    if after.error.Some? {
      if after.error == before.error {
        FailureStays(init, last, before.error.value);
      } else {
        NewFailure(init, last);
      }
    }
  }

  /** Only what came is shown: data is the body of a well-answered request, an error the message of a failure. */
  lemma {:induction false} ShownCame(events: seq<Event>)
    requires EachPossible(events)
    ensures WaitsAfterResponse(events)
    ensures ShownCameFor(Run(events), events)
  {
    if events != [] {
      var init, last := events[..|events| - 1], events[|events| - 1];
      PossibleBefore(events);
      ShownCame(init);
      StillAfterResponse(events);
      assert events == init + [last] && Run(events) == Step(Run(init), last);
      hide Run, Step, EachPossible, WaitsAfterResponse, ShownCameFor, Possible;
      ShownCameStep(init, last);
    }
  }

  lemma NewBodyCame(events: seq<Event>, id: nat, body: string)
    requires WaitsAfterResponse(events) && Possible(Run(events), Body(id, body))
    ensures BodyCame(events + [Body(id, body)], id, body)
  {
    var i :| 0 <= i < |events| && events[i] == Response(id, true);
    var more := events + [Body(id, body)];
    assert more[i] == Response(id, true) && more[|events|] == Body(id, body);
  }

  lemma NewFailure(events: seq<Event>, e: Event)
    requires e.Failure?
    ensures Failed(events + [e], e.message)
  {
    assert (events + [e])[|events|] == e;
  }

  /** What the newest request's last answer was is what is shown then, whatever was shown before. */
  lemma NewestAnswerIsShown(events: seq<Event>, e: Event)
    requires EachPossible(events + [e]) && AnswersRequest(e) && e.id == Run(events).requestId
    ensures var after := Run(events + [e]);
      && (e.Body? ==> after.data == Some(Shown(e.id, e.body)) && !after.loading && after.error == Run(events).error)
      && (e.Failure? ==> after.data == None && !after.loading && after.error == Some(e.message))
      && (e.Response? ==> SameView(after, Run(events)) && e.id in after.pending)
  {
    assert (events + [e])[..|events|] == events;
    PossibleBefore(events + [e]);
  }

  /** A new path starts loading and keeps the old data meanwhile; no path clears everything. */
  lemma EffectIsShown(events: seq<Event>, rerun: bool, path: Option<string>)
    ensures var before, after := Run(events), Run(events + [Effect(rerun, true, path)]);
      && after.error == None && after.requestId > before.requestId
      && (path.Some? ==> after.loading && after.data == before.data && after.requestId in after.pending)
      && (path.None? ==> !after.loading && after.data == None && after.pending == before.pending)
  {
    assert (events + [Effect(rerun, true, path)])[..|events|] == events;
  }

  // ---- Loading and data ----

  /** Loading exactly while the newest request is outstanding; settled data comes from that request. */
  ghost predicate InStep(h: Hook) {
    && (h.loading <==> h.requestId in h.pending)
    && (h.data.Some? ==> h.data.value.from <= h.requestId)
    && (!h.loading && h.data.Some? ==> h.data.value.from == h.requestId && h.error.None?)
    && (h.loading ==> h.error.None?)
    && (forall id :: id in h.pending ==> id <= h.requestId)
  }

  /**
   One step keeps a mounted hook in step, but for one way: rerunning the effect once the base URL is
   gone would leave the old request's loading flag, and its data, standing for a request never sent.
   The URL is fixed when the app is built, so it never goes; the two lemmas about whole runs below
   cover what can happen.
   */
  lemma StepStaysInStep(h: Hook, e: Event)
    requires InStep(h) && Possible(h, e) && !e.Unmount?
    requires h == INITIAL || (e.Effect? ==> e.rerun)
    ensures InStep(Step(h, e)) <==>
      !(e.Effect? && e.rerun && !e.configured && (h.loading || h.data.Some?))
  {
  }

  /** With the base URL set, the hook is in step in every run until it unmounts. */
  lemma {:induction false} ConfiguredRunsStayInStep(events: seq<Event>)
    requires Mounted(events)
    requires forall i :: 0 <= i < |events| && events[i].Effect? ==> events[i].configured
    ensures InStep(Run(events))
  {
    if events != [] {
      PossibleBefore(events);
      ConfiguredRunsStayInStep(events[..|events| - 1]);
      if |events| == 1 {
        assert Run(events[..0]) == INITIAL;
      }
      StepStaysInStep(Run(events[..|events| - 1]), events[|events| - 1]);
    }
  }

  /** What would happen: with a URL in one effect run and none in the next, the hook would load forever. */
  lemma LostUrlWouldLoadForever(path: string)
    ensures var events := [Effect(false, true, Some(path)), Effect(true, false, Some(path))];
      Mounted(events) && Run(events).loading && Run(events).requestId !in Run(events).pending
  {
    var first, second := Effect(false, true, Some(path)), Effect(true, false, Some(path));
    assert [first, second][..1] == [first] && [first][..0] == [] && [first, second][..0] == [];
    assert Run([first]) == Step(INITIAL, first);
  }

  /** Without a base URL nothing is ever fetched. */
  lemma {:induction false} UnconfiguredStaysIdle(events: seq<Event>)
    requires EachPossible(events)
    requires forall i :: 0 <= i < |events| && events[i].Effect? ==> !events[i].configured
    ensures SameView(Run(events), INITIAL) && Run(events).pending == map[]
  {
    if events != [] {
      PossibleBefore(events);
      UnconfiguredStaysIdle(events[..|events| - 1]);
    }
  }

  // ---- The hook object ----

  class SharedObHook {
    var requestId: nat
    var data: Option<Shown>
    var loading: bool
    var error: Option<string>
    var pending: map<nat, Phase>

    function State(): Hook
      reads this
    {
      Hook(requestId, data, loading, error, pending)
    }

    constructor ()
      ensures State() == INITIAL
    {
      requestId, data, loading, error, pending := 0, None, false, None, map[];
    }

    method RunEffect(rerun: bool, configured: bool, path: Option<string>)
      modifies this
      ensures State() == Step(old(State()), Effect(rerun, configured, path))
    {
      if rerun {
        requestId := requestId + 1;
      }
      if !configured {
        return;
      }
      requestId := requestId + 1;
      error := None;
      if path.None? {
        loading, data := false, None;
        return;
      }
      loading := true;
      pending := pending[requestId := AwaitResponse];
    }

    method OnResponse(id: nat, ok: bool)
      modifies this
      ensures State() == Step(old(State()), Response(id, ok))
    {
      if id != requestId {
        pending := pending - {id};
        return;
      }
      pending := pending[id := if ok then AwaitBody else AwaitErrorBody];
    }

    method OnBody(id: nat, body: string)
      modifies this
      ensures State() == Step(old(State()), Body(id, body))
      ensures id == requestId ==> data == Some(Shown(id, body)) && !loading
      ensures id != requestId ==> data == old(data) && loading == old(loading) && error == old(error)
    {
      pending := pending - {id};
      if id != requestId {
        return;
      }
      data := Some(Shown(id, body));
      loading := false;
    }

    method OnFailure(id: nat, message: string)
      modifies this
      ensures State() == Step(old(State()), Failure(id, message))
      ensures id == requestId ==> data == None && !loading && error == Some(message)
      ensures id != requestId ==> data == old(data) && loading == old(loading) && error == old(error)
    {
      pending := pending - {id};
      if id != requestId {
        return;
      }
      error := Some(message);
      data := None;
      loading := false;
    }
  }
}
