/**
  The single-flight probe of a remote gateway: the first caller for a URL leads
  and probes, later ones wait for its result, and one cache line keeps the result
  of the latest probe of any URL. Every function on State below is one critical
  section of the module's condition variable.
 */
module ProbeCache {
  import opened Options

  type Url = nat
  type Payload = nat
  type Caller = nat

  const TTL := 5.0

  datatype Line = Line(url: Url, expires: real, result: Payload)

  // Where one call stands. An answer from the cache keeps the clock reading it was compared with.
  datatype Call =
    | Asleep(url: Url, deadline: real)
    | Woken(url: Url, deadline: real)
    | Leading(url: Url)
    | Answered(url: Url, result: Payload, cachedAt: Option<real>)
    | Raised(url: Url)

  type Calls = map<Caller, Call>

  // A probe that returned, and the clock reading at its completion.
  datatype Probe = Probe(url: Url, result: Payload, at: real)

  datatype State = State(line: Option<Line>, inflight: set<Url>, calls: Calls, done: seq<Probe>)

  // ----- one critical section each -----

  function Cached(line: Option<Line>, url: Url, now: real): Option<Payload>
  {
    if line.Some? && line.value.url == url && line.value.expires > now then Some(line.value.result) else None
  }

  // Answer from the cache or take the lead.
  function Settle(s: State, c: Caller, url: Url, now: real): State
  {
    var hit := Cached(s.line, url, now);
    if hit.Some? then s.(calls := s.calls[c := Answered(url, hit.value, Some(now))])
    else s.(inflight := s.inflight + {url}, calls := s.calls[c := Leading(url)])
  }

  function Enter(s: State, c: Caller, url: Url, now: real, budget: real): State
  {
    if Cached(s.line, url, now).None? && url in s.inflight
    then s.(calls := s.calls[c := Asleep(url, now + budget)])
    else Settle(s, c, url, now)
  }

  // One turn of the waiting loop: `now` is read for the deadline, `later` for the cache.
  function Wake(s: State, c: Caller, now: real, later: real): State
    requires c in s.calls && (s.calls[c].Asleep? || s.calls[c].Woken?)
  {
    var url, deadline := s.calls[c].url, s.calls[c].deadline;
    if url in s.inflight && deadline - now > 0.0
    then s.(calls := s.calls[c := Asleep(url, deadline)])
    else Settle(s, c, url, later)
  }

  function NotifyAll(calls: Calls): Calls
  {
    map c | c in calls :: if calls[c].Asleep? then Woken(calls[c].url, calls[c].deadline) else calls[c]
  }

  // The end of a probe: a payload, or None if it raised.
  function Finish(s: State, c: Caller, payload: Option<Payload>, now: real): State
    requires c in s.calls && s.calls[c].Leading?
  {
    var url := s.calls[c].url;
    var after := if payload.Some? then Answered(url, payload.value, None) else Raised(url);
    State(if payload.Some? then Some(Line(url, now + TTL, payload.value)) else s.line,
          s.inflight - {url},
          NotifyAll(s.calls)[c := after],
          if payload.Some? then s.done + [Probe(url, payload.value, now)] else s.done)
  }

  // ----- the module's variables -----

  datatype Turn = Hit(result: Payload) | Wait | Lead

  class RemoteProbe {
    var url: Option<Url>
    var expires: real
    var result: Option<Payload>
    var inflight: set<Url>
    ghost var calls: Calls
    ghost var done: seq<Probe>

    ghost predicate Valid()
      reads this
    {
      url.Some? <==> result.Some?
    }

    ghost function Now(): State
      requires Valid()
      reads this
    {
      State(if url.Some? then Some(Line(url.value, expires, result.value)) else None, inflight, calls, done)
    }

    constructor ()
      ensures Valid() && Now() == START
    {
      url, expires, result, inflight := None, 0.0, None, {};
      calls, done := map[], [];
    }

    method CachedResult(u: Url, now: real) returns (r: Option<Payload>)
      requires Valid()
      ensures r == Cached(Now().line, u, now)
    {
      r := if url == Some(u) && expires > now then result else None;
    }

    method Begin(c: Caller, u: Url, now: real, budget: real) returns (t: Turn)
      requires Valid()
      modifies this
      ensures Valid() && Now() == Enter(old(Now()), c, u, now, budget)
      ensures t.Hit? ==> Now().calls[c] == Answered(u, t.result, Some(now))
      ensures t.Wait? ==> Now().calls[c] == Asleep(u, now + budget)
      ensures t.Lead? ==> Now().calls[c] == Leading(u)
    {
      var hit := CachedResult(u, now);
      if hit.Some? {
        calls := calls[c := Answered(u, hit.value, Some(now))];
        return Hit(hit.value);
      }
      if u in inflight {
        calls := calls[c := Asleep(u, now + budget)];
        return Wait;
      }
      inflight := inflight + {u};
      calls := calls[c := Leading(u)];
      t := Lead;
    }

    method Again(c: Caller, u: Url, deadline: real, now: real, later: real) returns (t: Turn)
      requires Valid() && c in calls && calls[c] in {Asleep(u, deadline), Woken(u, deadline)}
      modifies this
      ensures Valid() && Now() == Wake(old(Now()), c, now, later)
      ensures t.Hit? ==> Now().calls[c] == Answered(u, t.result, Some(later))
      ensures t.Wait? ==> Now().calls[c] == Asleep(u, deadline)
      ensures t.Lead? ==> Now().calls[c] == Leading(u)
    {
      if u in inflight && deadline - now > 0.0 {
        calls := calls[c := Asleep(u, deadline)];
        return Wait;
      }
      var hit := CachedResult(u, later);
      if hit.Some? {
        calls := calls[c := Answered(u, hit.value, Some(later))];
        return Hit(hit.value);
      }
      inflight := inflight + {u};
      calls := calls[c := Leading(u)];
      t := Lead;
    }

    method End(c: Caller, u: Url, payload: Option<Payload>, now: real)
      requires Valid() && c in calls && calls[c] == Leading(u)
      modifies this
      ensures Valid() && Now() == Finish(old(Now()), c, payload, now)
    {
      if payload.Some? {
        url, expires, result := Some(u), now + TTL, payload;
        done := done + [Probe(u, payload.value, now)];
      }
      inflight := inflight - {u};
      calls := NotifyAll(calls)[c := if payload.Some? then Answered(u, payload.value, None) else Raised(u)];
    }
  }

  // ----- every run of any number of callers, clocks arbitrary -----

  datatype Event =
    | Enters(c: Caller, url: Url, now: real, budget: real)
    | Wakes(c: Caller, now: real, later: real)
    | Finishes(c: Caller, payload: Option<Payload>, now: real)

  const START := State(None, {}, map[], [])

  predicate Enabled(s: State, e: Event)
  {
    match e
    case Enters(c, _, _, _) => c !in s.calls
    case Wakes(c, _, _) => c in s.calls && (s.calls[c].Asleep? || s.calls[c].Woken?)
    case Finishes(c, _, _) => c in s.calls && s.calls[c].Leading?
  }

  function After(s: State, e: Event): State
  {
    if !Enabled(s, e) then s else
    match e
    case Enters(c, url, now, budget) => Enter(s, c, url, now, budget)
    case Wakes(c, now, later) => Wake(s, c, now, later)
    case Finishes(c, payload, now) => Finish(s, c, payload, now)
  }

  function Run(s: State, events: seq<Event>): State
  {
    if events == [] then s else After(Run(s, events[..|events| - 1]), events[|events| - 1])
  }

  // A waiter whose budget is spent, with the leader still at work and nothing cached.
  predicate GivesUp(s: State, e: Event)
  {
    && e.Wakes? && Enabled(s, e)
    && s.calls[e.c].url in s.inflight && s.calls[e.c].deadline <= e.now
    && Cached(s.line, s.calls[e.c].url, e.later).None?
  }

  predicate Patient(events: seq<Event>)
  {
    events == [] ||
    (Patient(events[..|events| - 1]) && !GivesUp(Run(START, events[..|events| - 1]), events[|events| - 1]))
  }

  ghost predicate Led(calls: Calls, url: Url)
  {
    exists c :: c in calls && calls[c] == Leading(url)
  }

  ghost predicate SleepersAreServed(s: State)
  {
    && (forall c | c in s.calls && s.calls[c].Asleep? :: s.calls[c].url in s.inflight)
    && (forall url | url in s.inflight :: Led(s.calls, url))
  }

  function LineOf(done: seq<Probe>): Option<Line>
  {
    if done == [] then None
    else var p := done[|done| - 1]; Some(Line(p.url, p.at + TTL, p.result))
  }

  // A result from the cache is that of a completed probe of the same URL, and was fresh when compared.
  ghost predicate Earned(done: seq<Probe>, call: Call)
  {
    call.Answered? ==>
      exists i :: 0 <= i < |done| && done[i].url == call.url && done[i].result == call.result
                  && (call.cachedAt.Some? ==> call.cachedAt.value < done[i].at + TTL)
  }

  ghost predicate AnswersEarned(s: State)
  {
    forall c | c in s.calls :: Earned(s.done, s.calls[c])
  }

  ghost predicate Sound(s: State)
  {
    SleepersAreServed(s) && s.line == LineOf(s.done) && AnswersEarned(s)
  }

  // At most one running leader per URL, and in flight exactly the URLs that have one.
  ghost predicate SingleFlight(s: State)
  {
    && (forall c, d | c in s.calls && d in s.calls && s.calls[c].Leading? && s.calls[c] == s.calls[d] :: c == d)
    && (forall url :: url in s.inflight <==> Led(s.calls, url))
  }

  lemma {:induction false} LedElsewhere(calls: Calls, c: Caller, call: Call, url: Url)
    requires Led(calls, url) && (c in calls ==> calls[c] != Leading(url))
    ensures Led(calls[c := call], url)
  {
    var d :| d in calls && calls[d] == Leading(url);
    assert calls[c := call][d] == Leading(url);
  }

  lemma {:induction false} EarnedForever(done: seq<Probe>, p: Probe, call: Call)
    requires Earned(done, call)
    ensures Earned(done + [p], call)
  {
    if call.Answered? {
      var i :| 0 <= i < |done| && done[i].url == call.url && done[i].result == call.result
               && (call.cachedAt.Some? ==> call.cachedAt.value < done[i].at + TTL);
      assert (done + [p])[i] == done[i];
    }
  }

  lemma {:induction false} SettleKeepsSound(s: State, c: Caller, url: Url, now: real)
    requires Sound(s) && (c in s.calls ==> !s.calls[c].Leading?)
    ensures Sound(Settle(s, c, url, now))
  {
    var s' := Settle(s, c, url, now);
    assert s'.calls[c].Leading? ==> Led(s'.calls, url);
    forall u | u in s'.inflight
      ensures Led(s'.calls, u)
    {
      if u in s.inflight {
        LedElsewhere(s.calls, c, s'.calls[c], u);
      }
    }
    if s'.calls[c].Answered? {
      var p := s.done[|s.done| - 1];
      assert p.url == url;
    }
  }

  lemma {:induction false} SleepKeepsSound(s: State, c: Caller, url: Url, deadline: real)
    requires Sound(s) && url in s.inflight && (c in s.calls ==> !s.calls[c].Leading?)
    ensures Sound(s.(calls := s.calls[c := Asleep(url, deadline)]))
  {
    forall u | u in s.inflight
      ensures Led(s.calls[c := Asleep(url, deadline)], u)
    {
      LedElsewhere(s.calls, c, Asleep(url, deadline), u);
    }
  }

  lemma {:induction false} FinishServesSleepers(s: State, c: Caller, payload: Option<Payload>, now: real)
    requires SleepersAreServed(s) && c in s.calls && s.calls[c].Leading?
    ensures SleepersAreServed(Finish(s, c, payload, now))
  {
    var s' := Finish(s, c, payload, now);
    forall u | u in s'.inflight
      ensures Led(s'.calls, u)
    {
      var d :| d in s.calls && s.calls[d] == Leading(u);
      assert s'.calls[d] == Leading(u);
    }
  }

  lemma {:induction false} FinishKeepsAnswers(s: State, c: Caller, payload: Option<Payload>, now: real)
    requires AnswersEarned(s) && c in s.calls && s.calls[c].Leading?
    ensures AnswersEarned(Finish(s, c, payload, now))
  {
    var s' := Finish(s, c, payload, now);
    forall d | d in s'.calls
      ensures Earned(s'.done, s'.calls[d])
    {
      if d != c && s'.calls[d].Answered? {
        assert s'.calls[d] == s.calls[d];
        if payload.Some? {
          EarnedForever(s.done, Probe(s.calls[c].url, payload.value, now), s.calls[d]);
        }
      } else if d == c && payload.Some? {
        assert s'.done[|s.done|] == Probe(s.calls[c].url, payload.value, now);
      }
    }
  }

  lemma {:induction false} SoundKept(s: State, e: Event)
    requires Sound(s)
    ensures Sound(After(s, e))
  {
    if Enabled(s, e) {
      match e
      case Enters(c, url, now, budget) =>
        if Cached(s.line, url, now).None? && url in s.inflight {
          SleepKeepsSound(s, c, url, now + budget);
        } else {
          SettleKeepsSound(s, c, url, now);
        }
      case Wakes(c, now, later) =>
        var url, deadline := s.calls[c].url, s.calls[c].deadline;
        if url in s.inflight && deadline - now > 0.0 {
          SleepKeepsSound(s, c, url, deadline);
        } else {
          SettleKeepsSound(s, c, url, later);
        }
      case Finishes(c, payload, now) =>
        FinishServesSleepers(s, c, payload, now);
        FinishKeepsAnswers(s, c, payload, now);
    }
  }

  lemma {:induction false} SoundAlways(events: seq<Event>)
    ensures Sound(Run(START, events))
  {
    if events == [] {
    } else {
      SoundAlways(events[..|events| - 1]);
      SoundKept(Run(START, events[..|events| - 1]), events[|events| - 1]);
    }
  }

  /** Nobody sleeps without a running leader to wake it, whatever budgets expire and probes raise. */
  lemma {:induction false} NoSleeperStranded(events: seq<Event>, c: Caller)
    requires c in Run(START, events).calls && Run(START, events).calls[c].Asleep?
    ensures Led(Run(START, events).calls, Run(START, events).calls[c].url)
  {
    SoundAlways(events);
  }

  /** A cached answer comes from a completed probe of its URL and was unexpired at the reading compared. */
  lemma {:induction false} CachedAnswersAreFresh(events: seq<Event>, c: Caller)
    requires c in Run(START, events).calls && Run(START, events).calls[c].Answered?
    ensures Earned(Run(START, events).done, Run(START, events).calls[c])
  {
    SoundAlways(events);
  }

  /**
    Exactly when the cache answers: the latest completed probe of any URL was of
    this one, less than TTL before the clock reading.
   */
  lemma {:induction false} CacheAnswersExactly(events: seq<Event>, url: Url, now: real)
    ensures var s := Run(START, events);
            Cached(s.line, url, now).Some? <==>
            s.done != [] && s.done[|s.done| - 1].url == url && now < s.done[|s.done| - 1].at + TTL
  {
    SoundAlways(events);
  }

  // A caller that probes with nobody else about, run from start to end.
  lemma {:induction false} LoneProbe(events: seq<Event>, c: Caller, url: Url, p: Payload, now: real, end: real)
    requires var s := Run(START, events);
             c !in s.calls && Cached(s.line, url, now).None? && url !in s.inflight
    ensures var s := Run(START, events);
            var s' := Run(START, events + [Enters(c, url, now, 7.0)] + [Finishes(c, Some(p), end)]);
            && s'.line == Some(Line(url, end + TTL, p)) && s'.done == s.done + [Probe(url, p, end)]
            && s'.inflight == s.inflight && s'.calls.Keys == s.calls.Keys + {c}
  {
    RunOne(START, events, Enters(c, url, now, 7.0));
    RunOne(START, events + [Enters(c, url, now, 7.0)], Finishes(c, Some(p), end));
    LeadAndFinish(Run(START, events), c, url, p, now, end);
  }

  lemma {:induction false} LeadAndFinish(s: State, c: Caller, url: Url, p: Payload, now: real, end: real)
    requires c !in s.calls && Cached(s.line, url, now).None? && url !in s.inflight
    ensures var s' := After(After(s, Enters(c, url, now, 7.0)), Finishes(c, Some(p), end));
            && s'.line == Some(Line(url, end + TTL, p)) && s'.done == s.done + [Probe(url, p, end)]
            && s'.inflight == s.inflight && s'.calls.Keys == s.calls.Keys + {c}
  {
  }

  /** "Cached for TTL seconds per URL" fails with two URLs: a probe of the other takes the line. */
  lemma {:induction false} OtherUrlTakesLine()
    ensures var events := [] + [Enters(0, 7, 0.0, 7.0)] + [Finishes(0, Some(1), 1.0)]
                          + [Enters(1, 8, 1.5, 7.0)] + [Finishes(1, Some(2), 2.0)];
            var s := Run(START, events);
            && s.done == [Probe(7, 1, 1.0), Probe(8, 2, 2.0)] && 2.5 < 1.0 + TTL
            && 2 !in s.calls && Enter(s, 2, 7, 2.5, 7.0).calls[2] == Leading(7)
  {
    LoneProbe([], 0, 7, 1, 0.0, 1.0);
    LoneProbe([] + [Enters(0, 7, 0.0, 7.0)] + [Finishes(0, Some(1), 1.0)], 1, 8, 2, 1.5, 2.0);
  }

  lemma {:induction false} RunOne(s: State, events: seq<Event>, e: Event)
    ensures Run(s, events + [e]) == After(Run(s, events), e)
  {
    assert (events + [e])[..|events|] == events;
  }

  // ----- single flight -----

  lemma {:induction false} SettleKeepsSingleFlight(s: State, c: Caller, url: Url, now: real)
    requires SingleFlight(s) && (c in s.calls ==> !s.calls[c].Leading?)
    requires url !in s.inflight || Cached(s.line, url, now).Some?
    ensures SingleFlight(Settle(s, c, url, now))
  {
    var s' := Settle(s, c, url, now);
    forall u
      ensures u in s'.inflight <==> Led(s'.calls, u)
    {
      if Led(s.calls, u) {
        LedElsewhere(s.calls, c, s'.calls[c], u);
      }
      if s'.calls[c] == Leading(u) {
        assert Led(s'.calls, u);
      } else if Led(s'.calls, u) {
        var d :| d in s'.calls && s'.calls[d] == Leading(u);
        assert s.calls[d] == Leading(u);
      }
    }
  }

  lemma {:induction false} SleepKeepsSingleFlight(s: State, c: Caller, url: Url, deadline: real)
    requires SingleFlight(s) && (c in s.calls ==> !s.calls[c].Leading?)
    ensures SingleFlight(s.(calls := s.calls[c := Asleep(url, deadline)]))
  {
    var calls := s.calls[c := Asleep(url, deadline)];
    forall u
      ensures u in s.inflight <==> Led(calls, u)
    {
      if Led(s.calls, u) {
        LedElsewhere(s.calls, c, Asleep(url, deadline), u);
      }
      if Led(calls, u) {
        var d :| d in calls && calls[d] == Leading(u);
        assert s.calls[d] == Leading(u);
      }
    }
  }

  lemma {:induction false} FinishKeepsSingleFlight(s: State, c: Caller, payload: Option<Payload>, now: real)
    requires SingleFlight(s) && c in s.calls && s.calls[c].Leading?
    ensures SingleFlight(Finish(s, c, payload, now))
  {
    var s' := Finish(s, c, payload, now);
    forall u
      ensures u in s'.inflight <==> Led(s'.calls, u)
    {
      if Led(s'.calls, u) {
        var d :| d in s'.calls && s'.calls[d] == Leading(u);
        assert s.calls[d] == Leading(u) && d != c;
      }
      if u in s'.inflight {
        var d :| d in s.calls && s.calls[d] == Leading(u);
        assert s'.calls[d] == Leading(u);
      }
    }
  }

  lemma {:induction false} GivingUpDoublesLeader(s: State, e: Event)
    requires SingleFlight(s) && GivesUp(s, e)
    ensures !SingleFlight(After(s, e))
  {
    var url := s.calls[e.c].url;
    var d :| d in s.calls && s.calls[d] == Leading(url);
    assert After(s, e).calls[d] == After(s, e).calls[e.c] == Leading(url);
  }

  /** A step from a single-flight state keeps it exactly when it is no waiter giving up. */
  lemma {:induction false} SingleFlightKeptExactly(s: State, e: Event)
    requires SingleFlight(s)
    ensures SingleFlight(After(s, e)) <==> !GivesUp(s, e)
  {
    if GivesUp(s, e) {
      GivingUpDoublesLeader(s, e);
    } else if Enabled(s, e) {
      match e
      case Enters(c, url, now, budget) =>
        if Cached(s.line, url, now).None? && url in s.inflight {
          SleepKeepsSingleFlight(s, c, url, now + budget);
        } else {
          SettleKeepsSingleFlight(s, c, url, now);
        }
      case Wakes(c, now, later) =>
        var url, deadline := s.calls[c].url, s.calls[c].deadline;
        if url in s.inflight && deadline - now > 0.0 {
          SleepKeepsSingleFlight(s, c, url, deadline);
        } else {
          SettleKeepsSingleFlight(s, c, url, later);
        }
      case Finishes(c, payload, now) => FinishKeepsSingleFlight(s, c, payload, now);
    }
  }

  /** In every run in which no waiter gives up, at most one caller probes each URL, raising probes included. */
  lemma {:induction false} AlwaysSingleFlight(events: seq<Event>)
    requires Patient(events)
    ensures SingleFlight(Run(START, events))
  {
    if events == [] {
    } else {
      AlwaysSingleFlight(events[..|events| - 1]);
      SingleFlightKeptExactly(Run(START, events[..|events| - 1]), events[|events| - 1]);
    }
  }

  ghost predicate FlightAllAlong(events: seq<Event>)
  {
    forall k | 0 <= k <= |events| :: SingleFlight(Run(START, events[..k]))
  }

  lemma {:induction false} FlightOneOn(events: seq<Event>)
    requires events != []
    ensures FlightAllAlong(events) <==> FlightAllAlong(events[..|events| - 1]) && SingleFlight(Run(START, events))
  {
    var init := events[..|events| - 1];
    assert forall k | 0 <= k <= |init| :: init[..k] == events[..k];
    assert events[..|events|] == events;
  }

  /** Single flight holds all along a run if and only if no waiter gives up in it. */
  lemma {:induction false} SingleFlightExactlyIfPatient(events: seq<Event>)
    ensures Patient(events) <==> FlightAllAlong(events)
  {
    if events == [] {
    } else {
      var init, last := events[..|events| - 1], events[|events| - 1];
      SingleFlightExactlyIfPatient(init);
      FlightOneOn(events);
      if FlightAllAlong(init) {
        assert init[..|init|] == init;
        SingleFlightKeptExactly(Run(START, init), last);
      }
    }
  }

  /** Were the budget to run out, two callers would be probing one URL. */
  lemma {:induction false} TwoLeadersAfterBudget()
    ensures var events := [Enters(0, 7, 0.0, 7.0), Enters(1, 7, 0.5, 7.0), Wakes(1, 7.5, 7.5)];
            var s := Run(START, events);
            !Patient(events) && 0 in s.calls && 1 in s.calls && s.calls[0] == s.calls[1] == Leading(7)
  {
    var e0, e1, e2 := Enters(0, 7, 0.0, 7.0), Enters(1, 7, 0.5, 7.0), Wakes(1, 7.5, 7.5);
    RunOne(START, [], e0);
    RunOne(START, [e0], e1);
    RunOne(START, [e0, e1], e2);
    assert [] + [e0] == [e0] && [e0] + [e1] == [e0, e1] && [e0, e1] + [e2] == [e0, e1, e2];
    assert [e0, e1, e2][..2] == [e0, e1];
    assert GivesUp(Run(START, [e0, e1]), e2);
  }

  // No probe ends during these events, and every reading for the URL is before the line expires.
  predicate WithinLine(s: State, e: Event, url: Url, expires: real)
  {
    match e
    case Enters(_, u, now, _) => u == url ==> now < expires
    case Wakes(c, _, later) => c in s.calls && s.calls[c].url == url ==> later < expires
    case Finishes(_, _, _) => false
  }

  predicate AllWithinLine(s: State, events: seq<Event>, url: Url, expires: real)
  {
    events == [] ||
    (AllWithinLine(s, events[..|events| - 1], url, expires)
     && WithinLine(Run(s, events[..|events| - 1]), events[|events| - 1], url, expires))
  }

  /**
    One probe serves them all: until its line expires or another probe ends, every
    waiter that wakes and every newcomer for the URL gets its result, and none leads.
   */
  lemma {:induction false} OneProbeServesAll(s: State, events: seq<Event>, line: Line)
    requires s.line == Some(line) && line.url !in s.inflight
    requires AllWithinLine(s, events, line.url, line.expires)
    ensures var s' := Run(s, events);
            && s'.line == s.line && line.url !in s'.inflight
            && forall c | c in s'.calls && s'.calls[c].url == line.url ::
                 (c in s.calls && s'.calls[c] == s.calls[c])
                 || (s'.calls[c].Answered? && s'.calls[c].result == line.result && s'.calls[c].cachedAt.Some?)
  {
    if events == [] {
    } else {
      OneProbeServesAll(s, events[..|events| - 1], line);
    }
  }

  // ----- how long a call waits -----

  // The latest completed probe was of this URL and is younger than the TTL.
  predicate HasFresh(done: seq<Probe>, url: Url, now: real)
  {
    done != [] && done[|done| - 1].url == url && now < done[|done| - 1].at + TTL
  }

  /** A call that enters waits, leads or is answered by what is in flight and what was last completed. */
  lemma {:induction false} EntersExactly(events: seq<Event>, c: Caller, url: Url, now: real, budget: real)
    requires c !in Run(START, events).calls
    ensures var s, s' := Run(START, events), Run(START, events + [Enters(c, url, now, budget)]);
            && c in s'.calls
            && (s'.calls[c].Answered? <==> HasFresh(s.done, url, now))
            && (s'.calls[c].Asleep? <==> !HasFresh(s.done, url, now) && url in s.inflight)
            && (s'.calls[c].Leading? <==> !HasFresh(s.done, url, now) && url !in s.inflight)
  {
    assert (events + [Enters(c, url, now, budget)])[..|events|] == events;
    SoundAlways(events);
  }

  // The i-th event is where this call came in.
  predicate CameIn(events: seq<Event>, i: nat, c: Caller)
    requires i < |events|
  {
    events[i].Enters? && events[i].c == c && c !in Run(START, events[..i]).calls
  }

  lemma {:induction false} DeadlineKept(events: seq<Event>, i: nat, k: nat, c: Caller)
    requires i < k <= |events| && CameIn(events, i, c)
    ensures var s := Run(START, events[..k]);
            && c in s.calls && s.calls[c].url == events[i].url
            && (s.calls[c].Asleep? || s.calls[c].Woken? ==> s.calls[c].deadline == events[i].now + events[i].budget)
    decreases k
  {
    assert events[..k][..k - 1] == events[..k - 1];
    if i + 1 < k {
      DeadlineKept(events, i, k - 1, c);
    }
  }

  /**
    In every run a waiting call that wakes goes back to sleep exactly if its URL is
    still in flight and its budget, counted from where it came in, is not spent.
   */
  lemma {:induction false} WaitsExactly(events: seq<Event>, i: nat, k: nat, c: Caller)
    requires i < k < |events| && CameIn(events, i, c)
    requires events[k].Wakes? && events[k].c == c && Enabled(Run(START, events[..k]), events[k])
    ensures var s, s' := Run(START, events[..k]), Run(START, events[..k + 1]);
            && c in s'.calls
            && (s'.calls[c].Asleep? <==>
                  events[i].url in s.inflight && events[k].now < events[i].now + events[i].budget)
  {
    DeadlineKept(events, i, k, c);
    assert events[..k + 1][..k] == events[..k];
  }
}
