/**
  The per-session gate that throttles completion events: the first goes out at
  once, later ones inside the window replace each other and wait for a timer.
  Cancelling a timer does not stop a callback that has already begun.
 */
module EmitCoalescer {
  import opened Options

  type TimerId = nat
  type Payload = nat  // payloads are numbered in the order they are submitted

  datatype Timer = Timer(sid: Id, cancelled: bool, fired: bool)

  // The module dictionaries, and every timer started so far.
  datatype Slots = Slots(
    lastEmit: map<Id, real>,
    payloads: map<Id, Payload>,
    timers: map<Id, TimerId>,
    started: seq<Timer>)

  predicate WindowOpen(c: Slots, sid: Id, now: real, window: real)
  {
    sid !in c.lastEmit || now - c.lastEmit[sid] >= window
  }

  function CancelOld(c: Slots, sid: Id): seq<Timer>
  {
    if sid in c.timers && c.timers[sid] < |c.started|
    then c.started[c.timers[sid] := c.started[c.timers[sid]].(cancelled := true)]
    else c.started
  }

  function Submit(c: Slots, sid: Id, p: Payload, now: real, window: real): Slots
  {
    if WindowOpen(c, sid, now, window) then
      if sid in c.timers then Slots(c.lastEmit[sid := now], c.payloads - {sid}, c.timers - {sid}, CancelOld(c, sid))
      else c.(lastEmit := c.lastEmit[sid := now])
    else
      Slots(c.lastEmit, c.payloads[sid := p], c.timers[sid := |c.started|],
            CancelOld(c, sid) + [Timer(sid, false, false)])
  }

  // The timer callback pops whatever is pending for its session, even a newer timer's payload.
  function Flush(c: Slots, sid: Id, now: real): Slots
  {
    c.(payloads := c.payloads - {sid}, timers := c.timers - {sid},
       lastEmit := if sid in c.payloads then c.lastEmit[sid := now] else c.lastEmit)
  }

  class Coalescer {
    const window: real
    var lastEmit: map<Id, real>
    var payloads: map<Id, Payload>
    var timers: map<Id, TimerId>
    var started: seq<Timer>

    constructor (window: real)
      ensures Now() == Slots(map[], map[], map[], [])
    {
      this.window := window;
      lastEmit, payloads, timers, started := map[], map[], map[], [];
    }

    function Now(): Slots
      reads this
    {
      Slots(lastEmit, payloads, timers, started)
    }

    method Cancel(t: TimerId)
      requires t < |started|
      modifies this`started
      ensures started == old(started)[t := old(started)[t].(cancelled := true)]
    {
      started := started[t := started[t].(cancelled := true)];
    }

    // True when the caller must emit this payload itself.
    method EmitCoalesced(sid: Id, p: Payload, now: real) returns (emitNow: bool)
      requires forall s | s in timers :: timers[s] < |started|
      modifies this
      ensures emitNow <==> sid != NoId && WindowOpen(old(Now()), sid, now, window)
      ensures Now() == if sid == NoId then old(Now()) else Submit(old(Now()), sid, p, now, window)
    {
      emitNow := false;
      if sid == NoId {
        return;
      }
      var hasPending := sid in timers;
      if sid !in lastEmit || now - lastEmit[sid] >= window {
        lastEmit := lastEmit[sid := now];
        emitNow := true;
        if hasPending {
          payloads := payloads - {sid};
          var oldTimer := timers[sid];
          timers := timers - {sid};
          Cancel(oldTimer);
        }
      } else {
        payloads := payloads[sid := p];
      }
      if !emitNow {
        if sid in timers {
          Cancel(timers[sid]);
        }
        timers := timers[sid := |started|];
        started := started + [Timer(sid, false, false)];
      }
    }

    method FlushPending(sid: Id, now: real) returns (p: Option<Payload>)
      modifies this
      ensures p == if sid in old(payloads) then Some(old(payloads)[sid]) else None
      ensures Now() == Flush(old(Now()), sid, now)
    {
      p := if sid in payloads then Some(payloads[sid]) else None;
      payloads := payloads - {sid};
      timers := timers - {sid};
      if p.Some? {
        lastEmit := lastEmit[sid := now];
      }
    }
  }

  // ----- every run -----

  // A payload goes out with its own submission or from a timer callback.
  datatype Origin = Direct | Flushed
  datatype Release = Release(sid: Id, payload: Payload, at: real, origin: Origin)

  // newest holds the last payload submitted for each session; released lists
  // the payloads handed to the emitter in order, each with the clock reading of its step.
  datatype State = State(slots: Slots, count: nat, newest: map<Id, Payload>, released: seq<Release>)

  datatype Event =
    | Submitted(sid: Id, now: real)
    | CallbackRuns(timer: TimerId, at: real)
    | ReaperPrunes(sids: set<Id>)

  // Each timer's callback runs at most once; having been cancelled does not prevent it.
  predicate Enabled(s: State, e: Event)
  {
    match e
    case Submitted(sid, _) => sid != NoId
    case CallbackRuns(t, _) => t < |s.slots.started| && !s.slots.started[t].fired
    case ReaperPrunes(_) => true
  }

  function Step(s: State, e: Event, window: real): State
  {
    if !Enabled(s, e) then s else
    match e
    case Submitted(sid, now) =>
      State(Submit(s.slots, sid, s.count, now, window), s.count + 1, s.newest[sid := s.count],
            if WindowOpen(s.slots, sid, now, window) then s.released + [Release(sid, s.count, now, Direct)]
            else s.released)
    case CallbackRuns(t, now) =>
      var sid := s.slots.started[t].sid;
      s.(slots := Flush(s.slots.(started := s.slots.started[t := s.slots.started[t].(fired := true)]), sid, now),
         released := if sid in s.slots.payloads then s.released + [Release(sid, s.slots.payloads[sid], now, Flushed)]
                     else s.released)
    case ReaperPrunes(sids) => s.(slots := s.slots.(lastEmit := s.slots.lastEmit - sids))
  }

  const START := State(Slots(map[], map[], map[], []), 0, map[], [])

  function Run(events: seq<Event>, window: real): State
  {
    if events == [] then START else Step(Run(events[..|events| - 1], window), events[|events| - 1], window)
  }

  // What is pending is the newest payload, under a timer that is neither cancelled nor spent.
  ghost predicate PendingLive(s: State)
  {
    && s.slots.payloads.Keys == s.slots.timers.Keys
    && (forall sid | sid in s.slots.timers ::
          s.slots.timers[sid] < |s.slots.started| && s.slots.started[s.slots.timers[sid]] == Timer(sid, false, false))
    && (forall sid | sid in s.slots.payloads :: sid in s.newest && s.slots.payloads[sid] == s.newest[sid])
  }

  ghost predicate InOrder(rs: seq<Release>)
  {
    forall i, j | 0 <= i < j < |rs| && rs[i].sid == rs[j].sid :: rs[i].payload < rs[j].payload
  }

  ghost predicate Released(s: State, sid: Id, p: Payload)
  {
    exists i :: 0 <= i < |s.released| && s.released[i].sid == sid && s.released[i].payload == p
  }

  // Released payloads are never ahead of the newest, and behind what is pending.
  ghost predicate Ordered(s: State)
  {
    && InOrder(s.released)
    && (forall sid | sid in s.newest :: s.newest[sid] < s.count)
    && (forall i | 0 <= i < |s.released| ::
          var r := s.released[i];
          && r.sid in s.newest && r.payload <= s.newest[r.sid]
          && (r.sid in s.slots.payloads ==> r.payload < s.slots.payloads[r.sid]))
  }

  ghost predicate NoneLost(s: State)
  {
    forall sid | sid in s.newest :: sid in s.slots.payloads || Released(s, sid, s.newest[sid])
  }

  ghost predicate Inv(s: State)
  {
    PendingLive(s) && Ordered(s) && NoneLost(s)
  }

  lemma {:induction false} OneMore(s: State, s': State, r: Release)
    requires s'.released == s.released + [r]
    ensures Released(s', r.sid, r.payload)
    ensures forall sid, p | Released(s, sid, p) :: Released(s', sid, p)
  {
    assert s'.released[|s.released|] == r;
    forall sid, p | Released(s, sid, p)
      ensures Released(s', sid, p)
    {
      var i :| 0 <= i < |s.released| && s.released[i].sid == sid && s.released[i].payload == p;
      assert s'.released[i] == s.released[i];
    }
  }

  lemma {:induction false} SubmitKeepsPendingLive(s: State, sid: Id, now: real, window: real)
    requires PendingLive(s) && sid != NoId
    ensures PendingLive(Step(s, Submitted(sid, now), window))
  {
    var c, c' := s.slots, Step(s, Submitted(sid, now), window).slots;
    forall k | k in c'.timers
      ensures c'.timers[k] < |c'.started| && c'.started[c'.timers[k]] == Timer(k, false, false)
    {
      if k != sid {
        assert k in c.timers && c'.timers[k] == c.timers[k];
        assert sid in c.timers ==> c.timers[sid] != c.timers[k];
      }
    }
  }

  lemma {:induction false} SubmitKeepsOrdered(s: State, sid: Id, now: real, window: real)
    requires PendingLive(s) && Ordered(s) && sid != NoId
    ensures Ordered(Step(s, Submitted(sid, now), window))
  {
  }

  lemma {:induction false} SubmitLosesNone(s: State, sid: Id, now: real, window: real)
    requires PendingLive(s) && NoneLost(s) && sid != NoId
    ensures NoneLost(Step(s, Submitted(sid, now), window))
  {
    var s' := Step(s, Submitted(sid, now), window);
    if WindowOpen(s.slots, sid, now, window) {
      OneMore(s, s', Release(sid, s.count, now, Direct));
    }
    forall k | k in s'.newest
      ensures k in s'.slots.payloads || Released(s', k, s'.newest[k])
    {
      if k != sid && k !in s.slots.payloads {
        assert Released(s, k, s.newest[k]);
      }
    }
  }

  lemma {:induction false} CallbackKeepsPendingLive(s: State, t: TimerId, now: real, window: real)
    requires PendingLive(s) && t < |s.slots.started| && !s.slots.started[t].fired
    ensures PendingLive(Step(s, CallbackRuns(t, now), window))
  {
  }

  lemma {:induction false} CallbackKeepsOrdered(s: State, t: TimerId, now: real, window: real)
    requires PendingLive(s) && Ordered(s) && t < |s.slots.started| && !s.slots.started[t].fired
    ensures Ordered(Step(s, CallbackRuns(t, now), window))
  {
  }

  lemma {:induction false} CallbackLosesNone(s: State, t: TimerId, now: real, window: real)
    requires PendingLive(s) && NoneLost(s) && t < |s.slots.started| && !s.slots.started[t].fired
    ensures NoneLost(Step(s, CallbackRuns(t, now), window))
  {
    var s', sid := Step(s, CallbackRuns(t, now), window), s.slots.started[t].sid;
    if sid in s.slots.payloads {
      OneMore(s, s', Release(sid, s.slots.payloads[sid], now, Flushed));
    }
    forall k | k in s'.newest
      ensures k in s'.slots.payloads || Released(s', k, s'.newest[k])
    {
      if k !in s.slots.payloads {
        assert Released(s, k, s.newest[k]);
      }
    }
  }

  lemma {:induction false} InvKept(s: State, e: Event, window: real)
    requires Inv(s) && Enabled(s, e)
    ensures Inv(Step(s, e, window))
  {
    match e
    case Submitted(sid, now) =>
      SubmitKeepsPendingLive(s, sid, now, window);
      SubmitKeepsOrdered(s, sid, now, window);
      SubmitLosesNone(s, sid, now, window);
    case CallbackRuns(t, now) =>
      CallbackKeepsPendingLive(s, t, now, window);
      CallbackKeepsOrdered(s, t, now, window);
      CallbackLosesNone(s, t, now, window);
    case ReaperPrunes(_) =>
      assert forall k, p | Released(s, k, p) :: Released(Step(s, e, window), k, p);
  }

  lemma {:induction false} InvAlways(events: seq<Event>, window: real)
    ensures Inv(Run(events, window))
  {
    if events == [] {
    } else {
      InvAlways(events[..|events| - 1], window);
      if Enabled(Run(events[..|events| - 1], window), events[|events| - 1]) {
        InvKept(Run(events[..|events| - 1], window), events[|events| - 1], window);
      }
    }
  }

  /** A payload waits exactly where a timer waits, and that timer will still flush it. */
  lemma {:induction false} PendingHasLiveTimer(events: seq<Event>, window: real, sid: Id)
    ensures var c := Run(events, window).slots;
            && (sid in c.payloads <==> sid in c.timers)
            && (sid in c.timers ==> c.timers[sid] < |c.started| && c.started[c.timers[sid]] == Timer(sid, false, false))
  {
    InvAlways(events, window);
  }

  /** No payload is released twice, and none after a newer one of its session. */
  lemma {:induction false} ReleasedOnceInOrder(events: seq<Event>, window: real, i: nat, j: nat)
    requires i < j < |Run(events, window).released|
    requires Run(events, window).released[i].sid == Run(events, window).released[j].sid
    ensures Run(events, window).released[i].payload < Run(events, window).released[j].payload
  {
    InvAlways(events, window);
  }

  /** The newest payload of a session is never lost: released already, or pending. */
  lemma {:induction false} NewestSurvives(events: seq<Event>, window: real, sid: Id)
    requires sid in Run(events, window).newest
    ensures var s := Run(events, window);
            Released(s, sid, s.newest[sid]) || (sid in s.slots.payloads && s.slots.payloads[sid] == s.newest[sid])
  {
    InvAlways(events, window);
  }

  // ----- when a payload goes out -----

  /** When the session last had a payload go out, as far back as the reaper left it remembered. */
  function LastOut(events: seq<Event>, window: real, sid: Id): Option<real>
  {
    if events == [] then None else
    var before, e := events[..|events| - 1], events[|events| - 1];
    var outs := Run(events, window).released;
    if e.ReaperPrunes? && sid in e.sids then None
    else if |outs| > |Run(before, window).released| && outs[|outs| - 1].sid == sid then Some(outs[|outs| - 1].at)
    else LastOut(before, window, sid)
  }

  lemma {:induction false} LastEmitIsLastOut(events: seq<Event>, window: real, sid: Id)
    ensures var last := Run(events, window).slots.lastEmit;
            LastOut(events, window, sid) == if sid in last then Some(last[sid]) else None
  {
    if events == [] {
    } else {
      LastEmitIsLastOut(events[..|events| - 1], window, sid);
    }
  }

  predicate Quiet(last: Option<real>, now: real, window: real)
  {
    last.None? || now - last.value >= window
  }

  /**
    In every run a submission goes out in its own step exactly if its session had
    nothing go out since the last prune, or at least a window ago; then nothing of
    the session is left pending. Otherwise nothing goes out and it is what is pending.
    Either way the session's timer of before is cancelled.
   */
  lemma {:induction false} DirectExactly(events: seq<Event>, window: real, sid: Id, now: real)
    requires sid != NoId
    ensures var s, s' := Run(events, window), Run(events + [Submitted(sid, now)], window);
            if Quiet(LastOut(events, window, sid), now, window) then
              s'.released == s.released + [Release(sid, s.count, now, Direct)] && sid !in s'.slots.payloads
            else
              s'.released == s.released && sid in s'.slots.payloads && s'.slots.payloads[sid] == s.count
    ensures var c, c' := Run(events, window).slots, Run(events + [Submitted(sid, now)], window).slots;
            sid in c.timers ==> c.timers[sid] < |c'.started| && c'.started[c.timers[sid]].cancelled
  {
    assert (events + [Submitted(sid, now)])[..|events|] == events;
    LastEmitIsLastOut(events, window, sid);
    InvAlways(events, window);
  }

  /** A callback sends out the newest payload of its session if one is pending, and leaves nothing pending. */
  lemma {:induction false} CallbackExactly(events: seq<Event>, window: real, t: TimerId, at: real)
    requires Enabled(Run(events, window), CallbackRuns(t, at))
    ensures var s, s' := Run(events, window), Run(events + [CallbackRuns(t, at)], window);
            var sid := s.slots.started[t].sid;
            && sid !in s'.slots.payloads
            && (sid !in s.slots.payloads ==> s'.released == s.released)
            && (sid in s.slots.payloads ==>
                  sid in s.newest && s'.released == s.released + [Release(sid, s.newest[sid], at, Flushed)])
  {
    assert (events + [CallbackRuns(t, at)])[..|events|] == events;
    InvAlways(events, window);
  }

  // The k-th event is a submission that sends its own payload out.
  predicate GoesOut(events: seq<Event>, window: real, k: nat, sid: Id, now: real)
    requires k < |events|
  {
    && events[k] == Submitted(sid, now)
    && |Run(events[..k], window).released| < |Run(events[..k + 1], window).released|
  }

  // The k-th event is a callback or a prune of this session.
  predicate Disturbs(events: seq<Event>, window: real, k: nat, sid: Id)
    requires k < |events|
  {
    match events[k]
    case Submitted(_, _) => false
    case CallbackRuns(t, _) =>
      var started := Run(events[..k], window).slots.started;
      t < |started| && started[t].sid == sid
    case ReaperPrunes(sids) => sid in sids
  }

  ghost predicate Undisturbed(events: seq<Event>, window: real, i: nat, k: nat, sid: Id)
    requires k <= |events|
  {
    forall j | i < j < k :: !Disturbs(events, window, j, sid)
  }

  lemma {:induction false} OutNotBefore(events: seq<Event>, window: real, i: nat, k: nat, sid: Id, first: real)
    requires i < k <= |events| && window >= 0.0
    requires GoesOut(events, window, i, sid, first) && Undisturbed(events, window, i, k, sid)
    ensures var last := Run(events[..k], window).slots.lastEmit;
            sid in last && last[sid] >= first
    decreases k
  {
    assert events[..k][..k - 1] == events[..k - 1];
    if i + 1 < k {
      OutNotBefore(events, window, i, k - 1, sid, first);
      assert !Disturbs(events, window, k - 1, sid);
    }
  }

  /**
    With no callback and no prune of the session in between, two of its payloads
    that go out with their submission are at least a window apart.
   */
  lemma {:induction false} DirectReleasesAreSpaced(
    events: seq<Event>, window: real, i: nat, k: nat, sid: Id, first: real, second: real)
    requires i < k < |events| && window >= 0.0
    requires GoesOut(events, window, i, sid, first) && GoesOut(events, window, k, sid, second)
    requires Undisturbed(events, window, i, k, sid)
    ensures second - first >= window
  {
    OutNotBefore(events, window, i, k, sid, first);
    assert events[..k + 1][..k] == events[..k];
  }
}
