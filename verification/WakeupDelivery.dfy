/**
  Delivering the wakeup prompt of a finished process: started at once on an idle
  session, deferred on a busy one, claimed by the teardown hook or by the next
  turn, and deferred again when starting it races another turn.
 */
module WakeupDelivery {
  import opened Options
  import opened AdmissionGate

  type ThreadId = nat

  // A prompt, already stripped, with the session it must wake.
  datatype Wakeup = Wakeup(sid: SessionId, pid: ProcessId, prompt: string)

  type Deferred = map<SessionId, seq<Wakeup>>

  function Entries(d: Deferred, sid: SessionId): seq<Wakeup>
  {
    if sid in d then d[sid] else []
  }

  predicate Queued(entries: seq<Wakeup>, pid: ProcessId)
  {
    exists i :: 0 <= i < |entries| && entries[i].pid == pid
  }

  function Record(d: Deferred, w: Wakeup): Deferred
  {
    if w.sid == NoId || w.prompt == "" then d
    else if w.pid != NoId && Queued(Entries(d, w.sid), w.pid) then d[w.sid := Entries(d, w.sid)]
    else d[w.sid := Entries(d, w.sid) + [w]]
  }

  // ----- threads and outcomes -----

  // A teardown hook holding the batch it claimed, or a thread starting one turn.
  datatype Thread = Draining(batch: seq<Wakeup>) | Starting(wakeup: Wakeup)

  function Load(t: Thread): seq<Wakeup>
  {
    if t.Draining? then t.batch else [t.wakeup]
  }

  // How start_session_turn answers.
  datatype Reply = Accepted | Busy | Paused | Refused

  datatype Outcome = Outcome(wakeup: Wakeup, started: bool)

  datatype State = State(gate: Gate, deferred: Deferred, threads: map<ThreadId, Thread>, outcomes: seq<Outcome>,
                         admitted: seq<Wakeup>)

  datatype Event =
    | GateMoves(step: Step)
    | Dispatches(prompt: string, busy: bool, thread: ThreadId)
    | HookClaims(sid: SessionId, busy: bool, thread: ThreadId)
    | HookDefersRest(thread: ThreadId)
    | HookStartsFirst(thread: ThreadId)
    | StarterAnswered(thread: ThreadId, reply: Reply)
    | NextTurnClaims(sid: SessionId)

  predicate CanHappen(s: State, e: Event)
  {
    match e
    case GateMoves(step) => step != Dispatch && Enabled(s.gate, step)
    case Dispatches(_, _, t) => s.gate.stage.Dispatching? && t !in s.threads
    case HookClaims(_, _, t) => t !in s.threads
    case HookDefersRest(t) => t in s.threads && s.threads[t].Draining? && |s.threads[t].batch| > 1
    case HookStartsFirst(t) => t in s.threads && s.threads[t].Draining? && |s.threads[t].batch| == 1
    case StarterAnswered(t, _) => t in s.threads && s.threads[t].Starting?
    case NextTurnClaims(_) => true
  }

  // A claiming turn carries every claimed prompt.
  function Deliver(os: seq<Outcome>, ws: seq<Wakeup>): seq<Outcome>
  {
    if ws == [] then os else Deliver(os, ws[..|ws| - 1]) + [Outcome(ws[|ws| - 1], true)]
  }

  function After(s: State, e: Event): State
  {
    if !CanHappen(s, e) then s else
    match e
    case GateMoves(step) => s.(gate := Next(s.gate, step))
    case Dispatches(prompt, busy, t) =>
      var w := Wakeup(s.gate.stage.sid, s.gate.stage.pid, prompt);
      var s' := s.(gate := Next(s.gate, Dispatch));
      if prompt == "" then s'
      else if busy then s'.(deferred := Record(s.deferred, w), admitted := s.admitted + [w])
      else s'.(threads := s.threads[t := Starting(w)], admitted := s.admitted + [w])
    case HookClaims(sid, busy, t) =>
      if sid == NoId || busy || Entries(s.deferred, sid) == [] then s
      else s.(deferred := s.deferred - {sid}, threads := s.threads[t := Draining(s.deferred[sid])],
              gate := Next(s.gate, PendingDiscarded(sid)))
    case HookDefersRest(t) =>
      var batch := s.threads[t].batch;
      s.(deferred := Record(s.deferred, batch[1]), threads := s.threads[t := Draining([batch[0]] + batch[2..])])
    case HookStartsFirst(t) => s.(threads := s.threads[t := Starting(s.threads[t].batch[0])])
    case StarterAnswered(t, reply) =>
      var w := s.threads[t].wakeup;
      var s' := s.(threads := s.threads - {t});
      if reply == Busy then s'.(deferred := Record(s.deferred, w))
      else s'.(outcomes := s.outcomes + [Outcome(w, reply == Accepted)])
    case NextTurnClaims(sid) =>
      if sid == NoId then s
      else s.(deferred := s.deferred - {sid}, outcomes := Deliver(s.outcomes, Entries(s.deferred, sid)))
  }

  const START := State(Fresh(true), map[], map[], [], [])

  function Outlook(events: seq<Event>): State
  {
    if events == [] then START else After(Outlook(events[..|events| - 1]), events[|events| - 1])
  }

  predicate Possible(events: seq<Event>)
  {
    events == [] ||
    (Possible(events[..|events| - 1]) && CanHappen(Outlook(events[..|events| - 1]), events[|events| - 1]))
  }

  // ----- where the wakeups are -----

  // Everything the values of a map hold, counted.
  ghost function Held<K, V>(m: map<K, V>, load: V -> seq<Wakeup>): multiset<Wakeup>
    decreases m.Keys
  {
    if m == map[] then multiset{} else
    var k :| k in m;
    multiset(load(m[k])) + Held(m - {k}, load)
  }

  lemma {:induction false} HeldAt<K, V>(m: map<K, V>, load: V -> seq<Wakeup>, k: K)
    requires k in m
    ensures Held(m, load) == multiset(load(m[k])) + Held(m - {k}, load)
    decreases m.Keys
  {
    var first :| first in m && Held(m, load) == multiset(load(m[first])) + Held(m - {first}, load);
    if first != k {
      HeldAt(m - {first}, load, k);
      HeldAt(m - {k}, load, first);
      assert m - {first} - {k} == m - {k} - {first};
    }
  }

  lemma {:induction false} HeldPut<K, V>(m: map<K, V>, load: V -> seq<Wakeup>, k: K, v: V)
    ensures Held(m[k := v], load) == multiset(load(v)) + Held(m - {k}, load)
    ensures k !in m ==> m - {k} == m
  {
    HeldAt(m[k := v], load, k);
    assert m[k := v] - {k} == m - {k};
  }

  ghost function InOutcomes(os: seq<Outcome>): multiset<Wakeup>
  {
    if os == [] then multiset{} else InOutcomes(os[..|os| - 1]) + multiset{os[|os| - 1].wakeup}
  }

  function AsIs(ws: seq<Wakeup>): seq<Wakeup>
  {
    ws
  }

  /** All the places a wakeup can be: deferred, with a thread, or done. */
  ghost function Places(s: State): multiset<Wakeup>
  {
    Held(s.deferred, AsIs) + Held(s.threads, Load) + InOutcomes(s.outcomes)
  }

  // ----- conservation -----

  ghost predicate DistinctPids(ws: seq<Wakeup>)
  {
    forall i, j | 0 <= i < j < |ws| && ws[i].pid == ws[j].pid :: ws[i].pid == NoId
  }

  predicate InHand(stage: Stage)
  {
    PastGate(stage) || stage.Dispatching?
  }

  // Admitted wakeups can be delivered, and came through the gate before the one in hand.
  ghost predicate Vetted(g: Gate, ws: seq<Wakeup>)
  {
    forall i | 0 <= i < |ws| ::
      ws[i].sid != NoId && ws[i].prompt != "" &&
      (ws[i].pid != NoId ==> ws[i].pid in g.passes && !(InHand(g.stage) && g.stage.pid == ws[i].pid))
  }

  ghost predicate OwnSession(d: Deferred)
  {
    forall sid | sid in d :: forall i | 0 <= i < |d[sid]| :: d[sid][i].sid == sid
  }

  ghost predicate Sound(s: State)
  {
    && s.gate.registry && AdmissionGate.Inv(s.gate)
    && Places(s) == multiset(s.admitted)
    && DistinctPids(s.admitted) && Vetted(s.gate, s.admitted) && OwnSession(s.deferred)
  }

  lemma {:induction false} HeadPidOnce(ws: seq<Wakeup>, w: Wakeup)
    requires DistinctPids(ws) && ws != [] && w.pid == ws[0].pid != NoId
    ensures multiset(ws)[w] == if w == ws[0] then 1 else 0
  {
    assert ws == [ws[0]] + ws[1..];
    assert forall x | x in ws[1..] :: x.pid != w.pid;
    assert w !in multiset(ws[1..]);
  }

  // Two admitted copies of one process id cannot be in two places.
  lemma {:induction false} OnePlacePerPid(ws: seq<Wakeup>, v: Wakeup, w: Wakeup)
    requires DistinctPids(ws) && multiset{v} + multiset{w} <= multiset(ws) && v.pid == w.pid
    ensures w.pid == NoId
  {
    if ws != [] && w.pid != NoId {
      if ws[0].pid == w.pid {
        HeadPidOnce(ws, v);
        HeadPidOnce(ws, w);
      } else {
        assert ws == [ws[0]] + ws[1..];
        OnePlacePerPid(ws[1..], v, w);
      }
    }
  }

  lemma {:induction false} DeferredIsHeld(d: Deferred, sid: SessionId, i: nat)
    requires i < |Entries(d, sid)|
    ensures Entries(d, sid)[i] in Held(d, AsIs)
  {
    HeldAt(d, AsIs, sid);
    assert Entries(d, sid)[i] in multiset(d[sid]);
  }

  lemma {:induction false} NotQueuedTwice(d: Deferred, w: Wakeup, ws: seq<Wakeup>)
    requires DistinctPids(ws) && Held(d, AsIs) + multiset{w} <= multiset(ws)
    ensures w.pid != NoId ==> !Queued(Entries(d, w.sid), w.pid)
  {
    if w.pid != NoId && Queued(Entries(d, w.sid), w.pid) {
      var i :| 0 <= i < |Entries(d, w.sid)| && Entries(d, w.sid)[i].pid == w.pid;
      DeferredIsHeld(d, w.sid, i);
      OnePlacePerPid(ws, Entries(d, w.sid)[i], w);
    }
  }

  lemma {:induction false} RecordKeepsSessions(d: Deferred, w: Wakeup)
    requires OwnSession(d)
    ensures OwnSession(Record(d, w))
  {
    var after: Deferred := Record(d, w);
    forall sid: SessionId | sid in after
      ensures forall i | 0 <= i < |after[sid]| :: after[sid][i].sid == sid
    {
      assert sid in d || sid == w.sid;
    }
  }

  /** Deferring a wakeup that is nowhere else in the lists adds exactly it. */
  lemma {:induction false} RecordAdds(d: Deferred, w: Wakeup, ws: seq<Wakeup>)
    requires OwnSession(d) && w.sid != NoId && w.prompt != ""
    requires DistinctPids(ws) && Held(d, AsIs) + multiset{w} <= multiset(ws)
    ensures Held(Record(d, w), AsIs) == Held(d, AsIs) + multiset{w}
    ensures OwnSession(Record(d, w)) && w in Entries(Record(d, w), w.sid)
  {
    RecordKeepsSessions(d, w);
    NotQueuedTwice(d, w, ws);
    HeldPut(d, AsIs, w.sid, Entries(d, w.sid) + [w]);
    if w.sid in d {
      HeldAt(d, AsIs, w.sid);
    }
  }

  lemma {:induction false} DeliverKeeps(os: seq<Outcome>, ws: seq<Wakeup>)
    ensures InOutcomes(Deliver(os, ws)) == InOutcomes(os) + multiset(ws)
  {
    if ws == [] {
    } else {
      var init, last := ws[..|ws| - 1], ws[|ws| - 1];
      DeliverKeeps(os, init);
      assert ws == init + [last];
      var out := Deliver(os, init);
      assert (out + [Outcome(last, true)])[..|out|] == out;
    }
  }

  lemma {:induction false} GateKeepsSound(s: State, step: Step)
    requires Sound(s) && CanHappen(s, GateMoves(step))
    ensures Sound(After(s, GateMoves(step)))
  {
    InvKept(s.gate, step);
  }

  lemma {:induction false} AdmittedIsNew(s: State, w: Wakeup)
    requires Sound(s) && s.gate.stage.Dispatching?
    requires w.sid == s.gate.stage.sid && w.pid == s.gate.stage.pid && w.prompt != ""
    ensures DistinctPids(s.admitted + [w]) && Vetted(Next(s.gate, Dispatch), s.admitted + [w])
    ensures multiset(s.admitted + [w]) == multiset(s.admitted) + multiset{w}
  {
    var ws := s.admitted + [w];
    forall i, j | 0 <= i < j < |ws| && ws[i].pid == ws[j].pid
      ensures ws[i].pid == NoId
    {
      assert ws[i] == s.admitted[i];
    }
  }

  // The places gain exactly the dispatched wakeup.
  lemma {:induction false} DispatchAddsOne(s: State, w: Wakeup, busy: bool, t: ThreadId)
    requires Sound(s) && CanHappen(s, Dispatches(w.prompt, busy, t))
    requires w.sid == s.gate.stage.sid && w.pid == s.gate.stage.pid && w.prompt != ""
    ensures var s' := After(s, Dispatches(w.prompt, busy, t));
            s'.admitted == s.admitted + [w] && Places(s') == Places(s) + multiset{w} && OwnSession(s'.deferred)
  {
    var s' := After(s, Dispatches(w.prompt, busy, t));
    AdmittedIsNew(s, w);
    if busy {
      RecordAdds(s.deferred, w, s.admitted + [w]);
      assert s' == s.(gate := s'.gate, deferred := Record(s.deferred, w), admitted := s.admitted + [w]);
    } else {
      HeldPut(s.threads, Load, t, Starting(w));
      assert s' == s.(gate := s'.gate, threads := s.threads[t := Starting(w)], admitted := s.admitted + [w]);
    }
  }

  lemma {:induction false} DispatchKeepsSound(s: State, prompt: string, busy: bool, t: ThreadId)
    requires Sound(s) && CanHappen(s, Dispatches(prompt, busy, t))
    ensures Sound(After(s, Dispatches(prompt, busy, t)))
  {
    InvKept(s.gate, Dispatch);
    assert After(s, Dispatches(prompt, busy, t)).gate == Next(s.gate, Dispatch);
    if prompt != "" {
      var w := Wakeup(s.gate.stage.sid, s.gate.stage.pid, prompt);
      AdmittedIsNew(s, w);
      DispatchAddsOne(s, w, busy, t);
    }
  }

  // Popping a session's list takes its entries and nothing else.
  lemma {:induction false} ClaimTakesAll(d: Deferred, sid: SessionId)
    requires OwnSession(d)
    ensures Held(d, AsIs) == multiset(Entries(d, sid)) + Held(d - {sid}, AsIs)
    ensures OwnSession(d - {sid})
  {
    if sid in d {
      HeldAt(d, AsIs, sid);
    } else {
      assert d - {sid} == d;
    }
  }

  lemma {:induction false} ClaimKeepsSound(s: State, sid: SessionId, busy: bool, t: ThreadId)
    requires Sound(s) && CanHappen(s, HookClaims(sid, busy, t))
    ensures Sound(After(s, HookClaims(sid, busy, t)))
  {
    InvKept(s.gate, PendingDiscarded(sid));
    if !(sid == NoId || busy || Entries(s.deferred, sid) == []) {
      ClaimTakesAll(s.deferred, sid);
      HeldPut(s.threads, Load, t, Draining(s.deferred[sid]));
    }
  }

  lemma {:induction false} ThreadWakeupIsVetted(s: State, t: ThreadId, i: nat)
    requires Sound(s) && t in s.threads && i < |Load(s.threads[t])|
    ensures var w := Load(s.threads[t])[i]; w.sid != NoId && w.prompt != ""
    ensures Held(s.deferred, AsIs) + multiset{Load(s.threads[t])[i]} <= multiset(s.admitted)
  {
    var w := Load(s.threads[t])[i];
    HeldAt(s.threads, Load, t);
    assert w in multiset(Load(s.threads[t]));
    assert w in multiset(s.admitted);
    assert w in s.admitted;
  }

  lemma {:induction false} DeferRestKeepsSound(s: State, t: ThreadId)
    requires Sound(s) && CanHappen(s, HookDefersRest(t))
    ensures Sound(After(s, HookDefersRest(t)))
  {
    var batch := s.threads[t].batch;
    ThreadWakeupIsVetted(s, t, 1);
    RecordAdds(s.deferred, batch[1], s.admitted);
    HeldAt(s.threads, Load, t);
    HeldPut(s.threads, Load, t, Draining([batch[0]] + batch[2..]));
    WithoutSecond(batch);
  }

  lemma {:induction false} WithoutSecond(batch: seq<Wakeup>)
    requires |batch| > 1
    ensures multiset(batch) == multiset([batch[0]] + batch[2..]) + multiset{batch[1]}
  {
    assert batch == [batch[0], batch[1]] + batch[2..];
  }

  lemma {:induction false} StartFirstKeepsSound(s: State, t: ThreadId)
    requires Sound(s) && CanHappen(s, HookStartsFirst(t))
    ensures Sound(After(s, HookStartsFirst(t)))
  {
    var batch := s.threads[t].batch;
    HeldAt(s.threads, Load, t);
    HeldPut(s.threads, Load, t, Starting(batch[0]));
    assert batch == [batch[0]];
  }

  lemma {:induction false} AnswerKeepsSound(s: State, t: ThreadId, reply: Reply)
    requires Sound(s) && CanHappen(s, StarterAnswered(t, reply))
    ensures Sound(After(s, StarterAnswered(t, reply)))
  {
    var w := s.threads[t].wakeup;
    HeldAt(s.threads, Load, t);
    if reply == Busy {
      ThreadWakeupIsVetted(s, t, 0);
      RecordAdds(s.deferred, w, s.admitted);
    } else {
      var os := s.outcomes + [Outcome(w, reply == Accepted)];
      assert os[..|os| - 1] == s.outcomes;
    }
  }

  lemma {:induction false} NextTurnKeepsSound(s: State, sid: SessionId)
    requires Sound(s)
    ensures Sound(After(s, NextTurnClaims(sid)))
  {
    var s' := After(s, NextTurnClaims(sid));
    assert s'.gate == s.gate && s'.admitted == s.admitted && s'.threads == s.threads;
    if sid != NoId {
      DeliverKeeps(s.outcomes, Entries(s.deferred, sid));
      ClaimTakesAll(s.deferred, sid);
      assert s'.deferred == s.deferred - {sid};
      assert InOutcomes(s'.outcomes) == InOutcomes(s.outcomes) + multiset(Entries(s.deferred, sid));
      assert Places(s') == Places(s);
    } else {
      assert s' == s;
    }
  }

  lemma {:induction false} SoundKept(s: State, e: Event)
    requires Sound(s) && CanHappen(s, e)
    ensures Sound(After(s, e))
  {
    match e
    case GateMoves(step) => GateKeepsSound(s, step);
    case Dispatches(prompt, busy, t) => DispatchKeepsSound(s, prompt, busy, t);
    case HookClaims(sid, busy, t) => ClaimKeepsSound(s, sid, busy, t);
    case HookDefersRest(t) => DeferRestKeepsSound(s, t);
    case HookStartsFirst(t) => StartFirstKeepsSound(s, t);
    case StarterAnswered(t, reply) => AnswerKeepsSound(s, t, reply);
    case NextTurnClaims(sid) => NextTurnKeepsSound(s, sid);
  }

  lemma {:induction false} SoundAlways(events: seq<Event>)
    requires Possible(events)
    ensures Sound(Outlook(events))
  {
    if events == [] {
    } else {
      SoundAlways(events[..|events| - 1]);
      SoundKept(Outlook(events[..|events| - 1]), events[|events| - 1]);
    }
  }

  // ----- what every run guarantees -----

  /** Each admitted wakeup is, unaltered, in exactly one place. */
  lemma {:induction false} ExactlyOnePlace(events: seq<Event>, i: nat)
    requires Possible(events) && i < |Outlook(events).admitted|
    ensures Places(Outlook(events)) == multiset(Outlook(events).admitted)
    ensures Outlook(events).admitted[i].pid != NoId ==> Places(Outlook(events))[Outlook(events).admitted[i]] == 1
  {
    SoundAlways(events);
    var ws := Outlook(events).admitted;
    assert ws[i] in multiset(ws);
    if ws[i].pid != NoId && multiset(ws)[ws[i]] > 1 {
      assert multiset{ws[i]} + multiset{ws[i]} <= multiset(ws);
      OnePlacePerPid(ws, ws[i], ws[i]);
    }
  }

  /** At most one turn is ever started, and at most one outcome reached, per process id. */
  lemma {:induction false} AtMostOneOutcome(events: seq<Event>, i: nat, j: nat)
    requires Possible(events) && i < j < |Outlook(events).outcomes|
    requires Outlook(events).outcomes[i].wakeup.pid != NoId
    ensures Outlook(events).outcomes[i].wakeup.pid != Outlook(events).outcomes[j].wakeup.pid
  {
    SoundAlways(events);
    var s := Outlook(events);
    PairInOutcomes(s.outcomes, i, j);
    if s.outcomes[i].wakeup.pid == s.outcomes[j].wakeup.pid {
      OnePlacePerPid(s.admitted, s.outcomes[i].wakeup, s.outcomes[j].wakeup);
    }
  }

  lemma {:induction false} PairInOutcomes(os: seq<Outcome>, i: nat, j: nat)
    requires i < j < |os|
    ensures multiset{os[i].wakeup} + multiset{os[j].wakeup} <= InOutcomes(os)
  {
    var init := os[..|os| - 1];
    if j < |init| {
      PairInOutcomes(init, i, j);
    } else {
      OneInOutcomes(init, i);
    }
  }

  lemma {:induction false} OneInOutcomes(os: seq<Outcome>, i: nat)
    requires i < |os|
    ensures os[i].wakeup in InOutcomes(os)
  {
    if i < |os| - 1 {
      OneInOutcomes(os[..|os| - 1], i);
    }
  }

  /** A starter answered 409 leaves its wakeup in its session's deferred list. */
  lemma {:induction false} BusyNeverLoses(events: seq<Event>, t: ThreadId)
    requires Possible(events) && CanHappen(Outlook(events), StarterAnswered(t, Busy))
    ensures var w := Outlook(events).threads[t].wakeup;
            w in Entries(After(Outlook(events), StarterAnswered(t, Busy)).deferred, w.sid)
  {
    SoundAlways(events);
    var s := Outlook(events);
    ThreadWakeupIsVetted(s, t, 0);
    RecordAdds(s.deferred, s.threads[t].wakeup, s.admitted);
  }

  // ----- the lists behind the protocol -----

  function RecordAll(d: Deferred, ws: seq<Wakeup>): Deferred
  {
    if ws == [] then d else Record(RecordAll(d, ws[..|ws| - 1]), ws[|ws| - 1])
  }

  class WakeupQueue {
    var deferred: Deferred

    constructor ()
      ensures deferred == map[]
    {
      deferred := map[];
    }

    method RecordDeferred(w: Wakeup) returns (queued: bool)
      modifies this
      ensures deferred == Record(old(deferred), w)
      ensures queued <==> w.sid != NoId && w.prompt != ""
    {
      if w.sid == NoId || w.prompt == "" {
        return false;
      }
      if w.sid !in deferred {
        deferred := deferred[w.sid := []];
      }
      var entries := deferred[w.sid];
      var known := false;
      for i := 0 to |entries|
        invariant known <==> exists j :: 0 <= j < i && entries[j].pid == w.pid
      {
        known := known || entries[i].pid == w.pid;
      }
      if !(w.pid != NoId && known) {
        deferred := deferred[w.sid := entries + [w]];
      }
      queued := true;
    }

    method Claim(sid: SessionId) returns (entries: seq<Wakeup>)
      modifies this
      ensures entries == if sid == NoId then [] else Entries(old(deferred), sid)
      ensures deferred == if sid == NoId then old(deferred) else old(deferred) - {sid}
    {
      if sid == NoId {
        return [];
      }
      entries := Entries(deferred, sid);
      deferred := deferred - {sid};
    }

    // The teardown hook run without interruption: the first prompt to start, the rest deferred in order.
    method DrainForSession(sid: SessionId, active: bool) returns (first: Option<Wakeup>)
      requires forall i | 0 <= i < |Entries(deferred, sid)| :: Entries(deferred, sid)[i].prompt != ""
      modifies this
      ensures var entries := Entries(old(deferred), sid);
              if sid == NoId || active || entries == [] then first == None && deferred == old(deferred)
              else first == Some(entries[0]) && deferred == RecordAll(old(deferred) - {sid}, entries[1..])
    {
      if sid == NoId || active || Entries(deferred, sid) == [] {
        return None;
      }
      var leftover := Claim(sid);
      ghost var base := deferred;
      var rest := leftover[1..];
      for i := 0 to |rest|
        invariant deferred == RecordAll(base, rest[..i])
      {
        assert rest[..i + 1][..i] == rest[..i];
        var _ := RecordDeferred(rest[i]);
      }
      assert rest[..|rest|] == rest;
      first := Some(leftover[0]);
    }
  }
}
