/**
  When a turn may start: what each dispatch and each teardown hook found its
  session to be decides whether a thread takes a wakeup up or leaves it deferred.
 */
module WakeupTurns {
  import opened Options
  import opened AdmissionGate
  import opened WakeupDelivery

  // The event looked at its session and found it idle, on behalf of this thread.
  predicate FoundIdle(e: Event, t: ThreadId)
  {
    match e
    case Dispatches(_, busy, thread) => !busy && thread == t
    case HookClaims(_, busy, thread) => !busy && thread == t
    case _ => false
  }

  /** In every run a thread takes wakeups up only at a moment its session was found idle. */
  lemma {:induction false} TakenUpOnlyWhenIdle(events: seq<Event>, k: nat, t: ThreadId)
    requires Possible(events) && k < |events|
    requires t !in Outlook(events[..k]).threads && t in Outlook(events[..k + 1]).threads
    ensures FoundIdle(events[k], t)
  {
    assert events[..k + 1][..k] == events[..k];
  }

  /**
    The prompt of a completion being dispatched: with its session busy no thread
    changes and the prompt is on the deferred list; with it idle the prompt has its
    starter in the next state and the list does not change.
   */
  lemma {:induction false} DispatchExactly(events: seq<Event>, prompt: string, busy: bool, t: ThreadId)
    requires Possible(events) && CanHappen(Outlook(events), Dispatches(prompt, busy, t)) && prompt != ""
    ensures var s, s' := Outlook(events), After(Outlook(events), Dispatches(prompt, busy, t));
            var w := Wakeup(s.gate.stage.sid, s.gate.stage.pid, prompt);
            && s'.gate == s.gate.(stage := Idle) && s'.admitted == s.admitted + [w] && s'.outcomes == s.outcomes
            && (busy ==> s'.threads == s.threads && Entries(s'.deferred, w.sid) == Entries(s.deferred, w.sid) + [w])
            && (!busy ==> s'.threads == s.threads[t := Starting(w)] && s'.deferred == s.deferred)
  {
    SoundAlways(events);
    var s := Outlook(events);
    var w := Wakeup(s.gate.stage.sid, s.gate.stage.pid, prompt);
    assert s.gate.stage.sid != NoId;
    if busy {
      NewIsNotQueued(s, w);
    }
  }

  lemma {:induction false} NewIsNotQueued(s: State, w: Wakeup)
    requires Sound(s) && s.gate.stage.Dispatching? && w.sid == s.gate.stage.sid && w.pid == s.gate.stage.pid
    requires w.prompt != ""
    ensures w.pid != NoId ==> !Queued(Entries(s.deferred, w.sid), w.pid)
  {
    AdmittedIsNew(s, w);
    assert Held(s.deferred, AsIs) <= Places(s);
    NotQueuedTwice(s.deferred, w, s.admitted + [w]);
  }

  /** A completion without a prompt wakes nobody. */
  lemma {:induction false} NoPromptNoTurn(s: State, busy: bool, t: ThreadId)
    requires CanHappen(s, Dispatches("", busy, t))
    ensures var s' := After(s, Dispatches("", busy, t));
            s'.threads == s.threads && s'.deferred == s.deferred && s'.admitted == s.admitted
  {
  }

  /**
    A teardown hook that finds its session busy, or nothing deferred, changes
    nothing; otherwise its thread holds exactly the session's list, and no other
    session's list changes.
   */
  lemma {:induction false} HookExactly(s: State, sid: SessionId, busy: bool, t: ThreadId)
    requires CanHappen(s, HookClaims(sid, busy, t)) && sid != NoId
    ensures var s' := After(s, HookClaims(sid, busy, t));
            && (busy || Entries(s.deferred, sid) == [] ==> s' == s)
            && (!busy && Entries(s.deferred, sid) != [] ==>
                  && s'.threads == s.threads[t := Draining(Entries(s.deferred, sid))]
                  && Entries(s'.deferred, sid) == [] && s'.gate == s.gate.(pending := s.gate.pending - {sid})
                  && forall other | other != sid :: Entries(s'.deferred, other) == Entries(s.deferred, other))
  {
  }

  // ----- a hook run to its end -----

  function RunFrom(s: State, events: seq<Event>): State
    decreases events
  {
    if events == [] then s else RunFrom(After(s, events[0]), events[1..])
  }

  // Deferring all but the first of the claimed wakeups, then starting the first.
  function Settling(t: ThreadId, more: nat): seq<Event>
  {
    if more == 0 then [HookStartsFirst(t)] else [HookDefersRest(t)] + Settling(t, more - 1)
  }

  function RecordEach(d: Deferred, ws: seq<Wakeup>): Deferred
    decreases ws
  {
    if ws == [] then d else RecordEach(Record(d, ws[0]), ws[1..])
  }

  lemma {:induction false} SettlingDefersRest(s: State, t: ThreadId)
    requires t in s.threads && s.threads[t].Draining? && s.threads[t].batch != []
    ensures var batch := s.threads[t].batch;
            RunFrom(s, Settling(t, |batch| - 1)) ==
            s.(deferred := RecordEach(s.deferred, batch[1..]), threads := s.threads[t := Starting(batch[0])])
    decreases |s.threads[t].batch|
  {
    var batch := s.threads[t].batch;
    if |batch| == 1 {
      var s' := After(s, HookStartsFirst(t));
      assert RunFrom(s, [HookStartsFirst(t)]) == RunFrom(s', []);
    } else {
      var s' := After(s, HookDefersRest(t));
      var batch' := s'.threads[t].batch;
      assert batch' == [batch[0]] + batch[2..] && batch'[1..] == batch[1..][1..];
      assert ([HookDefersRest(t)] + Settling(t, |batch| - 2))[1..] == Settling(t, |batch'| - 1);
      SettlingDefersRest(s', t);
      assert s'.threads[t := Starting(batch[0])] == s.threads[t := Starting(batch[0])];
    }
  }

  lemma {:induction false} RecordEachIsAll(d: Deferred, ws: seq<Wakeup>)
    ensures RecordEach(d, ws) == RecordAll(d, ws)
    decreases ws
  {
    if ws == [] {
    } else {
      RecordFirst(d, ws);
      RecordEachIsAll(Record(d, ws[0]), ws[1..]);
    }
  }

  lemma {:induction false} RecordFirst(d: Deferred, ws: seq<Wakeup>)
    requires ws != []
    ensures RecordAll(d, ws) == RecordAll(Record(d, ws[0]), ws[1..])
    decreases |ws|
  {
    if |ws| == 1 {
      assert ws[..0] == [];
    } else {
      var init := ws[..|ws| - 1];
      RecordFirst(d, init);
      assert init[1..] == ws[1..][..|ws| - 2];
    }
  }

  /**
    Left to itself a hook on an idle session starts exactly the oldest deferred
    prompt and defers the others again in their order, as
    WakeupQueue.DrainForSession does.
   */
  lemma {:induction false} HookStartsOldest(s: State, sid: SessionId, t: ThreadId)
    requires t !in s.threads && sid != NoId && Entries(s.deferred, sid) != []
    ensures var ws := Entries(s.deferred, sid);
            var s' := RunFrom(After(s, HookClaims(sid, false, t)), Settling(t, |ws| - 1));
            && s'.threads == s.threads[t := Starting(ws[0])]
            && s'.deferred == RecordAll(s.deferred - {sid}, ws[1..])
            && s'.outcomes == s.outcomes && s'.admitted == s.admitted
  {
    var s1 := After(s, HookClaims(sid, false, t));
    SettlingDefersRest(s1, t);
    RecordEachIsAll(s1.deferred, s1.threads[t].batch[1..]);
  }

  // ----- how it ends -----

  /** A turn counts as started exactly if the starter was accepted; a busy answer settles nothing. */
  lemma {:induction false} AnswerExactly(s: State, t: ThreadId, reply: Reply)
    requires CanHappen(s, StarterAnswered(t, reply))
    ensures var s', w := After(s, StarterAnswered(t, reply)), s.threads[t].wakeup;
            && t !in s'.threads
            && (reply == Accepted ==> s'.outcomes == s.outcomes + [Outcome(w, true)] && s'.deferred == s.deferred)
            && (reply == Paused || reply == Refused ==>
                  s'.outcomes == s.outcomes + [Outcome(w, false)] && s'.deferred == s.deferred)
            && (reply == Busy ==> s'.outcomes == s.outcomes)
  {
  }

  /** In every run an outcome says that a turn started only after an accepted start, or a turn that claimed the list. */
  lemma {:induction false} StartedMeansAccepted(events: seq<Event>, k: nat, i: nat)
    requires Possible(events) && k < |events|
    requires |Outlook(events[..k]).outcomes| <= i < |Outlook(events[..k + 1]).outcomes|
    ensures Outlook(events[..k + 1]).outcomes[i].started <==>
            (events[k].StarterAnswered? && events[k].reply == Accepted) || events[k].NextTurnClaims?
  {
    assert events[..k + 1][..k] == events[..k];
    var s, e := Outlook(events[..k]), events[k];
    if e.NextTurnClaims? && e.sid != NoId {
      DeliveredStarted(s.outcomes, Entries(s.deferred, e.sid));
    }
  }

  lemma {:induction false} DeliveredStarted(os: seq<Outcome>, ws: seq<Wakeup>)
    ensures os <= Deliver(os, ws) && forall i | |os| <= i < |Deliver(os, ws)| :: Deliver(os, ws)[i].started
  {
    if ws == [] {
    } else {
      DeliveredStarted(os, ws[..|ws| - 1]);
    }
  }
}
