/**
  The meeting of one gateway worker (the owner of a stream) with any number of
  cancel requests waiting for the run id that worker obtains. Every function
  below is one critical section of the module's condition variable.
 */
module GatewayRendezvous {
  import opened Options

  type StreamId = string
  type RunId = string
  type Waiter = nat

  datatype Phase = Pending | Ready | Fallback | Failed

  datatype Entry = Entry(phase: Phase, runId: RunId, waiters: nat, ownerDone: bool)

  // What the two module dictionaries hold for one stream.
  datatype Cell = Cell(runId: Option<RunId>, entry: Option<Entry>)

  const VACANT := Cell(None, None)

  // ----- one critical section each -----

  function Mark(c: Cell): Cell
  {
    Cell(None, Some(Entry(Pending, "", 0, false)))
  }

  function Publish(c: Cell, run: RunId): Cell
  {
    var (waiters, done) := if c.entry.Some? then (c.entry.value.waiters, c.entry.value.ownerDone) else (0, false);
    Cell(Some(run), Some(Entry(Ready, run, waiters, done)))
  }

  function Finish(c: Cell, fallback: bool): Cell
  {
    if c.entry.Some? && c.entry.value.phase == Ready then c
    else
      var (waiters, done) := if c.entry.Some? then (c.entry.value.waiters, c.entry.value.ownerDone) else (0, false);
      Cell(None, Some(Entry(if fallback then Fallback else Failed, "", waiters, done)))
  }

  function Retire(c: Cell): Cell
  {
    if c.entry.Some? && c.entry.value.waiters == 0 && c.entry.value.ownerDone then VACANT else c
  }

  function Clear(c: Cell): Cell
  {
    Retire(if c.entry.Some? then c.(entry := Some(c.entry.value.(ownerDone := true))) else c)
  }

  // A waiter registers only with an entry that is already there.
  function Register(c: Cell): Cell
  {
    if c.entry.Some? then c.(entry := Some(c.entry.value.(waiters := c.entry.value.waiters + 1))) else c
  }

  function Unregister(c: Cell): Cell
  {
    if c.entry.Some? then
      var e := c.entry.value;
      Retire(c.(entry := Some(e.(waiters := if e.waiters > 0 then e.waiters - 1 else 0))))
    else c
  }

  // Keep waiting, or answer (is this a structured run?, its id).
  datatype Verdict = Sleep | Answer(structured: bool, run: Option<RunId>)

  function NonEmpty(run: Option<RunId>): Option<RunId>
  {
    if run == Some("") then None else run
  }

  function Look(c: Cell, expired: bool): Verdict
  {
    var run := NonEmpty(c.runId);
    if c.entry.Some? && c.entry.value.phase == Fallback then Answer(false, None)
    else if c.entry.Some? && c.entry.value.phase == Failed then Answer(true, None)
    else if c.entry.Some? && c.entry.value.phase == Ready then
      Answer(true, if run.Some? then run else NonEmpty(Some(c.entry.value.runId)))
    else if run.Some? then Answer(true, run)
    else if c.entry.None? then Answer(false, None)
    else if expired then Answer(true, None)
    else Sleep
  }

  // ----- the dictionaries and the condition variable -----

  class Rendezvous {
    var runIds: map<StreamId, RunId>
    var lifecycle: map<StreamId, Entry>
    ghost var asleep: set<Waiter>  // waiters no notification has reached yet

    constructor ()
      ensures forall s :: CellOf(s) == VACANT
      ensures asleep == {}
    {
      runIds, lifecycle, asleep := map[], map[], {};
    }

    function CellOf(s: StreamId): Cell
      reads this
    {
      Cell(if s in runIds then Some(runIds[s]) else None, if s in lifecycle then Some(lifecycle[s]) else None)
    }

    twostate predicate OthersUnchanged(s: StreamId)
      reads this
    {
      runIds - {s} == old(runIds) - {s} && lifecycle - {s} == old(lifecycle) - {s}
    }

    method MarkStarting(s: StreamId)
      modifies this
      ensures CellOf(s) == Mark(old(CellOf(s))) && OthersUnchanged(s) && asleep == old(asleep)
    {
      runIds := runIds - {s};
      lifecycle := lifecycle[s := Entry(Pending, "", 0, false)];
    }

    method PublishRunId(s: StreamId, run: RunId)
      modifies this
      ensures CellOf(s) == Publish(old(CellOf(s)), run) && OthersUnchanged(s) && asleep == {}
    {
      runIds := runIds[s := run];
      var waiters, done := 0, false;
      if s in lifecycle {
        waiters, done := lifecycle[s].waiters, lifecycle[s].ownerDone;
      }
      lifecycle := lifecycle[s := Entry(Ready, run, waiters, done)];
      asleep := {};
    }

    method FinishStarting(s: StreamId, fallback: bool)
      modifies this
      ensures CellOf(s) == Finish(old(CellOf(s)), fallback) && OthersUnchanged(s)
      ensures asleep == if CellOf(s) == old(CellOf(s)) && CellOf(s).entry.value.phase == Ready then old(asleep) else {}
    {
      if s in lifecycle && lifecycle[s].phase == Ready {
        return;
      }
      runIds := runIds - {s};
      var waiters, done := 0, false;
      if s in lifecycle {
        waiters, done := lifecycle[s].waiters, lifecycle[s].ownerDone;
      }
      lifecycle := lifecycle[s := Entry(if fallback then Fallback else Failed, "", waiters, done)];
      asleep := {};
    }

    method RetireIfDone(s: StreamId) returns (retired: bool)
      modifies this
      ensures CellOf(s) == Retire(old(CellOf(s))) && OthersUnchanged(s) && asleep == old(asleep)
      ensures retired <==> old(s in lifecycle && lifecycle[s].waiters == 0 && lifecycle[s].ownerDone)
    {
      if s !in lifecycle || lifecycle[s].waiters > 0 || !lifecycle[s].ownerDone {
        return false;
      }
      lifecycle := lifecycle - {s};
      runIds := runIds - {s};
      retired := true;
    }

    method ClearStarting(s: StreamId)
      modifies this
      ensures CellOf(s) == Clear(old(CellOf(s))) && OthersUnchanged(s) && asleep == {}
    {
      if s in lifecycle {
        lifecycle := lifecycle[s := lifecycle[s].(ownerDone := true)];
      }
      var _ := RetireIfDone(s);
      asleep := {};
    }

    // The unlocked write of the legacy path.
    method RecordApprovalRun(s: StreamId, run: RunId)
      modifies this
      ensures CellOf(s) == old(CellOf(s)).(runId := Some(run)) && OthersUnchanged(s) && asleep == old(asleep)
    {
      runIds := runIds[s := run];
    }

    method Inspect(s: StreamId, expired: bool) returns (v: Verdict)
      ensures v == Look(CellOf(s), expired)
    {
      if s in lifecycle {
        if lifecycle[s].phase == Fallback {
          return Answer(false, None);
        }
        if lifecycle[s].phase == Failed {
          return Answer(true, None);
        }
      }
      var run := if s in runIds then runIds[s] else "";
      if s in lifecycle && lifecycle[s].phase == Ready {
        var stored := lifecycle[s].runId;
        return Answer(true, if run != "" then Some(run) else if stored != "" then Some(stored) else None);
      }
      if run != "" {
        return Answer(true, Some(run));
      }
      if s !in lifecycle {
        return Answer(false, None);
      }
      if expired {
        return Answer(true, None);
      }
      v := Sleep;
    }

    // wait_for_gateway_run_id up to its first wait() or its return
    method Enter(s: StreamId, me: Waiter, expired: bool) returns (v: Verdict)
      modifies this
      ensures v == Look(Register(old(CellOf(s))), expired) && OthersUnchanged(s)
      ensures v == Sleep ==> CellOf(s) == Register(old(CellOf(s))) && asleep == old(asleep) + {me}
      ensures v != Sleep ==> CellOf(s) == Unregister(Register(old(CellOf(s))))
      ensures v != Sleep ==> asleep == if old(s in lifecycle) && s !in lifecycle then {} else old(asleep)
    {
      if s in lifecycle {
        lifecycle := lifecycle[s := lifecycle[s].(waiters := lifecycle[s].waiters + 1)];
      }
      v := Inspect(s, expired);
      if v == Sleep {
        asleep := asleep + {me};
      } else {
        Leave(s);
      }
    }

    // one more turn of the waiting loop, after a notification, a timeout or a spurious wake-up
    method Resume(s: StreamId, me: Waiter, expired: bool) returns (v: Verdict)
      modifies this
      ensures v == Look(old(CellOf(s)), expired) && OthersUnchanged(s)
      ensures v == Sleep ==> CellOf(s) == old(CellOf(s)) && asleep == old(asleep) + {me}
      ensures v != Sleep ==> CellOf(s) == Unregister(old(CellOf(s)))
      ensures v != Sleep ==> asleep == if old(s in lifecycle) && s !in lifecycle then {} else old(asleep) - {me}
    {
      v := Inspect(s, expired);
      if v == Sleep {
        asleep := asleep + {me};
      } else {
        asleep := asleep - {me};
        Leave(s);
      }
    }

    method Leave(s: StreamId)
      modifies this
      ensures CellOf(s) == Unregister(old(CellOf(s))) && OthersUnchanged(s)
      ensures asleep == if old(s in lifecycle) && s !in lifecycle then {} else old(asleep)
    {
      if s in lifecycle {
        var waiters := if lifecycle[s].waiters > 0 then lifecycle[s].waiters - 1 else 0;
        lifecycle := lifecycle[s := lifecycle[s].(waiters := waiters)];
        var retired := RetireIfDone(s);
        if retired {
          asleep := {};
        }
      }
    }
  }

  // ----- every run of one owner and any number of waiters -----

  // published is the id the owner handed to Publish, once it did.
  datatype Owner = Before | Running(published: Option<RunId>) | Gone(published: Option<RunId>)

  datatype Answered = Answered(who: Waiter, structured: bool, run: Option<RunId>)

  datatype System = System(cell: Cell, owner: Owner, inside: set<Waiter>, asleep: set<Waiter>, answers: seq<Answered>)

  datatype Event =
    | OwnerMarks
    | OwnerPublishes(run: RunId)
    | OwnerFinishes(fallback: bool)
    | OwnerRecordsApproval(run: RunId)
    | OwnerClears
    | WaiterEnters(who: Waiter, expired: bool)
    | WaiterResumes(who: Waiter, expired: bool)

  // The owner's call order, and a waiter being one thread.
  predicate Enabled(s: System, e: Event)
  {
    match e
    case OwnerMarks => s.owner == Before
    case OwnerPublishes(run) =>
      s.owner.Running? && run != "" && s.cell.entry.Some? && s.cell.entry.value.phase == Pending
    case OwnerFinishes(_) => s.owner.Running?
    case OwnerRecordsApproval(_) => s.owner.Running? && s.cell.entry.Some? && s.cell.entry.value.phase == Fallback
    case OwnerClears => !s.owner.Before?
    case WaiterEnters(who, _) => who !in s.inside
    case WaiterResumes(who, _) => who in s.inside
  }

  function Step(s: System, e: Event): System
  {
    match e
    case OwnerMarks => s.(cell := Mark(s.cell), owner := Running(None))
    case OwnerPublishes(run) =>
      s.(cell := Publish(s.cell, run),
         owner := if s.owner.Running? then Running(Some(run)) else s.owner,
         asleep := {})
    case OwnerFinishes(fallback) =>
      if s.cell.entry.Some? && s.cell.entry.value.phase == Ready then s
      else s.(cell := Finish(s.cell, fallback), asleep := {})
    case OwnerRecordsApproval(run) => s.(cell := s.cell.(runId := Some(run)))
    case OwnerClears =>
      s.(cell := Clear(s.cell),
         owner := if s.owner.Before? then s.owner else Gone(s.owner.published),
         asleep := {})
    case WaiterEnters(who, expired) =>
      var c := Register(s.cell);
      var v := Look(c, expired);
      if v == Sleep then s.(cell := c, inside := s.inside + {who}, asleep := s.asleep + {who})
      else s.(cell := Unregister(c), answers := s.answers + [Answered(who, v.structured, v.run)])
    case WaiterResumes(who, expired) =>
      var v := Look(s.cell, expired);
      if v == Sleep then s.(asleep := s.asleep + {who})
      else s.(cell := Unregister(s.cell), inside := s.inside - {who}, asleep := s.asleep - {who},
              answers := s.answers + [Answered(who, v.structured, v.run)])
  }

  const START := System(VACANT, Before, {}, {}, [])

  // The state after a schedule, and the schedules that respect the call order.
  function Run(events: seq<Event>): System
  {
    if events == [] then START else Step(Run(events[..|events| - 1]), events[|events| - 1])
  }

  predicate Legal(events: seq<Event>)
  {
    events == [] || (Legal(events[..|events| - 1]) && Enabled(Run(events[..|events| - 1]), events[|events| - 1]))
  }

  function Published(o: Owner): Option<RunId>
  {
    if o.Before? then None else o.published
  }

  ghost predicate Inv(s: System)
  {
    && (s.owner.Before? ==> s.cell == VACANT)
    && (s.owner.Running? ==> s.cell.entry.Some?)
    && (s.owner.Gone? ==> (s.cell.entry.Some? <==> s.inside != {}))
    && (s.cell.entry.None? ==> s.cell == VACANT && s.inside == {})
    && (s.cell.entry.Some? ==>
          var e := s.cell.entry.value;
          && e.waiters == |s.inside|
          && e.ownerDone == s.owner.Gone?
          && (e.phase == Ready <==> Published(s.owner).Some?)
          && (e.phase == Ready ==> s.cell.runId == Published(s.owner) == Some(e.runId) && e.runId != "")
          && (e.phase == Pending || e.phase == Failed ==> s.cell.runId == None))
    && s.asleep <= s.inside
    && (s.asleep != {} ==> s.cell.entry.Some? && s.cell.entry.value.phase == Pending)
    && (forall i | 0 <= i < |s.answers| && s.answers[i].run.Some? :: s.answers[i].run == Published(s.owner))
  }

  lemma {:induction false} OwnerKeepsInv(s: System, e: Event)
    requires Inv(s) && Enabled(s, e) && !e.WaiterEnters? && !e.WaiterResumes?
    ensures Inv(Step(s, e))
  {
  }

  // A waiter that need not wait leaves no trace.
  lemma {:induction false} InAndOut(s: System)
    requires Inv(s)
    ensures Unregister(Register(s.cell)) == s.cell
  {
  }

  lemma {:induction false} EnteringKeepsInv(s: System, who: Waiter, expired: bool)
    requires Inv(s) && who !in s.inside
    ensures Inv(Step(s, WaiterEnters(who, expired)))
  {
    var v := Look(Register(s.cell), expired);
    if v == Sleep {
      assert |s.inside + {who}| == |s.inside| + 1;
    } else {
      InAndOut(s);
      assert v.run.Some? ==> v.run == Published(s.owner);
    }
  }

  lemma {:induction false} ResumingKeepsInv(s: System, who: Waiter, expired: bool)
    requires Inv(s) && who in s.inside
    ensures Inv(Step(s, WaiterResumes(who, expired)))
  {
  }

  lemma {:induction false} InvKept(s: System, e: Event)
    requires Inv(s) && Enabled(s, e)
    ensures Inv(Step(s, e))
  {
    match e
    case WaiterEnters(who, expired) => EnteringKeepsInv(s, who, expired);
    case WaiterResumes(who, expired) => ResumingKeepsInv(s, who, expired);
    case _ => OwnerKeepsInv(s, e);
  }

  lemma {:induction false} InvAlways(events: seq<Event>)
    requires Legal(events)
    ensures Inv(Run(events))
  {
    if events == [] {
    } else {
      InvAlways(events[..|events| - 1]);
      InvKept(Run(events[..|events| - 1]), events[|events| - 1]);
    }
  }

  /** The stored count is the number of threads inside, and no entry is taken from under them. */
  lemma {:induction false} CountIsExact(events: seq<Event>)
    requires Legal(events)
    ensures Run(events).cell.entry.Some? ==> Run(events).cell.entry.value.waiters == |Run(events).inside|
    ensures Run(events).inside != {} ==> Run(events).cell.entry.Some?
  {
    InvAlways(events);
  }

  /** After the owner cleared, the stream is forgotten exactly when the last waiter is out. */
  lemma {:induction false} RetiredExactlyWhenUnneeded(events: seq<Event>)
    requires Legal(events) && Run(events).owner.Gone?
    ensures Run(events).cell == VACANT <==> Run(events).inside == {}
  {
    InvAlways(events);
  }

  /** Every waiter that gets an id gets the one the owner published. */
  lemma {:induction false} AnswersArePublished(events: seq<Event>, i: nat)
    requires Legal(events) && i < |Run(events).answers| && Run(events).answers[i].run.Some?
    ensures Run(events).answers[i].run == Published(Run(events).owner)
  {
    InvAlways(events);
  }

  /** Once ready, an entry stays ready with the same id until it is retired unneeded. */
  lemma {:induction false} ReadyIsFinal(events: seq<Event>, e: Event)
    requires Legal(events) && Enabled(Run(events), e)
    requires Run(events).cell.entry.Some? && Run(events).cell.entry.value.phase == Ready
    ensures var s' := Step(Run(events), e);
            || (s'.cell == VACANT && s'.owner.Gone? && s'.inside == {})
            || (s'.cell.runId == Run(events).cell.runId && s'.cell.entry.Some? && s'.cell.entry.value.phase == Ready
                && s'.cell.entry.value.runId == Run(events).cell.entry.value.runId)
  {
    InvAlways(events);
    InvKept(Run(events), e);
  }

  /** No lost wake-up: a waiter no notification has reached would only go back to sleep. */
  lemma {:induction false} NoLostWakeup(events: seq<Event>, who: Waiter)
    requires Legal(events) && who in Run(events).asleep
    ensures who in Run(events).inside && Look(Run(events).cell, false) == Sleep
  {
    InvAlways(events);
  }

  /** A waiter is told "no structured run" only in the fallback phase or with no run in sight. */
  lemma {:induction false} UnstructuredMeansFallback(events: seq<Event>, expired: bool)
    requires Legal(events)
    ensures Look(Run(events).cell, expired) == Answer(false, None) <==>
            Run(events).cell.entry.None? || Run(events).cell.entry.value.phase == Fallback
    ensures Look(Run(events).cell, expired).Answer? && Look(Run(events).cell, expired).run.Some? <==>
            Published(Run(events).owner).Some? && Run(events).cell != VACANT
  {
    InvAlways(events);
  }

  // ----- what waiters are told, from the owner's calls alone -----

  datatype Decision = Undecided | Structured(run: RunId) | Ended(fallback: bool)

  // The call of the owner that counts: a published id stands, otherwise the last Finish does.
  function Decide(d: Decision, e: Event): Decision
  {
    match e
    case OwnerPublishes(run) => Structured(run)
    case OwnerFinishes(fallback) => if d.Structured? then d else Ended(fallback)
    case _ => d
  }

  function Decided(events: seq<Event>): Decision
  {
    if events == [] then Undecided else Decide(Decided(events[..|events| - 1]), events[|events| - 1])
  }

  ghost predicate Shows(c: Cell, d: Decision)
  {
    c.entry.Some? ==>
      match d
      case Undecided => c.entry.value.phase == Pending
      case Structured(run) => c.entry.value.phase == Ready && c.runId == Some(run) && run != ""
      case Ended(fallback) => c.entry.value.phase == if fallback then Fallback else Failed
  }

  lemma {:induction false} ShowsKept(s: System, d: Decision, e: Event)
    requires Inv(s) && Enabled(s, e) && Shows(s.cell, d) && (s.owner.Before? ==> d.Undecided?)
    ensures Shows(Step(s, e).cell, Decide(d, e))
    ensures Step(s, e).owner.Before? ==> Decide(d, e).Undecided?
  {
    InvKept(s, e);
  }

  lemma {:induction false} ShowsAlways(events: seq<Event>)
    requires Legal(events)
    ensures Shows(Run(events).cell, Decided(events))
    ensures Run(events).owner.Before? ==> Decided(events).Undecided?
  {
    if events == [] {
    } else {
      var before := events[..|events| - 1];
      ShowsAlways(before);
      InvAlways(before);
      ShowsKept(Run(before), Decided(before), events[|events| - 1]);
    }
  }

  // The verdict of a waiter looking now: nothing to hear of a stream nobody runs any more.
  function Told(s: System, d: Decision, expired: bool): Verdict
  {
    if s.owner.Before? || (s.owner.Gone? && s.inside == {}) then Answer(false, None) else
    match d
    case Structured(run) => Answer(true, Some(run))
    case Ended(fallback) => Answer(!fallback, None)
    case Undecided => if expired then Answer(true, None) else Sleep
  }

  /** In every run what a waiter is told follows from the owner's calls, its deadline, and who is still there. */
  lemma {:induction false} ToldExactly(events: seq<Event>, expired: bool)
    requires Legal(events)
    ensures Look(Run(events).cell, expired) == Told(Run(events), Decided(events), expired)
  {
    InvAlways(events);
    ShowsAlways(events);
  }

  /** A waiter sleeps exactly while the entry is pending and its deadline lies ahead. */
  lemma {:induction false} SleepsExactly(events: seq<Event>, expired: bool)
    requires Legal(events)
    ensures var entry := Run(events).cell.entry;
            Look(Run(events).cell, expired) == Sleep <==> entry.Some? && entry.value.phase == Pending && !expired
  {
    InvAlways(events);
  }

  lemma {:induction false} LegalPrefix(events: seq<Event>, k: nat)
    requires Legal(events) && k <= |events|
    ensures Legal(events[..k])
  {
    if k == |events| {
      assert events[..k] == events;
    } else {
      LegalPrefix(events[..|events| - 1], k);
      assert events[..|events| - 1][..k] == events[..k];
    }
  }

  // Who takes a turn of the waiting loop in an event, and whether past its deadline.
  predicate Turn(e: Event, who: Waiter, expired: bool)
  {
    e == WaiterEnters(who, expired) || e == WaiterResumes(who, expired)
  }

  /**
    Over every run: the waiter that takes a turn is inside afterwards exactly if
    there is something to wait for, nothing is decided and its deadline lies ahead;
    otherwise it has left with the answer the owner's calls determine.
   */
  lemma {:induction false} TurnExactly(events: seq<Event>, k: nat, who: Waiter, expired: bool)
    requires Legal(events) && k < |events| && Turn(events[k], who, expired)
    ensures var s, s' := Run(events[..k]), Run(events[..k + 1]);
            var v := Told(s, Decided(events[..k]), expired);
            && (who in s'.inside <==> v == Sleep)
            && s'.answers == if v == Sleep then s.answers else s.answers + [Answered(who, v.structured, v.run)]
  {
    LegalPrefix(events, k + 1);
    assert events[..k + 1][..k] == events[..k];
    LegalPrefix(events, k);
    ToldExactly(events[..k], expired);
    assert Look(Register(Run(events[..k]).cell), expired) == Look(Run(events[..k]).cell, expired);
  }

  /** No waiter is still inside after a turn it took past its deadline. */
  lemma {:induction false} DeadlineEndsWaiting(events: seq<Event>, k: nat, who: Waiter)
    requires Legal(events) && k < |events| && Turn(events[k], who, true)
    ensures who !in Run(events[..k + 1]).inside
  {
    TurnExactly(events, k, who, true);
  }
}
