/**
  The gate a process completion passes on its way to the agent: the shared
  consumed set, the per-session seen sets, and the reaper that sweeps them.
 */
module AdmissionGate {
  import opened Options

  type SessionId = Id
  type ProcessId = Id

  // Where the single drain thread stands with its current completion.
  datatype Stage =
    | Idle
    | Checked(sid: SessionId, pid: ProcessId)
    | Admitted(sid: SessionId, pid: ProcessId)
    | Emitted(sid: SessionId, pid: ProcessId)
    | Pended(sid: SessionId, pid: ProcessId)
    | Dispatching(sid: SessionId, pid: ProcessId)

  // passes lists the completions that got through, oldest first; registry says
  // whether the agent's process registry, owner of the consumed set, is importable.
  datatype Gate = Gate(registry: bool, consumed: set<ProcessId>, seen: map<SessionId, set<ProcessId>>,
                       pending: set<SessionId>, stage: Stage, passes: seq<ProcessId>)

  datatype Step =
    | TakeNext(sid: SessionId, pid: ProcessId)  // next queued completion, with the consumed check
    | TryGate                                   // the seen-set critical section
    | Emit
    | AddPending
    | MarkConsumed
    | Dispatch
    | ReaperSweeps
    | PendingDiscarded(other: SessionId)
    | ConsumedElsewhere(taken: ProcessId)
    | SessionForgotten(gone: SessionId)

  function SeenBy(seen: map<SessionId, set<ProcessId>>, sid: SessionId): set<ProcessId>
  {
    if sid in seen then seen[sid] else {}
  }

  predicate Enabled(g: Gate, step: Step)
  {
    match step
    case TakeNext(sid, _) => g.stage == Idle && sid != NoId
    case TryGate => g.stage.Checked?
    case Emit => g.stage.Admitted?
    case AddPending => g.stage.Emitted?
    case MarkConsumed => g.stage.Pended?
    case Dispatch => g.stage.Dispatching?
    case _ => true
  }

  function Swept(g: Gate): map<SessionId, set<ProcessId>>
  {
    map s | s in g.seen && s in g.pending :: g.seen[s]
  }

  function Next(g: Gate, step: Step): Gate
  {
    if !Enabled(g, step) then g else
    match step
    case TakeNext(sid, pid) =>
      if pid != NoId && g.registry && pid in g.consumed then g else g.(stage := Checked(sid, pid))
    case TryGate =>
      var (sid, pid) := (g.stage.sid, g.stage.pid);
      if pid != NoId && pid in SeenBy(g.seen, sid) then g.(stage := Idle)
      else g.(stage := Admitted(sid, pid), passes := g.passes + [pid],
              seen := g.seen[sid := SeenBy(g.seen, sid) + if pid != NoId then {pid} else {}])
    case Emit => g.(stage := Emitted(g.stage.sid, g.stage.pid))
    case AddPending => g.(stage := Pended(g.stage.sid, g.stage.pid), pending := g.pending + {g.stage.sid})
    case MarkConsumed =>
      g.(stage := Dispatching(g.stage.sid, g.stage.pid),
         consumed := g.consumed + if g.registry && g.stage.pid != NoId then {g.stage.pid} else {})
    case Dispatch => g.(stage := Idle)
    case ReaperSweeps => g.(seen := Swept(g))
    case PendingDiscarded(sid) => g.(pending := g.pending - {sid})
    case ConsumedElsewhere(pid) => g.(consumed := g.consumed + {pid})
    case SessionForgotten(sid) => g.(seen := g.seen - {sid})
  }

  predicate PastGate(stage: Stage)
  {
    stage.Admitted? || stage.Emitted? || stage.Pended?
  }

  // Whatever passed is consumed, or is the completion in hand; what is in hand
  // before the gate has not passed.
  ghost predicate Inv(g: Gate)
  {
    && (forall i | 0 <= i < |g.passes| && g.passes[i] != NoId ::
          g.passes[i] in g.consumed || (PastGate(g.stage) && g.stage.pid == g.passes[i]))
    && (g.stage.Checked? && g.stage.pid != NoId ==> g.stage.pid !in g.passes)
    && (forall i, j | 0 <= i < j < |g.passes| && g.passes[i] == g.passes[j] :: g.passes[i] == NoId)
    && (!g.stage.Idle? ==> g.stage.sid != NoId)
    && (!g.stage.Idle? && !g.stage.Checked? ==> g.stage.pid in g.passes)
  }

  lemma {:induction false} InvKept(g: Gate, step: Step)
    requires g.registry && Inv(g) && Enabled(g, step)
    ensures Inv(Next(g, step)) && Next(g, step).registry
  {
  }

  function Fresh(registry: bool): Gate
  {
    Gate(registry, {}, map[], {}, Idle, [])
  }

  function Run(registry: bool, steps: seq<Step>): Gate
  {
    if steps == [] then Fresh(registry) else Next(Run(registry, steps[..|steps| - 1]), steps[|steps| - 1])
  }

  predicate Legal(registry: bool, steps: seq<Step>)
  {
    steps == [] ||
    (Legal(registry, steps[..|steps| - 1]) && Enabled(Run(registry, steps[..|steps| - 1]), steps[|steps| - 1]))
  }

  lemma {:induction false} InvAlways(steps: seq<Step>)
    requires Legal(true, steps)
    ensures Inv(Run(true, steps)) && Run(true, steps).registry
  {
    if steps == [] {
    } else {
      InvAlways(steps[..|steps| - 1]);
      InvKept(Run(true, steps[..|steps| - 1]), steps[|steps| - 1]);
    }
  }

  /** However sweeps, discards and other consumers interleave, a process id passes at most once. */
  lemma {:induction false} PassesAtMostOnce(steps: seq<Step>, i: nat, j: nat)
    requires Legal(true, steps) && i < j < |Run(true, steps).passes|
    requires Run(true, steps).passes[i] != NoId
    ensures Run(true, steps).passes[i] != Run(true, steps).passes[j]
  {
    InvAlways(steps);
  }

  // ----- exactly when -----

  /**
    From rest, a delivery of an id passes exactly when the registry does not hold
    it consumed and its session's seen-set, after whatever sweeps, does not hold it.
   */
  lemma {:induction false} PassesAgainExactly(g: Gate, sid: SessionId, pid: ProcessId)
    requires g.stage == Idle && sid != NoId && pid != NoId
    ensures Next(Next(g, TakeNext(sid, pid)), TryGate).passes ==
            if (g.registry && pid in g.consumed) || pid in SeenBy(g.seen, sid) then g.passes else g.passes + [pid]
  {
  }

  // One completion from the queue to its dispatch.
  function Lap(sid: SessionId, pid: ProcessId): seq<Step>
  {
    [TakeNext(sid, pid), TryGate, Emit, AddPending, MarkConsumed, Dispatch]
  }

  lemma {:induction false} OneStepOn(registry: bool, steps: seq<Step>, step: Step)
    requires Legal(registry, steps) && Enabled(Run(registry, steps), step)
    ensures Legal(registry, steps + [step]) && Run(registry, steps + [step]) == Next(Run(registry, steps), step)
  {
    assert (steps + [step])[..|steps|] == steps;
  }

  // The first half of a lap, up to the emit, and the second.
  lemma {:induction false} FirstHalf(registry: bool, steps: seq<Step>, sid: SessionId, pid: ProcessId)
    requires Legal(registry, steps) && Run(registry, steps).stage == Idle && sid != NoId && pid != NoId
    requires var g := Run(registry, steps); !(g.registry && pid in g.consumed) && pid !in SeenBy(g.seen, sid)
    ensures var half := steps + [TakeNext(sid, pid), TryGate, Emit];
            var g := Run(registry, steps);
            && Legal(registry, half)
            && Run(registry, half) == g.(stage := Emitted(sid, pid), passes := g.passes + [pid],
                                         seen := g.seen[sid := SeenBy(g.seen, sid) + {pid}])
  {
    var s1 := steps + [TakeNext(sid, pid)];
    OneStepOn(registry, steps, TakeNext(sid, pid));
    OneStepOn(registry, s1, TryGate);
    OneStepOn(registry, s1 + [TryGate], Emit);
    assert s1 + [TryGate] + [Emit] == steps + [TakeNext(sid, pid), TryGate, Emit];
  }

  lemma {:induction false} SecondHalf(registry: bool, steps: seq<Step>)
    requires Legal(registry, steps) && Run(registry, steps).stage.Emitted?
    ensures var all := steps + [AddPending, MarkConsumed, Dispatch];
            var g, g' := Run(registry, steps), Run(registry, all);
            && Legal(registry, all) && g' == g.(stage := Idle, pending := g'.pending, consumed := g'.consumed)
            && g'.pending == g.pending + {g.stage.sid}
  {
    var s1 := steps + [AddPending];
    OneStepOn(registry, steps, AddPending);
    OneStepOn(registry, s1, MarkConsumed);
    OneStepOn(registry, s1 + [MarkConsumed], Dispatch);
    assert s1 + [MarkConsumed] + [Dispatch] == steps + [AddPending, MarkConsumed, Dispatch];
  }

  lemma {:induction false} LapGoesOn(registry: bool, steps: seq<Step>, sid: SessionId, pid: ProcessId)
    requires Legal(registry, steps) && Run(registry, steps).stage == Idle && sid != NoId && pid != NoId
    requires var g := Run(registry, steps); !(g.registry && pid in g.consumed) && pid !in SeenBy(g.seen, sid)
    ensures Legal(registry, steps + Lap(sid, pid))
    ensures var g, g' := Run(registry, steps), Run(registry, steps + Lap(sid, pid));
            && g'.passes == g.passes + [pid] && g'.stage == Idle && g'.registry == g.registry
            && g'.seen == g.seen[sid := SeenBy(g.seen, sid) + {pid}] && g'.pending == g.pending + {sid}
  {
    var half := steps + [TakeNext(sid, pid), TryGate, Emit];
    FirstHalf(registry, steps, sid, pid);
    SecondHalf(registry, half);
    assert half + [AddPending, MarkConsumed, Dispatch] == steps + Lap(sid, pid);
  }

  // Without the registry: delivered once, drained, swept, and delivered again.
  lemma {:induction false} SweepReopensWithoutRegistry(sid: SessionId, pid: ProcessId)
    requires sid != NoId && pid != NoId
    ensures var steps := Lap(sid, pid) + [PendingDiscarded(sid)] + [ReaperSweeps] + Lap(sid, pid);
            Legal(false, steps) && Run(false, steps).passes == [pid, pid]
  {
    var once := Lap(sid, pid);
    assert [] + once == once;
    LapGoesOn(false, [], sid, pid);
    OneStepOn(false, once, PendingDiscarded(sid));
    OneStepOn(false, once + [PendingDiscarded(sid)], ReaperSweeps);
    LapGoesOn(false, once + [PendingDiscarded(sid)] + [ReaperSweeps], sid, pid);
  }

  // Without the registry no sweep is even needed: two sessions will do.
  lemma {:induction false} TwoSessionsWithoutRegistry(sid: SessionId, other: SessionId, pid: ProcessId)
    requires sid != NoId && other != NoId && sid != other && pid != NoId
    ensures var steps := Lap(sid, pid) + Lap(other, pid); Legal(false, steps) && Run(false, steps).passes == [pid, pid]
  {
    assert [] + Lap(sid, pid) == Lap(sid, pid);
    LapGoesOn(false, [], sid, pid);
    LapGoesOn(false, Lap(sid, pid), other, pid);
  }

  ghost predicate NoRepeats(passes: seq<ProcessId>)
  {
    forall i, j | 0 <= i < j < |passes| && passes[i] != NoId :: passes[i] != passes[j]
  }

  /** Every legal run lets each id through at most once if and only if the registry is importable. */
  lemma {:induction false} PassesOnceExactlyWithRegistry(registry: bool)
    ensures (forall steps | Legal(registry, steps) :: NoRepeats(Run(registry, steps).passes)) <==> registry
  {
    if registry {
      forall steps | Legal(true, steps)
        ensures NoRepeats(Run(true, steps).passes)
      {
        InvAlways(steps);
      }
    } else {
      SweepReopensWithoutRegistry(Sid("s"), Sid("p"));
      var steps := Lap(Sid("s"), Sid("p")) + [PendingDiscarded(Sid("s"))] + [ReaperSweeps] + Lap(Sid("s"), Sid("p"));
      var passes := Run(false, steps).passes;
      assert passes[0] == passes[1] != NoId;
    }
  }

  // ----- the module state behind the gate -----

  class CompletionGate {
    var consumed: set<ProcessId>
    var seen: map<SessionId, set<ProcessId>>
    var pending: set<SessionId>

    constructor ()
      ensures consumed == {} && seen == map[] && pending == {}
    {
      consumed, seen, pending := {}, map[], {};
    }

    method TryPass(sid: SessionId, pid: ProcessId) returns (passed: bool)
      modifies this`seen
      ensures passed <==> pid == NoId || pid !in SeenBy(old(seen), sid)
      ensures seen == old(seen)[sid := SeenBy(old(seen), sid) + if pid != NoId then {pid} else {}]
    {
      ghost var before := SeenBy(seen, sid);
      if sid !in seen {
        seen := seen[sid := {}];
      }
      passed := pid == NoId || pid !in seen[sid];
      if passed && pid != NoId {
        seen := seen[sid := seen[sid] + {pid}];
      }
      assert seen[sid] == before + if pid != NoId then {pid} else {};
    }

    method Sweep()
      modifies this`seen
      ensures seen == map s | s in old(seen) && s in pending :: old(seen)[s]
    {
      var stale := set s | s in seen && s !in pending;
      while stale != {}
        invariant forall s | s in stale :: s in old(seen) && s !in pending
        invariant forall s | s in old(seen) :: s in seen || s !in pending
        invariant forall s | s in seen :: s in old(seen) && seen[s] == old(seen)[s] && (s in pending || s in stale)
      {
        var s :| s in stale;
        stale := stale - {s};
        seen := seen - {s};
      }
    }
  }

  // ----- what a sweep leaves -----

  /**
    An id in its session's seen-set when the session is marked pending stays there
    through any sweeps until the session is drained or forgotten.
   */
  lemma {:induction false} SeenUntilDrained(registry: bool, steps: seq<Step>, i: nat, k: nat,
                                            sid: SessionId, pid: ProcessId)
    requires i < k <= |steps| && steps[i] == AddPending
    requires var g := Run(registry, steps[..i]);
             g.stage.Emitted? && g.stage.sid == sid && pid in SeenBy(g.seen, sid)
    requires forall j | i < j < k :: steps[j] != PendingDiscarded(sid) && steps[j] != SessionForgotten(sid)
    ensures var g := Run(registry, steps[..k]);
            sid in g.pending && pid in SeenBy(g.seen, sid)
    decreases k
  {
    assert steps[..k][..k - 1] == steps[..k - 1];
    if i + 1 < k {
      SeenUntilDrained(registry, steps, i, k - 1, sid, pid);
    }
  }

  /** A sweep drops exactly the seen-sets of sessions with nothing pending. */
  lemma {:induction false} SweepExactly(g: Gate, sid: SessionId)
    ensures SeenBy(Next(g, ReaperSweeps).seen, sid) == if sid in g.pending then SeenBy(g.seen, sid) else {}
  {
  }
}
