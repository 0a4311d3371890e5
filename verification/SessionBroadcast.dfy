/**
  Broadcasting to a session's channel. An emit looks its channel up, copies the
  subscribers under the channel's lock, and then offers the event to one queue
  after the other with no lock held. Each method but Emit is one atomic step of
  somebody; Emit lets others take any number of steps between any two of its own.
 */
module SessionBroadcast {
  import opened Options
  import opened SessionChannels

  // How many of the first queues had room when they held that much.
  function Taken(qs: seq<SubscriberQueue>, backlogs: seq<nat>): nat
    requires |backlogs| <= |qs|
  {
    if backlogs == [] then 0
    else
      var n := |backlogs| - 1;
      Taken(qs, backlogs[..n]) + if HasRoom(qs[n].capacity, backlogs[n]) then 1 else 0
  }

  lemma {:induction false} TakenNext(qs: seq<SubscriberQueue>, backlogs: seq<nat>, backlog: nat)
    requires |backlogs| < |qs|
    ensures Taken(qs, backlogs + [backlog]) ==
            Taken(qs, backlogs) + if HasRoom(qs[|backlogs|].capacity, backlog) then 1 else 0
  {
    assert (backlogs + [backlog])[..|backlogs|] == backlogs;
  }

  // What one emit should have offered a queue once it has been through the first of its copies, one per backlog.
  ghost function Due(q: SubscriberQueue, subs: seq<SubscriberQueue>, emit: nat, event: Event, backlogs: seq<nat>):
    seq<Offering>
    requires |backlogs| <= |subs|
  {
    if backlogs == [] then []
    else
      var n := |backlogs| - 1;
      Due(q, subs, emit, event, backlogs[..n]) + if subs[n] == q then [Offering(emit, event, backlogs[n])] else []
  }

  lemma {:induction false} DueNext(q: SubscriberQueue, subs: seq<SubscriberQueue>, emit: nat, event: Event,
                                   backlogs: seq<nat>, backlog: nat)
    requires |backlogs| < |subs|
    ensures Due(q, subs, emit, event, backlogs + [backlog]) ==
            Due(q, subs, emit, event, backlogs) +
            if subs[|backlogs|] == q then [Offering(emit, event, backlog)] else []
  {
    assert (backlogs + [backlog])[..|backlogs|] == backlogs;
  }

  lemma {:induction false} NotDue(q: SubscriberQueue, subs: seq<SubscriberQueue>, emit: nat, event: Event,
                                  backlogs: seq<nat>)
    requires |backlogs| <= |subs| && q !in subs
    ensures Due(q, subs, emit, event, backlogs) == []
  {
    if backlogs == [] {
    } else {
      NotDue(q, subs, emit, event, backlogs[..|backlogs| - 1]);
    }
  }

  /** Each copy is due the event once, and no other queue ever is. */
  lemma {:induction false} DueOnce(q: SubscriberQueue, subs: seq<SubscriberQueue>, emit: nat, event: Event,
                                   backlogs: seq<nat>)
    requires |backlogs| <= |subs| && Distinct(subs)
    ensures q !in subs[..|backlogs|] ==> Due(q, subs, emit, event, backlogs) == []
    ensures forall j | 0 <= j < |backlogs| && subs[j] == q ::
              Due(q, subs, emit, event, backlogs) == [Offering(emit, event, backlogs[j])]
  {
    if backlogs == [] {
    } else {
      var n := |backlogs| - 1;
      DueOnce(q, subs, emit, event, backlogs[..n]);
      if subs[n] == q {
        assert q !in subs[..n];
      }
    }
  }

  class Broadcaster {
    const registry: Registry
    var emits: nat  // emits begun so far; bookkeeping for the specification

    ghost predicate Valid()
      reads this, registry, registry.channels.Values, registry.retired, registry.home.Keys
    {
      registry.Valid() && forall q | q in registry.home :: q.Sound(emits)
    }

    twostate predicate Grows()
      reads this, registry
    {
      registry.Grows() && old(emits) <= emits
    }

    constructor (registry: Registry)
      requires registry.Valid() && registry.home == map[]
      ensures Valid() && this.registry == registry && emits == 0
    {
      this.registry, emits := registry, 0;
    }

    ghost predicate Unoffered(emit: nat)
      reads registry, registry.home.Keys
    {
      forall q | q in registry.home :: Of(q.offers, emit) == []
    }

    method NewNumber() returns (emit: nat)
      requires Valid()
      modifies this`emits
      ensures Valid() && Grows() && emit == old(emits) && emits == emit + 1
      ensures Unoffered(emit)
    {
      emit := emits;
      forall q | q in registry.home
        ensures Of(q.offers, emit) == []
      {
        NoneYet(q.offers, emit);
      }
      emits := emits + 1;
    }

    // The locked part of an emit.
    method Copy(ch: SessionChannel, now: real) returns (subs: seq<SubscriberQueue>)
      requires Valid() && ch in registry.Known()
      modifies ch`lastEventAt
      ensures Valid() && Grows() && subs == ch.subscribers && Distinct(subs)
      ensures forall q | q in subs :: q in registry.live && registry.home[q] == ch
      ensures forall q | q in registry.live && registry.home[q] == ch :: q in subs
    {
      subs := ch.CopySubscribers(now);
    }

    // The same, giving the emit its number.
    method Begin(ch: SessionChannel, now: real) returns (subs: seq<SubscriberQueue>, emit: nat)
      requires Valid() && ch in registry.Known()
      modifies ch`lastEventAt, this`emits
      ensures Valid() && Grows() && emit == old(emits) && emits == emit + 1
      ensures subs == ch.subscribers && Distinct(subs)
      ensures forall q | q in subs :: q in registry.home && registry.home[q] == ch
      ensures forall q | q in registry.live && registry.home[q] == ch :: q in subs
      ensures Unoffered(emit)
    {
      emit := NewNumber();
      subs := Copy(ch, now);
    }

    // One offer of an emit, to a queue that may have been given back meanwhile.
    method OfferTo(q: SubscriberQueue, event: Event, emit: nat) returns (taken: bool)
      requires Valid() && q in registry.home && emit < emits
      modifies q
      ensures Valid() && Grows() && taken == HasRoom(q.capacity, |old(q.items)|)
      ensures q.items == if taken then old(q.items) + [event] else old(q.items)
      ensures Of(q.offers, emit) == old(Of(q.offers, emit)) + [Offering(emit, event, |old(q.items)|)]
      ensures forall other | other != emit :: Of(q.offers, other) == old(Of(q.offers, other))
    {
      ghost var before, o := q.offers, Offering(emit, event, |q.items|);
      taken := q.Offer(event, emit);
      OneMoreOffer(before, o, emit);
      forall other | other != emit
        ensures Of(q.offers, other) == Of(before, other)
      {
        OneMoreOffer(before, o, other);
      }
    }

    // The handler of a queue takes an event out.
    method GetFrom(q: SubscriberQueue)
      requires Valid() && q in registry.home
      modifies q
      ensures Valid() && Grows() && q.offers == old(q.offers)
    {
      var _ := q.Get();
    }

    // ----- what others may do -----

    // Queues and channels are those there were, and newly allocated ones.
    twostate predicate OnlyNew()
      reads registry
    {
      && (forall q | q in registry.home :: q in old(registry.home) || fresh(q))
      && (forall ch | ch in registry.Known() :: ch in old(registry.Known()) || fresh(ch))
    }

    // And of one emit nothing has been offered but what was before.
    twostate predicate OffersKept(emit: nat)
      reads registry, registry.home.Keys
    {
      && OnlyNew()
      && (forall q | q in registry.home ::
            Of(q.offers, emit) == if q in old(registry.home) then old(Of(q.offers, emit)) else [])
    }

    // One atomic step of anybody but one emit: a subscriber comes,
    method SubscriberComes(mine: nat, sid: Id, maxsize: nat, now: real)
      requires Valid() && mine < emits
      modifies registry, registry.channels.Values
      ensures Valid() && Grows() && OffersKept(mine)
    {
      var _, q := registry.SubscribeTo(sid, maxsize, now);
      assert q.Sound(emits) && Of(q.offers, mine) == [];
      assert forall p | p in old(registry.home) :: p.offers == old(p.offers) && p.Sound(emits);
    }

    // a subscriber goes,
    method SubscriberGoes(mine: nat, now: real)
      requires Valid() && mine < emits && registry.live != {}
      modifies registry, registry.channels.Values
      ensures Valid() && Grows() && OffersKept(mine)
    {
      var q :| q in registry.live;
      registry.Unsubscribe(registry.home[q], q, now);
    }

    // the reaper runs, another emit begins,
    method ChannelsChange(mine: nat, reaps: bool, now: real)
      requires Valid() && mine < emits
      modifies this, registry, registry.Known()
      ensures Valid() && Grows() && OffersKept(mine)
    {
      var grace: real, ttl: real := *, *;
      if reaps || registry.home == map[] {
        var _ := registry.ReaperTick(now, grace, ttl);
      } else {
        var q :| q in registry.home;
        var _, _ := Begin(registry.home[q], now);
      }
    }

    // or a queue is read, or offered its event by another emit that has begun.
    method QueueChanges(mine: nat, other: nat, event: Event)
      requires Valid() && mine < emits && registry.home != map[]
      modifies registry.home.Keys
      ensures Valid() && Grows() && OffersKept(mine)
    {
      var q :| q in registry.home;
      var offered: bool := *;
      if offered && other < emits && other != mine {
        var _ := OfferTo(q, event, other);
      } else {
        GetFrom(q);
      }
    }

    method SomebodyActs(mine: nat, what: int)
      requires Valid() && mine < emits
      modifies this, registry, registry.Known(), registry.home.Keys
      ensures Valid() && Grows() && OffersKept(mine)
    {
      var sid: Id, now: real, reaps: bool := *, *, *;
      var n: nat, event: nat :| true;
      if what == 0 && registry.live != {} {
        SubscriberGoes(mine, now);
      } else if what == 1 {
        ChannelsChange(mine, reaps, now);
      } else if what == 2 && registry.home != map[] {
        QueueChanges(mine, n, event);
      } else {
        SubscriberComes(mine, sid, n, now);
      }
    }

    method OthersAct(mine: nat)
      requires Valid() && mine < emits
      modifies this, registry, registry.Known(), registry.home.Keys
      ensures Valid() && Grows() && OffersKept(mine)
    {
      var steps :| steps >= 0;
      for i := 0 to steps
        invariant Valid() && Grows() && OffersKept(mine)
      {
        var what: int := *;
        SomebodyActs(mine, what);
      }
    }

    // ----- one emit among them -----

    ghost predicate UpTo(subs: seq<SubscriberQueue>, emit: nat, event: Event, backlogs: seq<nat>)
      requires |backlogs| <= |subs|
      reads registry, registry.home.Keys
    {
      forall q | q in registry.home :: Of(q.offers, emit) == Due(q, subs, emit, event, backlogs)
    }

    // Each of these queues has been offered the event by this emit, once, and no other queue has.
    ghost predicate Offered(subs: seq<SubscriberQueue>, emit: nat, event: Event, backlogs: seq<nat>)
      reads registry, registry.home.Keys
    {
      && |backlogs| == |subs| && (forall q | q in subs :: q in registry.home)
      && (forall j | 0 <= j < |subs| :: Of(subs[j].offers, emit) == [Offering(emit, event, backlogs[j])])
      && (forall q | q in registry.home && q !in subs :: Of(q.offers, emit) == [])
    }

    lemma {:induction false} UpToEnd(subs: seq<SubscriberQueue>, emit: nat, event: Event, backlogs: seq<nat>)
      requires |backlogs| == |subs| && Distinct(subs) && UpTo(subs, emit, event, backlogs)
      requires forall q | q in subs :: q in registry.home
      ensures Offered(subs, emit, event, backlogs)
    {
      assert subs[..|subs|] == subs;
      forall q | q in registry.home
        ensures q !in subs ==> Of(q.offers, emit) == []
        ensures forall j | 0 <= j < |subs| && subs[j] == q :: Of(q.offers, emit) == [Offering(emit, event, backlogs[j])]
      {
        DueOnce(q, subs, emit, event, backlogs);
      }
    }

    method OthersActDuring(subs: seq<SubscriberQueue>, emit: nat, event: Event, ghost backlogs: seq<nat>)
      requires Valid() && emit < emits && |backlogs| <= |subs| && UpTo(subs, emit, event, backlogs)
      requires forall q | q in subs :: q in registry.home
      modifies this, registry, registry.Known(), registry.home.Keys
      ensures Valid() && Grows() && OnlyNew() && UpTo(subs, emit, event, backlogs)
    {
      ghost var handedOut := registry.home.Keys;
      OthersAct(emit);
      forall q | q in registry.home
        ensures Of(q.offers, emit) == Due(q, subs, emit, event, backlogs)
      {
        if q !in handedOut {
          NotDue(q, subs, emit, event, backlogs);
        }
      }
    }

    method OfferAt(subs: seq<SubscriberQueue>, i: nat, emit: nat, event: Event, ghost backlogs: seq<nat>)
      returns (taken: bool)
      requires Valid() && emit < emits && i == |backlogs| < |subs| && subs[i] in registry.home
      requires UpTo(subs, emit, event, backlogs)
      modifies subs[i]
      ensures Valid() && UpTo(subs, emit, event, backlogs + [|old(subs[i].items)|])
      ensures taken == HasRoom(subs[i].capacity, |old(subs[i].items)|)
    {
      ghost var backlog := |subs[i].items|;
      taken := OfferTo(subs[i], event, emit);
      forall q | q in registry.home
        ensures Of(q.offers, emit) == Due(q, subs, emit, event, backlogs + [backlog])
      {
        DueNext(q, subs, emit, event, backlogs, backlog);
      }
    }

    // The next offer of an emit, after any number of steps of others.
    method OfferNext(subs: seq<SubscriberQueue>, i: nat, emit: nat, event: Event, before: nat, ghost backlogs: seq<nat>)
      returns (delivered: nat, ghost backlogs': seq<nat>)
      requires Valid() && emit < emits && i == |backlogs| < |subs| && before == Taken(subs, backlogs)
      requires (forall q | q in subs :: q in registry.home) && UpTo(subs, emit, event, backlogs)
      modifies this, registry, registry.Known(), registry.home.Keys
      ensures Valid() && Grows() && OnlyNew()
      ensures |backlogs'| == i + 1 && UpTo(subs, emit, event, backlogs') && delivered == Taken(subs, backlogs')
    {
      OthersActDuring(subs, emit, event, backlogs);
      backlogs' := backlogs + [|subs[i].items|];
      TakenNext(subs, backlogs, |subs[i].items|);
      var taken := OfferAt(subs, i, emit, event, backlogs);
      delivered := if taken then before + 1 else before;
    }

    // All offers of an emit that has copied its subscribers.
    method OfferAll(subs: seq<SubscriberQueue>, emit: nat, event: Event)
      returns (delivered: nat, ghost backlogs: seq<nat>)
      requires Valid() && emit < emits && Distinct(subs) && Unoffered(emit)
      requires forall q | q in subs :: q in registry.home
      modifies this, registry, registry.Known(), registry.home.Keys
      ensures Valid() && Grows()
      ensures Offered(subs, emit, event, backlogs) && delivered == Taken(subs, backlogs)
    {
      delivered, backlogs := 0, [];
      for i := 0 to |subs|
        invariant Valid() && Grows() && OnlyNew() && emit < emits
        invariant forall q | q in subs :: q in registry.home
        invariant |backlogs| == i && UpTo(subs, emit, event, backlogs) && delivered == Taken(subs, backlogs)
      {
        delivered, backlogs := OfferNext(subs, i, emit, event, delivered, backlogs);
      }
      UpToEnd(subs, emit, event, backlogs);
    }

    /**
      The event goes to the queues that were the channel's when they were copied, in
      that order, while others act between any two offers: each of these queues is
      offered it exactly once, also if given back meanwhile, and no other queue ever
      is. A queue takes it exactly if it has room at its own turn, and the count is of
      those that did.
     */
    method Emit(ch: SessionChannel, event: Event, now: real)
      returns (delivered: nat, ghost emit: nat, ghost backlogs: seq<nat>)
      requires Valid() && ch in registry.Known()
      modifies this, registry, registry.Known(), registry.home.Keys
      ensures Valid() && Grows() && emit == old(emits)
      ensures forall q | q in old(registry.live) && old(registry.home)[q] == ch :: q in old(ch.subscribers)
      ensures Offered(old(ch.subscribers), emit, event, backlogs)
      ensures delivered == Taken(old(ch.subscribers), backlogs)
    {
      var subs, number := Begin(ch, now);
      emit := number;
      delivered, backlogs := OfferAll(subs, number, event);
    }

    // An emit that has its number looks its channel up, and others act.
    method LookUp(sid: Id) returns (ch: Option<SessionChannel>, emit: nat)
      requires Valid()
      modifies this, registry, registry.Known(), registry.home.Keys
      ensures Valid() && Grows() && OnlyNew() && emit == old(emits) < emits && Unoffered(emit)
      ensures ch.Some? ==> ch.value in registry.Known() && ch.value.sid == sid
      ensures forall q | q in old(registry.live) && old(registry.home)[q].sid == sid ::
                ch == Some(old(registry.home)[q])
    {
      emit := NewNumber();
      ch := registry.Resolve(sid);
      OthersAct(emit);
    }

    method CopyAndOffer(ch: SessionChannel, emit: nat, event: Event, now: real)
      returns (delivered: nat, ghost liveThen: set<SubscriberQueue>, ghost subs: seq<SubscriberQueue>,
               ghost backlogs: seq<nat>)
      requires Valid() && emit < emits && ch in registry.Known() && Unoffered(emit)
      modifies this, registry, registry.Known(), registry.home.Keys
      ensures Valid() && Grows() && liveThen == old(registry.live)
      ensures forall q | q in liveThen && old(registry.home)[q] == ch :: q in subs
      ensures forall q | q in subs :: q in liveThen && q in old(registry.home) && old(registry.home)[q] == ch
      ensures Distinct(subs) && Offered(subs, emit, event, backlogs)
      ensures delivered == Taken(subs, backlogs)
    {
      var copies := Copy(ch, now);
      liveThen, subs := registry.live, copies;
      delivered, backlogs := OfferAll(copies, emit, event);
    }

    /**
      An emit from its lookup on, with others acting after the lookup, before every
      offer and in between: every queue of the session live at the lookup and still
      live when the subscribers are copied is offered the event exactly once, and so
      is every queue live throughout. liveThen are the queues live at the copying.
     */
    method EmitForSession(sid: Id, event: Event, now: real)
      returns (delivered: nat, ghost emit: nat, ghost liveThen: set<SubscriberQueue>,
               ghost subs: seq<SubscriberQueue>, ghost backlogs: seq<nat>)
      requires Valid()
      modifies this, registry, registry.Known(), registry.home.Keys
      ensures Valid() && Grows() && emit == old(emits)
      ensures forall q | q in old(registry.live) && q in registry.live :: q in liveThen
      ensures forall q | q in old(registry.live) && old(registry.home)[q].sid == sid && q in liveThen :: q in subs
      ensures Distinct(subs) && Offered(subs, emit, event, backlogs)
      ensures forall q | q in subs :: q in liveThen && registry.home[q].sid == sid
      ensures delivered == Taken(subs, backlogs)
    {
      var ch, number := LookUp(sid);
      emit := number;
      if ch.None? {
        liveThen, subs, backlogs := registry.live, [], [];
        return 0, emit, liveThen, subs, backlogs;
      }
      delivered, liveThen, subs, backlogs := CopyAndOffer(ch.value, number, event, now);
    }
  }
}
