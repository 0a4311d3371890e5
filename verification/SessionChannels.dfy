/**
  The per-session event channels: subscribers come and go, a reaper collects idle
  channels, and an emit finds its channel through the registry. Each method of the
  registry is one critical section and keeps Valid() and Grows(), which therefore
  hold across every interleaving of subscribers, the reaper and emitters.
 */
module SessionChannels {
  import opened Options

  type Event = nat

  // One put_nowait: by which emit, of what, and how many events the queue then held.
  datatype Offering = Offering(emit: nat, event: Event, backlog: nat)

  // A capacity of 0 means unbounded.
  predicate HasRoom(capacity: nat, backlog: nat)
  {
    capacity == 0 || backlog < capacity
  }

  // The events of those offerings that found room, in order.
  ghost function Received(offers: seq<Offering>, capacity: nat): seq<Event>
  {
    if offers == [] then []
    else
      var last := offers[|offers| - 1];
      Received(offers[..|offers| - 1], capacity) + if HasRoom(capacity, last.backlog) then [last.event] else []
  }

  // The offerings of one emit.
  ghost function Of(offers: seq<Offering>, emit: nat): seq<Offering>
  {
    if offers == [] then []
    else
      var last := offers[|offers| - 1];
      Of(offers[..|offers| - 1], emit) + if last.emit == emit then [last] else []
  }

  ghost predicate Numbered(offers: seq<Offering>, emits: nat)
  {
    forall k | 0 <= k < |offers| :: offers[k].emit < emits
  }

  lemma {:induction false} NoneYet(offers: seq<Offering>, emits: nat)
    requires Numbered(offers, emits)
    ensures Of(offers, emits) == []
  {
    if offers == [] {
    } else {
      NoneYet(offers[..|offers| - 1], emits);
    }
  }

  lemma {:induction false} OneMoreOffer(offers: seq<Offering>, o: Offering, emit: nat)
    ensures Of(offers + [o], emit) == Of(offers, emit) + if o.emit == emit then [o] else []
  {
    assert (offers + [o])[..|offers|] == offers;
  }

  class SubscriberQueue {
    const capacity: nat
    var items: seq<Event>
    ghost var read: seq<Event>       // taken out by the handler so far
    ghost var offers: seq<Offering>  // every put_nowait so far

    // Nothing is lost, duplicated or reordered on its way through the queue.
    ghost predicate Valid()
      reads this
    {
      read + items == Received(offers, capacity)
    }

    // Valid, and offered to by emits numbered below the bound only.
    ghost predicate Sound(bound: nat)
      reads this
    {
      Valid() && Numbered(offers, bound)
    }

    constructor (capacity: nat)
      ensures Valid() && this.capacity == capacity && items == [] && read == [] && offers == []
    {
      this.capacity := capacity;
      items, read, offers := [], [], [];
    }

    predicate Full()
      reads this
    {
      capacity != 0 && |items| >= capacity
    }

    // put_nowait
    method Offer(event: Event, ghost emit: nat) returns (taken: bool)
      requires Valid()
      modifies this
      ensures Valid() && (taken <==> capacity == 0 || |old(items)| < capacity)
      ensures items == if taken then old(items) + [event] else old(items)
      ensures read == old(read) && offers == old(offers) + [Offering(emit, event, |old(items)|)]
    {
      ghost var o := Offering(emit, event, |items|);
      taken := !Full();
      if taken {
        items := items + [event];
      }
      assert (offers + [o])[..|offers|] == offers;
      offers := offers + [o];
    }

    // The handler's get.
    method Get() returns (event: Option<Event>)
      requires Valid()
      modifies this
      ensures Valid() && offers == old(offers)
      ensures event == if old(items) == [] then None else Some(old(items)[0])
      ensures items == if old(items) == [] then [] else old(items)[1..]
    {
      if items == [] {
        return None;
      }
      event := Some(items[0]);
      assert read + items == read + [items[0]] + items[1..];
      read := read + [items[0]];
      items := items[1..];
    }
  }

  class SessionChannel {
    const sid: Id
    var subscribers: seq<SubscriberQueue>
    var createdAt: real
    var lastEventAt: real
    var lastDropAt: Option<real>

    constructor (sid: Id, now: real)
      ensures this.sid == sid && subscribers == [] && createdAt == lastEventAt == now && lastDropAt == None
    {
      this.sid := sid;
      subscribers, createdAt, lastEventAt, lastDropAt := [], now, now, None;
    }

    method Subscribe(maxsize: nat) returns (q: SubscriberQueue)
      modifies this
      ensures fresh(q) && q.Valid() && q.capacity == maxsize && q.items == [] && q.offers == []
      ensures subscribers == old(subscribers) + [q] && lastDropAt == None
      ensures createdAt == old(createdAt) && lastEventAt == old(lastEventAt)
    {
      q := new SubscriberQueue(maxsize);
      subscribers := subscribers + [q];
      lastDropAt := None;
    }

    method Unsubscribe(q: SubscriberQueue, now: real)
      modifies this
      ensures FirstRemoved(old(subscribers), subscribers, q)
      ensures lastDropAt == if subscribers == [] then Some(now) else old(lastDropAt)
      ensures createdAt == old(createdAt) && lastEventAt == old(lastEventAt)
    {
      var i := 0;
      while i < |subscribers| && subscribers[i] != q
        invariant i <= |subscribers| && q !in subscribers[..i]
      {
        i := i + 1;
      }
      if i < |subscribers| {
        subscribers := subscribers[..i] + subscribers[i + 1..];
      }
      if subscribers == [] {
        lastDropAt := Some(now);
      }
    }

    // The locked part of emit.
    method CopySubscribers(now: real) returns (subs: seq<SubscriberQueue>)
      modifies this`lastEventAt
      ensures subs == subscribers && lastEventAt == now
    {
      subs := subscribers;
      lastEventAt := now;
    }

    // The whole of emit, with nobody else acting in between.
    method EmitAlone(event: Event, now: real, ghost emit: nat) returns (delivered: nat)
      requires Distinct(subscribers) && forall q | q in subscribers :: q.Valid()
      modifies this`lastEventAt, set q | q in subscribers
      ensures PutUpTo(subscribers, |subscribers|, old(Contents(subscribers)), event)
      ensures delivered == old(WithRoom(subscribers)) && lastEventAt == now
    {
      ghost var had, counts := Contents(subscribers), Counts(subscribers);
      var subs := CopySubscribers(now);
      delivered := 0;
      for i := 0 to |subs|
        invariant lastEventAt == now
        invariant PutUpTo(subs, i, had, event) && delivered == counts[i]
      {
        var taken := OfferInTurn(subs, i, event, emit, had);
        if taken {
          delivered := delivered + 1;
        }
      }
    }

    predicate ShouldCollect(now: real, grace: real, ttl: real)
      reads this
    {
      && subscribers == []
      && ((lastDropAt.Some? && now - lastDropAt.value >= grace) || now - createdAt >= ttl)
    }
  }

  /** A channel is due once nobody subscribes and its grace after the last drop, or its lifetime, is over. */
  lemma {:induction false} DueExactly(ch: SessionChannel, now: real, grace: real, ttl: real)
    ensures ch.ShouldCollect(now, grace, ttl) <==>
            && ch.subscribers == []
            && (ch.createdAt + ttl <= now || (ch.lastDropAt.Some? && ch.lastDropAt.value + grace <= now))
  {
  }

  // How many of the queues have room.
  function WithRoom(qs: seq<SubscriberQueue>): nat
    reads set q | q in qs
  {
    if qs == [] then 0 else WithRoom(qs[..|qs| - 1]) + if qs[|qs| - 1].Full() then 0 else 1
  }

  // What the queues hold, and how many of the first of them have room.
  ghost function Contents(qs: seq<SubscriberQueue>): (had: seq<seq<Event>>)
    reads set q | q in qs
    ensures |had| == |qs| && forall i | 0 <= i < |qs| :: had[i] == qs[i].items
  {
    if qs == [] then [] else Contents(qs[..|qs| - 1]) + [qs[|qs| - 1].items]
  }

  ghost function Counts(qs: seq<SubscriberQueue>): (counts: seq<nat>)
    reads set q | q in qs
    ensures |counts| == |qs| + 1 && counts[0] == 0 && counts[|qs|] == WithRoom(qs)
    ensures forall i | 0 <= i < |qs| :: counts[i + 1] == counts[i] + if qs[i].Full() then 0 else 1
  {
    if qs == [] then [0] else Counts(qs[..|qs| - 1]) + [WithRoom(qs)]
  }

  // The first i queues have been offered the event, and the others hold what they held.
  ghost predicate PutUpTo(subs: seq<SubscriberQueue>, i: nat, had: seq<seq<Event>>, event: Event)
    reads set q | q in subs
  {
    && i <= |subs| == |had|
    && forall j | 0 <= j < |subs| ::
         && subs[j].Valid()
         && subs[j].items == if j < i && HasRoom(subs[j].capacity, |had[j]|) then had[j] + [event] else had[j]
  }

  method OfferInTurn(subs: seq<SubscriberQueue>, i: nat, event: Event, ghost emit: nat, ghost had: seq<seq<Event>>)
    returns (taken: bool)
    requires i < |subs| && Distinct(subs) && PutUpTo(subs, i, had, event)
    modifies subs[i]
    ensures PutUpTo(subs, i + 1, had, event) && taken == HasRoom(subs[i].capacity, |had[i]|)
  {
    taken := subs[i].Offer(event, emit);
    assert taken == HasRoom(subs[i].capacity, |had[i]|);
    assert forall j | 0 <= j < |subs| && j != i :: subs[j] != subs[i];
  }

  // list.remove: the first occurrence goes; removing what is not there changes nothing.
  ghost predicate FirstRemoved(before: seq<SubscriberQueue>, after: seq<SubscriberQueue>, q: SubscriberQueue)
  {
    if q !in before then after == before
    else exists i :: 0 <= i < |before| && before[i] == q && q !in before[..i] && after == before[..i] + before[i + 1..]
  }

  predicate Distinct(qs: seq<SubscriberQueue>)
  {
    forall i, j | 0 <= i < j < |qs| :: qs[i] != qs[j]
  }

  lemma {:induction false} Shifted(before: seq<SubscriberQueue>, after: seq<SubscriberQueue>, i: nat, k: nat)
    requires i < |before| && after == before[..i] + before[i + 1..] && k < |after|
    ensures after[k] == before[if k < i then k else k + 1]
  {
  }

  lemma {:induction false} StaysDistinct(before: seq<SubscriberQueue>, after: seq<SubscriberQueue>, i: nat)
    requires Distinct(before) && i < |before| && after == before[..i] + before[i + 1..]
    ensures Distinct(after)
  {
    forall a, b | 0 <= a < b < |after|
      ensures after[a] != after[b]
    {
      Shifted(before, after, i, a);
      Shifted(before, after, i, b);
    }
  }

  lemma {:induction false} OnlyThatOneGone(before: seq<SubscriberQueue>, after: seq<SubscriberQueue>,
                                           q: SubscriberQueue)
    requires Distinct(before) && FirstRemoved(before, after, q)
    ensures Distinct(after)
    ensures forall k | 0 <= k < |after| :: after[k] in before && after[k] != q
    ensures forall k | 0 <= k < |before| && before[k] != q :: before[k] in after
  {
    if q in before {
      var i :| 0 <= i < |before| && before[i] == q && after == before[..i] + before[i + 1..];
      StaysDistinct(before, after, i);
      forall k | 0 <= k < |after|
        ensures after[k] in before && after[k] != q
      {
        Shifted(before, after, i, k);
      }
      forall k | 0 <= k < |before| && before[k] != q
        ensures before[k] in after
      {
        Shifted(before, after, i, if k < i then k else k - 1);
      }
    }
  }

  class Registry {
    var channels: map<Id, SessionChannel>

    // What threads hold in variables of their own: a handler its queue with the
    // channel it came from, an emitter copies of queues or a channel it looked up.
    var home: map<SubscriberQueue, SessionChannel>  // the channel each queue ever handed out came from
    var live: set<SubscriberQueue>                  // handed out and not yet given back
    ghost var retired: set<SessionChannel>          // collected; an emitter may still hold one

    // Every live queue sits in the channel now registered for its session;
    // registered channels hold live queues only, and collected ones hold none.
    ghost predicate Valid()
      reads this, channels.Values, retired
    {
      && (forall s | s in channels ::
            channels[s].sid == s && Distinct(channels[s].subscribers) && channels[s] !in retired)
      && (forall q | q in live ::
            q in home && home[q].sid in channels && channels[home[q].sid] == home[q] && q in home[q].subscribers)
      && (forall s | s in channels :: forall q | q in channels[s].subscribers :: q in live && home[q] == channels[s])
      && (forall ch | ch in retired :: ch.subscribers == [])
      && (forall q | q in home :: home[q] in Known())
    }

    ghost function Known(): set<SessionChannel>
      reads this
    {
      channels.Values + retired
    }

    // Queues keep their channel and, once given back, stay so; a channel once
    // registered is registered or collected.
    twostate predicate Grows()
      reads this
    {
      && (forall q | q in old(home) :: q in home && home[q] == old(home)[q] && (q in live ==> q in old(live)))
      && old(Known()) <= Known()
    }

    constructor ()
      ensures Valid() && live == {} && home == map[] && channels == map[] && retired == {}
    {
      channels, home, live, retired := map[], map[], {}, {};
    }

    method GetOrCreate(sid: Id, now: real) returns (ch: SessionChannel)
      requires Valid()
      modifies this`channels
      ensures Valid() && Grows()
      ensures sid in channels && channels[sid] == ch && channels == old(channels)[sid := ch]
      ensures if sid in old(channels) then ch == old(channels)[sid] else fresh(ch) && ch.subscribers == []
    {
      if sid in channels {
        ch := channels[sid];
        assert channels == channels[sid := ch];
      } else {
        ch := new SessionChannel(sid, now);
        channels := channels[sid := ch];
        assert forall c | c in old(channels).Values :: c in channels.Values by {
          assert forall s | s in old(channels) :: channels[s] == old(channels)[s];
        }
      }
    }

    method SubscribeTo(sid: Id, maxsize: nat, now: real) returns (ch: SessionChannel, q: SubscriberQueue)
      requires Valid()
      modifies this, channels.Values
      ensures Valid() && Grows() && retired == old(retired)
      ensures fresh(q) && q.Valid() && q.capacity == maxsize && q.items == [] && q.offers == []
      ensures live == old(live) + {q} && home == old(home)[q := ch] && (ch in old(channels).Values || fresh(ch))
      ensures ch.sid == sid && channels == old(channels)[sid := ch] && q in ch.subscribers && ch.lastDropAt == None
    {
      ch := GetOrCreate(sid, now);
      q := Attach(ch, maxsize);
    }

    // The second half of SubscribeTo, under the same lock as the first.
    method Attach(ch: SessionChannel, maxsize: nat) returns (q: SubscriberQueue)
      requires Valid() && ch.sid in channels && channels[ch.sid] == ch
      modifies this`live, this`home, ch
      ensures Valid() && Grows()
      ensures fresh(q) && q.Valid() && q.capacity == maxsize && q.items == [] && q.offers == []
      ensures live == old(live) + {q} && home == old(home)[q := ch]
      ensures ch.subscribers == old(ch.subscribers) + [q] && ch.lastDropAt == None
    {
      ghost var before := ch.subscribers;
      q := ch.Subscribe(maxsize);
      live := live + {q};
      home := home[q := ch];
      forall s, p | s in channels && p in channels[s].subscribers
        ensures p in live && home[p] == channels[s]
      {
        if channels[s] != ch {
          assert p in old(channels[s].subscribers);
        } else {
          assert p in before || p == q;
        }
      }
    }

    // The handler gives its queue back through the channel it was handed.
    method Unsubscribe(ch: SessionChannel, q: SubscriberQueue, now: real)
      requires Valid() && q in live && home[q] == ch
      modifies this`live, ch
      ensures Valid() && Grows() && live == old(live) - {q}
      ensures FirstRemoved(old(ch.subscribers), ch.subscribers, q) && q !in ch.subscribers
      ensures ch.lastDropAt == if ch.subscribers == [] then Some(now) else old(ch.lastDropAt)
    {
      ghost var before := ch.subscribers;
      ch.Unsubscribe(q, now);
      OnlyThatOneGone(before, ch.subscribers, q);
      live := live - {q};
      forall s, p | s in channels && p in channels[s].subscribers
        ensures p in live && home[p] == channels[s]
      {
        if channels[s] != ch {
          assert p in old(channels[s].subscribers);
        } else {
          assert p in before && p != q;
        }
      }
    }

    // The reaper's visit to one session.
    method ReapOne(sid: Id, now: real, grace: real, ttl: real) returns (collected: bool)
      requires Valid()
      modifies this`channels, this`retired
      ensures Valid() && Grows()
      ensures collected <==> sid in old(channels) && old(channels[sid].ShouldCollect(now, grace, ttl))
      ensures channels == if collected then old(channels) - {sid} else old(channels)
      ensures retired == if collected then old(retired) + {old(channels)[sid]} else old(retired)
      ensures Known() == old(Known())
    {
      if sid in channels && channels[sid].ShouldCollect(now, grace, ttl) {
        retired := retired + {channels[sid]};
        channels := channels - {sid};
        StillKnown(old(channels), channels, sid);
        return true;
      }
      collected := false;
    }

    method ReaperTick(now: real, grace: real, ttl: real) returns (collected: set<Id>)
      requires Valid()
      modifies this`channels, this`retired
      ensures Valid() && Grows()
      ensures collected == set s | s in old(channels) && old(channels)[s].ShouldCollect(now, grace, ttl)
      ensures channels == old(channels) - collected && Known() == old(Known())
    {
      var todo := channels.Keys;
      ghost var had, known := channels, Known();
      ghost var due := set s | s in channels && channels[s].ShouldCollect(now, grace, ttl);
      collected := {};
      while todo != {}
        invariant Valid() && Known() == known && todo <= had.Keys
        invariant collected == due - todo && channels == had - collected
      {
        var s :| s in todo;
        assert s in due <==> channels[s].ShouldCollect(now, grace, ttl);
        OneLessToDo(due, todo, s);
        todo := todo - {s};
        var gone := ReapOne(s, now, grace, ttl);
        assert gone <==> s in due;
        if gone {
          MinusOneMore(had, collected, s);
          collected := collected + {s};
        }
      }
    }

    // An emit first looks up the channel to deliver to.
    method Resolve(sid: Id) returns (ch: Option<SessionChannel>)
      requires Valid()
      ensures ch == if sid in channels then Some(channels[sid]) else None
      ensures forall q | q in live && home[q].sid == sid :: ch == Some(home[q])
      ensures ch.Some? ==> ch.value in Known()
    {
      ch := if sid in channels then Some(channels[sid]) else None;
    }

    /**
      An emit during which nobody else acts: all live queues of the session are its
      channel's, those of them with room have the event appended, no other queue
      changes, and the count is of those with room.
     */
    method EmitToSession(sid: Id, event: Event, now: real, ghost emit: nat) returns (delivered: nat)
      requires Valid() && forall q | q in live :: q.Valid()
      modifies if sid in channels then {channels[sid]} else {}
      modifies if sid in channels then set q | q in channels[sid].subscribers else {}
      ensures Valid() && forall q | q in live :: q.Valid()
      ensures forall q | q in live && home[q].sid == sid :: sid in channels && q in channels[sid].subscribers
      ensures sid in channels ==>
                var subs, had := channels[sid].subscribers, old(Contents(channels[sid].subscribers));
                PutUpTo(subs, |subs|, had, event)
      ensures forall q | q in live && home[q].sid != sid :: q.items == old(q.items)
      ensures delivered == old(if sid in channels then WithRoom(channels[sid].subscribers) else 0)
    {
      var ch := Resolve(sid);
      if ch.None? {
        return 0;
      }
      delivered := ch.value.EmitAlone(event, now, emit);
    }
  }

  lemma {:induction false} OneLessToDo(due: set<Id>, todo: set<Id>, sid: Id)
    requires sid in todo
    ensures due - (todo - {sid}) == due - todo + if sid in due then {sid} else {}
  {
  }

  lemma {:induction false} MinusOneMore(m: map<Id, SessionChannel>, gone: set<Id>, sid: Id)
    ensures m - gone - {sid} == m - (gone + {sid})
  {
  }

  lemma {:induction false} StillKnown(before: map<Id, SessionChannel>, after: map<Id, SessionChannel>, sid: Id)
    requires sid in before && after == before - {sid}
    ensures before.Values == after.Values + {before[sid]}
  {
    forall ch | ch in before.Values && ch != before[sid]
      ensures ch in after.Values
    {
      var s :| s in before && before[s] == ch;
      assert after[s] == ch;
    }
  }
}
