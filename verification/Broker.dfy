/** Fan-out of events to subscribers, each behind a bounded buffer that drops when full. */
module Broker {
  import opened Events

  const CAPACITY := 20

  /** An event that matched a subscriber's filter, and what happened to it: taken into the
      buffer or dropped, with the number of events that were waiting. */
  datatype Offer = Offer(event: Event, accepted: bool, waiting: nat)

  /** One subscriber's side of the story. */
  datatype Mailbox = Mailbox(buf: seq<Event>, offers: seq<Offer>, delivered: seq<Event>)

  const EMPTY_MAILBOX := Mailbox([], [], [])

  function OfferTo(m: Mailbox, f: Filter, e: Event): Mailbox {
    if !MatchesFilter(e, f) then m
    else if |m.buf| < CAPACITY then
      m.(buf := m.buf + [e], offers := m.offers + [Offer(e, true, |m.buf|)])
    else
      m.(offers := m.offers + [Offer(e, false, |m.buf|)])
  }

  function TakeFrom(m: Mailbox): Mailbox {
    if m.buf == [] then m else m.(buf := m.buf[1..], delivered := m.delivered + [m.buf[0]])
  }

  function Accepted(offers: seq<Offer>): seq<Event> {
    if offers == [] then []
    else
      var front, o := Accepted(offers[..|offers| - 1]), offers[|offers| - 1];
      if o.accepted then front + [o.event] else front
  }

  function Dropped(offers: seq<Offer>): seq<Event> {
    if offers == [] then []
    else
      var front, o := Dropped(offers[..|offers| - 1]), offers[|offers| - 1];
      if o.accepted then front else front + [o.event]
  }

  function Offered(offers: seq<Offer>): (es: seq<Event>)
    ensures |es| == |offers|
    ensures forall i :: 0 <= i < |offers| ==> es[i] == offers[i].event
  {
    seq(|offers|, i requires 0 <= i < |offers| => offers[i].event)
  }

  /** m interleaves a and b, keeping the order of each. */
  predicate IsMerge(m: seq<Event>, a: seq<Event>, b: seq<Event>)
    decreases |m|
  {
    if m == [] then a == [] && b == []
    else
      || (a != [] && a[|a| - 1] == m[|m| - 1] && IsMerge(m[..|m| - 1], a[..|a| - 1], b))
      || (b != [] && b[|b| - 1] == m[|m| - 1] && IsMerge(m[..|m| - 1], a, b[..|b| - 1]))
  }

  lemma {:induction false} OffersAreMerge(offers: seq<Offer>)
    ensures IsMerge(Offered(offers), Accepted(offers), Dropped(offers))
  {
    if offers == [] {
    } else {
      var front := offers[..|offers| - 1];
      OffersAreMerge(front);
      var m := Offered(offers);
      assert m[..|m| - 1] == Offered(front);
      if offers[|offers| - 1].accepted {
        var a := Accepted(offers);
        assert a[..|a| - 1] == Accepted(front);
      } else {
        var b := Dropped(offers);
        assert b[..|b| - 1] == Dropped(front);
      }
    }
  }

  /** Nothing accepted is lost or reordered, the buffer is bounded, and an event is dropped
      only when the buffer is full. */
  ghost predicate Conserving(m: Mailbox, f: Filter) {
    && Accepted(m.offers) == m.delivered + m.buf
    && |m.buf| <= CAPACITY
    && (forall o :: o in m.offers ==>
          && MatchesFilter(o.event, f)
          && (o.accepted <==> o.waiting < CAPACITY) && o.waiting <= CAPACITY)
  }

  lemma OfferConserves(m: Mailbox, f: Filter, e: Event)
    requires Conserving(m, f)
    ensures Conserving(OfferTo(m, f, e), f)
    ensures Offered(OfferTo(m, f, e).offers) == Offered(m.offers) + if MatchesFilter(e, f) then [e] else []
  {
    var n := OfferTo(m, f, e);
    if MatchesFilter(e, f) {
      assert n.offers[..|n.offers| - 1] == m.offers;
      assert m.delivered + (m.buf + [e]) == m.delivered + m.buf + [e];
    }
  }

  lemma TakeConserves(m: Mailbox, f: Filter)
    requires Conserving(m, f)
    ensures Conserving(TakeFrom(m), f)
    ensures TakeFrom(m).offers == m.offers
  {
    if m.buf != [] {
      assert m.delivered + [m.buf[0]] + m.buf[1..] == m.delivered + m.buf;
    }
  }

  // ------------------------------------------------- the operations on all mailboxes

  datatype Step =
    | Join(id: string, filter: Filter)
    | Leave(id: string)
    | Announce(event: Event)
    | Fetch(id: string)

  datatype Post = Post(filter: Filter, box: Mailbox)

  /** The subscribers as the broker's operations leave them. */
  type View = map<string, Post>

  function After(v: View, s: Step): View {
    match s
    case Join(id, f) => if id in v then v else v[id := Post(f, EMPTY_MAILBOX)]
    case Leave(id) => v - {id}
    case Announce(e) => map id | id in v :: v[id].(box := OfferTo(v[id].box, v[id].filter, e))
    case Fetch(id) => if id in v then v[id := v[id].(box := TakeFrom(v[id].box))] else v
  }

  // -------------------------------------------------------------------- the objects

  /** A subscriber's channel. The ghost fields remember what was offered and delivered. */
  class Channel {
    var buf: seq<Event>
    var closed: bool
    ghost var offers: seq<Offer>
    ghost var delivered: seq<Event>

    ghost function Box(): Mailbox
      reads this
    {
      Mailbox(buf, offers, delivered)
    }

    constructor ()
      ensures Box() == EMPTY_MAILBOX && !closed
    {
      buf, closed, offers, delivered := [], false, [], [];
    }

    /** A send that gives up at once when the buffer is full; never on a closed channel. */
    method TrySend(ghost f: Filter, e: Event) returns (sent: bool)
      requires !closed && MatchesFilter(e, f)
      modifies this
      ensures !closed && Box() == OfferTo(old(Box()), f, e)
      ensures sent <==> old(|buf|) < 20
    {
      sent := |buf| < CAPACITY;
      offers := offers + [Offer(e, sent, |buf|)];
      if sent {
        buf := buf + [e];
      }
    }

    /** Takes the oldest waiting event, if there is one. */
    method Receive() returns (e: Event, ok: bool)
      modifies this
      ensures closed == old(closed) && Box() == TakeFrom(old(Box()))
      ensures ok <==> old(buf) != []
      ensures ok ==> e == old(buf)[0]
    {
      ok := buf != [];
      if ok {
        e := buf[0];
        delivered := delivered + [e];
        buf := buf[1..];
      } else {
        e := Event("", "", "", Nothing);
      }
    }

    method Close()
      requires !closed
      modifies this
      ensures closed && Box() == old(Box())
    {
      closed := true;
    }
  }

  datatype Subscription = Subscription(filter: Filter, ch: Channel)

  class Broker {
    var subs: map<string, Subscription>

    /** Every subscriber has its own open channel. */
    ghost predicate Valid()
      reads this, Channels()
    {
      && (forall id :: id in subs ==> !subs[id].ch.closed)
      && (forall a, b :: a in subs && b in subs && a != b ==> subs[a].ch != subs[b].ch)
    }

    /** The mailboxes as the operations see them. */
    ghost function Posts(): View
      reads this, Channels()
    {
      map id | id in subs :: Post(subs[id].filter, subs[id].ch.Box())
    }

    ghost function Channels(): set<Channel>
      reads this
    {
      set id | id in subs :: subs[id].ch
    }

    constructor ()
      ensures Valid() && subs == map[]
    {
      subs := map[];
    }

    /** Registers a subscriber under a new identifier, with an empty channel. */
    method Subscribe(f: Filter, id: string) returns (ch: Channel)
      requires Valid() && id !in subs
      modifies this
      ensures Valid() && fresh(ch) && !ch.closed && ch.Box() == EMPTY_MAILBOX
      ensures subs == old(subs)[id := Subscription(f, ch)]
      ensures Posts() == After(old(Posts()), Join(id, f))
    {
      ch := new Channel();
      subs := subs[id := Subscription(f, ch)];
    }

    /** Drops the subscriber and closes its channel; doing it again changes nothing. */
    method Unsubscribe(id: string)
      requires Valid()
      modifies this, if id in subs then {subs[id].ch} else {}
      ensures Valid() && subs == old(subs) - {id}
      ensures id in old(subs) ==> old(subs)[id].ch.closed && old(subs)[id].ch.Box() == old(subs[id].ch.Box())
      ensures Posts() == After(old(Posts()), Leave(id))
    {
      if id !in subs {
        return;
      }
      var ch := subs[id].ch;
      subs := subs - {id};
      ch.Close();
    }

    /** Offers the event to every subscriber. */
    method Publish(e: Event)
      requires Valid()
      modifies Channels()
      ensures Valid() && subs == old(subs)
      ensures Posts() == After(old(Posts()), Announce(e))
    {
      OfferToAll(e);
    }

    /** Goes through the subscribers in whatever order the map yields them. */
    method OfferToAll(e: Event)
      requires Valid()
      modifies Channels()
      ensures Valid() && subs == old(subs)
      ensures forall id :: id in subs ==> subs[id].ch.Box() == OfferTo(old(subs[id].ch.Box()), subs[id].filter, e)
    {
      var ids := subs.Keys;
      ghost var was := map id | id in subs :: subs[id].ch.Box();
      while ids != {}
        invariant ids <= subs.Keys && Valid() && OfferedBut(was, ids, e)
        decreases |ids|
      {
        var id :| id in ids;
        OfferNext(id, was, ids, e);
        ids := ids - {id};
      }
    }

    /** All subscribers but those in ids have been offered the event. */
    ghost predicate OfferedBut(was: map<string, Mailbox>, ids: set<string>, e: Event)
      reads this, Channels()
    {
      forall id :: id in subs ==>
        id in was && subs[id].ch.Box() == if id in ids then was[id] else OfferTo(was[id], subs[id].filter, e)
    }

    method OfferNext(id: string, ghost was: map<string, Mailbox>, ghost ids: set<string>, e: Event)
      requires Valid() && id in ids && id in subs && OfferedBut(was, ids, e)
      modifies subs[id].ch
      ensures Valid() && subs == old(subs) && OfferedBut(was, ids - {id}, e)
    {
      OfferOne(subs[id], e);
    }

    static method OfferOne(sub: Subscription, e: Event)
      requires !sub.ch.closed
      modifies sub.ch
      ensures !sub.ch.closed && sub.ch.Box() == OfferTo(old(sub.ch.Box()), sub.filter, e)
    {
      if MatchesFilter(e, sub.filter) {
        var sent := sub.ch.TrySend(sub.filter, e);
      }
    }
  }
}
