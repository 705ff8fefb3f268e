/** The broker over whole histories: what a subscriber gets depends on nothing but its own
    filter, its own receives and the published events. */
module BrokerRuns {
  import opened Text
  import opened Options
  import opened Events
  import opened Broker

  function Run(steps: seq<Step>): View {
    if steps == [] then map[] else After(Run(steps[..|steps| - 1]), steps[|steps| - 1])
  }

  /** The steps that concern one subscriber. */
  predicate Concerns(s: Step, id: string) {
    s.Announce? || s.id == id
  }

  function Own(steps: seq<Step>, id: string): seq<Step> {
    if steps == [] then []
    else
      var front, s := Own(steps[..|steps| - 1], id), steps[|steps| - 1];
      if Concerns(s, id) then front + [s] else front
  }

  function At(v: View, id: string): Option<Post> {
    if id in v then Some(v[id]) else None
  }

  lemma {:induction false} OwnStepsSuffice(steps: seq<Step>, id: string)
    ensures At(Run(steps), id) == At(Run(Own(steps, id)), id)
  {
    if steps == [] {
    } else {
      var front, s := steps[..|steps| - 1], steps[|steps| - 1];
      OwnStepsSuffice(front, id);
      var own := Own(steps, id);
      if Concerns(s, id) {
        assert own[..|own| - 1] == Own(front, id);
      }
    }
  }

  /** Two histories in which a subscriber sees the same steps give it the same mailbox,
      whoever else is subscribed and however slow they are. */
  lemma Isolation(a: seq<Step>, b: seq<Step>, id: string)
    requires Own(a, id) == Own(b, id)
    ensures At(Run(a), id) == At(Run(b), id)
  {
    OwnStepsSuffice(a, id);
    OwnStepsSuffice(b, id);
  }

  /** The matching events announced while the subscriber was there. */
  function Due(steps: seq<Step>, id: string): seq<Event> {
    if steps == [] then []
    else
      var front, s := steps[..|steps| - 1], steps[|steps| - 1];
      var due, before := Due(front, id), Run(front);
      match s
      case Join(i, _) => if i == id && id !in before then [] else due
      case Leave(_) => due
      case Announce(e) => if id in before && MatchesFilter(e, before[id].filter) then due + [e] else due
      case Fetch(_) => due
  }

  /** What holds of a subscriber's mailbox after its steps. */
  ghost predicate Faithful(p: Post, due: seq<Event>) {
    Conserving(p.box, p.filter) && Offered(p.box.offers) == due
  }

  lemma StepIsFaithful(before: View, s: Step, id: string, due: seq<Event>)
    requires id in before && id in After(before, s) && Faithful(before[id], due)
    ensures Faithful(After(before, s)[id],
                     if s.Announce? && MatchesFilter(s.event, before[id].filter) then due + [s.event] else due)
  {
    var p := before[id];
    match s {
      case Announce(e) => OfferConserves(p.box, p.filter, e);
      case Fetch(i) => TakeConserves(p.box, p.filter);
      case Join(_, _) =>
      case Leave(_) =>
    }
  }

  lemma {:induction false} AlwaysFaithful(steps: seq<Step>, id: string)
    requires id in Run(steps)
    ensures Faithful(Run(steps)[id], Due(steps, id))
  {
    var front, s := steps[..|steps| - 1], steps[|steps| - 1];
    if id in Run(front) {
      AlwaysFaithful(front, id);
      StepIsFaithful(Run(front), s, id, Due(front, id));
    }
  }

  /** In every history, for every subscriber: accepted is delivered followed by buffered, the
      buffer holds at most the capacity, an event is dropped only when it is full, and the
      offers are all matching announcements in order, an interleaving of accepted and
      dropped. */
  lemma Conservation(steps: seq<Step>, id: string)
    requires id in Run(steps)
    ensures var p := Run(steps)[id];
            && Conserving(p.box, p.filter)
            && Offered(p.box.offers) == Due(steps, id)
            && IsMerge(Due(steps, id), Accepted(p.box.offers), Dropped(p.box.offers))
  {
    AlwaysFaithful(steps, id);
    OffersAreMerge(Run(steps)[id].box.offers);
  }

  /** A subscriber only receives what it subscribed to: a subject that starts with one of its
      prefixes, if it gave any, and a type that it named, or named the start of, if it gave
      any. */
  lemma OnlySubscribed(steps: seq<Step>, id: string, e: Event)
    requires id in Run(steps) && e in Run(steps)[id].box.delivered
    ensures var f := Run(steps)[id].filter;
            && (f.prefixes != [] ==> exists p :: p in f.prefixes && p <= e.subject)
            && (f.types != [] ==> exists t :: t in f.types && (t == e.etype || NamesStart(t, e.etype)))
  {
    Conservation(steps, id);
    var p := Run(steps)[id];
    assert e in Accepted(p.box.offers);
    AcceptedWasOffered(p.box.offers, e);
    var o :| o in p.box.offers && o.event == e;
    assert MatchesFilter(e, p.filter);
    if p.filter.prefixes != [] {
      var i :| 0 <= i < |p.filter.prefixes| && HasPrefix(e.subject, p.filter.prefixes[i]);
      assert p.filter.prefixes[i] in p.filter.prefixes;
    }
    if p.filter.types != [] {
      var i :| 0 <= i < |p.filter.types| && MatchesPattern(e.etype, p.filter.types[i]);
      PatternMeans(e.etype, p.filter.types[i]);
      assert p.filter.types[i] in p.filter.types;
    }
  }

  lemma {:induction false} AcceptedWasOffered(offers: seq<Offer>, e: Event)
    requires e in Accepted(offers)
    ensures exists o :: o in offers && o.event == e
  {
    var n := |offers| - 1;
    if e in Accepted(offers[..n]) {
      AcceptedWasOffered(offers[..n], e);
    } else {
      assert offers[n].event == e;
    }
  }
}
