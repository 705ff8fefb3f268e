/** Resolving a vault value once for all the streams that deliver the same event: callers
    with the same key share one call, as long as it has not returned. */
module Freshness {
  import opened Options
  import opened Seqs

  /** A write of a subject: the event that announces it, and how many writes that makes. */
  datatype Write = Write(id: string, subject: string, version: nat)

  /** A shared call: who started it, what it has read, and whether it still admits callers. */
  datatype Call = Call(key: string, starter: nat, read: Option<nat>, open: bool)

  /** A stream that resolves the value for an event and gets the result of a call. */
  datatype Ticket = Ticket(event: nat, call: nat)

  datatype State = State(writes: seq<Write>, calls: seq<Call>, tickets: seq<Ticket>)

  datatype Act =
    | Store(id: string, subject: string)
    | Resolve(event: nat)
    | Read(call: nat)
    | Return(call: nat)

  function CallKey(id: string, subject: string): string {
    id + "|" + subject
  }

  function KeyOf(w: Write): string {
    CallKey(w.id, w.subject)
  }

  /** The number of writes of a subject so far. */
  function Versions(writes: seq<Write>, subject: string): nat {
    if writes == [] then 0
    else Versions(writes[..|writes| - 1], subject) + if writes[|writes| - 1].subject == subject then 1 else 0
  }

  /** The latest call under the key that still admits callers, if there is one. */
  function InFlight(calls: seq<Call>, key: string): (c: Option<nat>)
    ensures c.Some? ==> c.value < |calls| && calls[c.value].key == key && calls[c.value].open
  {
    if calls == [] then None
    else if calls[|calls| - 1].key == key && calls[|calls| - 1].open then Some(|calls| - 1)
    else InFlight(calls[..|calls| - 1], key)
  }

  /** Joins the call in flight under the key of the event, or starts one. */
  function ResolveOnce(s: State, event: nat): State
    requires event < |s.writes|
  {
    var key := KeyOf(s.writes[event]);
    match InFlight(s.calls, key)
    case Some(c) => s.(tickets := s.tickets + [Ticket(event, c)])
    case None => s.(calls := s.calls + [Call(key, event, None, true)],
                  tickets := s.tickets + [Ticket(event, |s.calls|)])
  }

  predicate Enabled(s: State, a: Act) {
    match a
    case Store(_, _) => true
    case Resolve(e) => e < |s.writes|
    case Read(c) => c < |s.calls| && s.calls[c].open && s.calls[c].read.None? && s.calls[c].starter < |s.writes|
    case Return(c) => c < |s.calls| && s.calls[c].open
  }

  /** The read of a call sees the store as it is then; a call may return without one, with
      an error that its callers share. */
  function Do(s: State, a: Act): State
    requires Enabled(s, a)
  {
    match a
    case Store(id, subject) => s.(writes := s.writes + [Write(id, subject, Versions(s.writes, subject) + 1)])
    case Resolve(e) => ResolveOnce(s, e)
    case Read(c) =>
      var now := Versions(s.writes, s.writes[s.calls[c].starter].subject);
      s.(calls := s.calls[c := s.calls[c].(read := Some(now))])
    case Return(c) => s.(calls := s.calls[c := s.calls[c].(open := false)])
  }

  const START := State([], [], [])

  /** The state after a run, or None if some act was not possible. */
  function Reached(acts: seq<Act>): Option<State> {
    if acts == [] then Some(START)
    else
      match Reached(acts[..|acts| - 1])
      case None => None
      case Some(s) => if Enabled(s, acts[|acts| - 1]) then Some(Do(s, acts[|acts| - 1])) else None
  }

  // ---------------------------------------------------------------- the invariant

  predicate Consistent(s: State) {
    && (forall w :: 0 <= w < |s.writes| ==> s.writes[w].version <= Versions(s.writes, s.writes[w].subject))
    && (forall c :: 0 <= c < |s.calls| ==> CallFits(s, s.calls[c]))
    && (forall t :: 0 <= t < |s.tickets| ==> TicketFits(s, s.tickets[t]))
  }

  /** A call was started for an event that had been written, and what it read is not older. */
  predicate CallFits(s: State, c: Call) {
    && c.starter < |s.writes| && c.key == KeyOf(s.writes[c.starter])
    && (c.read.Some? ==> c.read.value >= s.writes[c.starter].version)
  }

  predicate TicketFits(s: State, t: Ticket) {
    t.event < |s.writes| && t.call < |s.calls| && s.calls[t.call].key == KeyOf(s.writes[t.event])
  }

  lemma VersionsNext(writes: seq<Write>, w: Write, subject: string)
    ensures Versions(writes + [w], subject) == Versions(writes, subject) + if w.subject == subject then 1 else 0
  {
    assert (writes + [w])[..|writes|] == writes;
  }

  lemma StoreKeeps(s: State, id: string, subject: string)
    requires Consistent(s)
    ensures Consistent(Do(s, Store(id, subject)))
  {
    var n := Do(s, Store(id, subject));
    var last := n.writes[|s.writes|];
    forall w | 0 <= w < |n.writes| ensures n.writes[w].version <= Versions(n.writes, n.writes[w].subject) {
      VersionsNext(s.writes, last, n.writes[w].subject);
    }
    forall c | 0 <= c < |n.calls| ensures CallFits(n, n.calls[c]) {
      assert CallFits(s, s.calls[c]);
    }
    forall t | 0 <= t < |n.tickets| ensures TicketFits(n, n.tickets[t]) {
      assert TicketFits(s, s.tickets[t]);
    }
  }

  lemma ResolveKeeps(s: State, e: nat)
    requires Consistent(s) && e < |s.writes|
    ensures Consistent(ResolveOnce(s, e))
  {
    var n := ResolveOnce(s, e);
    forall c | 0 <= c < |n.calls| ensures CallFits(n, n.calls[c]) {
      assert c < |s.calls| ==> CallFits(s, s.calls[c]);
    }
    forall t | 0 <= t < |n.tickets| ensures TicketFits(n, n.tickets[t]) {
      assert t < |s.tickets| ==> TicketFits(s, s.tickets[t]);
    }
  }

  lemma CallActKeeps(s: State, a: Act)
    requires Consistent(s) && Enabled(s, a) && (a.Read? || a.Return?)
    ensures Consistent(Do(s, a))
  {
    var n := Do(s, a);
    forall c | 0 <= c < |n.calls| ensures CallFits(n, n.calls[c]) {
      assert CallFits(s, s.calls[c]);
    }
    forall t | 0 <= t < |n.tickets| ensures TicketFits(n, n.tickets[t]) {
      assert TicketFits(s, s.tickets[t]);
    }
  }

  lemma {:induction false} RunConsistent(acts: seq<Act>)
    requires Reached(acts).Some?
    ensures Consistent(Reached(acts).value)
  {
    if acts == [] {
    } else {
      var front, a := acts[..|acts| - 1], acts[|acts| - 1];
      RunConsistent(front);
      match a {
        case Store(id, subject) => StoreKeeps(Reached(front).value, id, subject);
        case Resolve(e) => ResolveKeeps(Reached(front).value, e);
        case Read(_) => CallActKeeps(Reached(front).value, a);
        case Return(_) => CallActKeeps(Reached(front).value, a);
      }
    }
  }

  // ------------------------------------------------------------------ the result

  /** What announces a write, without the write's place among the others. */
  datatype Tag = Tag(id: string, subject: string)

  function TagsOf(writes: seq<Write>): (tags: seq<Tag>)
    ensures |tags| == |writes|
    ensures forall i :: 0 <= i < |writes| ==> tags[i] == Tag(writes[i].id, writes[i].subject)
  {
    seq(|writes|, i requires 0 <= i < |writes| => Tag(writes[i].id, writes[i].subject))
  }

  /** No two events lead to the same call key. */
  predicate KeysTellApart(tags: seq<Tag>) {
    forall i, j :: 0 <= i < j < |tags| ==>
      CallKey(tags[i].id, tags[i].subject) != CallKey(tags[j].id, tags[j].subject)
  }

  /** The value that the ticket's stream gets, if any, is one of the right subject and at
      least as new as the write behind the event. */
  predicate FreshFor(s: State, t: Ticket) {
    && t.event < |s.writes| && t.call < |s.calls| && s.calls[t.call].starter < |s.writes|
    && (s.calls[t.call].read.Some? ==>
        && s.writes[s.calls[t.call].starter].subject == s.writes[t.event].subject
        && s.calls[t.call].read.value >= s.writes[t.event].version)
  }

  predicate Fresh(s: State) {
    forall t :: 0 <= t < |s.tickets| ==> FreshFor(s, s.tickets[t])
  }

  /** In every interleaving, what a stream gets for an event, be it read on its own behalf or
      shared, was read for that very event and is at least as new as the write behind it. */
  lemma ResolvedIsFresh(acts: seq<Act>, t: nat)
    requires Reached(acts).Some? && t < |Reached(acts).value.tickets|
    requires KeysTellApart(TagsOf(Reached(acts).value.writes))
    ensures var s := Reached(acts).value;
            var ticket := s.tickets[t];
            && ticket.event < |s.writes| && ticket.call < |s.calls|
            && s.calls[ticket.call].starter == ticket.event
            && (s.calls[ticket.call].read.Some? ==> s.calls[ticket.call].read.value >= s.writes[ticket.event].version)
  {
    var s := Reached(acts).value;
    RunConsistent(acts);
    var ticket := s.tickets[t];
    assert TicketFits(s, ticket);
    var call := s.calls[ticket.call];
    assert CallFits(s, call);
    SameKeySameEvent(s.writes, ticket.event, call.starter);
  }

  lemma SameKeySameEvent(writes: seq<Write>, i: nat, j: nat)
    requires KeysTellApart(TagsOf(writes)) && i < |writes| && j < |writes| && KeyOf(writes[i]) == KeyOf(writes[j])
    ensures i == j
  {
    var tags := TagsOf(writes);
    assert forall a, b :: 0 <= a < b < |tags| ==>
      CallKey(tags[a].id, tags[a].subject) != CallKey(tags[b].id, tags[b].subject);
    assert CallKey(tags[i].id, tags[i].subject) == CallKey(tags[j].id, tags[j].subject);
  }

  /** Every run that writes exactly these events, in this order, is fresh throughout. */
  ghost predicate AlwaysFresh(tags: seq<Tag>) {
    forall acts :: Reached(acts).Some? && TagsOf(Reached(acts).value.writes) == tags ==> Fresh(Reached(acts).value)
  }

  /** Every run over a list of events is fresh if and only if their call keys differ. */
  lemma FreshExactly(tags: seq<Tag>)
    ensures AlwaysFresh(tags) <==> KeysTellApart(tags)
  {
    if KeysTellApart(tags) {
      forall acts | Reached(acts).Some? && TagsOf(Reached(acts).value.writes) == tags
        ensures Fresh(Reached(acts).value)
      {
        FreshWhenApart(acts);
      }
    } else {
      var i, j :| 0 <= i < j < |tags| && CallKey(tags[i].id, tags[i].subject) == CallKey(tags[j].id, tags[j].subject);
      var acts := StaleRun(tags, i, j);
    }
  }

  lemma FreshWhenApart(acts: seq<Act>)
    requires Reached(acts).Some? && KeysTellApart(TagsOf(Reached(acts).value.writes))
    ensures Fresh(Reached(acts).value)
  {
    var s := Reached(acts).value;
    forall t | 0 <= t < |s.tickets| ensures FreshFor(s, s.tickets[t]) {
      ResolvedIsFresh(acts, t);
    }
  }

  // ------------------------------------------------ a stale run for any shared key

  /** The writes that a list of events comes from. */
  function WritesOf(tags: seq<Tag>): (writes: seq<Write>)
    ensures |writes| == |tags|
  {
    if tags == [] then []
    else
      var front, tag := WritesOf(tags[..|tags| - 1]), tags[|tags| - 1];
      front + [Write(tag.id, tag.subject, Versions(front, tag.subject) + 1)]
  }

  lemma {:induction false} WriteAt(tags: seq<Tag>, i: nat)
    requires i < |tags|
    ensures WritesOf(tags)[i] == Write(tags[i].id, tags[i].subject, Versions(WritesOf(tags[..i]), tags[i].subject) + 1)
  {
    if i == |tags| - 1 {
    } else {
      WriteAt(tags[..|tags| - 1], i);
      TakeTake(tags, |tags| - 1, i);
    }
  }

  lemma TagsOfWrites(tags: seq<Tag>)
    ensures TagsOf(WritesOf(tags)) == tags
  {
    forall i | 0 <= i < |tags| ensures TagsOf(WritesOf(tags))[i] == tags[i] {
      WriteAt(tags, i);
    }
  }

  lemma VersionsAfterOne(tags: seq<Tag>, subject: string)
    requires tags != []
    ensures Versions(WritesOf(tags[..|tags| - 1]), subject) <= Versions(WritesOf(tags), subject)
  {
    var front := WritesOf(tags[..|tags| - 1]);
    VersionsNext(front, WritesOf(tags)[|front|], subject);
  }

  lemma {:induction false} VersionsGrow(tags: seq<Tag>, i: nat, subject: string)
    requires i <= |tags|
    ensures Versions(WritesOf(tags[..i]), subject) <= Versions(WritesOf(tags), subject)
  {
    if i == |tags| {
      assert tags[..i] == tags;
    } else {
      VersionsGrow(tags[..|tags| - 1], i, subject);
      TakeTake(tags, |tags| - 1, i);
      VersionsAfterOne(tags, subject);
    }
  }

  /** A run goes on with the writes from event i on. */
  lemma {:induction false} StoreRest(acts: seq<Act>, s: State, tags: seq<Tag>, i: nat) returns (more: seq<Act>)
    requires Reached(acts) == Some(s) && i <= |tags| && s.writes == WritesOf(tags[..i])
    ensures Reached(more) == Some(s.(writes := WritesOf(tags)))
    decreases |tags| - i
  {
    if i == |tags| {
      assert tags[..i] == tags;
      more := acts;
    } else {
      var a := Store(tags[i].id, tags[i].subject);
      Next(acts, a);
      Front(tags, i);
      more := StoreRest(acts + [a], s.(writes := WritesOf(tags[..i + 1])), tags, i + 1);
    }
  }

  lemma GoOn(acts: seq<Act>, s: State, a: Act, s': State)
    requires Reached(acts) == Some(s) && Enabled(s, a) && Do(s, a) == s'
    ensures Reached(acts + [a]) == Some(s')
  {
    Next(acts, a);
  }

  lemma StartsCall(writes: seq<Write>, i: nat)
    requires i < |writes|
    ensures Do(State(writes, [], []), Resolve(i)) ==
            State(writes, [Call(KeyOf(writes[i]), i, None, true)], [Ticket(i, 0)])
  {
  }

  lemma ReadsNow(writes: seq<Write>, key: string, i: nat, tickets: seq<Ticket>)
    requires i < |writes|
    ensures var s := State(writes, [Call(key, i, None, true)], tickets);
            Enabled(s, Read(0)) &&
            Do(s, Read(0)) == s.(calls := [Call(key, i, Some(Versions(writes, writes[i].subject)), true)])
  {
  }

  lemma JoinsCall(writes: seq<Write>, call: Call, i: nat, j: nat)
    requires j < |writes| && call.open && call.key == KeyOf(writes[j])
    ensures Do(State(writes, [call], [Ticket(i, 0)]), Resolve(j)) ==
            State(writes, [call], [Ticket(i, 0), Ticket(j, 0)])
  {
    JoinInFlight(State(writes, [call], [Ticket(i, 0)]), j, 0);
    assert [Ticket(i, 0)] + [Ticket(j, 0)] == [Ticket(i, 0), Ticket(j, 0)];
  }

  /** After these writes, event i is resolved and the call reads the store. */
  lemma ReadEarly(stored: seq<Act>, writes: seq<Write>, i: nat) returns (acts: seq<Act>)
    requires Reached(stored) == Some(State(writes, [], [])) && i < |writes|
    ensures Reached(acts) ==
            Some(State(writes,
                       [Call(KeyOf(writes[i]), i, Some(Versions(writes, writes[i].subject)), true)], [Ticket(i, 0)]))
  {
    var key := KeyOf(writes[i]);
    var s1 := State(writes, [Call(key, i, None, true)], [Ticket(i, 0)]);
    StartsCall(writes, i);
    GoOn(stored, State(writes, [], []), Resolve(i), s1);
    ReadsNow(writes, key, i, [Ticket(i, 0)]);
    GoOn(stored + [Resolve(i)], s1, Read(0), Do(s1, Read(0)));
    acts := stored + [Resolve(i)] + [Read(0)];
  }

  /** The first of two events with one key is resolved and its value read before the second
      is written; the second then joins that call. */
  lemma StaleRun(tags: seq<Tag>, i: nat, j: nat) returns (acts: seq<Act>)
    requires i < j < |tags| && CallKey(tags[i].id, tags[i].subject) == CallKey(tags[j].id, tags[j].subject)
    ensures Reached(acts).Some? && TagsOf(Reached(acts).value.writes) == tags && !Fresh(Reached(acts).value)
  {
    var first, writes := WritesOf(tags[..i + 1]), WritesOf(tags);
    WriteAt(tags[..i + 1], i);
    WriteAt(tags, j);
    var call := Call(KeyOf(first[i]), i, Some(Versions(first, first[i].subject)), true);
    var stored := StoreRest([], START, tags[..i + 1], 0);
    var begun := ReadEarly(stored, first, i);
    var all := StoreRest(begun, State(first, [call], [Ticket(i, 0)]), tags, i + 1);
    JoinsCall(writes, call, i, j);
    GoOn(all, State(writes, [call], [Ticket(i, 0)]), Resolve(j), State(writes, [call], [Ticket(i, 0), Ticket(j, 0)]));
    acts := all + [Resolve(j)];
    TagsOfWrites(tags);
    LateTicketIsStale(tags, i, j, State(writes, [call], [Ticket(i, 0), Ticket(j, 0)]));
  }

  lemma LateTicketIsStale(tags: seq<Tag>, i: nat, j: nat, s: State)
    requires i < j < |tags| && s.writes == WritesOf(tags) && |s.calls| == 1 && s.tickets == [Ticket(i, 0), Ticket(j, 0)]
    requires s.calls[0].starter == i
    requires s.calls[0].read == Some(Versions(WritesOf(tags[..i + 1]), tags[i].subject))
    ensures !Fresh(s)
  {
    WriteAt(tags, i);
    WriteAt(tags, j);
    VersionsGrow(tags[..j], i + 1, tags[i].subject);
    TakeTake(tags, j, i + 1);
    assert s.tickets[1] == Ticket(j, 0);
    assert !FreshFor(s, s.tickets[1]);
  }

  // ------------------------------------------------------ when the keys tell apart

  /** No two events for one subject share an identifier. */
  predicate IdsTellApart(tags: seq<Tag>) {
    forall i, j :: 0 <= i < j < |tags| && tags[i].subject == tags[j].subject ==> tags[i].id != tags[j].id
  }

  predicate PlainIds(tags: seq<Tag>) {
    forall i :: 0 <= i < |tags| ==> '|' !in tags[i].id
  }

  /** Without the separator in the identifiers, the key gives both parts back. */
  lemma KeySplits(id1: string, s1: string, id2: string, s2: string)
    requires '|' !in id1 && '|' !in id2 && CallKey(id1, s1) == CallKey(id2, s2)
    ensures id1 == id2 && s1 == s2
  {
    var k := CallKey(id1, s1);
    assert k[|id1|] == '|' && k[|id2|] == '|';
    assert forall i :: 0 <= i < |id1| ==> k[i] == id1[i];
    assert forall i :: 0 <= i < |id2| ==> k[i] == id2[i];
    assert |id1| == |id2|;
    assert id1 == k[..|id1|] && id2 == k[..|id2|];
    assert s1 == k[|id1| + 1..] && s2 == k[|id2| + 1..];
  }

  /** Without the separator in the identifiers, the keys differ if and only if no two events
      for one subject share an identifier. */
  lemma PlainIdsTellApart(tags: seq<Tag>)
    requires PlainIds(tags)
    ensures KeysTellApart(tags) <==> IdsTellApart(tags)
  {
    forall i, j | 0 <= i < j < |tags| && CallKey(tags[i].id, tags[i].subject) == CallKey(tags[j].id, tags[j].subject)
      ensures tags[i] == tags[j]
    {
      KeySplits(tags[i].id, tags[i].subject, tags[j].id, tags[j].subject);
    }
    if KeysTellApart(tags) {
      forall i, j | 0 <= i < j < |tags| && tags[i].subject == tags[j].subject ensures tags[i].id != tags[j].id {
        assert CallKey(tags[i].id, tags[i].subject) != CallKey(tags[j].id, tags[j].subject);
      }
    }
  }

  // -------------------------------------------------- two writes, told out in full

  lemma Next(acts: seq<Act>, a: Act)
    requires Reached(acts).Some? && Enabled(Reached(acts).value, a)
    ensures Reached(acts + [a]) == Some(Do(Reached(acts).value, a))
  {
    assert (acts + [a])[..|acts|] == acts;
  }

  /** Two writes; the first one's call reads in between and is joined for the second. */
  function JoinedLate(id1: string, subject1: string, id2: string, subject2: string): seq<Act> {
    [] + [Store(id1, subject1)] + [Resolve(0)] + [Read(0)] + [Store(id2, subject2)] + [Resolve(1)]
  }

  /** Whenever the two events have the same key, the second stream gets what the first one's
      call has read. */
  lemma JoinedLateEnds(id1: string, subject1: string, id2: string, subject2: string)
    requires CallKey(id1, subject1) == CallKey(id2, subject2)
    ensures Reached(JoinedLate(id1, subject1, id2, subject2)) ==
            Some(State([Write(id1, subject1, 1), Write(id2, subject2, if subject1 == subject2 then 2 else 1)],
                       [Call(CallKey(id1, subject1), 0, Some(1), true)],
                       [Ticket(0, 0), Ticket(1, 0)]))
  {
    var w1, w2 := Write(id1, subject1, 1), Write(id2, subject2, if subject1 == subject2 then 2 else 1);
    var call := Call(CallKey(id1, subject1), 0, Some(1), true);
    SecondStore(id1, subject1, id2, subject2);
    JoinsCall([w1, w2], call, 0, 1);
    GoOn([] + [Store(id1, subject1)] + [Resolve(0)] + [Read(0)] + [Store(id2, subject2)],
         State([w1, w2], [call], [Ticket(0, 0)]), Resolve(1), State([w1, w2], [call], [Ticket(0, 0), Ticket(1, 0)]));
  }

  lemma JoinedLateBegins(id: string, subject: string)
    ensures Reached([] + [Store(id, subject)] + [Resolve(0)] + [Read(0)]) ==
            Some(State([Write(id, subject, 1)], [Call(CallKey(id, subject), 0, Some(1), true)], [Ticket(0, 0)]))
  {
    var w := Write(id, subject, 1);
    var s1 := State([w], [Call(CallKey(id, subject), 0, None, true)], [Ticket(0, 0)]);
    VersionsNext([], w, subject);
    assert [] + [w] == [w];
    GoOn([], START, Store(id, subject), State([w], [], []));
    StartsCall([w], 0);
    GoOn([] + [Store(id, subject)], State([w], [], []), Resolve(0), s1);
    ReadsNow([w], CallKey(id, subject), 0, [Ticket(0, 0)]);
    GoOn([] + [Store(id, subject)] + [Resolve(0)], s1, Read(0), Do(s1, Read(0)));
  }

  lemma SecondStore(id1: string, subject1: string, id2: string, subject2: string)
    ensures var w1, w2 := Write(id1, subject1, 1), Write(id2, subject2, if subject1 == subject2 then 2 else 1);
            Reached([] + [Store(id1, subject1)] + [Resolve(0)] + [Read(0)] + [Store(id2, subject2)]) ==
            Some(State([w1, w2], [Call(CallKey(id1, subject1), 0, Some(1), true)], [Ticket(0, 0)]))
  {
    var w1, w2 := Write(id1, subject1, 1), Write(id2, subject2, if subject1 == subject2 then 2 else 1);
    JoinedLateBegins(id1, subject1);
    VersionsNext([], w1, subject2);
    assert [] + [w1] == [w1] && [w1] + [w2] == [w1, w2];
    Next([] + [Store(id1, subject1)] + [Resolve(0)] + [Read(0)], Store(id2, subject2));
  }

  lemma JoinInFlight(s: State, e: nat, c: nat)
    requires e < |s.writes| && InFlight(s.calls, KeyOf(s.writes[e])) == Some(c)
    ensures ResolveOnce(s, e) == s.(tickets := s.tickets + [Ticket(e, c)])
  {
  }

  /** If two events for a subject do share an identifier, for example because the request
      had no trace and it is empty, some interleaving delivers the older value. */
  lemma SharedIdIsStale(id: string, subject: string)
    ensures var end := Reached(JoinedLate(id, subject, id, subject));
            && end.Some? && end.value.tickets == [Ticket(0, 0), Ticket(1, 0)]
            && end.value.calls[0].read == Some(1) && end.value.writes[1] == Write(id, subject, 2)
  {
    JoinedLateEnds(id, subject, id, subject);
  }

  /** If an identifier contains the separator, a stream can even get another subject's value. */
  lemma SeparatorMixesSubjects(a: string, b: string, c: string)
    requires b != ""
    ensures var end := Reached(JoinedLate(a, b + "|" + c, a + "|" + b, c));
            && end.Some? && end.value.tickets == [Ticket(0, 0), Ticket(1, 0)]
            && end.value.calls == [Call(a + "|" + b + "|" + c, 0, Some(1), true)]
            && end.value.writes[0].subject == b + "|" + c != end.value.writes[1].subject == c
  {
    assert a + "|" + (b + "|" + c) == a + "|" + b + "|" + c;
    assert |b + "|" + c| > |c|;
    JoinedLateEnds(a, b + "|" + c, a + "|" + b, c);
  }
}
