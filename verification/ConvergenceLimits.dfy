/** Where replication stops: runs that end with the agent and the store apart. */
module ConvergenceLimits {
  import opened Text
  import opened Paths
  import opened Options
  import opened Table
  import opened SubtreeDelete
  import opened EntryStore
  import opened UpsertTree
  import TreeRuns
  import opened Events
  import opened Broker
  import opened Snapshots
  import opened Watch
  import opened Convergence

  // -------------------------------------------------------------- runs, act by act

  ghost predicate Ends(req: Filter, acts: seq<Act>, s: State) {
    Possible(req, map[], acts) && Reached(req, map[], acts) == s
  }

  lemma Go(req: Filter, acts: seq<Act>, s: State, a: Act, n: State)
    requires Ends(req, acts, s) && Enabled(req, s, a) && Do(req, s, a) == n
    ensures Ends(req, acts + [a], n)
  {
    assert (acts + [a])[..|acts|] == acts;
  }

  /** A subscription to one folder of the empty table, whose state has been read. */
  function Begun(req: Filter): State
    requires |req.prefixes| == 1
  {
    State(map[], [], true, EMPTY_MAILBOX, [Reading(req.prefixes[0], [], map[])])
  }

  lemma Begins(req: Filter) returns (acts: seq<Act>)
    requires |req.prefixes| == 1
    ensures Ends(req, acts, Begun(req))
  {
    var s := State(map[], [], true, EMPTY_MAILBOX, []);
    Go(req, [], Start(map[]), Act.Subscribe, s);
    EmptyAnswer(req.prefixes[0]);
    Go(req, [] + [Act.Subscribe], s, Act.Read([]), Begun(req));
    acts := [] + [Act.Subscribe] + [Act.Read([])];
  }

  lemma EmptyAnswer(prefix: string)
    ensures [] + [Answer(map[], prefix, [])] == [Reading(prefix, [], map[])]
  {
    assert Shown([]) == [];
  }

  /** A batch of one plain entry, and the event that announces it. */
  ghost predicate OneWrite(batch: seq<Entry>, ev: Event) {
    |batch| == 1 && CanonicalEntries(batch) && PlainEntries(batch) && Says(ev, batch[0])
  }

  lemma OneAnnounced(e: Entry, ev: Event)
    requires Says(ev, e)
    ensures Announces([ev], [e])
  {
    assert [ev][0] == ev && [e][0] == e;
    assert SaidIn([ev], e);
  }

  lemma Writes(req: Filter, acts: seq<Act>, s: State, batch: seq<Entry>, stamp: Stamp, t: Rows, ev: Event)
    returns (more: seq<Act>)
    requires Ends(req, acts, s) && OneWrite(batch, ev) && Installed(s.rows, t, RequestsOf(batch, stamp))
    ensures Ends(req, more, s.(rows := t, flight := s.flight + [ev]))
    ensures Seen(t, batch[0].key) == Some(Clear(batch[0].value))
  {
    StoredIsSeen(s.rows, t, batch, stamp, 0);
    OneAnnounced(batch[0], ev);
    assert batch == [batch[0]];
    Go(req, acts, s, Act.Store(batch, stamp, t, [ev]), s.(rows := t, flight := s.flight + [ev]));
    more := acts + [Act.Store(batch, stamp, t, [ev])];
  }

  /** The mailbox after an event has been accepted and taken at once. */
  function Passed(box: Mailbox, e: Event): Mailbox {
    Mailbox([], box.offers + [Offer(e, true, 0)], box.delivered + [e])
  }

  lemma Delivers(req: Filter, acts: seq<Act>, s: State, i: nat) returns (more: seq<Act>)
    requires Ends(req, acts, s) && s.joined && |s.readings| == |req.prefixes| && s.box.buf == []
    requires i < |s.flight| && MatchesFilter(s.flight[i], req)
    ensures Ends(req, more, s.(flight := Without(s.flight, i), box := Passed(s.box, s.flight[i])))
  {
    var e := s.flight[i];
    var s1 := s.(flight := Without(s.flight, i), box := OfferTo(s.box, req, e));
    Go(req, acts, s, Act.Publish(i), s1);
    PassedAtOnce(s.box, req, e);
    Go(req, acts + [Act.Publish(i)], s1, Act.Take, s1.(box := Passed(s.box, e)));
    more := acts + [Act.Publish(i)] + [Act.Take];
  }

  lemma PassedAtOnce(box: Mailbox, req: Filter, e: Event)
    requires box.buf == [] && MatchesFilter(e, req)
    ensures TakeFrom(OfferTo(box, req, e)) == Passed(box, e)
  {
    assert ([] + [e])[1..] == [];
  }

  // --------------------------------------------------------------- what is held then

  /** Everything is sent, and the agent holds this for k. */
  ghost predicate EndsHolding(req: Filter, s: State, k: string, held: Option<Body>) {
    && Settled(req, s) && Lossless(s.box) && (exists log :: FullLog(None, s, log))
    && forall log :: FullLog(None, s, log) ==> Held(log, k) == held
  }

  function Sent(e: SnapEntry): Event {
    Event("", ENTRY_UPSERTED, e.key, Clear(e.value))
  }

  lemma SomeLog(s: State) returns (log: seq<Event>)
    ensures FullLog(None, s, log)
  {
    var snaps := Answers(s.readings);
    var first := seq(|snaps|, i requires 0 <= i < |snaps| => Sent(snaps[i]));
    log := first + s.box.delivered;
    forall i | 0 <= i < |log|
      ensures if i < |snaps| then SnapshotEvent(None, [], snaps[i], log[i])
              else DeltaEvent(None, [], s.box.delivered[i - |snaps|], log[i])
    {
      assert log[i] == if i < |snaps| then first[i] else s.box.delivered[i - |snaps|];
    }
    assert Shape(None, [], snaps, s.box.delivered, log);
  }

  lemma HoldsTold(req: Filter, s: State, k: string)
    requires Settled(req, s) && Lossless(s.box)
    ensures EndsHolding(req, s, k, OrElse(LastOf(s.box.delivered, k), LastSnap(Answers(s.readings), k)))
  {
    var sent := SomeLog(s);
    forall log | FullLog(None, s, log)
      ensures Held(log, k) == OrElse(LastOf(s.box.delivered, k), LastSnap(Answers(s.readings), k))
    {
      var secrets: seq<Secret> :| Shape(None, secrets, Answers(s.readings), s.box.delivered, log);
      LogMeans(None, secrets, Answers(s.readings), s.box.delivered, log, k);
      AgentHoldsLast(log, k);
    }
  }

  lemma OneAnswer(r: Reading)
    ensures Answers([r]) == r.entries
  {
    assert [r][..0] == [];
    assert [] + r.entries == r.entries;
  }

  lemma NothingTold(req: Filter, s: State, r: Reading, k: string)
    requires Settled(req, s) && s.box == EMPTY_MAILBOX && s.readings == [r] && LastSnap(r.entries, k) == None
    ensures EndsHolding(req, s, k, None)
  {
    OneAnswer(r);
    HoldsTold(req, s, k);
  }

  function FolderFilter(q: string): Filter {
    Filter([q + "/"], [])
  }

  lemma Matched(q: string, e: Event)
    requires HasPrefix(e.subject, q + "/")
    ensures MatchesFilter(e, FolderFilter(q))
  {
    assert FolderFilter(q).prefixes[0] == q + "/";
  }

  // -------------------------------------------------------------------- lock entries

  lemma WrittenEarly(req: Filter, batch: seq<Entry>, stamp: Stamp, t: Rows, ev: Event) returns (acts: seq<Act>)
    requires OneWrite(batch, ev) && Installed(map[], t, RequestsOf(batch, stamp))
    ensures Ends(req, acts, State(t, [], false, EMPTY_MAILBOX, []))
    ensures Seen(t, batch[0].key) == Some(Clear(batch[0].value))
  {
    acts := Writes(req, [], Start(map[]), batch, stamp, t, ev);
    assert Without([] + [ev], 0) == [];
    var s := Start(map[]).(rows := t, flight := [] + [ev]);
    Go(req, acts, s, Act.Publish(0), State(t, [], false, EMPTY_MAILBOX, []));
    acts := acts + [Act.Publish(0)];
  }

  lemma ReadLate(req: Filter, early: seq<Act>, t: Rows, order: seq<RowKey>) returns (acts: seq<Act>)
    requires Ends(req, early, State(t, [], false, EMPTY_MAILBOX, []))
    requires |req.prefixes| == 1 && Complete(t, req.prefixes[0], order)
    ensures Ends(req, acts, State(t, [], true, EMPTY_MAILBOX, [Answer(t, req.prefixes[0], order)]))
  {
    var s := State(t, [], true, EMPTY_MAILBOX, []);
    var r := Answer(t, req.prefixes[0], order);
    Go(req, early, State(t, [], false, EMPTY_MAILBOX, []), Act.Subscribe, s);
    assert [] + [r] == [r];
    Go(req, early + [Act.Subscribe], s, Act.Read(order), State(t, [], true, EMPTY_MAILBOX, [r]));
    acts := early + [Act.Subscribe] + [Act.Read(order)];
  }

  /** A lock entry stored and announced before the subscription: the run is complete and
      without loss, the store shows the entry, and the agent has never heard of it. */
  lemma LockEntryIsMissed(batch: seq<Entry>, stamp: Stamp, t: Rows, order: seq<RowKey>, q: string, ev: Event)
    returns (acts: seq<Act>, end: State)
    requires OneWrite(batch, ev) && IsLock(batch[0].key)
    requires Canonical(q) && HasPrefix(batch[0].key, q + "/")
    requires Installed(map[], t, RequestsOf(batch, stamp)) && Complete(t, q + "/", order)
    ensures Ends(FolderFilter(q), acts, end) && Seen(end.rows, batch[0].key) == Some(Clear(batch[0].value))
    ensures EndsHolding(FolderFilter(q), end, batch[0].key, None)
  {
    var early := WrittenEarly(FolderFilter(q), batch, stamp, t, ev);
    acts := ReadLate(FolderFilter(q), early, t, order);
    end := State(t, [], true, EMPTY_MAILBOX, [Answer(t, q + "/", order)]);
    LockNotRead(t, q, batch, stamp, order);
    NothingTold(FolderFilter(q), end, Answer(t, q + "/", order), batch[0].key);
  }

  lemma LockNotRead(t: Rows, q: string, batch: seq<Entry>, stamp: Stamp, order: seq<RowKey>)
    requires |batch| == 1 && CanonicalEntries(batch) && IsLock(batch[0].key) && Canonical(q)
    requires Installed(map[], t, RequestsOf(batch, stamp)) && Complete(t, q + "/", order)
    ensures LastSnap(Answer(t, q + "/", order).entries, batch[0].key) == None
  {
    TreeRuns.BatchKeepsCanonical(map[], t, batch, stamp);
    AnswerShows(t, q, order, batch[0].key);
  }

  // ---------------------------------------------- announcements out of order, or lost

  /** Two announcements are under way for a stream that has read the empty table. */
  function TwoInFlight(req: Filter, t: Rows, e1: Event, e2: Event): State
    requires |req.prefixes| == 1
  {
    Begun(req).(rows := t, flight := [e1, e2])
  }

  function OneInFlight(req: Filter, t: Rows, e: Event): State
    requires |req.prefixes| == 1
  {
    Begun(req).(rows := t, flight := [e])
  }

  lemma WrittenOnce(req: Filter, batch: seq<Entry>, stamp: Stamp, t: Rows, ev: Event) returns (acts: seq<Act>)
    requires OneWrite(batch, ev) && |req.prefixes| == 1 && Installed(map[], t, RequestsOf(batch, stamp))
    ensures Ends(req, acts, OneInFlight(req, t, ev))
    ensures Seen(t, batch[0].key) == Some(Clear(batch[0].value))
  {
    var begun := Begins(req);
    acts := Writes(req, begun, Begun(req), batch, stamp, t, ev);
    assert [] + [ev] == [ev];
  }

  lemma WrittenTwice(req: Filter, old_: seq<Entry>, new_: seq<Entry>, stamp: Stamp, t1: Rows, t2: Rows,
                     e1: Event, e2: Event)
    returns (acts: seq<Act>)
    requires OneWrite(old_, e1) && OneWrite(new_, e2) && |req.prefixes| == 1
    requires Installed(map[], t1, RequestsOf(old_, stamp)) && Installed(t1, t2, RequestsOf(new_, stamp))
    ensures Ends(req, acts, TwoInFlight(req, t2, e1, e2))
    ensures Seen(t2, new_[0].key) == Some(Clear(new_[0].value))
  {
    var once := WrittenOnce(req, old_, stamp, t1, e1);
    acts := Writes(req, once, OneInFlight(req, t1, e1), new_, stamp, t2, e2);
    assert [e1] + [e2] == [e1, e2];
  }

  lemma SecondThenFirst(req: Filter, written: seq<Act>, t: Rows, e1: Event, e2: Event) returns (acts: seq<Act>)
    requires |req.prefixes| == 1 && Ends(req, written, TwoInFlight(req, t, e1, e2))
    requires MatchesFilter(e1, req) && MatchesFilter(e2, req)
    ensures Ends(req, acts, Begun(req).(rows := t, box := Passed(Passed(EMPTY_MAILBOX, e2), e1)))
  {
    acts := Delivers(req, written, TwoInFlight(req, t, e1, e2), 1);
    assert Without([e1, e2], 1) == [e1] && Without([e1], 0) == [];
    acts := Delivers(req, acts, Begun(req).(rows := t, flight := [e1], box := Passed(EMPTY_MAILBOX, e2)), 0);
  }

  /** Two writes of one key, announced in the wrong order: without any loss the agent ends
      with the older value. */
  lemma OutOfTurnIsStale(q: string, old_: seq<Entry>, new_: seq<Entry>, stamp: Stamp, t1: Rows, t2: Rows,
                         e1: Event, e2: Event)
    returns (acts: seq<Act>, end: State)
    requires OneWrite(old_, e1) && OneWrite(new_, e2) && old_[0].key == new_[0].key
    requires Canonical(q) && HasPrefix(old_[0].key, q + "/")
    requires Installed(map[], t1, RequestsOf(old_, stamp)) && Installed(t1, t2, RequestsOf(new_, stamp))
    ensures Ends(FolderFilter(q), acts, end) && Seen(end.rows, new_[0].key) == Some(Clear(new_[0].value))
    ensures EndsHolding(FolderFilter(q), end, new_[0].key, Some(Clear(old_[0].value)))
  {
    var req := FolderFilter(q);
    var written := WrittenTwice(req, old_, new_, stamp, t1, t2, e1, e2);
    Matched(q, e1);
    Matched(q, e2);
    acts := SecondThenFirst(req, written, t2, e1, e2);
    var box := Passed(EMPTY_MAILBOX, e2);
    end := Begun(req).(rows := t2, box := Passed(box, e1));
    LosslessOne(e2);
    DeliveredLast(req, end, e1, box);
  }

  lemma LosslessOne(e: Event)
    ensures Lossless(Passed(EMPTY_MAILBOX, e))
  {
  }

  lemma DeliveredLast(req: Filter, end: State, e: Event, box: Mailbox)
    requires Settled(req, end) && end.box == Passed(box, e) && Lossless(box) && e.etype == ENTRY_UPSERTED
    ensures EndsHolding(req, end, e.subject, Some(e.body))
  {
    LastOfAppend(box.delivered, [e], e.subject);
    LastOfOne(e, e.subject);
    HoldsTold(req, end, e.subject);
  }

  lemma LosesOne(req: Filter, written: seq<Act>, t: Rows, ev: Event) returns (acts: seq<Act>)
    requires |req.prefixes| == 1 && Ends(req, written, OneInFlight(req, t, ev))
    ensures Ends(req, acts, Begun(req).(rows := t))
  {
    assert Without([ev], 0) == [];
    Go(req, written, OneInFlight(req, t, ev), Act.Lose(0), Begun(req).(rows := t));
    acts := written + [Act.Lose(0)];
  }

  /** An announcement that is never published: the agent does not learn of the key. */
  lemma LostIsMissed(q: string, batch: seq<Entry>, stamp: Stamp, t: Rows, ev: Event)
    returns (acts: seq<Act>, end: State)
    requires OneWrite(batch, ev) && Canonical(q) && HasPrefix(batch[0].key, q + "/")
    requires Installed(map[], t, RequestsOf(batch, stamp))
    ensures Ends(FolderFilter(q), acts, end) && Seen(end.rows, batch[0].key) == Some(Clear(batch[0].value))
    ensures EndsHolding(FolderFilter(q), end, batch[0].key, None)
  {
    var req := FolderFilter(q);
    var written := WrittenOnce(req, batch, stamp, t, ev);
    acts := LosesOne(req, written, t, ev);
    end := Begun(req).(rows := t);
    NothingTold(req, end, Reading(q + "/", [], map[]), batch[0].key);
  }

  // ------------------------------------------------------------------------- deletes

  lemma DeliversThenErases(req: Filter, written: seq<Act>, t: Rows, ev: Event, k: string) returns (acts: seq<Act>)
    requires |req.prefixes| == 1 && Ends(req, written, OneInFlight(req, t, ev))
    requires MatchesFilter(ev, req) && Canonical(k)
    ensures Ends(req, acts, Begun(req).(rows := Survivors(t, k), box := Passed(EMPTY_MAILBOX, ev)))
  {
    var told := Delivers(req, written, OneInFlight(req, t, ev), 0);
    assert Without([ev], 0) == [];
    var s := Begun(req).(rows := t, box := Passed(EMPTY_MAILBOX, ev));
    Go(req, told, s, Act.Erase(k), s.(rows := Survivors(t, k)));
    acts := told + [Act.Erase(k)];
  }

  /** A key that is deleted after it was announced: nothing tells the agent. */
  lemma DeletedIsKept(q: string, batch: seq<Entry>, stamp: Stamp, t: Rows, ev: Event)
    returns (acts: seq<Act>, end: State)
    requires OneWrite(batch, ev) && Canonical(q) && HasPrefix(batch[0].key, q + "/")
    requires Installed(map[], t, RequestsOf(batch, stamp))
    ensures Ends(FolderFilter(q), acts, end) && Seen(end.rows, batch[0].key) == None
    ensures EndsHolding(FolderFilter(q), end, batch[0].key, Some(Clear(batch[0].value)))
  {
    var req, k := FolderFilter(q), batch[0].key;
    var written := WrittenOnce(req, batch, stamp, t, ev);
    Matched(q, ev);
    acts := DeliversThenErases(req, written, t, ev, k);
    end := Begun(req).(rows := Survivors(t, k), box := Passed(EMPTY_MAILBOX, ev));
    DeliveredLast(req, end, ev, EMPTY_MAILBOX);
  }
}
