/** Replication to an agent: whatever the interleaving of writes, announcements, the
    subscription and the snapshot, an agent that keeps the last value of each key ends up
    with the store's. */
module Convergence {
  import opened Seqs
  import opened Text
  import opened Paths
  import opened Options
  import opened Table
  import opened TableKit
  import opened KeyTree
  import opened EntryStore
  import opened EntryReads
  import opened UpsertTree
  import opened UpsertReport
  import opened SubtreeDelete
  import opened Subtree
  import opened TreeRuns
  import opened Events
  import opened Broker
  import opened Snapshots
  import opened EntryLevels
  import opened Watch

  // ------------------------------------------------------------------ the agent

  predicate Sets(e: Event, k: string) {
    e.etype == ENTRY_UPSERTED && e.subject == k
  }

  /** What an agent that applies the log in order holds. */
  function Agent(log: seq<Event>): map<string, Body> {
    if log == [] then map[]
    else
      var before, e := Agent(log[..|log| - 1]), log[|log| - 1];
      if e.etype == ENTRY_UPSERTED then before[e.subject := e.body] else before
  }

  function LastOf(es: seq<Event>, k: string): Option<Body> {
    if es == [] then None
    else if Sets(es[|es| - 1], k) then Some(es[|es| - 1].body)
    else LastOf(es[..|es| - 1], k)
  }

  lemma {:induction false} AgentHoldsLast(log: seq<Event>, k: string)
    ensures LastOf(log, k) == if k in Agent(log) then Some(Agent(log)[k]) else None
  {
    if log == [] {
    } else {
      AgentHoldsLast(log[..|log| - 1], k);
    }
  }

  function OrElse<T>(a: Option<T>, b: Option<T>): Option<T> {
    if a.Some? then a else b
  }

  lemma {:induction false} LastOfAppend(a: seq<Event>, b: seq<Event>, k: string)
    ensures LastOf(a + b, k) == OrElse(LastOf(b, k), LastOf(a, k))
  {
    if b == [] {
      assert a + b == a;
    } else {
      DropLastOfSum(a, b);
      LastOfAppend(a, b[..|b| - 1], k);
    }
  }

  lemma {:induction false} LastOfNone(es: seq<Event>, k: string)
    requires forall i :: 0 <= i < |es| ==> !Sets(es[i], k)
    ensures LastOf(es, k) == None
  {
    if es == [] {
    } else {
      LastOfNone(es[..|es| - 1], k);
    }
  }

  lemma LastOfOne(e: Event, k: string)
    ensures LastOf([e], k) == if Sets(e, k) then Some(e.body) else None
  {
    assert [e][..0] == [];
  }

  /** Publishing the oldest event of a subject does not change what comes last for it, and
      for no other subject does it matter. */
  lemma OldestFirst(acc: seq<Event>, a: seq<Event>, e: Event, b: seq<Event>, k: string)
    requires e.subject == k ==> forall i :: 0 <= i < |a| ==> a[i].subject != k
    ensures LastOf(acc + [e] + (a + b), k) == LastOf(acc + (a + [e] + b), k)
    ensures !Sets(e, k) ==> LastOf(acc + (a + b), k) == LastOf(acc + (a + [e] + b), k)
    ensures LastOf(a + b, k).Some? ==> LastOf(a + b, k) == LastOf(a + [e] + b, k)
  {
    LastOfOne(e, k);
    LastOfAppend(acc, [e], k);
    LastOfAppend(a, b, k);
    LastOfAppend(acc + [e], a + b, k);
    LastOfAppend(acc, a + b, k);
    LastOfAppend(a, [e], k);
    LastOfAppend(a + [e], b, k);
    LastOfAppend(acc, a + [e] + b, k);
    if Sets(e, k) {
      LastOfNone(a, k);
    }
  }

  // --------------------------------------------------------- what the store shows

  /** The value that a listing shows for key k. */
  function Seen(t: Rows, k: string): Option<Body> {
    var r := LeafRow(k);
    if r in t && TrimSpace(t[r].value) != "" then Some(Clear(t[r].value)) else None
  }

  predicate IsLock(k: string) {
    HasPrefix(BaseKey(k), "_")
  }

  function LastSnap(es: seq<SnapEntry>, k: string): Option<Body> {
    if es == [] then None
    else if es[|es| - 1].key == k then Some(Clear(es[|es| - 1].value))
    else LastSnap(es[..|es| - 1], k)
  }

  lemma {:induction false} LastSnapAppend(a: seq<SnapEntry>, b: seq<SnapEntry>, k: string)
    ensures LastSnap(a + b, k) == OrElse(LastSnap(b, k), LastSnap(a, k))
  {
    if b == [] {
      assert a + b == a;
    } else {
      DropLastOfSum(a, b);
      LastSnapAppend(a, b[..|b| - 1], k);
    }
  }

  lemma LastShown(es: seq<Entry>, e: Entry, k: string)
    ensures LastSnap(Shown(es + [e]), k) == if e.key == k then Some(Clear(e.value)) else LastSnap(Shown(es), k)
  {
    var all := Shown(es + [e]);
    assert all[..|all| - 1] == Shown(es);
  }

  lemma {:induction false} LeavesShow(t: Rows, kept: set<RowKey>, order: seq<RowKey>, k: string, leaf: RowKey)
    requires kept <= t.Keys
    requires forall r :: r in kept ==> (FullKey(r) == k <==> r == leaf)
    ensures LastSnap(Shown(Leaves(t, kept, order)), k) ==
            if leaf in order && leaf in kept then Some(Clear(t[leaf].value)) else None
  {
    if order == [] {
    } else {
      var front, r := order[..|order| - 1], order[|order| - 1];
      LeavesShow(t, kept, front, k, leaf);
      InNext(order, leaf);
      if r in kept {
        LastShown(Leaves(t, kept, front), EntryOf(Item(r, t[r])), k);
      }
    }
  }

  lemma InNext(order: seq<RowKey>, r: RowKey)
    requires order != []
    ensures r in order <==> r in order[..|order| - 1] || r == order[|order| - 1]
  {
  }

  /** A read of q/ shows a key below q exactly as stored, unless it is a lock entry. */
  lemma AnswerShows(t: Rows, q: string, order: seq<RowKey>, k: string)
    requires CanonicalRows(t) && Canonical(q) && Canonical(k) && Complete(t, q + "/", order)
    ensures LastSnap(Answer(t, q + "/", order).entries, k) ==
            if HasPrefix(k, q + "/") && !IsLock(k) then Seen(t, k) else None
  {
    SlashTrimmed(q);
    CanonicalShape(q);
    var leaf := LeafRow(k);
    RowOfKey(k);
    forall r | r in Kept(t, q) ensures FullKey(r) == k <==> r == leaf {
      RowName(r);
      RowDeterminedByName(r);
      RowOfKey(Name(r));
    }
    LeavesShow(t, Kept(t, q), order, k, leaf);
    if leaf in t {
      KeptByName(t, q, leaf);
    }
  }

  // ---------------------------------------------------------------- the protocol

  /** The index, the announcements under way, and one Watch stream. */
  datatype State = State(rows: Rows, flight: seq<Event>, joined: bool, box: Mailbox, readings: seq<Reading>)

  datatype Act =
    | Store(entries: seq<Entry>, stamp: Stamp, rows: Rows, events: seq<Event>)
    | Erase(key: string)
    | Publish(i: nat)
    | Lose(i: nat)
    | Subscribe
    | Read(order: seq<RowKey>)
    | Take

  /** One announcement for each entry, in some order. */
  ghost predicate Announces(events: seq<Event>, entries: seq<Entry>) {
    && DistinctSubjects(events)
    && (forall n :: 0 <= n < |entries| ==> SaidIn(events, entries[n]))
    && (forall i :: 0 <= i < |events| ==> HasKey(entries, events[i].subject))
  }

  predicate DistinctSubjects(events: seq<Event>) {
    forall i, j :: 0 <= i < j < |events| ==> events[i].subject != events[j].subject
  }

  ghost predicate SaidIn(events: seq<Event>, e: Entry) {
    exists i :: 0 <= i < |events| && Says(events[i], e)
  }

  predicate Says(ev: Event, e: Entry) {
    ev.etype == ENTRY_UPSERTED && ev.subject == e.key && ev.body == Clear(e.value)
  }

  /** Events of one subject are published in the order of their writes. */
  predicate InTurn(flight: seq<Event>, i: nat)
    requires i < |flight|
  {
    forall j :: 0 <= j < i ==> flight[j].subject != flight[i].subject
  }

  predicate PlainEntries(entries: seq<Entry>) {
    forall i :: 0 <= i < |entries| ==> !entries[i].secure && TrimSpace(entries[i].value) != ""
  }

  ghost predicate Enabled(req: Filter, s: State, a: Act) {
    match a
    case Store(entries, stamp, rows, events) =>
      && CanonicalEntries(entries) && DistinctEntries(entries) && PlainEntries(entries)
      && Installed(s.rows, rows, RequestsOf(entries, stamp)) && Announces(events, entries)
    case Erase(key) => Canonical(key)
    case Publish(i) => i < |s.flight|
    case Lose(i) => i < |s.flight|
    case Subscribe => !s.joined
    case Read(order) =>
      s.joined && |s.readings| < |req.prefixes| && Complete(s.rows, req.prefixes[|s.readings|], order)
    case Take => s.joined && |s.readings| == |req.prefixes|
  }

  /** Announcements are published in any order, or lost; a delete announces nothing. */
  ghost function Do(req: Filter, s: State, a: Act): State {
    match a
    case Store(entries, stamp, rows, events) => s.(rows := rows, flight := s.flight + events)
    case Erase(key) => s.(rows := Survivors(s.rows, key))
    case Publish(i) =>
      if i >= |s.flight| then s
      else s.(flight := Without(s.flight, i),
              box := if s.joined then OfferTo(s.box, req, s.flight[i]) else s.box)
    case Lose(i) => if i >= |s.flight| then s else s.(flight := Without(s.flight, i))
    case Subscribe => s.(joined := true)
    case Read(order) =>
      if |s.readings| >= |req.prefixes| then s
      else s.(readings := s.readings + [Answer(s.rows, req.prefixes[|s.readings|], order)])
    case Take => s.(box := TakeFrom(s.box))
  }

  function Without(flight: seq<Event>, i: nat): seq<Event>
    requires i < |flight|
  {
    flight[..i] + flight[i + 1..]
  }

  function Start(rows: Rows): State {
    State(rows, [], false, EMPTY_MAILBOX, [])
  }

  ghost function Reached(req: Filter, rows: Rows, acts: seq<Act>): State {
    if acts == [] then Start(rows)
    else Do(req, Reached(req, rows, acts[..|acts| - 1]), acts[|acts| - 1])
  }

  ghost predicate Possible(req: Filter, rows: Rows, acts: seq<Act>) {
    acts != [] ==>
      && Possible(req, rows, acts[..|acts| - 1])
      && Enabled(req, Reached(req, rows, acts[..|acts| - 1]), acts[|acts| - 1])
  }

  /** The announcements of k were all published, in the order of the writes. */
  ghost predicate Orderly(req: Filter, rows: Rows, acts: seq<Act>, k: string) {
    acts != [] ==>
      && Orderly(req, rows, acts[..|acts| - 1], k)
      && OrderlyAct(Reached(req, rows, acts[..|acts| - 1]), acts[|acts| - 1], k)
  }

  predicate OrderlyAct(s: State, a: Act, k: string) {
    match a
    case Publish(i) => i < |s.flight| && s.flight[i].subject == k ==> InTurn(s.flight, i)
    case Lose(i) => i < |s.flight| ==> s.flight[i].subject != k
    case _ => true
  }

  /** The value that was last written for k, deleted or not. */
  function WrittenLast(rows: Rows, acts: seq<Act>, k: string): Option<Body> {
    if acts == [] then Seen(rows, k)
    else
      match acts[|acts| - 1]
      case Store(_, _, _, events) => OrElse(LastOf(events, k), WrittenLast(rows, acts[..|acts| - 1], k))
      case _ => WrittenLast(rows, acts[..|acts| - 1], k)
  }

  /** No delete was of k or of a folder above it. */
  predicate Spared(acts: seq<Act>, k: string) {
    forall i :: 0 <= i < |acts| && acts[i].Erase? ==> acts[i].key != k && !HasPrefix(k, acts[i].key + "/")
  }

  // ---------------------------------------------------------------- the invariant

  /** The prefixes of the request end in a slash and name canonical folders. */
  ghost predicate FolderPrefixes(req: Filter) {
    forall i :: 0 <= i < |req.prefixes| ==> IsFolder(req.prefixes[i])
  }

  ghost predicate IsFolder(p: string) {
    exists q :: Canonical(q) && p == q + "/"
  }

  predicate Lossless(box: Mailbox) {
    forall o :: o in box.offers ==> o.accepted
  }

  /** Everything that was or will be announced to the subscriber. */
  function Heard(s: State): seq<Event> {
    Accepted(s.box.offers) + s.flight
  }

  /** What a reading says about k: nothing if it was not asked for, and otherwise what is
      stored, or else, if nothing is stored any more, what was written last. */
  predicate ReadingFits(t: Rows, k: string, r: Reading, last: Option<Body>) {
    var shown := LastSnap(r.entries, k);
    if HasPrefix(k, r.prefix) && !IsLock(k) then shown == Seen(t, k) || (Seen(t, k) == None && shown == last)
    else shown == None
  }

  ghost predicate Sound(req: Filter, s: State) {
    && CanonicalRows(s.rows)
    && (!s.joined ==> s.box == EMPTY_MAILBOX && s.readings == [])
    && |s.readings| <= |req.prefixes|
    && (forall i :: 0 <= i < |s.readings| ==> s.readings[i].prefix == req.prefixes[i])
    && Conserving(s.box, req)
  }

  /** What is stored for k was written last. If k is still to be announced, the last
      announcement says that too; if not, the readings do. */
  ghost predicate Tracks(s: State, k: string, last: Option<Body>) {
    && (Seen(s.rows, k).Some? ==> Seen(s.rows, k) == last)
    && (LastOf(Heard(s), k).Some? ==> LastOf(Heard(s), k) == last)
    && (LastOf(Heard(s), k).None? ==>
          forall i :: 0 <= i < |s.readings| ==> ReadingFits(s.rows, k, s.readings[i], last))
  }

  lemma {:induction false} LastOfDistinct(es: seq<Event>, i: nat)
    requires i < |es| && DistinctSubjects(es) && es[i].etype == ENTRY_UPSERTED
    ensures LastOf(es, es[i].subject) == Some(es[i].body)
  {
    if i == |es| - 1 {
    } else {
      LastOfDistinct(es[..|es| - 1], i);
    }
  }

  lemma EntryIsAnnounced(entries: seq<Entry>, events: seq<Event>, n: nat)
    requires Announces(events, entries) && n < |entries|
    ensures LastOf(events, entries[n].key) == Some(Clear(entries[n].value))
  {
    assert SaidIn(events, entries[n]);
    var i :| 0 <= i < |events| && Says(events[i], entries[n]);
    LastOfDistinct(events, i);
  }

  lemma OtherIsNotAnnounced(entries: seq<Entry>, events: seq<Event>, k: string)
    requires Announces(events, entries) && !HasKey(entries, k)
    ensures LastOf(events, k) == None
  {
    LastOfNone(events, k);
  }

  lemma StoredIsSeen(t0: Rows, t1: Rows, entries: seq<Entry>, s: Stamp, n: nat)
    requires CanonicalEntries(entries) && DistinctEntries(entries) && PlainEntries(entries) && n < |entries|
    requires Installed(t0, t1, RequestsOf(entries, s))
    ensures Seen(t1, entries[n].key) == Some(Clear(entries[n].value))
  {
    OnlyRequest(entries, s, n);
    assert Applied(t1, RequestsOf(entries, s)[LeafId(entries[n].key)]);
  }

  lemma OtherIsUntouched(t0: Rows, t1: Rows, entries: seq<Entry>, s: Stamp, k: string)
    requires CanonicalEntries(entries) && Canonical(k) && !HasKey(entries, k)
    requires Installed(t0, t1, RequestsOf(entries, s))
    ensures Seen(t1, k) == Seen(t0, k)
  {
    var m := RequestsOf(entries, s);
    forall id | id in m ensures m[id].row != LeafRow(k) {
      NotItsRow(entries, s, id, k);
    }
    assert Same(t0, t1, LeafRow(k));
  }

  lemma NotItsRow(entries: seq<Entry>, s: Stamp, id: string, k: string)
    requires CanonicalEntries(entries) && Canonical(k) && !HasKey(entries, k)
    requires id in RequestsOf(entries, s)
    ensures RequestsOf(entries, s)[id].row != LeafRow(k)
  {
    var r := RequestsOf(entries, s)[id].row;
    RequestCases(entries, s, id);
    RowOfKey(k);
    if IsKeyOf(entries, r) {
      var i :| 0 <= i < |entries| && r == LeafRow(entries[i].key);
      RowOfKey(entries[i].key);
    } else {
      var q :| q in Needed(entries) && Chosen(entries, q, s) && r == MarkerRow(q);
      NeededIsCanonical(entries, q);
      RowOfKey(q);
    }
  }

  /** Either k is in the batch, is announced last and is seen, or nothing happens to it. */
  lemma BatchEffect(t0: Rows, t1: Rows, entries: seq<Entry>, stamp: Stamp, events: seq<Event>, k: string)
    requires CanonicalEntries(entries) && DistinctEntries(entries) && PlainEntries(entries) && Canonical(k)
    requires Installed(t0, t1, RequestsOf(entries, stamp)) && Announces(events, entries)
    ensures LastOf(events, k).Some? ==> LastOf(events, k) == Seen(t1, k)
    ensures LastOf(events, k).None? ==> Seen(t1, k) == Seen(t0, k)
  {
    if HasKey(entries, k) {
      var n :| 0 <= n < |entries| && entries[n].key == k;
      EntryIsAnnounced(entries, events, n);
      StoredIsSeen(t0, t1, entries, stamp, n);
    } else {
      OtherIsNotAnnounced(entries, events, k);
      OtherIsUntouched(t0, t1, entries, stamp, k);
    }
  }

  lemma HeardMore(s: State, rows: Rows, events: seq<Event>, k: string)
    ensures LastOf(Heard(s.(rows := rows, flight := s.flight + events)), k) ==
            OrElse(LastOf(events, k), LastOf(Heard(s), k))
  {
    assert Accepted(s.box.offers) + (s.flight + events) == Heard(s) + events;
    LastOfAppend(Heard(s), events, k);
  }

  lemma StoreTracks(s: State, entries: seq<Entry>, stamp: Stamp, rows: Rows, events: seq<Event>,
                    k: string, last: Option<Body>)
    requires CanonicalEntries(entries) && DistinctEntries(entries) && PlainEntries(entries) && Canonical(k)
    requires Installed(s.rows, rows, RequestsOf(entries, stamp)) && Announces(events, entries)
    requires Tracks(s, k, last)
    ensures Tracks(s.(rows := rows, flight := s.flight + events), k, OrElse(LastOf(events, k), last))
  {
    HeardMore(s, rows, events, k);
    BatchEffect(s.rows, rows, entries, stamp, events, k);
    SaidTracks(s, s.(rows := rows, flight := s.flight + events), k, last, LastOf(events, k));
  }

  /** What was said of k, if anything, is now stored, and if nothing was, nothing changed. */
  lemma SaidTracks(s: State, n: State, k: string, last: Option<Body>, said: Option<Body>)
    requires Tracks(s, k, last) && n.readings == s.readings
    requires LastOf(Heard(n), k) == OrElse(said, LastOf(Heard(s), k))
    requires Seen(n.rows, k) == if said.Some? then said else Seen(s.rows, k)
    ensures Tracks(n, k, OrElse(said, last))
  {
    if LastOf(Heard(n), k).None? {
      forall i | 0 <= i < |n.readings| ensures ReadingFits(n.rows, k, n.readings[i], last) {
        assert ReadingFits(s.rows, k, s.readings[i], last);
      }
    }
  }

  /** A delete leaves of k what was stored, or nothing; and all of it if it is of another key
      and no folder above k. */
  lemma ErasedSeen(t: Rows, key: string, k: string)
    requires CanonicalRows(t) && Canonical(key) && Canonical(k)
    ensures Seen(Survivors(t, key), k) == Seen(t, k) || Seen(Survivors(t, key), k) == None
    ensures key != k && !HasPrefix(k, key + "/") ==> Seen(Survivors(t, key), k) == Seen(t, k)
  {
    if LeafRow(k) in t {
      ErasedLeaf(t, key, k);
    }
  }

  lemma EraseTracks(s: State, key: string, k: string, last: Option<Body>)
    requires CanonicalRows(s.rows) && Canonical(key) && Canonical(k) && Tracks(s, k, last)
    ensures Tracks(s.(rows := Survivors(s.rows, key)), k, last)
  {
    ErasedSeen(s.rows, key, k);
    assert Heard(s.(rows := Survivors(s.rows, key))) == Heard(s);
    if LastOf(Heard(s), k).None? {
      forall i | 0 <= i < |s.readings| ensures ReadingFits(Survivors(s.rows, key), k, s.readings[i], last) {
        assert ReadingFits(s.rows, k, s.readings[i], last);
      }
    }
  }

  lemma AcceptedNext(box: Mailbox, req: Filter, e: Event)
    requires Lossless(OfferTo(box, req, e))
    ensures Accepted(OfferTo(box, req, e).offers) ==
            Accepted(box.offers) + if MatchesFilter(e, req) then [e] else []
    ensures Lossless(box)
  {
    var n := OfferTo(box, req, e);
    if MatchesFilter(e, req) {
      assert n.offers[..|n.offers| - 1] == box.offers;
      assert n.offers[|n.offers| - 1] in n.offers;
      assert forall o :: o in box.offers ==> o in n.offers;
    }
  }

  /** Publishing an event of k in turn, or any other, keeps what is heard last, or lets k
      fall silent when nobody listens yet. */
  lemma PublishHeard(req: Filter, s: State, i: nat, k: string)
    requires i < |s.flight| && OrderlyAct(s, Publish(i), k)
    requires MatchesPrefix(k, req.prefixes) && MatchesType(ENTRY_UPSERTED, req.types)
    requires !s.joined ==> s.box == EMPTY_MAILBOX
    requires Lossless(Do(req, s, Publish(i)).box)
    ensures var last := LastOf(Heard(Do(req, s, Publish(i))), k);
            last == LastOf(Heard(s), k) || (!s.joined && last == None)
  {
    if s.joined {
      JoinedHears(req, s, i, k);
    } else {
      ApartHears(req, s, i, k);
    }
  }

  lemma FlightSplits(flight: seq<Event>, i: nat)
    requires i < |flight|
    ensures flight == flight[..i] + [flight[i]] + flight[i + 1..]
  {
  }

  lemma ApartHears(req: Filter, s: State, i: nat, k: string)
    requires i < |s.flight| && OrderlyAct(s, Publish(i), k) && !s.joined && s.box == EMPTY_MAILBOX
    ensures var last := LastOf(Heard(Do(req, s, Publish(i))), k);
            last == LastOf(Heard(s), k) || last == None
  {
    var e, a, b := s.flight[i], s.flight[..i], s.flight[i + 1..];
    FlightSplits(s.flight, i);
    OldestFirst([], a, e, b, k);
    assert Heard(s) == a + [e] + b;
    assert Heard(Do(req, s, Publish(i))) == a + b;
  }

  lemma JoinedHears(req: Filter, s: State, i: nat, k: string)
    requires i < |s.flight| && OrderlyAct(s, Publish(i), k) && s.joined
    requires MatchesPrefix(k, req.prefixes) && MatchesType(ENTRY_UPSERTED, req.types)
    requires Lossless(Do(req, s, Publish(i)).box)
    ensures LastOf(Heard(Do(req, s, Publish(i))), k) == LastOf(Heard(s), k)
  {
    var e, a, b := s.flight[i], s.flight[..i], s.flight[i + 1..];
    FlightSplits(s.flight, i);
    var acc := Accepted(s.box.offers);
    OldestFirst(acc, a, e, b, k);
    AcceptedNext(s.box, req, e);
    assert acc + [] == acc;
    assert Sets(e, k) ==> MatchesFilter(e, req);
  }

  lemma LoseHeard(s: State, i: nat, k: string)
    requires i < |s.flight| && s.flight[i].subject != k
    ensures LastOf(Heard(s.(flight := Without(s.flight, i))), k) == LastOf(Heard(s), k)
  {
    FlightSplits(s.flight, i);
    OldestFirst(Accepted(s.box.offers), s.flight[..i], s.flight[i], s.flight[i + 1..], k);
  }

  lemma PublishTracks(req: Filter, s: State, i: nat, k: string, last: Option<Body>)
    requires i < |s.flight| && OrderlyAct(s, Publish(i), k) && Tracks(s, k, last)
    requires MatchesPrefix(k, req.prefixes) && MatchesType(ENTRY_UPSERTED, req.types)
    requires !s.joined ==> s.box == EMPTY_MAILBOX && s.readings == []
    requires Lossless(Do(req, s, Publish(i)).box)
    ensures Tracks(Do(req, s, Publish(i)), k, last)
  {
    PublishHeard(req, s, i, k);
  }

  lemma LoseTracks(s: State, i: nat, k: string, last: Option<Body>)
    requires i < |s.flight| && s.flight[i].subject != k && Tracks(s, k, last)
    ensures Tracks(s.(flight := Without(s.flight, i)), k, last)
  {
    LoseHeard(s, i, k);
  }

  lemma ReadingAdded(s: State, r: Reading, k: string, last: Option<Body>)
    requires Tracks(s, k, last) && ReadingFits(s.rows, k, r, last)
    ensures Tracks(s.(readings := s.readings + [r]), k, last)
  {
    var n := s.(readings := s.readings + [r]);
    assert Heard(n) == Heard(s);
    if LastOf(Heard(n), k).None? {
      forall i | 0 <= i < |n.readings| ensures ReadingFits(n.rows, k, n.readings[i], last) {
        assert i < |s.readings| ==> n.readings[i] == s.readings[i];
      }
    }
  }

  lemma ReadTracks(req: Filter, s: State, order: seq<RowKey>, k: string, last: Option<Body>)
    requires FolderPrefixes(req) && Canonical(k) && Tracks(s, k, last) && CanonicalRows(s.rows)
    requires |s.readings| < |req.prefixes| && Complete(s.rows, req.prefixes[|s.readings|], order)
    ensures Tracks(s.(readings := s.readings + [Answer(s.rows, req.prefixes[|s.readings|], order)]), k, last)
  {
    FreshReadingFits(s.rows, req.prefixes[|s.readings|], order, k, last);
    ReadingAdded(s, Answer(s.rows, req.prefixes[|s.readings|], order), k, last);
  }

  lemma FreshReadingFits(t: Rows, p: string, order: seq<RowKey>, k: string, last: Option<Body>)
    requires CanonicalRows(t) && Canonical(k) && IsFolder(p) && Complete(t, p, order)
    ensures ReadingFits(t, k, Answer(t, p, order), last)
  {
    var q :| Canonical(q) && p == q + "/";
    AnswerShows(t, q, order, k);
  }

  lemma StoreKeepsSound(req: Filter, s: State, rows: Rows, events: seq<Event>)
    requires Sound(req, s) && CanonicalRows(rows)
    ensures Sound(req, s.(rows := rows, flight := s.flight + events))
  {
  }

  lemma PublishKeepsSound(req: Filter, s: State, i: nat)
    requires Sound(req, s) && i < |s.flight|
    ensures Sound(req, Do(req, s, Publish(i)))
  {
    OfferConserves(s.box, req, s.flight[i]);
  }

  lemma PrefixesFit(prefixes: seq<string>, readings: seq<Reading>, r: Reading)
    requires |readings| < |prefixes| && r.prefix == prefixes[|readings|]
    requires forall i :: 0 <= i < |readings| ==> readings[i].prefix == prefixes[i]
    ensures forall i :: 0 <= i < |readings + [r]| ==> (readings + [r])[i].prefix == prefixes[i]
  {
  }

  lemma ReadKeepsSound(req: Filter, s: State, r: Reading)
    requires Sound(req, s) && s.joined && |s.readings| < |req.prefixes| && r.prefix == req.prefixes[|s.readings|]
    ensures Sound(req, s.(readings := s.readings + [r]))
  {
    PrefixesFit(req.prefixes, s.readings, r);
  }

  lemma TakeKeepsSound(req: Filter, s: State)
    requires Sound(req, s) && s.joined
    ensures Sound(req, s.(box := TakeFrom(s.box)))
  {
    TakeConserves(s.box, req);
  }

  lemma ActKeepsSound(req: Filter, s: State, a: Act)
    requires Sound(req, s) && Enabled(req, s, a)
    ensures Sound(req, Do(req, s, a))
  {
    match a {
      case Store(entries, stamp, rows, events) =>
        BatchKeepsCanonical(s.rows, rows, entries, stamp);
        StoreKeepsSound(req, s, rows, events);
      case Erase(key) =>
      case Lose(i) =>
      case Publish(i) => PublishKeepsSound(req, s, i);
      case Take => TakeKeepsSound(req, s);
      case Subscribe =>
      case Read(order) => ReadKeepsSound(req, s, Answer(s.rows, req.prefixes[|s.readings|], order));
    }
  }

  /** The value last written, after one more act. */
  function WrittenAfter(last: Option<Body>, a: Act, k: string): Option<Body> {
    if a.Store? then OrElse(LastOf(a.events, k), last) else last
  }

  lemma ActKeepsTracks(req: Filter, s: State, a: Act, k: string, last: Option<Body>)
    requires FolderPrefixes(req) && MatchesType(ENTRY_UPSERTED, req.types)
    requires MatchesPrefix(k, req.prefixes) && Canonical(k)
    requires Sound(req, s) && Tracks(s, k, last) && Enabled(req, s, a) && OrderlyAct(s, a, k)
    requires Lossless(Do(req, s, a).box)
    ensures Tracks(Do(req, s, a), k, WrittenAfter(last, a, k))
  {
    match a {
      case Store(entries, stamp, rows, events) => StoreTracks(s, entries, stamp, rows, events, k, last);
      case Erase(key) => EraseTracks(s, key, k, last);
      case Publish(i) => PublishTracks(req, s, i, k, last);
      case Lose(i) => LoseTracks(s, i, k, last);
      case Read(order) => ReadTracks(req, s, order, k, last);
      case Take => TakeConserves(s.box, req);
      case Subscribe =>
    }
  }

  lemma LosslessBefore(req: Filter, s: State, a: Act)
    requires Lossless(Do(req, s, a).box)
    ensures Lossless(s.box)
  {
    if a.Publish? && a.i < |s.flight| && s.joined {
      AcceptedNext(s.box, req, s.flight[a.i]);
    }
  }

  lemma {:induction false} RunSound(req: Filter, rows: Rows, acts: seq<Act>)
    requires CanonicalRows(rows) && Possible(req, rows, acts)
    ensures Sound(req, Reached(req, rows, acts))
  {
    if acts == [] {
    } else {
      RunSound(req, rows, acts[..|acts| - 1]);
      ActKeepsSound(req, Reached(req, rows, acts[..|acts| - 1]), acts[|acts| - 1]);
    }
  }

  lemma {:induction false} RunTracks(req: Filter, rows: Rows, acts: seq<Act>, k: string)
    requires FolderPrefixes(req) && MatchesType(ENTRY_UPSERTED, req.types)
    requires MatchesPrefix(k, req.prefixes) && Canonical(k)
    requires CanonicalRows(rows) && Possible(req, rows, acts) && Orderly(req, rows, acts, k)
    requires Lossless(Reached(req, rows, acts).box)
    ensures Tracks(Reached(req, rows, acts), k, WrittenLast(rows, acts, k))
  {
    if acts == [] {
    } else {
      var front, a := acts[..|acts| - 1], acts[|acts| - 1];
      LosslessBefore(req, Reached(req, rows, front), a);
      RunTracks(req, rows, front, k);
      RunSound(req, rows, front);
      ActKeepsTracks(req, Reached(req, rows, front), a, k, WrittenLast(rows, front, k));
    }
  }

  lemma ActSpares(req: Filter, s: State, a: Act, k: string, last: Option<Body>)
    requires CanonicalRows(s.rows) && Enabled(req, s, a) && Canonical(k) && Seen(s.rows, k) == last
    requires a.Erase? ==> a.key != k && !HasPrefix(k, a.key + "/")
    ensures Seen(Do(req, s, a).rows, k) == WrittenAfter(last, a, k)
  {
    if a.Store? {
      BatchEffect(s.rows, a.rows, a.entries, a.stamp, a.events, k);
    } else if a.Erase? {
      ErasedSeen(s.rows, a.key, k);
    }
  }

  /** A key that no delete touches is stored as it was written last. */
  lemma {:induction false} SparedIsStored(req: Filter, rows: Rows, acts: seq<Act>, k: string)
    requires CanonicalRows(rows) && Possible(req, rows, acts) && Canonical(k) && Spared(acts, k)
    ensures Seen(Reached(req, rows, acts).rows, k) == WrittenLast(rows, acts, k)
  {
    if acts == [] {
    } else {
      var front, a := acts[..|acts| - 1], acts[|acts| - 1];
      assert Spared(front, k) by {
        assert forall i :: 0 <= i < |front| ==> front[i] == acts[i];
      }
      SparedIsStored(req, rows, front, k);
      RunSound(req, rows, front);
      ActSpares(req, Reached(req, rows, front), a, k, WrittenLast(rows, front, k));
    }
  }

  // ------------------------------------------------------------------ the result

  /** Nothing is under way any more. */
  predicate Settled(req: Filter, s: State) {
    s.joined && s.flight == [] && s.box.buf == [] && |s.readings| == |req.prefixes|
  }

  ghost predicate Covered(readings: seq<Reading>, k: string) {
    exists i :: 0 <= i < |readings| && HasPrefix(k, readings[i].prefix)
  }

  lemma CoveredNext(readings: seq<Reading>, k: string)
    requires readings != []
    ensures Covered(readings, k) <==>
            Covered(readings[..|readings| - 1], k) || HasPrefix(k, readings[|readings| - 1].prefix)
  {
    var front := readings[..|readings| - 1];
    if Covered(front, k) {
      var i :| 0 <= i < |front| && HasPrefix(k, front[i].prefix);
      assert readings[i] == front[i];
    }
    if Covered(readings, k) {
      var i :| 0 <= i < |readings| && HasPrefix(k, readings[i].prefix);
      assert i < |front| ==> readings[i] == front[i];
    }
  }

  /** What all readings together say about k. */
  lemma {:induction false} AnswersFit(t: Rows, k: string, readings: seq<Reading>, last: Option<Body>)
    requires forall i :: 0 <= i < |readings| ==> ReadingFits(t, k, readings[i], last)
    ensures var shown := LastSnap(Answers(readings), k);
            if !IsLock(k) && Covered(readings, k) then shown == Seen(t, k) || (Seen(t, k) == None && shown == last)
            else shown == None
  {
    if readings == [] {
    } else {
      var front, r := readings[..|readings| - 1], readings[|readings| - 1];
      assert ReadingFits(t, k, r, last);
      AnswersFit(t, k, front, last);
      LastSnapAppend(Answers(front), r.entries, k);
      CoveredNext(readings, k);
    }
  }

  lemma {:induction false} SnapsInLog(pub: Option<PublicKey>, secrets: seq<Secret>, snaps: seq<SnapEntry>,
                                     log: seq<Event>, k: string)
    requires Shape(pub, secrets, snaps, [], log) && |log| == |snaps| && (pub.None? || !IsVault(k))
    ensures LastOf(log, k) == LastSnap(snaps, k)
  {
    if log == [] {
    } else {
      var n := |log| - 1;
      assert SnapshotEvent(pub, secrets, snaps[n], log[n]);
      SnapsInLog(pub, secrets, snaps[..n], log[..n], k);
    }
  }

  lemma {:induction false} DeltasInLog(pub: Option<PublicKey>, secrets: seq<Secret>, deltas: seq<Event>,
                                      log: seq<Event>, k: string)
    requires |log| == |deltas| && (pub.None? || !IsVault(k))
    requires forall i :: 0 <= i < |log| ==> DeltaEvent(pub, secrets, deltas[i], log[i])
    ensures LastOf(log, k) == LastOf(deltas, k)
  {
    if log == [] {
    } else {
      var n := |log| - 1;
      assert DeltaEvent(pub, secrets, deltas[n], log[n]);
      DeltasInLog(pub, secrets, deltas[..n], log[..n], k);
    }
  }

  /** Everything that was read and everything that was delivered is on the wire. */
  ghost predicate FullLog(pub: Option<PublicKey>, s: State, log: seq<Event>) {
    && (exists secrets: seq<Secret> :: Shape(pub, secrets, Answers(s.readings), s.box.delivered, log))
    && |log| == |Answers(s.readings)| + |s.box.delivered|
  }

  lemma LogMeans(pub: Option<PublicKey>, secrets: seq<Secret>, snaps: seq<SnapEntry>, deltas: seq<Event>,
                 log: seq<Event>, k: string)
    requires Shape(pub, secrets, snaps, deltas, log) && |log| == |snaps| + |deltas| && (pub.None? || !IsVault(k))
    ensures LastOf(log, k) == OrElse(LastOf(deltas, k), LastSnap(snaps, k))
  {
    var a, b := log[..|snaps|], log[|snaps|..];
    assert log == a + b;
    forall i | 0 <= i < |b| ensures DeltaEvent(pub, secrets, deltas[i], b[i]) {
      assert b[i] == log[|snaps| + i];
    }
    SnapsInLog(pub, secrets, snaps, a, k);
    DeltasInLog(pub, secrets, deltas, b, k);
    LastOfAppend(a, b, k);
  }

  lemma AllCovered(req: Filter, s: State, k: string)
    requires Sound(req, s) && Settled(req, s) && MatchesPrefix(k, req.prefixes) && req.prefixes != []
    ensures Covered(s.readings, k)
  {
    var i :| 0 <= i < |req.prefixes| && HasPrefix(k, req.prefixes[i]);
    assert s.readings[i].prefix == req.prefixes[i];
  }

  /** What the agent holds for k once nothing is under way. */
  function Held(log: seq<Event>, k: string): Option<Body> {
    if k in Agent(log) then Some(Agent(log)[k]) else None
  }

  /** Once nothing is under way and everything has been sent, in every run in which the
      buffer never overflowed and the announcements of k were published in order, the agent
      holds for a matching key what was announced last while it was subscribed, or else
      what the snapshot showed. That is what the store lists, if it lists anything; and
      if the key has been deleted, it is nothing or the value that it had last.
      Lock entries are the exception: of those the agent only knows what was announced
      while it was subscribed. */
  lemma Converges(req: Filter, pub: Option<PublicKey>, rows: Rows, acts: seq<Act>, log: seq<Event>, k: string)
    requires FolderPrefixes(req) && MatchesType(ENTRY_UPSERTED, req.types) && Canonical(k) && (pub.None? || !IsVault(k))
    requires req.prefixes != [] && MatchesPrefix(k, req.prefixes)
    requires CanonicalRows(rows) && Possible(req, rows, acts) && Orderly(req, rows, acts, k)
    requires var s := Reached(req, rows, acts);
             Settled(req, s) && Lossless(s.box) && FullLog(pub, s, log)
    ensures var s := Reached(req, rows, acts);
            var told := LastOf(s.box.delivered, k);
            && Held(log, k) == OrElse(told, LastSnap(Answers(s.readings), k))
            && (told.Some? ==> told == WrittenLast(rows, acts, k))
            && (if IsLock(k) then Held(log, k) == told
                else Held(log, k) == Seen(s.rows, k) ||
                     (Seen(s.rows, k) == None && Held(log, k) == WrittenLast(rows, acts, k)))
    ensures Spared(acts, k) && !IsLock(k) ==> Held(log, k) == Seen(Reached(req, rows, acts).rows, k)
  {
    var s := Reached(req, rows, acts);
    RunSound(req, rows, acts);
    RunTracks(req, rows, acts, k);
    assert Heard(s) == s.box.delivered;
    var secrets: seq<Secret> :| Shape(pub, secrets, Answers(s.readings), s.box.delivered, log);
    LogMeans(pub, secrets, Answers(s.readings), s.box.delivered, log, k);
    AgentHoldsLast(log, k);
    HeldFits(req, s, k, WrittenLast(rows, acts, k));
    if Spared(acts, k) {
      SparedIsStored(req, rows, acts, k);
    }
  }

  lemma HeldFits(req: Filter, s: State, k: string, last: Option<Body>)
    requires Sound(req, s) && Settled(req, s) && MatchesPrefix(k, req.prefixes) && req.prefixes != []
    requires Tracks(s, k, last) && Heard(s) == s.box.delivered
    ensures var told := LastOf(s.box.delivered, k);
            var held := OrElse(told, LastSnap(Answers(s.readings), k));
            && (told.Some? ==> told == last)
            && if IsLock(k) then held == told
               else held == Seen(s.rows, k) || (Seen(s.rows, k) == None && held == last)
  {
    if LastOf(s.box.delivered, k).None? {
      AnswersFit(s.rows, k, s.readings, last);
      AllCovered(req, s, k);
    }
  }

  // --------------------------------------------------------- the stream in the protocol

  /** A reading that the stream took while the table was this one is a step of the protocol. */
  lemma ReadingIsStep(req: Filter, s: State, r: Reading) returns (order: seq<RowKey>)
    requires TrueReading(r) && s.joined && |s.readings| < |req.prefixes|
    requires r.prefix == req.prefixes[|s.readings|] && r.table == s.rows
    ensures Enabled(req, s, Read(order)) && Do(req, s, Read(order)) == s.(readings := s.readings + [r])
  {
    order :| Complete(r.table, r.prefix, order) && r == Answer(r.table, r.prefix, order);
  }

  /** A stream that is current has its whole log on the wire. */
  lemma CurrentIsFullLog(pub: Option<PublicKey>, secrets: seq<Secret>, req: Filter, s: State, frames: seq<Frame>)
    requires UpToDate(pub, secrets, req.prefixes, s.readings, s.box.delivered, frames)
    ensures FullLog(pub, s, Payload(frames))
  {
  }

  /** So convergence is about what Watch puts on the wire: if a run of the protocol took the
      readings of the stream and ends with its mailbox, nothing waiting, then an agent that
      applies the payload holds what Converges says. */
  lemma StreamConverges(req: Filter, pub: Option<PublicKey>, secrets: seq<Secret>, rows: Rows, acts: seq<Act>,
                        fetched: seq<Reading>, box: Mailbox, frames: seq<Frame>, k: string)
    requires FolderPrefixes(req) && MatchesType(ENTRY_UPSERTED, req.types) && Canonical(k) && (pub.None? || !IsVault(k))
    requires req.prefixes != [] && MatchesPrefix(k, req.prefixes)
    requires UpToDate(pub, secrets, req.prefixes, fetched, box.delivered, frames) && box.buf == [] && Lossless(box)
    requires CanonicalRows(rows) && Possible(req, rows, acts) && Orderly(req, rows, acts, k)
    requires var s := Reached(req, rows, acts); s.joined && s.flight == [] && s.readings == fetched && s.box == box
    ensures var s, held := Reached(req, rows, acts), Held(Payload(frames), k);
            if IsLock(k) then held == LastOf(box.delivered, k)
            else held == Seen(s.rows, k) || (Seen(s.rows, k) == None && held == WrittenLast(rows, acts, k))
    ensures Spared(acts, k) && !IsLock(k) ==> Held(Payload(frames), k) == Seen(Reached(req, rows, acts).rows, k)
  {
    var s := Reached(req, rows, acts);
    CurrentIsFullLog(pub, secrets, req, s, frames);
    assert |s.readings| == |Asked(fetched)|;
    Converges(req, pub, rows, acts, Payload(frames), k);
  }
}
