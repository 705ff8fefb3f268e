/** One Watch stream: subscribe first, send the current state, then forward live events with
    heartbeats in between; vault entries only ever leave sealed to the client's key. */
module Watch {
  import opened Seqs
  import opened Text
  import opened Options
  import opened Events
  import opened Broker
  import opened Snapshots

  const VAULT_PREFIX := "passbox/"

  predicate IsVault(subject: string) {
    HasPrefix(subject, VAULT_PREFIX)
  }

  /** How a stream ends: the client left, a send failed, the state could not be read or
      sealed, or a sealed delivery was asked of a server without a store to read from. */
  datatype Ending = ClientGone | SendFailed | Unavailable | Crashed

  /** What was put on the wire, and whether it was a heartbeat. */
  datatype Frame = Frame(heartbeat: bool, event: Event)

  function Payload(frames: seq<Frame>): seq<Event> {
    if frames == [] then []
    else
      var front, f := Payload(frames[..|frames| - 1]), frames[|frames| - 1];
      if f.heartbeat then front else front + [f.event]
  }

  lemma PayloadNext(frames: seq<Frame>, f: Frame)
    ensures Payload(frames + [f]) == if f.heartbeat then Payload(frames) else Payload(frames) + [f.event]
  {
    assert (frames + [f])[..|frames|] == frames;
  }

  // ------------------------------------------------------------- the environment

  /** The client's end of the stream; any send may fail, and then nothing more is sent. */
  class Wire {
    ghost var sent: seq<Frame>
    ghost var refused: nat

    constructor ()
      ensures sent == [] && refused == 0
    {
      sent, refused := [], 0;
    }

    method Send(e: Event, ghost heartbeat: bool) returns (ok: bool)
      modifies this
      ensures refused == old(refused) + if ok then 0 else 1
      ensures ok ==> sent == old(sent) + [Frame(heartbeat, e)]
      ensures !ok ==> sent == old(sent)
    {
      ok := *;
      if ok {
        sent := sent + [Frame(heartbeat, e)];
      } else {
        refused := refused + 1;
      }
    }
  }

  /** The secrets resolved so far, if there is a store to resolve them. */
  ghost function Secrets(snap: Snapshotter?): seq<Secret>
    reads snap
  {
    if snap == null then [] else snap.resolved
  }

  ghost function Refusals(snap: Snapshotter?): nat
    reads snap
  {
    if snap == null then 0 else snap.refused
  }

  /** What other routines publish while the stream lives. */
  class Feed {
    ghost var published: seq<Event>

    constructor ()
      ensures published == []
    {
      published := [];
    }
  }

  function Matching(es: seq<Event>, f: Filter): seq<Event> {
    if es == [] then []
    else
      var front, e := Matching(es[..|es| - 1], f), es[|es| - 1];
      if MatchesFilter(e, f) then front + [e] else front
  }

  /** The subscriber was offered every matching event, and nothing it accepted was lost. */
  ghost predicate Listening(feed: Feed, ch: Channel, f: Filter)
    reads feed, ch
  {
    && !ch.closed && Conserving(ch.Box(), f)
    && Offered(ch.offers) == Matching(feed.published, f)
  }

  lemma HearsOne(m: Mailbox, f: Filter, es: seq<Event>, e: Event)
    requires Conserving(m, f) && Offered(m.offers) == Matching(es, f)
    ensures Conserving(OfferTo(m, f, e), f)
    ensures Offered(OfferTo(m, f, e).offers) == Matching(es + [e], f)
  {
    OfferConserves(m, f, e);
    assert (es + [e])[..|es|] == es;
  }

  /** Another routine publishes an event. */
  method Hear(feed: Feed, ch: Channel, f: Filter, e: Event)
    requires Listening(feed, ch, f)
    modifies feed, ch
    ensures Listening(feed, ch, f) && ch.Box() == OfferTo(old(ch.Box()), f, e)
  {
    HearsOne(ch.Box(), f, feed.published, e);
    if MatchesFilter(e, f) {
      var sent := ch.TrySend(f, e);
    }
    feed.published := feed.published + [e];
  }

  /** Other routines publish while this one is busy. */
  method OthersPublish(feed: Feed, ch: Channel, f: Filter)
    requires Listening(feed, ch, f)
    modifies feed, ch
    ensures Listening(feed, ch, f)
    ensures ch.delivered == old(ch.delivered)
  {
    var n: nat := *;
    while n > 0
      invariant Listening(feed, ch, f)
      invariant ch.delivered == old(ch.delivered)
    {
      var e: Event := *;
      Hear(feed, ch, f, e);
      n := n - 1;
    }
  }

  // ---------------------------------------------------------- what may be sent when

  /** A sealed upsert: to this public key, bound to this subject, and of a text that was
      resolved for it. */
  predicate SealedUpsert(ev: Event, pub: PublicKey, subject: string, secrets: seq<Secret>) {
    && ev.etype == ENTRY_UPSERTED && ev.subject == subject
    && ev.body.Sealed? && ev.body.pub == pub && ev.body.subject == subject
    && Secret(subject, ev.body.text) in secrets
  }

  /** The event that a snapshot entry becomes. */
  predicate SnapshotEvent(pub: Option<PublicKey>, secrets: seq<Secret>, e: SnapEntry, ev: Event) {
    if pub.Some? && IsVault(e.key) then SealedUpsert(ev, pub.value, e.key, secrets)
    else ev.etype == ENTRY_UPSERTED && ev.subject == e.key && ev.body == Clear(e.value)
  }

  predicate NeedsSeal(pub: Option<PublicKey>, d: Event) {
    pub.Some? && d.etype == ENTRY_UPSERTED && IsVault(d.subject)
  }

  /** The event that a received delta becomes: itself, or its sealed replacement. */
  predicate DeltaEvent(pub: Option<PublicKey>, secrets: seq<Secret>, d: Event, ev: Event) {
    if NeedsSeal(pub, d) then SealedUpsert(ev, pub.value, d.subject, secrets) else ev == d
  }

  /** log starts with the snapshot's entries in order, and only when those are all out goes
      on with the deltas in order. */
  predicate Shape(pub: Option<PublicKey>, secrets: seq<Secret>, snaps: seq<SnapEntry>, deltas: seq<Event>,
      log: seq<Event>)
  {
    && |log| <= |snaps| + |deltas|
    && forall i :: 0 <= i < |log| ==>
         if i < |snaps| then SnapshotEvent(pub, secrets, snaps[i], log[i])
         else DeltaEvent(pub, secrets, deltas[i - |snaps|], log[i])
  }

  lemma ShapeMoreSecrets(pub: Option<PublicKey>, secrets: seq<Secret>, snaps: seq<SnapEntry>, deltas: seq<Event>,
      log: seq<Event>, more: seq<Secret>)
    requires Shape(pub, secrets, snaps, deltas, log) && secrets <= more
    ensures Shape(pub, more, snaps, deltas, log)
  {
    assert forall x :: x in secrets ==> x in more;
  }

  lemma ShapeNextSnap(pub: Option<PublicKey>, secrets: seq<Secret>, snaps: seq<SnapEntry>, log: seq<Event>, ev: Event)
    requires Shape(pub, secrets, snaps, [], log) && |log| < |snaps|
    requires SnapshotEvent(pub, secrets, snaps[|log|], ev)
    ensures Shape(pub, secrets, snaps, [], log + [ev])
  {
  }

  lemma ShapeMoreSnaps(pub: Option<PublicKey>, secrets: seq<Secret>, snaps: seq<SnapEntry>, log: seq<Event>,
      more: seq<SnapEntry>)
    requires Shape(pub, secrets, snaps, [], log)
    ensures Shape(pub, secrets, snaps + more, [], log)
  {
  }

  lemma ShapeMoreDeltas(pub: Option<PublicKey>, secrets: seq<Secret>, snaps: seq<SnapEntry>, deltas: seq<Event>,
      log: seq<Event>, d: Event)
    requires Shape(pub, secrets, snaps, deltas, log)
    ensures Shape(pub, secrets, snaps, deltas + [d], log)
    ensures |log| == |snaps| + |deltas| ==>
              forall ev :: DeltaEvent(pub, secrets, d, ev) ==> Shape(pub, secrets, snaps, deltas + [d], log + [ev])
  {
  }

  /** With a client key, nothing under the vault prefix is in the log as an upsert unless it
      is sealed to that key, bound to its subject, and of a text resolved for that subject. */
  lemma VaultIsSealed(pub: Option<PublicKey>, secrets: seq<Secret>, snaps: seq<SnapEntry>, deltas: seq<Event>,
      log: seq<Event>, i: nat)
    requires Shape(pub, secrets, snaps, deltas, log) && pub.Some? && i < |log|
    requires log[i].etype == ENTRY_UPSERTED && HasPrefix(log[i].subject, "passbox/")
    ensures log[i].body.Sealed? && log[i].body.pub == pub.value && log[i].body.subject == log[i].subject
    ensures Secret(log[i].subject, log[i].body.text) in secrets
  {
  }

  // ------------------------------------------------------------------ the snapshot

  function Asked(fetched: seq<Reading>): (r: seq<string>)
    ensures |r| == |fetched|
    ensures forall i :: 0 <= i < |fetched| ==> r[i] == fetched[i].prefix
  {
    seq(|fetched|, i requires 0 <= i < |fetched| => fetched[i].prefix)
  }

  /** Everything that was read, prefix by prefix. */
  function Answers(fetched: seq<Reading>): seq<SnapEntry> {
    if fetched == [] then [] else Answers(fetched[..|fetched| - 1]) + fetched[|fetched| - 1].entries
  }

  lemma AnswersNext(fetched: seq<Reading>, f: Reading)
    ensures Answers(fetched + [f]) == Answers(fetched) + f.entries
    ensures Asked(fetched + [f]) == Asked(fetched) + [f.prefix]
  {
    assert (fetched + [f])[..|fetched|] == fetched;
  }

  /** Only events are on the wire, and they are the entries read so far in order. */
  ghost predicate Snapped(pub: Option<PublicKey>, secrets: seq<Secret>, snaps: seq<SnapEntry>, frames: seq<Frame>) {
    Quiet(frames) && Shape(pub, secrets, snaps, [], Payload(frames))
  }

  predicate Quiet(frames: seq<Frame>) {
    forall i :: 0 <= i < |frames| ==> !frames[i].heartbeat
  }

  lemma SnappedNext(pub: Option<PublicKey>, secrets: seq<Secret>, snaps: seq<SnapEntry>, frames: seq<Frame>, ev: Event)
    requires Snapped(pub, secrets, snaps, frames)
    requires |Payload(frames)| < |snaps| && SnapshotEvent(pub, secrets, snaps[|Payload(frames)|], ev)
    ensures Snapped(pub, secrets, snaps, frames + [Frame(false, ev)])
    ensures |Payload(frames + [Frame(false, ev)])| == |Payload(frames)| + 1
  {
    PayloadNext(frames, Frame(false, ev));
    ShapeNextSnap(pub, secrets, snaps, Payload(frames), ev);
  }

  /** Resolves a key and seals exactly what was resolved. */
  method SealFor(snap: Snapshotter, key: string, pub: PublicKey) returns (ev: Event, ok: bool)
    modifies snap
    ensures snap.answered == old(snap.answered) && old(snap.resolved) <= snap.resolved
    ensures snap.refused == old(snap.refused) + if ok then 0 else 1
    ensures ok ==> ev.etype == ENTRY_UPSERTED && ev.subject == key && ev.body.Sealed?
    ensures ok ==> ev.body == Sealed(pub, key, ev.body.text)
    ensures ok ==> snap.resolved == old(snap.resolved) + [Secret(key, ev.body.text)]
  {
    var text;
    text, ok := snap.Resolve(key);
    if ok {
      ev, ok := snap.Seal(key, text, pub);
    } else {
      ev := Event("", "", "", Nothing);
    }
  }

  /** Sends one entry of a snapshot. */
  method SendEntry(snap: Snapshotter, wire: Wire, pub: Option<PublicKey>, e: SnapEntry)
    returns (failed: Option<Ending>, ghost ev: Event)
    modifies wire, snap
    ensures snap.answered == old(snap.answered) && old(snap.resolved) <= snap.resolved
    ensures failed.None? ==>
              SnapshotEvent(pub, snap.resolved, e, ev) && wire.sent == old(wire.sent) + [Frame(false, ev)]
    ensures failed.Some? ==> wire.sent == old(wire.sent) && failed != Some(Crashed)
    ensures Blamed(failed, old(snap.refused), snap.refused, old(wire.refused), wire.refused)
  {
    var out, ok := Event("", "", "", Nothing), true;
    if pub.Some? && IsVault(e.key) {
      out, ok := SealFor(snap, e.key, pub.value);
    } else {
      var uuid: string := *;
      out := Event(uuid, ENTRY_UPSERTED, e.key, Clear(e.value));
    }
    ev := out;
    if !ok {
      return Some(Unavailable), out;
    }
    var sent := wire.Send(out, false);
    failed := if sent then None else Some(SendFailed);
  }

  /** A stream fails only because the store or the client's end did. */
  predicate Blamed(failed: Option<Ending>, store0: nat, store1: nat, wire0: nat, wire1: nat) {
    && store0 <= store1 && wire0 <= wire1
    && (failed.Some? && failed.value != Crashed ==>
          || (failed.value == SendFailed && wire0 < wire1)
          || (failed.value == Unavailable && store0 < store1))
  }

  /** Sends the entries of one prefix, after those of the earlier prefixes. */
  method SendEntries(snap: Snapshotter, wire: Wire, pub: Option<PublicKey>, entries: seq<SnapEntry>,
      ghost earlier: seq<SnapEntry>)
    returns (failed: Option<Ending>)
    requires Snapped(pub, snap.resolved, earlier, wire.sent) && |Payload(wire.sent)| == |earlier|
    modifies wire, snap
    ensures snap.answered == old(snap.answered)
    ensures Snapped(pub, snap.resolved, earlier + entries, wire.sent) && |Payload(wire.sent)| >= |earlier|
    ensures failed.None? ==> |Payload(wire.sent)| == |earlier + entries|
    ensures failed != Some(Crashed) && failed != Some(ClientGone)
    ensures Blamed(failed, old(snap.refused), snap.refused, old(wire.refused), wire.refused)
  {
    ghost var snaps := earlier + entries;
    ShapeMoreSnaps(pub, snap.resolved, earlier, Payload(wire.sent), entries);
    for i := 0 to |entries|
      invariant snap.answered == old(snap.answered)
      invariant old(snap.refused) <= snap.refused && old(wire.refused) <= wire.refused
      invariant Snapped(pub, snap.resolved, snaps, wire.sent) && |Payload(wire.sent)| == |earlier| + i
    {
      ghost var before, secrets, ev := wire.sent, snap.resolved, *;
      failed, ev := SendEntry(snap, wire, pub, entries[i]);
      ShapeMoreSecrets(pub, secrets, snaps, [], Payload(before), snap.resolved);
      if failed.Some? {
        return;
      }
      SnappedNext(pub, snap.resolved, snaps, before, ev);
    }
    failed := None;
  }

  /** All readings but the last were sent completely before the last one was made. */
  predicate CaughtUp(fetched: seq<Reading>, frames: seq<Frame>) {
    fetched == [] || |Payload(frames)| >= |Answers(fetched[..|fetched| - 1])|
  }

  lemma CaughtUpNext(fetched: seq<Reading>, r: Reading, frames: seq<Frame>)
    requires |Payload(frames)| >= |Answers(fetched)|
    ensures CaughtUp(fetched + [r], frames)
  {
    assert (fetched + [r])[..|fetched|] == fetched;
  }

  /** The entries read so far are out, all of them or all but some of the last reading. */
  ghost predicate SentSoFar(pub: Option<PublicKey>, secrets: seq<Secret>, fetched: seq<Reading>, frames: seq<Frame>) {
    Snapped(pub, secrets, Answers(fetched), frames) && CaughtUp(fetched, frames)
  }

  ghost predicate AllSent(pub: Option<PublicKey>, secrets: seq<Secret>, fetched: seq<Reading>, frames: seq<Frame>) {
    SentSoFar(pub, secrets, fetched, frames) && |Payload(frames)| == |Answers(fetched)|
  }

  /** Reads one prefix and sends the answer; extra is the reading, if there is one. */
  method SendPrefix(snap: Snapshotter, wire: Wire, pub: Option<PublicKey>, prefix: string, ghost fetched: seq<Reading>)
    returns (failed: Option<Ending>, ghost extra: seq<Reading>)
    requires AllSent(pub, snap.resolved, fetched, wire.sent)
    modifies wire, snap, snap.store
    ensures snap.answered == old(snap.answered) + extra
    ensures extra == [] || (|extra| == 1 && extra[0].prefix == prefix)
    ensures AllTrue(extra)
    ensures SentSoFar(pub, snap.resolved, fetched + extra, wire.sent)
    ensures failed.None? ==> extra != [] && AllSent(pub, snap.resolved, fetched + extra, wire.sent)
    ensures failed != Some(Crashed) && failed != Some(ClientGone)
    ensures Blamed(failed, old(snap.refused), snap.refused, old(wire.refused), wire.refused)
  {
    var entries, ok := snap.Snapshot(prefix);
    if !ok {
      extra := [];
      assert fetched + extra == fetched && snap.answered + extra == snap.answered;
      return Some(Unavailable), extra;
    }
    ghost var r := Reading(prefix, entries, snap.store.rows);
    extra := [r];
    AnswersNext(fetched, r);
    failed := SendEntries(snap, wire, pub, entries, Answers(fetched));
    CaughtUpNext(fetched, r, wire.sent);
  }

  /** Reads the prefixes in the order of the request and sends each answer before reading
      the next; stops at the first failure. */
  method SendSnapshot(snap: Snapshotter, wire: Wire, feed: Feed, ch: Channel, req: Filter, pub: Option<PublicKey>)
    returns (failed: Option<Ending>, ghost fetched: seq<Reading>)
    requires wire.sent == []
    requires Listening(feed, ch, req)
    modifies wire, feed, ch, snap, snap.store
    ensures Listening(feed, ch, req) && ch.delivered == old(ch.delivered)
    ensures snap.answered == old(snap.answered) + fetched
    ensures AllTrue(fetched)
    ensures Asked(fetched) <= req.prefixes && SentSoFar(pub, snap.resolved, fetched, wire.sent)
    ensures failed.None? ==> Asked(fetched) == req.prefixes && AllSent(pub, snap.resolved, fetched, wire.sent)
    ensures failed != Some(Crashed) && failed != Some(ClientGone)
    ensures Blamed(failed, old(snap.refused), snap.refused, old(wire.refused), wire.refused)
  {
    fetched, failed := [], None;
    var prefixes := req.prefixes;
    for i := 0 to |prefixes|
      invariant Listening(feed, ch, req) && ch.delivered == old(ch.delivered)
      invariant snap.answered == old(snap.answered) + fetched && AllTrue(fetched)
      invariant Asked(fetched) == prefixes[..i] && AllSent(pub, snap.resolved, fetched, wire.sent)
      invariant Blamed(failed, old(snap.refused), snap.refused, old(wire.refused), wire.refused)
    {
      OthersPublish(feed, ch, req);
      ghost var before, extra := fetched, [];
      failed, extra := SendPrefix(snap, wire, pub, prefixes[i], fetched);
      AskedNext(prefixes, i, before, extra);
      AllTrueNext(before, extra);
      fetched := before + extra;
      Regrouped(old(snap.answered), before, extra);
      if failed.Some? {
        return;
      }
    }
    failed := None;
  }

  /** Every reading is what its table lists. */
  ghost predicate AllTrue(fetched: seq<Reading>) {
    forall r :: r in fetched ==> TrueReading(r)
  }

  lemma AllTrueNext(fetched: seq<Reading>, extra: seq<Reading>)
    requires AllTrue(fetched) && AllTrue(extra)
    ensures AllTrue(fetched + extra)
  {
  }

  lemma AskedNext(prefixes: seq<string>, i: nat, fetched: seq<Reading>, extra: seq<Reading>)
    requires i < |prefixes| && Asked(fetched) == prefixes[..i]
    requires extra == [] || (|extra| == 1 && extra[0].prefix == prefixes[i])
    ensures Asked(fetched + extra) <= prefixes
    ensures extra != [] ==> Asked(fetched + extra) == prefixes[..i + 1]
  {
    if extra == [] {
      assert fetched + extra == fetched;
    } else {
      AnswersNext(fetched, extra[0]);
      assert extra == [extra[0]];
      TakeOneMore(prefixes, i);
    }
  }

  // --------------------------------------------------------------- the whole stream

  /** A heartbeat says nothing. */
  predicate Empty(e: Event) {
    e.etype == "nbox.keepalive" && e.subject == "" && e.body == Nothing
  }

  /** Every heartbeat is empty and comes after the first n payload events. */
  predicate BeatsAfter(n: nat, frames: seq<Frame>) {
    forall i :: 0 <= i < |frames| && frames[i].heartbeat ==> Empty(frames[i].event) && |Payload(frames[..i])| >= n
  }

  lemma BeatsAfterNext(n: nat, frames: seq<Frame>, f: Frame)
    requires BeatsAfter(n, frames) && (f.heartbeat ==> Empty(f.event) && |Payload(frames)| >= n)
    ensures BeatsAfter(n, frames + [f])
  {
    var more := frames + [f];
    forall i | 0 <= i < |more| && more[i].heartbeat ensures Empty(more[i].event) && |Payload(more[..i])| >= n {
      assert more[..i] == frames[..i];
      assert i == |frames| ==> frames[..i] == frames;
    }
  }

  /** What the client has been told: the snapshot of all due prefixes, then the deltas that
      were taken from the buffer, of which the last may not have gone out. Until the
      snapshot is complete there are neither deltas nor heartbeats, and no prefix is read
      before the answers to the earlier ones are out. */
  ghost predicate Told(pub: Option<PublicKey>, secrets: seq<Secret>, due: seq<string>, fetched: seq<Reading>,
      deltas: seq<Event>, frames: seq<Frame>)
  {
    && Asked(fetched) <= due && CaughtUp(fetched, frames)
    && Shape(pub, secrets, Answers(fetched), deltas, Payload(frames)) && BeatsAfter(|Answers(fetched)|, frames)
    && (deltas != [] || !Quiet(frames) ==>
        Asked(fetched) == due && |Payload(frames)| + 1 >= |Answers(fetched)| + |deltas|)
  }

  /** Told, with nothing outstanding. */
  ghost predicate UpToDate(pub: Option<PublicKey>, secrets: seq<Secret>, due: seq<string>, fetched: seq<Reading>,
      deltas: seq<Event>, frames: seq<Frame>)
  {
    && Told(pub, secrets, due, fetched, deltas, frames)
    && Asked(fetched) == due && |Payload(frames)| == |Answers(fetched)| + |deltas|
  }

  lemma Heartbeat(pub: Option<PublicKey>, secrets: seq<Secret>, due: seq<string>, fetched: seq<Reading>,
      deltas: seq<Event>, frames: seq<Frame>, ev: Event)
    requires UpToDate(pub, secrets, due, fetched, deltas, frames) && Empty(ev)
    ensures UpToDate(pub, secrets, due, fetched, deltas, frames + [Frame(true, ev)])
    ensures Beats(frames + [Frame(true, ev)]) == Beats(frames) + 1
  {
    PayloadNext(frames, Frame(true, ev));
    BeatsNext(frames, Frame(true, ev));
    BeatsAfterNext(|Answers(fetched)|, frames, Frame(true, ev));
  }

  lemma Taken(pub: Option<PublicKey>, secrets: seq<Secret>, due: seq<string>, fetched: seq<Reading>,
      deltas: seq<Event>, frames: seq<Frame>, d: Event, more: seq<Secret>)
    requires UpToDate(pub, secrets, due, fetched, deltas, frames) && secrets <= more
    ensures Told(pub, more, due, fetched, deltas + [d], frames)
    ensures forall ev :: DeltaEvent(pub, more, d, ev) ==>
              UpToDate(pub, more, due, fetched, deltas + [d], frames + [Frame(false, ev)])
  {
    ShapeMoreSecrets(pub, secrets, Answers(fetched), deltas, Payload(frames), more);
    ShapeMoreDeltas(pub, more, Answers(fetched), deltas, Payload(frames), d);
    forall ev | DeltaEvent(pub, more, d, ev)
      ensures UpToDate(pub, more, due, fetched, deltas + [d], frames + [Frame(false, ev)])
    {
      PayloadNext(frames, Frame(false, ev));
      BeatsAfterNext(|Answers(fetched)|, frames, Frame(false, ev));
    }
  }

  // ------------------------------------------------------------ what happens meanwhile

  /** What happens to a stream while it is served, in order: others publish, a heartbeat is
      due, or the stream is ready to take what waits. */
  datatype Cue = Broadcast(e: Event) | Pulse | Ready

  function ServeOne(box: Mailbox, f: Filter, cue: Cue): Mailbox {
    match cue
    case Broadcast(e) => OfferTo(box, f, e)
    case Pulse => box
    case Ready => TakeFrom(box)
  }

  /** The mailbox after these cues. */
  function Served(box: Mailbox, f: Filter, cues: seq<Cue>): Mailbox {
    if cues == [] then box else ServeOne(Served(box, f, cues[..|cues| - 1]), f, cues[|cues| - 1])
  }

  function Pulses(cues: seq<Cue>): nat {
    if cues == [] then 0 else Pulses(cues[..|cues| - 1]) + if cues[|cues| - 1].Pulse? then 1 else 0
  }

  /** The number of heartbeats on the wire. */
  function Beats(frames: seq<Frame>): nat {
    if frames == [] then 0 else Beats(frames[..|frames| - 1]) + if frames[|frames| - 1].heartbeat then 1 else 0
  }

  lemma BeatsNext(frames: seq<Frame>, f: Frame)
    ensures Beats(frames + [f]) == Beats(frames) + if f.heartbeat then 1 else 0
  {
    assert (frames + [f])[..|frames|] == frames;
  }

  lemma {:induction false} QuietBeats(frames: seq<Frame>)
    requires Quiet(frames)
    ensures Beats(frames) == 0
  {
    if frames == [] {
    } else {
      QuietBeats(frames[..|frames| - 1]);
    }
  }

  lemma ServedNext(box: Mailbox, f: Filter, cues: seq<Cue>, i: nat)
    requires i < |cues|
    ensures Served(box, f, cues[..i + 1]) == ServeOne(Served(box, f, cues[..i]), f, cues[i])
    ensures Pulses(cues[..i + 1]) == Pulses(cues[..i]) + if cues[i].Pulse? then 1 else 0
  {
    Front(cues, i);
  }

  /** The stream has taken an event that must be sealed, and nothing can seal it. */
  ghost predicate Unsealable(snap: Snapshotter?, pub: Option<PublicKey>, deltas: seq<Event>) {
    snap == null && exists d :: d in deltas && NeedsSeal(pub, d)
  }

  lemma UnsealableNext(snap: Snapshotter?, pub: Option<PublicKey>, deltas: seq<Event>, d: Event)
    ensures Unsealable(snap, pub, deltas + [d]) <==>
            Unsealable(snap, pub, deltas) || (snap == null && NeedsSeal(pub, d))
  {
    forall x ensures x in deltas + [d] <==> x in deltas || x == d {
    }
  }

  /** Forwards one delta, sealing it first when it is a vault write and the client has a key. */
  method Forward(snap: Snapshotter?, wire: Wire, pub: Option<PublicKey>, d: Event)
    returns (failed: Option<Ending>, ghost ev: Event)
    modifies wire, snap
    ensures snap != null ==> snap.answered == old(snap.answered)
    ensures old(Secrets(snap)) <= Secrets(snap)
    ensures failed.None? ==> DeltaEvent(pub, Secrets(snap), d, ev) && wire.sent == old(wire.sent) + [Frame(false, ev)]
    ensures failed.None? && NeedsSeal(pub, d) ==>
              snap != null && snap.resolved == old(snap.resolved) + [Secret(d.subject, ev.body.text)]
    ensures failed.Some? ==> wire.sent == old(wire.sent)
    ensures failed == Some(Crashed) <==> snap == null && NeedsSeal(pub, d)
    ensures failed != Some(ClientGone)
    ensures Blamed(failed, old(Refusals(snap)), Refusals(snap), old(wire.refused), wire.refused)
  {
    ev := d;
    var out, ok := d, true;
    if NeedsSeal(pub, d) {
      if snap == null {
        return Some(Crashed), ev;
      }
      out, ok := SealFor(snap, d.subject, pub.value);
      if !ok {
        return Some(Unavailable), ev;
      }
    }
    ev := out;
    var sent := wire.Send(out, false);
    failed := if sent then None else Some(SendFailed);
  }

  /** How a stream's end is explained: the client left after all cues were served, or the
      store or the client's end failed, or there was nothing to seal with. */
  ghost predicate Explained(ending: Ending, cues: seq<Cue>, served: nat, beats: nat, store0: nat, store1: nat,
      wire0: nat, wire1: nat)
  {
    && served <= |cues| && beats <= Pulses(cues[..served])
    && (ending == ClientGone ==> served == |cues| && beats == Pulses(cues))
    && (ending != ClientGone ==> Blamed(Some(ending), store0, store1, wire0, wire1))
  }

  /** Subscribes before the snapshot is read, so what happens meanwhile waits in the buffer;
      then sends the snapshot; then serves the cues until something fails, the first of them
      on the mailbox early. However it ends, the subscription is gone. */
  method Watch(broker: Broker, snap: Snapshotter?, wire: Wire, feed: Feed, req: Filter, pub: Option<PublicKey>,
      id: string, cues: seq<Cue>)
    returns (ending: Ending, ghost fetched: seq<Reading>, ghost box: Mailbox, ghost early: Mailbox, ghost served: nat)
    requires broker.Valid() && id !in broker.subs && wire.sent == [] && feed.published == []
    modifies broker, wire, feed, snap, if snap == null then {} else {snap.store}
    ensures broker.Valid() && broker.subs == old(broker.subs)
    ensures Conserving(box, req) && Offered(box.offers) == Matching(feed.published, req)
    ensures if snap == null then fetched == [] else snap.answered == old(snap.answered) + fetched
    ensures AllTrue(fetched)
    ensures Told(pub, Secrets(snap), Due(snap, req), fetched, box.delivered, wire.sent)
    ensures ending == Crashed <==> Unsealable(snap, pub, box.delivered)
    ensures Explained(ending, cues, served, Beats(wire.sent), old(Refusals(snap)), Refusals(snap),
                      old(wire.refused), wire.refused)
    ensures early.delivered == [] && box == Served(early, req, cues[..served])
    ensures ending == ClientGone ==> UpToDate(pub, Secrets(snap), Due(snap, req), fetched, box.delivered, wire.sent)
  {
    var ch := Connect(broker, req, id);
    AddThenRemove(old(broker.subs), id, Subscription(req, ch));
    ending, fetched, early, served := Serve(snap, wire, feed, ch, req, pub, cues);
    box := ch.Box();
    Disconnect(broker, id);
  }

  method Connect(broker: Broker, req: Filter, id: string) returns (ch: Channel)
    requires broker.Valid() && id !in broker.subs
    modifies broker
    ensures broker.Valid() && broker.subs == old(broker.subs)[id := Subscription(req, ch)]
    ensures fresh(ch) && !ch.closed && ch.Box() == EMPTY_MAILBOX
  {
    ch := broker.Subscribe(req, id);
  }

  method Disconnect(broker: Broker, id: string)
    requires broker.Valid() && id in broker.subs
    modifies broker, broker.subs[id].ch
    ensures broker.Valid() && broker.subs == old(broker.subs) - {id}
  {
    broker.Unsubscribe(id);
  }

  lemma AddThenRemove(subs: map<string, Subscription>, id: string, sub: Subscription)
    requires id !in subs
    ensures subs[id := sub] - {id} == subs
  {
  }

  /** The prefixes whose state is owed to the client before any delta. */
  function Due(snap: Snapshotter?, req: Filter): seq<string> {
    if snap == null then [] else req.prefixes
  }

  method Serve(snap: Snapshotter?, wire: Wire, feed: Feed, ch: Channel, req: Filter, pub: Option<PublicKey>,
      cues: seq<Cue>)
    returns (ending: Ending, ghost fetched: seq<Reading>, ghost early: Mailbox, ghost served: nat)
    requires !ch.closed && ch.Box() == EMPTY_MAILBOX && wire.sent == [] && feed.published == []
    modifies ch, wire, feed, snap, if snap == null then {} else {snap.store}
    ensures Listening(feed, ch, req)
    ensures if snap == null then fetched == [] else snap.answered == old(snap.answered) + fetched
    ensures AllTrue(fetched)
    ensures Told(pub, Secrets(snap), Due(snap, req), fetched, ch.delivered, wire.sent)
    ensures ending == Crashed <==> Unsealable(snap, pub, ch.delivered)
    ensures Explained(ending, cues, served, Beats(wire.sent), old(Refusals(snap)), Refusals(snap),
                      old(wire.refused), wire.refused)
    ensures early.delivered == [] && ch.Box() == Served(early, req, cues[..served])
    ensures ending == ClientGone ==> UpToDate(pub, Secrets(snap), Due(snap, req), fetched, ch.delivered, wire.sent)
  {
    OthersPublish(feed, ch, req);
    fetched, served := [], 0;
    if snap != null && |req.prefixes| > 0 {
      var failed;
      failed, fetched := SendSnapshot(snap, wire, feed, ch, req, pub);
      early := ch.Box();
      QuietBeats(wire.sent);
      if failed.Some? {
        return failed.value, fetched, early, served;
      }
    }
    early := ch.Box();
    ending, served := Drain(snap, wire, feed, ch, req, pub, cues, Due(snap, req), fetched);
  }

  method Drain(snap: Snapshotter?, wire: Wire, feed: Feed, ch: Channel, req: Filter, pub: Option<PublicKey>,
      cues: seq<Cue>, ghost due: seq<string>, ghost fetched: seq<Reading>)
    returns (ending: Ending, ghost served: nat)
    requires Listening(feed, ch, req) && Beats(wire.sent) == 0
    requires UpToDate(pub, Secrets(snap), due, fetched, ch.delivered, wire.sent) && !Unsealable(snap, pub, ch.delivered)
    modifies ch, wire, feed, snap
    ensures Listening(feed, ch, req)
    ensures snap != null ==> snap.answered == old(snap.answered)
    ensures Told(pub, Secrets(snap), due, fetched, ch.delivered, wire.sent)
    ensures ending == Crashed <==> Unsealable(snap, pub, ch.delivered)
    ensures Explained(ending, cues, served, Beats(wire.sent), old(Refusals(snap)), Refusals(snap),
                      old(wire.refused), wire.refused)
    ensures ch.Box() == Served(old(ch.Box()), req, cues[..served])
    ensures ending == ClientGone ==> UpToDate(pub, Secrets(snap), due, fetched, ch.delivered, wire.sent)
  {
    ghost var early := ch.Box();
    for i := 0 to |cues|
      invariant Listening(feed, ch, req)
      invariant snap != null ==> snap.answered == old(snap.answered)
      invariant UpToDate(pub, Secrets(snap), due, fetched, ch.delivered, wire.sent)
      invariant !Unsealable(snap, pub, ch.delivered)
      invariant Beats(wire.sent) == Pulses(cues[..i]) && ch.Box() == Served(early, req, cues[..i])
      invariant old(Refusals(snap)) <= Refusals(snap) && old(wire.refused) <= wire.refused
    {
      ServedNext(early, req, cues, i);
      var failed := Turn(snap, wire, feed, ch, req, pub, cues[i], due, fetched);
      if failed.Some? {
        return failed.value, i + 1;
      }
    }
    assert cues[..|cues|] == cues;
    ending, served := ClientGone, |cues|;
  }

  /** One cue: somebody publishes, a heartbeat goes out, or the oldest waiting event, if
      there is one, is forwarded. */
  method Turn(snap: Snapshotter?, wire: Wire, feed: Feed, ch: Channel, req: Filter, pub: Option<PublicKey>,
      cue: Cue, ghost due: seq<string>, ghost fetched: seq<Reading>)
    returns (failed: Option<Ending>)
    requires Listening(feed, ch, req)
    requires UpToDate(pub, Secrets(snap), due, fetched, ch.delivered, wire.sent) && !Unsealable(snap, pub, ch.delivered)
    modifies wire, ch, feed, snap
    ensures Listening(feed, ch, req) && ch.Box() == ServeOne(old(ch.Box()), req, cue)
    ensures snap != null ==> snap.answered == old(snap.answered)
    ensures Told(pub, Secrets(snap), due, fetched, ch.delivered, wire.sent)
    ensures failed.None? ==> UpToDate(pub, Secrets(snap), due, fetched, ch.delivered, wire.sent)
    ensures failed.None? ==> Beats(wire.sent) == old(Beats(wire.sent)) + if cue.Pulse? then 1 else 0
    ensures failed.Some? ==> wire.sent == old(wire.sent) && failed != Some(ClientGone)
    ensures failed == Some(Crashed) <==> Unsealable(snap, pub, ch.delivered)
    ensures Blamed(failed, old(Refusals(snap)), Refusals(snap), old(wire.refused), wire.refused)
  {
    match cue {
      case Broadcast(e) =>
        Hear(feed, ch, req, e);
        failed := None;
      case Pulse =>
        failed := BeatOnce(wire, pub, Secrets(snap), due, fetched, ch.delivered);
      case Ready =>
        failed := TakeOne(snap, wire, feed, ch, req, pub, due, fetched);
    }
  }

  method BeatOnce(wire: Wire, pub: Option<PublicKey>, ghost secrets: seq<Secret>, ghost due: seq<string>,
      ghost fetched: seq<Reading>, ghost deltas: seq<Event>)
    returns (failed: Option<Ending>)
    requires UpToDate(pub, secrets, due, fetched, deltas, wire.sent)
    modifies wire
    ensures UpToDate(pub, secrets, due, fetched, deltas, wire.sent)
    ensures failed.None? ==> Beats(wire.sent) == old(Beats(wire.sent)) + 1
    ensures failed.Some? ==> wire.sent == old(wire.sent) && failed == Some(SendFailed)
    ensures wire.refused == old(wire.refused) + if failed.Some? then 1 else 0
  {
    var uuid: string := *;
    var pulse := Event(uuid, KEEPALIVE, "", Nothing);
    Heartbeat(pub, secrets, due, fetched, deltas, wire.sent, pulse);
    var sent := wire.Send(pulse, true);
    failed := if sent then None else Some(SendFailed);
  }

  method TakeOne(snap: Snapshotter?, wire: Wire, ghost feed: Feed, ch: Channel, ghost req: Filter,
      pub: Option<PublicKey>, ghost due: seq<string>, ghost fetched: seq<Reading>)
    returns (failed: Option<Ending>)
    requires Listening(feed, ch, req)
    requires UpToDate(pub, Secrets(snap), due, fetched, ch.delivered, wire.sent) && !Unsealable(snap, pub, ch.delivered)
    modifies wire, ch, snap
    ensures Listening(feed, ch, req) && ch.Box() == TakeFrom(old(ch.Box()))
    ensures snap != null ==> snap.answered == old(snap.answered)
    ensures Told(pub, Secrets(snap), due, fetched, ch.delivered, wire.sent)
    ensures failed.None? ==> UpToDate(pub, Secrets(snap), due, fetched, ch.delivered, wire.sent)
    ensures failed.None? ==> Beats(wire.sent) == old(Beats(wire.sent))
    ensures failed.Some? ==> wire.sent == old(wire.sent) && failed != Some(ClientGone)
    ensures failed == Some(Crashed) <==> Unsealable(snap, pub, ch.delivered)
    ensures Blamed(failed, old(Refusals(snap)), Refusals(snap), old(wire.refused), wire.refused)
  {
    ghost var secrets, deltas, frames := Secrets(snap), ch.delivered, wire.sent;
    TakeConserves(ch.Box(), req);
    var d, some := ch.Receive();
    failed := None;
    if some {
      ghost var ev;
      failed, ev := Forward(snap, wire, pub, d);
      Taken(pub, secrets, due, fetched, deltas, frames, d, Secrets(snap));
      UnsealableNext(snap, pub, deltas, d);
      BeatsNext(frames, Frame(false, ev));
    }
  }
}
