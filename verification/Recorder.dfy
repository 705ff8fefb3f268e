/** Announcing writes: one event for every result without an error, with secrets masked. */
module Recorder {
  import opened EntryStore
  import opened Events

  const MASK := "*****"

  /** The event for a result; without an output there is nothing to take a subject from. */
  function Announcement(id: string, res: Result): Event {
    match res.output
    case None => Event(id, ENTRY_UPSERTED, "", Nothing)
    case Some(e) => Event(id, ENTRY_UPSERTED, e.key, Clear(if e.secure then MASK else e.value))
  }

  predicate Succeeded(results: Results, k: string) {
    k in results && results[k].err.None?
  }

  /** keys lists the successful results once each, and events are their announcements. */
  ghost predicate Published(id: string, results: Results, keys: seq<string>, events: seq<Event>) {
    && (forall i, j :: 0 <= i < j < |keys| ==> keys[i] != keys[j])
    && (forall k :: k in keys <==> Succeeded(results, k))
    && |events| == |keys|
    && (forall i :: 0 <= i < |keys| ==> Succeeded(results, keys[i]) && events[i] == Announcement(id, results[keys[i]]))
  }

  /** Goes through the results in whatever order the map yields them. */
  method PublishEvents(id: string, results: Results) returns (events: seq<Event>, ghost keys: seq<string>)
    ensures |events| == |set k | k in results && Succeeded(results, k)|
    ensures forall k :: Succeeded(results, k) ==> Announcement(id, results[k]) in events
    ensures Published(id, results, keys, events)
  {
    events, keys := [], [];
    var left := results.Keys;
    while left != {}
      invariant left <= results.Keys
      invariant forall i, j :: 0 <= i < j < |keys| ==> keys[i] != keys[j]
      invariant forall k :: k in keys <==> k !in left && Succeeded(results, k)
      invariant |events| == |keys|
      invariant forall i :: 0 <= i < |keys| ==>
                  Succeeded(results, keys[i]) && events[i] == Announcement(id, results[keys[i]])
      decreases |left|
    {
      var k :| k in left;
      left := left - {k};
      if results[k].err.None? {
        events := events + [Announcement(id, results[k])];
        keys := keys + [k];
      }
    }
    KeysCount(keys, set k | k in results && Succeeded(results, k));
    forall k | Succeeded(results, k) ensures Announcement(id, results[k]) in events {
      var i :| 0 <= i < |keys| && keys[i] == k;
      assert events[i] in events;
    }
  }

  // -------------------------------------------------------------------- what is told

  /** The same result but for the value of a secure output, and for the output's metadata. */
  predicate SameButSecret(a: Result, b: Result) {
    && a.key == b.key && a.err == b.err && a.output.Some? == b.output.Some?
    && (a.output.Some? ==>
          var x, y := a.output.value, b.output.value;
          x.key == y.key && x.secure == y.secure && (!x.secure ==> x.value == y.value))
  }

  ghost predicate AlikeButSecrets(a: Results, b: Results) {
    a.Keys == b.Keys && forall k :: k in a ==> SameButSecret(a[k], b[k])
  }

  ghost predicate Publishable(id: string, results: Results, events: seq<Event>) {
    exists keys: seq<string> :: Published(id, results, keys, events)
  }

  /** What may be published does not depend on the value of any secure output. */
  lemma SecretsDoNotShow(id: string, a: Results, b: Results, events: seq<Event>)
    requires AlikeButSecrets(a, b)
    ensures Publishable(id, a, events) <==> Publishable(id, b, events)
  {
    if Publishable(id, a, events) {
      PublishedAlike(id, a, b, events);
    }
    if Publishable(id, b, events) {
      PublishedAlike(id, b, a, events);
    }
  }

  lemma PublishedAlike(id: string, a: Results, b: Results, events: seq<Event>)
    requires AlikeButSecrets(a, b) && Publishable(id, a, events)
    ensures Publishable(id, b, events)
  {
    var keys: seq<string> :| Published(id, a, keys, events);
    forall k ensures Succeeded(a, k) <==> Succeeded(b, k) {
      assert k in a <==> k in b;
      assert k in a ==> SameButSecret(a[k], b[k]);
    }
    forall i | 0 <= i < |keys| ensures events[i] == Announcement(id, b[keys[i]]) {
      assert SameButSecret(a[keys[i]], b[keys[i]]);
    }
    assert Published(id, b, keys, events);
  }

  /** A value that is not secure is told as it is, under its key; a secure one as the mask. */
  lemma ToldAsIs(id: string, results: Results, keys: seq<string>, events: seq<Event>, i: nat)
    requires Published(id, results, keys, events) && i < |keys| && results[keys[i]].output.Some?
    ensures var e := results[keys[i]].output.value;
            && events[i].id == id && events[i].etype == "nbox.entry.upserted" && events[i].subject == e.key
            && (!e.secure ==> events[i].body == Clear(e.value))
            && (e.secure ==> events[i].body == Clear("*****"))
  {
  }

  lemma {:induction false} KeysCount(keys: seq<string>, all: set<string>)
    requires forall i, j :: 0 <= i < j < |keys| ==> keys[i] != keys[j]
    requires forall k :: k in keys <==> k in all
    ensures |keys| == |all|
  {
    if keys == [] {
      assert all == {};
    } else {
      var front, last := keys[..|keys| - 1], keys[|keys| - 1];
      assert keys == front + [last];
      KeysCount(front, all - {last});
    }
  }
}
