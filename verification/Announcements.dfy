/** How replication fits together with the manager: what is published for a batched write is
    what the replication protocol takes a write to announce. */
module Announcements {
  import opened Options
  import opened Table
  import opened EntryStore
  import opened UpsertTree
  import opened UpsertReport
  import opened Parameters
  import opened Gateway
  import opened ExternalWrites
  import opened GatewayPlan
  import opened GatewayReport
  import opened Schedules
  import opened Events
  import opened Recorder
  import Convergence

  /** The report when the index write reached the table in full. */
  function FullReport(outer: Results, toIndex: seq<Entry>): Results {
    Report(outer, toIndex, [])
  }

  /** A successful result of the manager comes with the entry that the index stores. */
  lemma SuccessIsIndexed(b: Batch, ps: Params, failing: set<string>, outer: Results, toIndex: seq<Entry>, k: string)
    requires GoodBatch(b) && Succeeded(FullReport(outer, toIndex), k)
    requires MergeInvariant(PlanOf(b).results, PlanOf(b).direct, FatesOf(b, ps, failing),
                            UpTo(|FatesOf(b, ps, failing)|), outer, toIndex)
    ensures var o := FullReport(outer, toIndex)[k].output; o.Some? && o.value.key == k && HasKey(toIndex, k)
  {
    MergedCanonical(b, ps, failing, outer, toIndex);
    if k in outer {
      OuterSuccessIsIndexed(b, ps, failing, outer, toIndex, k);
    } else {
      var n := OptimisticOrigin(toIndex, k);
      OptimisticAt(toIndex, n);
    }
  }

  lemma OuterSuccessIsIndexed(b: Batch, ps: Params, failing: set<string>, outer: Results, toIndex: seq<Entry>,
                              k: string)
    requires GoodBatch(b) && k in outer && outer[k].err.None?
    requires MergeInvariant(PlanOf(b).results, PlanOf(b).direct, FatesOf(b, ps, failing),
                            UpTo(|FatesOf(b, ps, failing)|), outer, toIndex)
    ensures outer[k].output.Some? && outer[k].output.value.key == k && HasKey(toIndex, k)
  {
    var fs := FatesOf(b, ps, failing);
    if k in PlanOf(b).results {
      PlanFailuresAreErrors(b, k);
    } else {
      var j :| 0 <= j < |fs| && j in UpTo(|fs|) && fs[j].key == k;
      FateFormKey(ps, failing, b.env.style, PlanOf(b).tasks[j]);
      assert WellFormed(fs[j]) && PassedOn(fs, UpTo(|fs|), fs[j].form);
      var n :| 0 <= n < |toIndex| && toIndex[n] == fs[j].form;
    }
  }

  lemma FullReportAt(outer: Results, toIndex: seq<Entry>, n: nat)
    requires CanonicalEntries(toIndex) && DistinctEntries(toIndex) && n < |toIndex|
    ensures var k := toIndex[n].key;
            k in FullReport(outer, toIndex) &&
            FullReport(outer, toIndex)[k] == if k in outer then outer[k] else ReportUpdated(k, toIndex[n])
  {
    OptimisticAt(toIndex, n);
  }

  lemma PassedOnSucceeded(b: Batch, ps: Params, failing: set<string>, outer: Results, toIndex: seq<Entry>, x: Entry)
    requires GoodBatch(b) && PassedOn(FatesOf(b, ps, failing), UpTo(|FatesOf(b, ps, failing)|), x)
    requires MergeInvariant(PlanOf(b).results, PlanOf(b).direct, FatesOf(b, ps, failing),
                            UpTo(|FatesOf(b, ps, failing)|), outer, toIndex)
    ensures Succeeded(outer, x.key) && outer[x.key].output == Some(x)
  {
    var fs := FatesOf(b, ps, failing);
    var j :| 0 <= j < |fs| && j in UpTo(|fs|) && !fs[j].fails && x == fs[j].form;
    FateFormKey(ps, failing, b.env.style, PlanOf(b).tasks[j]);
    assert WellFormed(fs[j]);
  }

  /** And every entry that the index stores comes out as a successful result. */
  lemma IndexedSucceeds(b: Batch, ps: Params, failing: set<string>, outer: Results, toIndex: seq<Entry>, n: nat)
    requires GoodBatch(b) && n < |toIndex|
    requires MergeInvariant(PlanOf(b).results, PlanOf(b).direct, FatesOf(b, ps, failing),
                            UpTo(|FatesOf(b, ps, failing)|), outer, toIndex)
    ensures Succeeded(FullReport(outer, toIndex), toIndex[n].key)
    ensures FullReport(outer, toIndex)[toIndex[n].key].output == Some(toIndex[n])
  {
    MergedCanonical(b, ps, failing, outer, toIndex);
    FullReportAt(outer, toIndex, n);
    assert toIndex[n] in toIndex;
    if toIndex[n] in PlanOf(b).direct {
      DirectNotInOuter(b, ps, failing, outer, toIndex, toIndex[n]);
    } else {
      PassedOnSucceeded(b, ps, failing, outer, toIndex, toIndex[n]);
    }
  }

  lemma DirectNotInOuter(b: Batch, ps: Params, failing: set<string>, outer: Results, toIndex: seq<Entry>, x: Entry)
    requires GoodBatch(b) && x in PlanOf(b).direct
    requires MergeInvariant(PlanOf(b).results, PlanOf(b).direct, FatesOf(b, ps, failing),
                            UpTo(|FatesOf(b, ps, failing)|), outer, toIndex)
    ensures x.key !in outer
  {
    var i := DirectKeyKnown(b, x);
    NotInOuter(b, ps, failing, outer, toIndex, i);
  }

  /** The successful results and the entries are the same, key by key. */
  ghost predicate Matching(results: Results, entries: seq<Entry>) {
    && (forall k :: Succeeded(results, k) ==>
          results[k].output.Some? && results[k].output.value.key == k && HasKey(entries, k))
    && (forall n :: 0 <= n < |entries| ==>
          Succeeded(results, entries[n].key) && results[entries[n].key].output == Some(entries[n]))
  }

  lemma MatchingIsAnnounced(id: string, results: Results, entries: seq<Entry>, keys: seq<string>, events: seq<Event>)
    requires Matching(results, entries) && Convergence.PlainEntries(entries) && Published(id, results, keys, events)
    ensures Convergence.Announces(events, entries)
  {
    forall i | 0 <= i < |keys| ensures events[i].subject == keys[i] && HasKey(entries, events[i].subject) {
      SubjectIsKey(id, results, entries, keys, events, i);
    }
    forall n | 0 <= n < |entries| ensures Convergence.SaidIn(events, entries[n]) {
      EntryIsSaid(id, results, entries, keys, events, n);
    }
  }

  lemma SubjectIsKey(id: string, results: Results, entries: seq<Entry>, keys: seq<string>, events: seq<Event>, i: nat)
    requires Matching(results, entries) && Published(id, results, keys, events) && i < |keys|
    ensures events[i].subject == keys[i] && HasKey(entries, keys[i])
  {
    assert Succeeded(results, keys[i]);
  }

  lemma EntryIsSaid(id: string, results: Results, entries: seq<Entry>, keys: seq<string>, events: seq<Event>, n: nat)
    requires Matching(results, entries) && Convergence.PlainEntries(entries) && Published(id, results, keys, events)
    requires n < |entries|
    ensures Convergence.SaidIn(events, entries[n])
  {
    assert entries[n].key in keys;
    var i :| 0 <= i < |keys| && keys[i] == entries[n].key;
    assert Convergence.Says(events[i], entries[n]);
  }

  lemma FullReportMatches(b: Batch, ps: Params, failing: set<string>, outer: Results, toIndex: seq<Entry>)
    requires GoodBatch(b)
    requires MergeInvariant(PlanOf(b).results, PlanOf(b).direct, FatesOf(b, ps, failing),
                            UpTo(|FatesOf(b, ps, failing)|), outer, toIndex)
    ensures Matching(FullReport(outer, toIndex), toIndex)
  {
    var results := FullReport(outer, toIndex);
    forall k | Succeeded(results, k)
      ensures results[k].output.Some? && results[k].output.value.key == k && HasKey(toIndex, k)
    {
      SuccessIsIndexed(b, ps, failing, outer, toIndex, k);
    }
    forall n | 0 <= n < |toIndex|
      ensures Succeeded(results, toIndex[n].key) && results[toIndex[n].key].output == Some(toIndex[n])
    {
      IndexedSucceeds(b, ps, failing, outer, toIndex, n);
    }
  }

  /** Whatever the backends refused, if the index write reached the table in full, what is
      published for the manager's results announces exactly the entries that the index now
      stores, each once, in whatever order the results come. */
  lemma FullWriteAnnounces(id: string, b: Batch, ps: Params, failing: set<string>, outer: Results, toIndex: seq<Entry>,
                           keys: seq<string>, events: seq<Event>)
    requires GoodBatch(b) && Convergence.PlainEntries(toIndex)
    requires MergeInvariant(PlanOf(b).results, PlanOf(b).direct, FatesOf(b, ps, failing),
                            UpTo(|FatesOf(b, ps, failing)|), outer, toIndex)
    requires Published(id, FullReport(outer, toIndex), keys, events)
    ensures Convergence.Announces(events, toIndex)
  {
    FullReportMatches(b, ps, failing, outer, toIndex);
    MatchingIsAnnounced(id, FullReport(outer, toIndex), toIndex, keys, events);
  }

  /** So such a write is a step of the replication protocol. */
  lemma FullWriteIsStep(req: Filter, s: Convergence.State, id: string, b: Batch, ps: Params, failing: set<string>,
                        outer: Results, toIndex: seq<Entry>, t1: Rows, reqs: seq<WriteRequest>,
                        keys: seq<string>, events: seq<Event>)
    requires CarriedOut(b, ps, failing, outer, toIndex, s.rows, t1, reqs, [])
    requires Convergence.PlainEntries(toIndex)
    requires Published(id, FullReport(outer, toIndex), keys, events)
    ensures Convergence.Enabled(req, s, Convergence.Store(toIndex, b.env.stamp, t1, events))
  {
    MergedCanonical(b, ps, failing, outer, toIndex);
    WrittenInstalls(s.rows, t1, reqs, RequestsOf(toIndex, b.env.stamp));
    FullWriteAnnounces(id, b, ps, failing, outer, toIndex, keys, events);
  }

  // ------------------------------------------------------------------------- secrets

  /** Whether the value of entry i is a secret: asked for, or forced by the vault. */
  predicate SecretAt(b: Batch, i: nat)
    requires WellSized(b) && i < |b.entries|
  {
    b.entries[i].secure || b.routes[i] == To(SecureParamStore)
  }

  /** What a successful key of the batch is reported with: its entry as the backend took it,
      which is secure if the value is a secret. */
  lemma ReportedEntry(b: Batch, ps: Params, failing: set<string>, outer: Results, toIndex: seq<Entry>,
                      t0: Rows, t1: Rows, reqs: seq<WriteRequest>, left: seq<WriteRequest>, i: nat)
    requires CarriedOut(b, ps, failing, outer, toIndex, t0, t1, reqs, left)
    requires i < |b.entries| && Succeeded(Report(outer, toIndex, left), b.entries[i].key)
    ensures b.routes[i].To?
    ensures var o := Report(outer, toIndex, left)[b.entries[i].key].output;
            && o.Some? && o.value.key == b.entries[i].key && (o.value.secure <==> SecretAt(b, i))
            && (b.routes[i] == To(IndexStore) ==> o.value.value == b.entries[i].value)
  {
    match b.routes[i] {
      case Unroutable =>
        UnroutableReport(b, ps, failing, outer, toIndex, t0, t1, reqs, left, i);
      case To(IndexStore) =>
        DirectReport(b, ps, failing, outer, toIndex, t0, t1, reqs, left, i);
        DirectOutput(b, ps, failing, outer, toIndex, t0, t1, reqs, left, i);
      case To(store) =>
        ExternalReport(b, ps, failing, outer, toIndex, t0, t1, reqs, left, i);
    }
  }

  lemma DirectOutput(b: Batch, ps: Params, failing: set<string>, outer: Results, toIndex: seq<Entry>,
                     t0: Rows, t1: Rows, reqs: seq<WriteRequest>, left: seq<WriteRequest>, i: nat)
    requires CarriedOut(b, ps, failing, outer, toIndex, t0, t1, reqs, left)
    requires i < |b.entries| && b.routes[i] == To(IndexStore)
    requires Succeeded(Report(outer, toIndex, left), b.entries[i].key)
    ensures Report(outer, toIndex, left)[b.entries[i].key].output == Some(DirectAt(b, i))
  {
    MergedCanonical(b, ps, failing, outer, toIndex);
    NotInOuter(b, ps, failing, outer, toIndex, i);
    EveryEntryPlaced(b, i);
    var n :| 0 <= n < |toIndex| && toIndex[n] == DirectAt(b, i);
    ReportIsTruthful(t0, t1, toIndex, b.env.stamp, reqs, left, n);
  }

  /** Whatever a batch did, no event about one of its secret entries tells the value. */
  lemma SecretsAreMasked(id: string, b: Batch, ps: Params, failing: set<string>, outer: Results, toIndex: seq<Entry>,
                         t0: Rows, t1: Rows, reqs: seq<WriteRequest>, left: seq<WriteRequest>,
                         keys: seq<string>, events: seq<Event>, i: nat, n: nat)
    requires CarriedOut(b, ps, failing, outer, toIndex, t0, t1, reqs, left)
    requires Published(id, Report(outer, toIndex, left), keys, events)
    requires i < |b.entries| && n < |keys| && keys[n] == b.entries[i].key
    ensures events[n].subject == b.entries[i].key
    ensures SecretAt(b, i) ==> events[n].body == Clear("*****")
    ensures !SecretAt(b, i) && b.routes[i] == To(IndexStore) ==> events[n].body == Clear(b.entries[i].value)
  {
    assert Succeeded(Report(outer, toIndex, left), keys[n]);
    ReportedEntry(b, ps, failing, outer, toIndex, t0, t1, reqs, left, i);
    ToldAsIs(id, Report(outer, toIndex, left), keys, events, n);
  }

  /** And there is no event but about an entry of the batch. */
  lemma EventHasEntry(b: Batch, ps: Params, failing: set<string>, outer: Results, toIndex: seq<Entry>,
                      t0: Rows, t1: Rows, reqs: seq<WriteRequest>, left: seq<WriteRequest>, k: string)
    returns (i: nat)
    requires CarriedOut(b, ps, failing, outer, toIndex, t0, t1, reqs, left)
    requires Succeeded(Report(outer, toIndex, left), k)
    ensures i < |b.entries| && b.entries[i].key == k
  {
    if k in outer {
      i := OuterHasEntry(b, ps, failing, outer, toIndex, k);
    } else {
      MergedCanonical(b, ps, failing, outer, toIndex);
      FailKeysAt(Optimistic(toIndex), NamesOf(left), k);
      var n := OptimisticOrigin(toIndex, k);
      assert toIndex[n] in toIndex;
      i := IndexedKeyKnown(b, ps, failing, toIndex[n]);
    }
  }

  lemma OuterHasEntry(b: Batch, ps: Params, failing: set<string>, outer: Results, toIndex: seq<Entry>, k: string)
    returns (i: nat)
    requires GoodBatch(b) && k in outer && outer[k].err.None?
    requires MergeInvariant(PlanOf(b).results, PlanOf(b).direct, FatesOf(b, ps, failing),
                            UpTo(|FatesOf(b, ps, failing)|), outer, toIndex)
    ensures i < |b.entries| && b.entries[i].key == k
  {
    var fs := FatesOf(b, ps, failing);
    if k in PlanOf(b).results {
      PlanFailuresAreErrors(b, k);
    }
    var j :| 0 <= j < |fs| && j in UpTo(|fs|) && fs[j].key == k;
    i := FateNamed(b, ps, failing, j);
  }
}
