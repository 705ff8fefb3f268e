/** What the caller of a batched write is told about each key, whatever failed. */
module GatewayReport {
  import opened Paths
  import opened Options
  import opened Table
  import opened KeyTree
  import opened EntryStore
  import opened UpsertTree
  import opened UpsertReport
  import opened Parameters
  import opened Gateway
  import opened ExternalWrites
  import opened GatewayOps
  import opened GatewayPlan
  import opened Schedules

  /** A batch of distinct canonical keys as it was carried out: the backends' reports, what
      went to the index, its requests, and those of them that were given up. */
  ghost predicate CarriedOut(b: Batch, ps: Params, failing: set<string>, outer: Results, toIndex: seq<Entry>,
                             t0: Rows, t1: Rows, reqs: seq<WriteRequest>, left: seq<WriteRequest>) {
    && GoodBatch(b)
    && MergeInvariant(PlanOf(b).results, PlanOf(b).direct, FatesOf(b, ps, failing),
                      UpTo(|FatesOf(b, ps, failing)|), outer, toIndex)
    && Enumerates(reqs, RequestsOf(toIndex, b.env.stamp)) && Within(left, reqs) && Written(t0, t1, reqs, left)
  }

  /** What the caller gets. */
  function Report(outer: Results, toIndex: seq<Entry>, left: seq<WriteRequest>): Results {
    MergeIndex(outer, MarkFailed(Optimistic(toIndex), left))
  }

  /** The index reports nothing but the keys of its entries. */
  lemma ReportedIsIndexed(toIndex: seq<Entry>, s: Stamp, reqs: seq<WriteRequest>, left: seq<WriteRequest>, k: string)
    requires CanonicalEntries(toIndex) && Canonical(k) && k in MarkFailed(Optimistic(toIndex), left)
    requires Enumerates(reqs, RequestsOf(toIndex, s)) && Within(left, reqs)
    ensures HasKey(toIndex, k)
  {
    FailKeysAt(Optimistic(toIndex), NamesOf(left), k);
    LeftoverNamed(toIndex, s, reqs, left, k);
    if k in Optimistic(toIndex) {
      var i := OptimisticOrigin(toIndex, k);
    } else {
      var q :| q in left && q.row == LeafRow(k);
      LeafNeedsKey(toIndex, s, reqs, q, k);
    }
  }

  /** Only an entry with key k puts k's row among the requests. */
  lemma LeafNeedsKey(toIndex: seq<Entry>, s: Stamp, reqs: seq<WriteRequest>, q: WriteRequest, k: string)
    requires CanonicalEntries(toIndex) && Canonical(k) && Enumerates(reqs, RequestsOf(toIndex, s))
    requires q in reqs && q.row == LeafRow(k)
    ensures HasKey(toIndex, k)
  {
    var id :| id in RequestsOf(toIndex, s) && RequestsOf(toIndex, s)[id] == q;
    RequestCases(toIndex, s, id);
    RowOfKey(k);
    forall p | p in Needed(toIndex) ensures MarkerRow(p) != LeafRow(k) {
      NeededIsCanonical(toIndex, p);
      RowOfKey(p);
    }
    var i :| 0 <= i < |toIndex| && q.row == LeafRow(toIndex[i].key);
    RowOfKey(toIndex[i].key);
  }

  lemma {:induction false} PlanFailuresAreErrors(b: Batch, k: string)
    requires WellSized(b) && k in PlanOf(b).results
    ensures PlanOf(b).results[k].err == Some(UNROUTABLE)
    decreases |b.entries|
  {
    var n := |b.entries| - 1;
    var f := GatewayPlan.Front(b);
    assert PlanOf(b) == PlanOne(PlanOf(f), Prepared(b.entries[n], b.env), b.routes[n]);
    if k in PlanOf(f).results {
      PlanFailuresAreErrors(f, k);
    }
  }

  /** An entry that no backend takes: an error, and nothing of it is indexed. */
  lemma UnroutableReport(b: Batch, ps: Params, failing: set<string>, outer: Results, toIndex: seq<Entry>,
                         t0: Rows, t1: Rows, reqs: seq<WriteRequest>, left: seq<WriteRequest>, i: nat)
    requires CarriedOut(b, ps, failing, outer, toIndex, t0, t1, reqs, left)
    requires i < |b.entries| && b.routes[i] == Unroutable
    ensures var k := b.entries[i].key;
            k in Report(outer, toIndex, left) && Report(outer, toIndex, left)[k].err == Some(UNROUTABLE)
  {
    var k := b.entries[i].key;
    EveryEntryPlaced(b, i);
    PlanFailuresAreErrors(b, k);
    MergedCanonical(b, ps, failing, outer, toIndex);
    forall n | 0 <= n < |toIndex| ensures toIndex[n].key != k {
      assert toIndex[n] in toIndex;
      IndexedIsRouted(b, ps, failing, toIndex[n], i);
    }
    if k in MarkFailed(Optimistic(toIndex), left) {
      ReportedIsIndexed(toIndex, b.env.stamp, reqs, left, k);
    }
  }

  /** What goes to the index was routed somewhere, and if it bears the key of entry i it was
      routed where entry i was and did not fail there. */
  lemma IndexedIsRouted(b: Batch, ps: Params, failing: set<string>, x: Entry, i: nat)
    requires GoodBatch(b) && i < |b.entries|
    requires x in PlanOf(b).direct || PassedOn(FatesOf(b, ps, failing), UpTo(|FatesOf(b, ps, failing)|), x)
    ensures x.key == b.entries[i].key ==>
              b.routes[i] == To(IndexStore) || (b.routes[i].To? && b.entries[i].key !in failing)
  {
    var fs := FatesOf(b, ps, failing);
    if x in PlanOf(b).direct {
      PlanGrounded(b);
      assert DirectFrom(b, x);
      var n :| 0 <= n < |b.entries| && b.routes[n] == To(IndexStore) && x == DirectAt(b, n);
      assert x.key == b.entries[i].key ==> n == i;
    } else {
      var j :| 0 <= j < |fs| && j in UpTo(|fs|) && !fs[j].fails && x == fs[j].form;
      var n := FateNamed(b, ps, failing, j);
      assert x.key == b.entries[i].key ==> n == i;
    }
  }

  /** What becomes of entry i at the external backend it is routed to. */
  function FateAt(b: Batch, ps: Params, failing: set<string>, i: nat): Fate
    requires i < |b.entries| && i < |b.routes| && b.routes[i].To?
  {
    FateOf(ps, failing, b.env.style, TaskAt(b, i, b.routes[i].store))
  }

  /** The report of a write that went to an external backend is what that backend said, even
      when the index write that should follow was lost. */
  lemma ExternalReport(b: Batch, ps: Params, failing: set<string>, outer: Results, toIndex: seq<Entry>,
                       t0: Rows, t1: Rows, reqs: seq<WriteRequest>, left: seq<WriteRequest>, i: nat)
    requires CarriedOut(b, ps, failing, outer, toIndex, t0, t1, reqs, left)
    requires i < |b.entries| && b.routes[i].To? && b.routes[i].store != IndexStore
    ensures var k := b.entries[i].key;
            && k in Report(outer, toIndex, left)
            && Report(outer, toIndex, left)[k] == FateAt(b, ps, failing, i).report
            && (Report(outer, toIndex, left)[k].err.None? <==> k !in failing)
  {
    var k := b.entries[i].key;
    var j := OuterHasFate(b, ps, failing, outer, toIndex, i);
    if k in failing {
      MergedCanonical(b, ps, failing, outer, toIndex);
      forall n | 0 <= n < |toIndex| ensures toIndex[n].key != k {
        assert toIndex[n] in toIndex;
        IndexedIsRouted(b, ps, failing, toIndex[n], i);
      }
      if k in MarkFailed(Optimistic(toIndex), left) {
        ReportedIsIndexed(toIndex, b.env.stamp, reqs, left, k);
      }
    }
  }

  lemma OuterHasFate(b: Batch, ps: Params, failing: set<string>, outer: Results, toIndex: seq<Entry>, i: nat)
    returns (j: nat)
    requires GoodBatch(b) && i < |b.entries| && b.routes[i].To? && b.routes[i].store != IndexStore
    requires MergeInvariant(PlanOf(b).results, PlanOf(b).direct, FatesOf(b, ps, failing),
                            UpTo(|FatesOf(b, ps, failing)|), outer, toIndex)
    ensures j < |FatesOf(b, ps, failing)| && FatesOf(b, ps, failing)[j] == FateAt(b, ps, failing, i)
    ensures b.entries[i].key in outer && outer[b.entries[i].key] == FateAt(b, ps, failing, i).report
  {
    EveryEntryPlaced(b, i);
    var task := TaskAt(b, i, b.routes[i].store);
    assert task in PlanOf(b).tasks;
    j :| 0 <= j < |PlanOf(b).tasks| && PlanOf(b).tasks[j] == task;
    assert FatesOf(b, ps, failing)[j] == FateOf(ps, failing, b.env.style, task);
  }

  lemma SameKeySameEntry(entries: seq<Entry>, n: nat, i: nat)
    requires DistinctEntries(entries) && n < |entries| && i < |entries| && entries[n].key == entries[i].key
    ensures n == i
  {
    assert forall a, b :: 0 <= a < b < |entries| ==> entries[a].key != entries[b].key;
  }

  /** The backends report nothing but entries that are not routed to the index. */
  lemma OuterIsRouted(b: Batch, ps: Params, failing: set<string>, outer: Results, toIndex: seq<Entry>, i: nat)
    requires GoodBatch(b) && i < |b.entries| && b.entries[i].key in outer
    requires MergeInvariant(PlanOf(b).results, PlanOf(b).direct, FatesOf(b, ps, failing),
                            UpTo(|FatesOf(b, ps, failing)|), outer, toIndex)
    ensures b.routes[i] != To(IndexStore)
  {
    var k, fs := b.entries[i].key, FatesOf(b, ps, failing);
    var n: nat;
    if k in PlanOf(b).results {
      PlanGrounded(b);
      n :| 0 <= n < |b.entries| && b.routes[n] == Unroutable && k == b.entries[n].key;
    } else {
      var j :| 0 <= j < |fs| && j in UpTo(|fs|) && fs[j].key == k;
      n := FateNamed(b, ps, failing, j);
    }
    SameKeySameEntry(b.entries, n, i);
  }

  lemma NotInOuter(b: Batch, ps: Params, failing: set<string>, outer: Results, toIndex: seq<Entry>, i: nat)
    requires GoodBatch(b) && i < |b.entries| && b.routes[i] == To(IndexStore)
    requires MergeInvariant(PlanOf(b).results, PlanOf(b).direct, FatesOf(b, ps, failing),
                            UpTo(|FatesOf(b, ps, failing)|), outer, toIndex)
    ensures b.entries[i].key !in outer
  {
    if b.entries[i].key in outer {
      OuterIsRouted(b, ps, failing, outer, toIndex, i);
    }
  }

  /** The report of a write that goes to the index itself: an error exactly when its row was
      given up, and otherwise the row is stored. */
  lemma DirectReport(b: Batch, ps: Params, failing: set<string>, outer: Results, toIndex: seq<Entry>,
                     t0: Rows, t1: Rows, reqs: seq<WriteRequest>, left: seq<WriteRequest>, i: nat)
    requires CarriedOut(b, ps, failing, outer, toIndex, t0, t1, reqs, left)
    requires i < |b.entries| && b.routes[i] == To(IndexStore)
    ensures var k := b.entries[i].key;
            && k in Report(outer, toIndex, left)
            && (Report(outer, toIndex, left)[k].err.None? <==> forall q :: q in left ==> q.row != LeafRow(k))
            && (Report(outer, toIndex, left)[k].err.None? ==>
                LeafRow(k) in t1 && t1[LeafRow(k)] == LeafRecord(DirectAt(b, i), b.env.stamp))
  {
    EveryEntryPlaced(b, i);
    NotInOuter(b, ps, failing, outer, toIndex, i);
    MergedCanonical(b, ps, failing, outer, toIndex);
    var n :| 0 <= n < |toIndex| && toIndex[n] == DirectAt(b, i);
    ReportIsTruthful(t0, t1, toIndex, b.env.stamp, reqs, left, n);
  }

  /** If every key was routed, no backend refused any, and the index write reached the table
      in full, which it does unless the service refuses something, every key of the batch is
      reported as done, and its row is stored. */
  lemma NothingRefused(b: Batch, ps: Params, outer: Results, toIndex: seq<Entry>,
                       t0: Rows, t1: Rows, reqs: seq<WriteRequest>, i: nat)
    requires CarriedOut(b, ps, {}, outer, toIndex, t0, t1, reqs, [])
    requires i < |b.entries| && b.routes[i].To?
    ensures var k := b.entries[i].key;
            && k in Report(outer, toIndex, []) && Report(outer, toIndex, [])[k].err.None?
            && LeafRow(k) in t1
  {
    if b.routes[i] == To(IndexStore) {
      DirectReport(b, ps, {}, outer, toIndex, t0, t1, reqs, [], i);
    } else {
      ExternalReport(b, ps, {}, outer, toIndex, t0, t1, reqs, [], i);
      IndexedRow(b, ps, outer, toIndex, t0, t1, reqs, i);
    }
  }

  lemma IndexedRow(b: Batch, ps: Params, outer: Results, toIndex: seq<Entry>,
                   t0: Rows, t1: Rows, reqs: seq<WriteRequest>, i: nat)
    requires CarriedOut(b, ps, {}, outer, toIndex, t0, t1, reqs, [])
    requires i < |b.entries| && b.routes[i].To? && b.routes[i].store != IndexStore
    ensures LeafRow(b.entries[i].key) in t1
  {
    MergedCanonical(b, ps, {}, outer, toIndex);
    var j := OuterHasFate(b, ps, {}, outer, toIndex, i);
    var fs := FatesOf(b, ps, {});
    assert PassedOn(fs, UpTo(|fs|), fs[j].form);
    var n :| 0 <= n < |toIndex| && toIndex[n] == fs[j].form;
    LeafStored(t0, t1, toIndex, b.env.stamp, reqs, [], n);
  }
}
