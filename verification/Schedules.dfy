/** Two executions of one batch that differ only in the order of events end alike. */
module Schedules {
  import opened Text
  import opened Paths
  import opened Table
  import opened KeyTree
  import opened EntryStore
  import opened UpsertTree
  import opened UpsertReport
  import opened TreeRuns
  import opened Parameters
  import opened Gateway
  import opened ExternalWrites
  import opened GatewayOps
  import opened GatewayPlan

  ghost predicate SameEntries(a: seq<Entry>, b: seq<Entry>) {
    forall x :: x in a <==> x in b
  }

  // -------------------------------------- what the order of an index batch decides

  lemma NeededBySameKeys(a: seq<Entry>, b: seq<Entry>, q: string)
    requires SameEntries(a, b)
    ensures q in Needed(a) ==> q in Needed(b)
  {
    NeededExact(a, q);
    NeededExact(b, q);
    if q in Needed(a) {
      var i :| 0 <= i < |a| && HasPrefix(a[i].key, q + "/");
      assert a[i] in b;
      var j :| 0 <= j < |b| && b[j] == a[i];
    }
  }

  lemma InjectiveBySameKeys(a: seq<Entry>, b: seq<Entry>)
    requires SameEntries(a, b) && InjectiveMarkers(a)
    ensures InjectiveMarkers(b)
  {
    forall p, q | p in Needed(b) && q in Needed(b) && MarkerId(p) == MarkerId(q) ensures p == q {
      NeededBySameKeys(b, a, p);
      NeededBySameKeys(b, a, q);
    }
  }

  lemma LeafAfter(t0: Rows, t1: Rows, entries: seq<Entry>, s: Stamp, x: Entry)
    requires CanonicalEntries(entries) && DistinctEntries(entries) && Installed(t0, t1, RequestsOf(entries, s))
    requires x in entries
    ensures LeafRow(x.key) in t1 && t1[LeafRow(x.key)] == LeafRecord(x, s)
  {
    var i :| 0 <= i < |entries| && entries[i] == x;
    OnlyRequest(entries, s, i);
    assert Applied(t1, RequestsOf(entries, s)[LeafId(x.key)]);
  }

  lemma MarkerAfter(t0: Rows, t1: Rows, entries: seq<Entry>, s: Stamp, q: string)
    requires CanonicalEntries(entries) && Installed(t0, t1, RequestsOf(entries, s))
    requires q in Needed(entries) && InjectiveMarkers(entries)
    ensures MarkerRow(q) in t1 && t1[MarkerRow(q)] == MarkerRecord(s)
  {
    InjectiveChosen(entries, q, s);
    RequestForMarker(entries, s, q);
    assert Applied(t1, RequestsOf(entries, s)[MarkerId(q)]);
  }

  ghost predicate Touched(entries: seq<Entry>, r: RowKey) {
    IsKeyOf(entries, r) || exists q :: q in Needed(entries) && r == MarkerRow(q)
  }

  lemma OthersAfter(t0: Rows, t1: Rows, entries: seq<Entry>, s: Stamp, r: RowKey)
    requires CanonicalEntries(entries) && Installed(t0, t1, RequestsOf(entries, s))
    requires !Touched(entries, r)
    ensures Same(t0, t1, r)
  {
    forall id | id in RequestsOf(entries, s) ensures RequestsOf(entries, s)[id].row != r {
      RequestCases(entries, s, id);
    }
  }

  lemma TouchedBySame(a: seq<Entry>, b: seq<Entry>, r: RowKey)
    requires SameEntries(a, b) && Touched(a, r)
    ensures Touched(b, r)
  {
    if IsKeyOf(a, r) {
      var i :| 0 <= i < |a| && r == LeafRow(a[i].key);
      assert a[i] in b;
      var j :| 0 <= j < |b| && b[j] == a[i];
      assert IsKeyOf(b, r);
    } else {
      var q :| q in Needed(a) && r == MarkerRow(q);
      NeededBySameKeys(a, b, q);
    }
  }

  lemma SameRowAfter(t0: Rows, ta: Rows, tb: Rows, a: seq<Entry>, b: seq<Entry>, s: Stamp, r: RowKey)
    requires CanonicalEntries(a) && DistinctEntries(a) && Installed(t0, ta, RequestsOf(a, s))
    requires CanonicalEntries(b) && DistinctEntries(b) && Installed(t0, tb, RequestsOf(b, s))
    requires SameEntries(a, b) && InjectiveMarkers(a)
    ensures Same(ta, tb, r)
  {
    InjectiveBySameKeys(a, b);
    if !Touched(a, r) {
      if Touched(b, r) {
        TouchedBySame(b, a, r);
      }
      OthersAfter(t0, ta, a, s, r);
      OthersAfter(t0, tb, b, s, r);
    } else if IsKeyOf(a, r) {
      var i :| 0 <= i < |a| && r == LeafRow(a[i].key);
      assert a[i] in a && a[i] in b;
      LeafAfter(t0, ta, a, s, a[i]);
      LeafAfter(t0, tb, b, s, a[i]);
    } else {
      var q :| q in Needed(a) && r == MarkerRow(q);
      NeededBySameKeys(a, b, q);
      MarkerAfter(t0, ta, a, s, q);
      MarkerAfter(t0, tb, b, s, q);
    }
  }

  /** The table after an index batch without colliding markers does not depend on the order
      in which its entries arrived. */
  lemma IndexOrderIrrelevant(t0: Rows, ta: Rows, tb: Rows, a: seq<Entry>, b: seq<Entry>, s: Stamp)
    requires CanonicalEntries(a) && DistinctEntries(a) && Installed(t0, ta, RequestsOf(a, s))
    requires CanonicalEntries(b) && DistinctEntries(b) && Installed(t0, tb, RequestsOf(b, s))
    requires SameEntries(a, b) && InjectiveMarkers(a)
    ensures ta == tb
  {
    forall r ensures Same(ta, tb, r) {
      SameRowAfter(t0, ta, tb, a, b, s, r);
    }
    SameEverywhere(ta, tb);
  }

  // ------------------------------------------------ what the order of sends decides

  lemma MergedSame(r0: Results, direct: seq<Entry>, fs: seq<Fate>, ra: Results, a: seq<Entry>,
                   rb: Results, b: seq<Entry>)
    requires MergeInvariant(r0, direct, fs, UpTo(|fs|), ra, a)
    requires MergeInvariant(r0, direct, fs, UpTo(|fs|), rb, b)
    ensures ra == rb && SameEntries(a, b)
  {
    ReportsSame(r0, direct, fs, ra, a, rb, b);
    ReportsSame(r0, direct, fs, rb, b, ra, a);
  }

  lemma ReportsSame(r0: Results, direct: seq<Entry>, fs: seq<Fate>, ra: Results, a: seq<Entry>,
                    rb: Results, b: seq<Entry>)
    requires MergeInvariant(r0, direct, fs, UpTo(|fs|), ra, a)
    requires MergeInvariant(r0, direct, fs, UpTo(|fs|), rb, b)
    ensures forall k :: k in ra ==> k in rb && ra[k] == rb[k]
  {
    forall k | k in ra ensures k in rb && ra[k] == rb[k] {
      if k !in r0 {
        var i :| 0 <= i < |fs| && i in UpTo(|fs|) && fs[i].key == k;
      }
    }
  }

  lemma ReportedBySame(a: seq<Entry>, b: seq<Entry>)
    requires CanonicalEntries(a) && DistinctEntries(a) && CanonicalEntries(b) && DistinctEntries(b)
    requires SameEntries(a, b)
    ensures Optimistic(a) == Optimistic(b)
  {
    OptimisticWithin(a, b);
    OptimisticWithin(b, a);
  }

  lemma OptimisticWithin(a: seq<Entry>, b: seq<Entry>)
    requires CanonicalEntries(a) && DistinctEntries(a) && CanonicalEntries(b) && DistinctEntries(b)
    requires SameEntries(a, b)
    ensures forall k :: k in Optimistic(a) ==> k in Optimistic(b) && Optimistic(a)[k] == Optimistic(b)[k]
  {
    forall k | k in Optimistic(a) ensures k in Optimistic(b) && Optimistic(a)[k] == Optimistic(b)[k] {
      var i := OptimisticOrigin(a, k);
      OptimisticAt(a, i);
      assert a[i] in b;
      var j :| 0 <= j < |b| && b[j] == a[i];
      OptimisticAt(b, j);
    }
  }

  lemma OptimisticOrigin(a: seq<Entry>, k: string) returns (i: nat)
    requires CanonicalEntries(a) && k in Optimistic(a)
    ensures i < |a| && a[i].key == k
  {
    i := ReportsOrigin(SanitizedKeys(a), a, k);
    SanitizeCanonical(a[i].key);
  }

  lemma {:induction false} ReportsOrigin(keys: seq<string>, a: seq<Entry>, k: string) returns (i: nat)
    requires |keys| == |a| && k in Reports(keys, a)
    ensures i < |a| && keys[i] == k
  {
    var n := |a| - 1;
    if keys[n] == k {
      i := n;
    } else {
      i := ReportsOrigin(keys[..n], a[..n], k);
    }
  }

  lemma DirectKeyKnown(b: Batch, x: Entry) returns (i: nat)
    requires GoodBatch(b) && x in PlanOf(b).direct
    ensures i < |b.entries| && x.key == b.entries[i].key && b.routes[i] == To(IndexStore)
  {
    PlanGrounded(b);
    assert DirectFrom(b, x);
    i :| 0 <= i < |b.entries| && b.routes[i] == To(IndexStore) && x == DirectAt(b, i);
  }

  lemma FateFormKey(ps: Params, failing: set<string>, style: ArnStyle, task: Task)
    ensures FateOf(ps, failing, style, task).form.key == FateOf(ps, failing, style, task).key
  {
  }

  lemma PassedKeyKnown(b: Batch, ps: Params, failing: set<string>, x: Entry) returns (i: nat)
    requires GoodBatch(b)
    requires PassedOn(FatesOf(b, ps, failing), UpTo(|FatesOf(b, ps, failing)|), x)
    ensures i < |b.entries| && x.key == b.entries[i].key
  {
    var fs := FatesOf(b, ps, failing);
    var j :| 0 <= j < |fs| && j in UpTo(|fs|) && !fs[j].fails && x == fs[j].form;
    FateFormKey(ps, failing, b.env.style, PlanOf(b).tasks[j]);
    i := FateNamed(b, ps, failing, j);
  }

  /** What goes to the index bears the key of an entry of the batch. */
  lemma IndexedKeyKnown(b: Batch, ps: Params, failing: set<string>, x: Entry) returns (i: nat)
    requires GoodBatch(b)
    requires x in PlanOf(b).direct || PassedOn(FatesOf(b, ps, failing), UpTo(|FatesOf(b, ps, failing)|), x)
    ensures i < |b.entries| && x.key == b.entries[i].key
  {
    if x in PlanOf(b).direct {
      i := DirectKeyKnown(b, x);
    } else {
      i := PassedKeyKnown(b, ps, failing, x);
    }
  }

  lemma MergedCanonical(b: Batch, ps: Params, failing: set<string>, r: Results, toIndex: seq<Entry>)
    requires GoodBatch(b)
    requires MergeInvariant(PlanOf(b).results, PlanOf(b).direct, FatesOf(b, ps, failing),
                            UpTo(|FatesOf(b, ps, failing)|), r, toIndex)
    ensures CanonicalEntries(toIndex) && DistinctEntries(toIndex)
  {
    forall n | 0 <= n < |toIndex| ensures Canonical(toIndex[n].key) {
      assert toIndex[n] in toIndex;
      var i := IndexedKeyKnown(b, ps, failing, toIndex[n]);
    }
  }

  /** A batch of distinct canonical keys whose markers do not collide: given the same routes
      and the same keys refused, any two executions with a complete index write report the
      same and leave the same index, whatever the order of sends, merges and arrivals. */
  lemma ScheduleIndependence(b: Batch, ps: Params, failing: set<string>, t0: Rows,
                             ra: Results, xa: seq<Entry>, ta: Rows, rb: Results, xb: seq<Entry>, tb: Rows)
    requires GoodBatch(b)
    requires MergeInvariant(PlanOf(b).results, PlanOf(b).direct, FatesOf(b, ps, failing),
                            UpTo(|FatesOf(b, ps, failing)|), ra, xa)
    requires MergeInvariant(PlanOf(b).results, PlanOf(b).direct, FatesOf(b, ps, failing),
                            UpTo(|FatesOf(b, ps, failing)|), rb, xb)
    requires Installed(t0, ta, RequestsOf(xa, b.env.stamp)) && Installed(t0, tb, RequestsOf(xb, b.env.stamp))
    requires InjectiveMarkers(xa)
    ensures ta == tb
    ensures MergeIndex(ra, Optimistic(xa)) == MergeIndex(rb, Optimistic(xb))
  {
    MergedSame(PlanOf(b).results, PlanOf(b).direct, FatesOf(b, ps, failing), ra, xa, rb, xb);
    MergedCanonical(b, ps, failing, ra, xa);
    MergedCanonical(b, ps, failing, rb, xb);
    ReportedBySame(xa, xb);
    IndexOrderIrrelevant(t0, ta, tb, xa, xb, b.env.stamp);
  }
}
