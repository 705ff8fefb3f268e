/** What a batch write reports to its caller, against what reached the table. */
module UpsertReport {
  import opened Paths
  import opened Table
  import opened KeyTree
  import opened FirstWins
  import opened EntryStore
  import opened UpsertTree

  predicate DistinctEntries(entries: seq<Entry>) {
    forall i, j :: 0 <= i < j < |entries| ==> entries[i].key != entries[j].key
  }

  lemma {:induction false} FailKeysAt(results: Results, keys: seq<string>, k: string)
    ensures k in FailKeys(results, keys) <==> k in results || k in keys
    ensures k in keys ==> FailKeys(results, keys)[k] == ReportFailed(k)
    ensures k !in keys && k in results ==> FailKeys(results, keys)[k] == results[k]
  {
    if keys == [] {
    } else {
      var front, last := keys[..|keys| - 1], keys[|keys| - 1];
      FailKeysAt(results, front, k);
      assert k in keys <==> k in front || k == last;
    }
  }

  lemma {:induction false} ReportsAt(keys: seq<string>, entries: seq<Entry>, i: nat)
    requires |keys| == |entries| && i < |keys|
    requires forall a, b :: 0 <= a < b < |keys| ==> keys[a] != keys[b]
    ensures keys[i] in Reports(keys, entries) && Reports(keys, entries)[keys[i]] == ReportUpdated(keys[i], entries[i])
  {
    var n := |keys| - 1;
    if i < n {
      ReportsAt(keys[..n], entries[..n], i);
    }
  }

  lemma OptimisticAt(entries: seq<Entry>, i: nat)
    requires CanonicalEntries(entries) && DistinctEntries(entries) && i < |entries|
    ensures var k := entries[i].key;
            k in Optimistic(entries) && Optimistic(entries)[k] == ReportUpdated(k, entries[i])
  {
    var keys := SanitizedKeys(entries);
    forall a | 0 <= a < |keys| ensures keys[a] == entries[a].key {
      SanitizeCanonical(entries[a].key);
    }
    ReportsAt(keys, entries, i);
  }

  /** A request of the batch bears the name of key k only if it is k's leaf. */
  lemma RequestNamed(entries: seq<Entry>, s: Stamp, id: string, k: string)
    requires CanonicalEntries(entries) && id in RequestsOf(entries, s) && Canonical(k)
    ensures FullKey(RequestsOf(entries, s)[id].row) == k <==> RequestsOf(entries, s)[id].row == LeafRow(k)
  {
    var r := RequestsOf(entries, s)[id].row;
    RequestCases(entries, s, id);
    RowOfKey(k);
    CanonicalShape(k);
    if IsKeyOf(entries, r) {
      var i :| 0 <= i < |entries| && r == LeafRow(entries[i].key);
      RowOfKey(entries[i].key);
    } else {
      var q :| q in Needed(entries) && Chosen(entries, q, s) && r == MarkerRow(q);
      NeededIsCanonical(entries, q);
      RowOfKey(q);
      assert (q + "/")[|q|] == '/';
    }
  }

  lemma LeftoverNamed(entries: seq<Entry>, s: Stamp, reqs: seq<WriteRequest>, left: seq<WriteRequest>, k: string)
    requires CanonicalEntries(entries) && Canonical(k)
    requires Enumerates(reqs, RequestsOf(entries, s)) && Within(left, reqs)
    ensures k in NamesOf(left) <==> exists q :: q in left && q.row == LeafRow(k)
  {
    forall q | q in left ensures FullKey(q.row) == k <==> q.row == LeafRow(k) {
      assert q in reqs;
      var id :| id in RequestsOf(entries, s) && RequestsOf(entries, s)[id] == q;
      RequestNamed(entries, s, id, k);
    }
    if k in NamesOf(left) {
      var i :| 0 <= i < |left| && NamesOf(left)[i] == k;
      assert left[i] in left;
    }
    if exists q :: q in left && q.row == LeafRow(k) {
      var q :| q in left && q.row == LeafRow(k);
      var i :| 0 <= i < |left| && left[i] == q;
      assert NamesOf(left)[i] == k;
    }
  }

  /** For distinct canonical keys the report is truthful, whatever the service did: a key is
      reported updated exactly when its row was acknowledged, and then the row is stored. */
  lemma ReportIsTruthful(t0: Rows, t1: Rows, entries: seq<Entry>, s: Stamp,
                         reqs: seq<WriteRequest>, left: seq<WriteRequest>, i: nat)
    requires CanonicalEntries(entries) && DistinctEntries(entries) && i < |entries|
    requires Enumerates(reqs, RequestsOf(entries, s)) && Within(left, reqs)
    requires Written(t0, t1, reqs, left)
    ensures var k := entries[i].key;
            var report := MarkFailed(Optimistic(entries), left);
            && k in report
            && (report[k].err.None? <==> forall q :: q in left ==> q.row != LeafRow(k))
            && (report[k].err.None? ==> report[k] == ReportUpdated(k, entries[i]))
            && (report[k].err.None? ==> LeafRow(k) in t1 && t1[LeafRow(k)] == LeafRecord(entries[i], s))
  {
    var k := entries[i].key;
    OptimisticAt(entries, i);
    FailKeysAt(Optimistic(entries), NamesOf(left), k);
    LeftoverNamed(entries, s, reqs, left, k);
    LeafStored(t0, t1, entries, s, reqs, left, i);
  }

  lemma LeafStored(t0: Rows, t1: Rows, entries: seq<Entry>, s: Stamp,
                   reqs: seq<WriteRequest>, left: seq<WriteRequest>, i: nat)
    requires CanonicalEntries(entries) && DistinctEntries(entries) && i < |entries|
    requires Enumerates(reqs, RequestsOf(entries, s)) && Written(t0, t1, reqs, left)
    ensures var k := entries[i].key;
            (forall q :: q in left ==> q.row != LeafRow(k)) ==>
              LeafRow(k) in t1 && t1[LeafRow(k)] == LeafRecord(entries[i], s)
  {
    LeafRequested(entries, s, reqs, i);
    AppliedUnlessLeft(t0, t1, reqs, left, Put(LeafRow(entries[i].key), LeafRecord(entries[i], s)));
  }

  /** With distinct keys, the request under a key's identifier carries its only entry. */
  lemma OnlyRequest(entries: seq<Entry>, s: Stamp, i: nat)
    requires CanonicalEntries(entries) && DistinctEntries(entries) && i < |entries|
    ensures var k := entries[i].key;
            LeafId(k) in RequestsOf(entries, s) &&
            RequestsOf(entries, s)[LeafId(k)] == Put(LeafRow(k), LeafRecord(entries[i], s))
  {
    var j := RequestForKey(entries, s, i);
    assert j == i;
  }

  lemma LeafRequested(entries: seq<Entry>, s: Stamp, reqs: seq<WriteRequest>, i: nat)
    requires CanonicalEntries(entries) && DistinctEntries(entries) && i < |entries|
    requires Enumerates(reqs, RequestsOf(entries, s))
    ensures Put(LeafRow(entries[i].key), LeafRecord(entries[i], s)) in reqs
  {
    OnlyRequest(entries, s, i);
    ListedRequest(RequestsOf(entries, s), reqs, LeafId(entries[i].key));
  }

  lemma ListedRequest(m: Requests, reqs: seq<WriteRequest>, id: string)
    requires Enumerates(reqs, m) && id in m
    ensures m[id] in reqs
  {
  }

  /** A request took effect if nothing for its row is left, and otherwise it took effect or
      changed nothing. */
  lemma AppliedUnlessLeft(t0: Rows, t1: Rows, reqs: seq<WriteRequest>, left: seq<WriteRequest>, q: WriteRequest)
    requires Written(t0, t1, reqs, left) && q in reqs
    ensures (forall l :: l in left ==> l.row != q.row) ==> Applied(t1, q)
    ensures Applied(t1, q) || Same(t0, t1, q.row)
  {
  }
}
