/** Reading entries: one key, many keys at once, and every leaf below a prefix. */
module EntryReads {
  import opened Seqs
  import opened Text
  import opened Paths
  import opened Options
  import opened Table
  import opened TableKit
  import opened KeyTree
  import opened EntryStore

  function EntryOf(it: Item): Entry {
    Entry(FullKey(it.row), it.record.value, it.record.metadata.secure, it.record.metadata)
  }

  function Lookup(t: Rows, key: string): Option<Entry> {
    var r := LeafRow(key);
    if r in t then Some(EntryOf(Item(r, t[r]))) else None
  }

  method Retrieve(svc: TableService, key: string) returns (found: Option<Entry>, ok: bool)
    modifies svc`refused
    ensures ok ==> found == Lookup(svc.rows, key)
    ensures svc.refused == old(svc.refused) + if ok then 0 else 1
  {
    var r := LeafRow(key);
    var record;
    record, ok := svc.GetItem(r);
    found := if ok && record.Some? then Some(EntryOf(Item(r, record.value))) else None;
  }

  // ----------------------------------------------------------------- RetrieveMany

  predicate CanonicalKeys(keys: seq<string>) {
    forall i :: 0 <= i < |keys| ==> Canonical(keys[i])
  }

  function RowsOfKeys(keys: seq<string>): (rows: seq<RowKey>)
    ensures |rows| == |keys|
    ensures forall i :: 0 <= i < |keys| ==> rows[i] == LeafRow(keys[i])
  {
    seq(|keys|, i requires 0 <= i < |keys| => LeafRow(keys[i]))
  }

  predicate DistinctKeys(keys: seq<string>) {
    forall i, j :: 0 <= i < j < |keys| ==> keys[i] != keys[j]
  }

  lemma DistinctKeysDistinctRows(keys: seq<string>)
    requires CanonicalKeys(keys) && DistinctKeys(keys)
    ensures NoRepeats(RowsOfKeys(keys))
  {
    forall i, j | 0 <= i < j < |keys| ensures RowsOfKeys(keys)[i] != RowsOfKeys(keys)[j] {
      if LeafRow(keys[i]) == LeafRow(keys[j]) {
        SplitInjective(keys[i], keys[j]);
      }
    }
  }

  /** The keys without repetitions, in order of first appearance. */
  method Deduplicate(keys: seq<string>) returns (unique: seq<string>)
    ensures DistinctKeys(unique)
    ensures forall k :: k in unique <==> k in keys
  {
    var seen: set<string> := {};
    unique := [];
    for i := 0 to |keys|
      invariant DistinctKeys(unique)
      invariant forall k :: k in unique <==> k in keys[..i]
      invariant forall k :: k in seen <==> k in unique
    {
      TakeOneMore(keys, i);
      if keys[i] !in seen {
        seen := seen + {keys[i]};
        unique := unique + [keys[i]];
      }
    }
    assert keys[..|keys|] == keys;
  }

  /** The found entries by their reconstructed key. */
  ghost predicate IndexedBy(found: map<string, Entry>, items: seq<Item>) {
    && (forall it :: it in items ==> FullKey(it.row) in found)
    && (forall k :: k in found ==> exists it :: it in items && FullKey(it.row) == k && found[k] == EntryOf(it))
  }

  method IndexItems(items: seq<Item>) returns (found: map<string, Entry>)
    ensures IndexedBy(found, items)
  {
    found := map[];
    for i := 0 to |items|
      invariant IndexedBy(found, items[..i])
    {
      TakeOneMore(items, i);
      found := found[FullKey(items[i].row) := EntryOf(items[i])];
    }
    assert items[..|items|] == items;
  }

  /** The answer that asking for each key on its own would give. */
  ghost predicate Pointwise(t: Rows, keys: seq<string>, found: map<string, Entry>) {
    forall k :: k in found <==> k in keys && Lookup(t, k).Some?
  }

  ghost predicate PointwiseValues(t: Rows, found: map<string, Entry>) {
    forall k :: k in found ==> Lookup(t, k) == Some(found[k])
  }

  /** An item that was read for some key is what a lookup of that key gives. */
  lemma ItemIsLookup(t: Rows, unique: seq<string>, items: seq<Item>, it: Item)
    requires CanonicalKeys(unique) && ReadFrom(t, RowsOfKeys(unique), [], items) && it in items
    ensures FullKey(it.row) in unique && Lookup(t, FullKey(it.row)) == Some(EntryOf(it))
  {
    var i :| 0 <= i < |unique| && RowsOfKeys(unique)[i] == it.row;
    RowOfKey(unique[i]);
  }

  lemma StoredIsRead(t: Rows, unique: seq<string>, items: seq<Item>, k: string)
    requires CanonicalKeys(unique) && ReadFrom(t, RowsOfKeys(unique), [], items)
    requires k in unique && LeafRow(k) in t
    ensures Item(LeafRow(k), t[LeafRow(k)]) in items && FullKey(LeafRow(k)) == k
  {
    var i :| 0 <= i < |unique| && unique[i] == k;
    assert RowsOfKeys(unique)[i] == LeafRow(k);
    RowOfKey(k);
  }

  lemma ItemsArePointwise(t: Rows, keys: seq<string>, unique: seq<string>, items: seq<Item>, found: map<string, Entry>)
    requires CanonicalKeys(unique)
    requires forall k :: k in unique <==> k in keys
    requires ReadFrom(t, RowsOfKeys(unique), [], items)
    requires IndexedBy(found, items)
    ensures Pointwise(t, keys, found) && PointwiseValues(t, found)
  {
    forall k | k in found ensures k in keys && Lookup(t, k) == Some(found[k]) {
      var it :| it in items && FullKey(it.row) == k && found[k] == EntryOf(it);
      ItemIsLookup(t, unique, items, it);
    }
    forall k | k in keys && Lookup(t, k).Some? ensures k in found {
      StoredIsRead(t, unique, items, k);
    }
  }

  lemma CanonicalMember(keys: seq<string>, k: string)
    requires CanonicalKeys(keys) && k in keys
    ensures Canonical(k)
  {
    var i :| 0 <= i < |keys| && keys[i] == k;
  }

  /** On canonical keys a successful batched read is the same as one read per key, and it
      never asks the service for a row twice or for too many rows in one call. */
  method RetrieveMany(svc: TableService, keys: seq<string>) returns (found: map<string, Entry>, ok: bool)
    modifies svc`getCalls, svc`refused
    ensures svc.refused >= old(svc.refused) && (!ok ==> svc.refused > old(svc.refused))
    ensures ok && CanonicalKeys(keys) ==> Pointwise(svc.rows, keys, found) && PointwiseValues(svc.rows, found)
    ensures CallsWithin(old(svc.getCalls), svc.getCalls, MAX_KEYS)
    ensures CanonicalKeys(keys) ==>
              forall i :: |old(svc.getCalls)| <= i < |svc.getCalls| ==> NoRepeats(svc.getCalls[i].asked)
  {
    var unique := Deduplicate(keys);
    var items;
    items, ok := BatchGet(svc, RowsOfKeys(unique));
    if CanonicalKeys(keys) {
      forall i | 0 <= i < |unique| ensures Canonical(unique[i]) {
        CanonicalMember(keys, unique[i]);
      }
      DistinctKeysDistinctRows(unique);
    }
    if !ok {
      return map[], false;
    }
    found := IndexItems(items);
    if CanonicalKeys(keys) {
      ItemsArePointwise(svc.rows, keys, unique, items, found);
    }
  }

  // ------------------------------------------------------------------- listLeaves

  /** What a listing of leaves leaves out: markers, lock entries and blank values. */
  predicate Listed(it: Item) {
    && !IsMarker(it.row)
    && !HasPrefix(it.row.key, LOCK_PREFIX)
    && TrimSpace(it.record.value) != ""
  }

  predicate InScope(pfx: string, path: string) {
    pfx == "" || path == pfx || HasPrefix(path, pfx + "/")
  }

  /** The rows that a listing of the folder keeps. */
  function Kept(t: Rows, pfx: string): set<RowKey> {
    set r | r in t && Listed(Item(r, t[r])) && InScope(pfx, r.path)
  }

  /** The entries of the kept rows, in the order of rows. */
  function Leaves(t: Rows, kept: set<RowKey>, rows: seq<RowKey>): seq<Entry>
    requires kept <= t.Keys
  {
    if rows == [] then []
    else
      var front, r := Leaves(t, kept, rows[..|rows| - 1]), rows[|rows| - 1];
      if r in kept then front + [EntryOf(Item(r, t[r]))] else front
  }

  lemma {:induction false} LeavesMembers(t: Rows, kept: set<RowKey>, rows: seq<RowKey>, e: Entry)
    requires kept <= t.Keys
    ensures e in Leaves(t, kept, rows) <==> exists r :: r in rows && r in kept && e == EntryOf(Item(r, t[r]))
  {
    if rows == [] {
    } else {
      var front, last := rows[..|rows| - 1], rows[|rows| - 1];
      LeavesMembers(t, kept, front, e);
      assert forall r :: r in rows <==> r in front || r == last;
    }
  }

  /** entries are those of the kept rows, one for each, in some order. */
  ghost predicate EntriesOf(t: Rows, kept: set<RowKey>, entries: seq<Entry>)
    requires kept <= t.Keys
  {
    && |entries| == |kept|
    && forall e :: e in entries <==> exists r :: r in kept && e == EntryOf(Item(r, t[r]))
  }

  lemma {:induction false} LeavesCount(t: Rows, kept: set<RowKey>, rows: seq<RowKey>)
    requires kept <= t.Keys && NoRepeats(rows)
    ensures |Leaves(t, kept, rows)| == |set r | r in rows && r in kept|
  {
    if rows == [] {
    } else {
      var front, last := rows[..|rows| - 1], rows[|rows| - 1];
      LeavesCount(t, kept, front);
      MembersNext(kept, front, last);
      assert rows == front + [last];
    }
  }

  lemma MembersNext(kept: set<RowKey>, front: seq<RowKey>, last: RowKey)
    requires last !in front
    ensures (set r | r in front + [last] && r in kept) ==
            (set r | r in front && r in kept) + if last in kept then {last} else {}
    ensures last !in (set r | r in front && r in kept)
  {
  }

  lemma LeavesAreEntries(t: Rows, kept: set<RowKey>, rows: seq<RowKey>)
    requires kept <= t.Keys && NoRepeats(rows) && forall r :: r in kept ==> r in rows
    ensures EntriesOf(t, kept, Leaves(t, kept, rows))
  {
    LeavesCount(t, kept, rows);
    assert (set r | r in rows && r in kept) == kept;
    forall e ensures e in Leaves(t, kept, rows) <==> exists r :: r in kept && e == EntryOf(Item(r, t[r])) {
      LeavesMembers(t, kept, rows, e);
    }
  }

  /** One scan of the table, filtered; rows is the order in which the scan met the rows. */
  method ListLeaves(svc: TableService, prefix: string)
    returns (leaves: seq<Entry>, ok: bool, ghost rows: seq<RowKey>)
    modifies svc`refused
    ensures svc.refused == old(svc.refused) + if ok then 0 else 1
    ensures ok ==> EntriesOf(svc.rows, Kept(svc.rows, TrimSlashes(TrimSpace(prefix))), leaves)
    ensures ok ==> NoRepeats(rows) && forall r :: r in rows <==> r in svc.rows
    ensures ok ==>
              leaves == Leaves(svc.rows, Kept(svc.rows, TrimSlashes(TrimSpace(prefix))), rows)
  {
    var pages;
    pages, ok := svc.Scan();
    var all := Flatten(pages);
    rows := all;
    leaves := FilterLeaves(svc, TrimSlashes(TrimSpace(prefix)), all);
    if ok {
      LeavesAreEntries(svc.rows, Kept(svc.rows, TrimSlashes(TrimSpace(prefix))), rows);
    }
  }

  lemma LeavesNext(t: Rows, kept: set<RowKey>, rows: seq<RowKey>, i: nat)
    requires kept <= t.Keys && i < |rows|
    ensures Leaves(t, kept, rows[..i + 1]) ==
            Leaves(t, kept, rows[..i]) + if rows[i] in kept then [EntryOf(Item(rows[i], t[rows[i]]))] else []
  {
    Front(rows, i);
  }

  method FilterLeaves(svc: TableService, pfx: string, all: seq<RowKey>) returns (leaves: seq<Entry>)
    requires forall r :: r in all ==> r in svc.rows
    ensures leaves == Leaves(svc.rows, Kept(svc.rows, pfx), all)
  {
    leaves := [];
    for i := 0 to |all|
      invariant leaves == Leaves(svc.rows, Kept(svc.rows, pfx), all[..i])
    {
      LeavesNext(svc.rows, Kept(svc.rows, pfx), all, i);
      var r := all[i];
      if Listed(Item(r, svc.rows[r])) && InScope(pfx, r.path) {
        leaves := leaves + [EntryOf(Item(r, svc.rows[r]))];
      }
    }
    assert all[..|all|] == all;
  }

  /** On a closed table of canonical rows, the scan for folder k lists exactly the leaves
      that the marker walk from k visits, and these are the stored leaves whose key starts
      with k and a slash, which is how subscriptions are filtered. */
  lemma ScanIsWalkIsFilter(t: Rows, k: string, r: RowKey)
    requires CanonicalRows(t) && AncestorClosed(t) && Canonical(k) && r in t
    ensures InScope(k, r.path) <==> Reachable(t, k, r.path)
    ensures InScope(k, r.path) && !IsMarker(r) <==> HasPrefix(FullKey(r), k + "/") && !IsMarker(r)
  {
    WalkVisitsSubtree(t, k, r);
    CanonicalShape(k);
    UnderFolderByKey(k, r);
    RowDeterminedByName(r);
    RowName(r);
    if !IsMarker(r) {
      RowOfKey(Name(r));
    }
  }

  lemma ListedLeaves(t: Rows, k: string, rows: seq<RowKey>, e: Entry)
    requires CanonicalRows(t) && AncestorClosed(t) && Canonical(k)
    requires forall r :: r in rows <==> r in t
    ensures e in Leaves(t, Kept(t, k), rows) <==>
            exists r :: r in t && Listed(Item(r, t[r])) && Reachable(t, k, r.path) && e == EntryOf(Item(r, t[r]))
    ensures e in Leaves(t, Kept(t, k), rows) <==>
            exists r :: r in t && Listed(Item(r, t[r])) && HasPrefix(e.key, k + "/") && e == EntryOf(Item(r, t[r]))
  {
    var kept := Kept(t, k);
    LeavesMembers(t, kept, rows, e);
    forall r | r in t
      ensures r in kept <==> Listed(Item(r, t[r])) && Reachable(t, k, r.path)
      ensures r in kept <==> Listed(Item(r, t[r])) && HasPrefix(FullKey(r), k + "/")
    {
      KeptRow(t, k, r);
    }
  }

  lemma KeptRow(t: Rows, k: string, r: RowKey)
    requires CanonicalRows(t) && AncestorClosed(t) && Canonical(k) && r in t
    ensures r in Kept(t, k) <==> Listed(Item(r, t[r])) && Reachable(t, k, r.path)
    ensures r in Kept(t, k) <==> Listed(Item(r, t[r])) && HasPrefix(FullKey(r), k + "/")
  {
    CanonicalShape(k);
    ScanIsWalkIsFilter(t, k, r);
    KeptByName(t, k, r);
  }

  /** What a listing keeps is decided by the keys, whatever markers there are. */
  lemma KeptByName(t: Rows, k: string, r: RowKey)
    requires CanonicalRows(t) && Canonical(k) && r in t
    ensures r in Kept(t, k) <==> Listed(Item(r, t[r])) && HasPrefix(FullKey(r), k + "/")
  {
    CanonicalShape(k);
    UnderFolderByKey(k, r);
    RowDeterminedByName(r);
    RowName(r);
    if !IsMarker(r) {
      RowOfKey(Name(r));
    }
  }
}
