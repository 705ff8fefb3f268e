/** What deleting a key means on tables that are trees, and what it preserves. */
module Subtree {
  import opened Text
  import opened Paths
  import opened Table
  import opened KeyTree
  import opened SubtreeDelete

  /** The table without the row of k and without the rows stored under k. */
  function Pruned(t: Rows, k: string): Rows {
    map r | r in t && r != LeafRow(k) && !InSubtree(k, r.path) :: t[r]
  }

  lemma StartOfCanonical(k: string)
    requires Canonical(k)
    ensures StartDir(k) == k
  {
    CanonicalShape(k);
    TrimSlash(k);
  }

  lemma WithoutRootMarked(t: Rows, k: string, p: string)
    requires Canonical(k) && p != EMPTY_PATH && CanonicalDir(p)
    ensures MarkedDown(t - {LeafRow(k)}, k, p) <==> MarkedDown(t, k, p)
  {
    var t1 := t - {LeafRow(k)};
    RowOfKey(k);
    forall q ensures MarkerRow(q) in t1 <==> MarkerRow(q) in t {
      var m := MarkerRow(q);
      assert m.key[|m.key| - 1..] == "/";
    }
  }

  lemma DoomedMeans(t: Rows, k: string, r: RowKey)
    requires CanonicalRows(t) && Canonical(k) && r in t
    ensures Doomed(t, k, r) <==> r == LeafRow(k) || (InSubtree(k, r.path) && MarkedDown(t, k, r.path))
  {
    var t1 := t - {LeafRow(k)};
    StartOfCanonical(k);
    if InSubtree(k, r.path) {
      SubtreeNotEmptyPath(k, r.path);
      WithoutRootMarked(t, k, r.path);
      if MarkedDown(t1, k, r.path) {
        MarkedIsReachable(t1, k, r.path);
      }
    }
    if Reachable(t1, k, r.path) {
      ReachableIsMarked(t1, k, r.path);
    }
  }

  /** A delete that reports success removes exactly the key and its subtree if and only if
      the table has, for each row under the key, the markers between the key and the row. */
  lemma DeleteIsExact(t: Rows, k: string)
    requires CanonicalRows(t) && Canonical(k)
    ensures Survivors(t, k) == Pruned(t, k) <==>
            forall r :: r in t && r != LeafRow(k) && InSubtree(k, r.path) ==> MarkedDown(t, k, r.path)
  {
    forall r | r in t
      ensures Doomed(t, k, r) <==> r == LeafRow(k) || (InSubtree(k, r.path) && MarkedDown(t, k, r.path))
    {
      DoomedMeans(t, k, r);
    }
    if Survivors(t, k) == Pruned(t, k) {
      forall r | r in t && r != LeafRow(k) && InSubtree(k, r.path) ensures MarkedDown(t, k, r.path) {
        assert r !in Pruned(t, k);
        assert r !in Survivors(t, k);
      }
    }
  }

  /** In a closed table that condition always holds. */
  lemma DeleteFromClosed(t: Rows, k: string)
    requires CanonicalRows(t) && AncestorClosed(t) && Canonical(k)
    ensures Survivors(t, k) == Pruned(t, k)
  {
    DeleteIsExact(t, k);
    forall r | r in t && InSubtree(k, r.path) ensures MarkedDown(t, k, r.path) {
      SubtreeNotEmptyPath(k, r.path);
      ClosedIsMarked(t, k, r);
    }
  }

  /** Seen from the keys: k and the keys under k/ are gone; every other key and marker
      stays, k's own marker and siblings that merely share its spelling included. */
  lemma PrunedByKey(t: Rows, k: string, other: string)
    requires Canonical(k) && Canonical(other)
    ensures LeafRow(other) in Pruned(t, k) <==>
              LeafRow(other) in t && other != k && !HasPrefix(other, k + "/")
    ensures MarkerRow(other) in Pruned(t, k) <==>
              MarkerRow(other) in t && !HasPrefix(other, k + "/")
  {
    RowOfKey(other);
    RowOfKey(k);
    UnderFolderByKey(k, LeafRow(other));
    UnderFolderByKey(k, MarkerRow(other));
    if LeafRow(other) == LeafRow(k) {
      SplitInjective(other, k);
    }
  }

  /** On any table: a delete of k takes the keys k and those below k/ that its markers lead
      to, and no other key. */
  lemma ErasedLeaf(t: Rows, k: string, other: string)
    requires CanonicalRows(t) && Canonical(k) && Canonical(other) && LeafRow(other) in t
    ensures LeafRow(other) in Survivors(t, k) <==>
            other != k && !(HasPrefix(other, k + "/") && MarkedDown(t, k, LeafRow(other).path))
  {
    DoomedMeans(t, k, LeafRow(other));
    RowOfKey(other);
    RowOfKey(k);
    UnderFolderByKey(k, LeafRow(other));
  }

  lemma PrunedKeepsTree(t: Rows, k: string)
    requires CanonicalRows(t) && AncestorClosed(t) && Canonical(k)
    ensures CanonicalRows(Pruned(t, k)) && AncestorClosed(Pruned(t, k))
  {
    var t1 := Pruned(t, k);
    ClosedByParents(t);
    forall r | r in t1 && r.path != EMPTY_PATH ensures MarkerRow(r.path) in t1 {
      assert CanonicalRow(r);
      RowOfKey(r.path);
      PrunedByKey(t, k, r.path);
    }
    ClosedByParents(t1);
  }

  // ------------------------------------------------------ keys with a slash at the end

  lemma FolderRow(k: string)
    requires Canonical(k)
    ensures PathWithoutKey(k + "/") == k && BaseKey(k + "/") == BaseKey(k) && StartDir(k + "/") == k
  {
    var f := k + "/";
    CanonicalShape(k);
    TrimSlash(k);
    FolderDir(k, f);
    FolderBase(k, f);
  }

  lemma FolderDir(k: string, f: string)
    requires Canonical(k) && f == k + "/"
    ensures PathWithoutKey(f) == k
  {
    LastSlashUnique(k, "");
    assert k + "/" + "" == f;
    CleanTrailingSlash(k);
    assert f[|k|] == '/' && f[..|k| + 1] == f;
  }

  lemma FolderBase(k: string, f: string)
    requires Canonical(k) && f == k + "/"
    ensures BaseKey(f) == BaseKey(k)
  {
    CanonicalShape(k);
    LastKeptIs(f, Slashes, |f|, |k|);
    LastKeptIs(k, Slashes, |k|, |k|);
    assert TrimRight(f, Slashes) == k && TrimRight(k, Slashes) == k;
  }

  lemma SameMarkers(t: Rows, r: RowKey, k: string, p: string)
    requires !IsMarker(r)
    ensures MarkedDown(t - {r}, k, p) <==> MarkedDown(t, k, p)
  {
    forall q ensures MarkerRow(q) in t - {r} <==> MarkerRow(q) in t {
      var m := MarkerRow(q);
      assert m.key[|m.key| - 1..] == "/";
    }
  }

  lemma DoomedInFolder(t: Rows, k: string, r: RowKey)
    requires CanonicalRows(t) && Canonical(k) && r in t
    ensures Doomed(t, k + "/", r) <==> InSubtree(k, r.path) && MarkedDown(t, k, r.path)
  {
    FolderRow(k);
    RowOfKey(k);
    var own := LeafRow(k + "/");
    var t1 := t - {own};
    assert own == RowKey(k, BaseKey(k)) && !IsMarker(own);
    SameMarkers(t, own, k, r.path);
    if InSubtree(k, r.path) && MarkedDown(t, k, r.path) {
      SubtreeNotEmptyPath(k, r.path);
      MarkedIsReachable(t1, k, r.path);
    }
    if Reachable(t1, k, r.path) {
      ReachableIsMarked(t1, k, r.path);
    }
    if r == own {
      NothingBetween(t, k);
    }
  }

  lemma NothingBetween(t: Rows, k: string)
    ensures MarkedDown(t, k, k)
  {
    forall q | InSubtree(k, q) && InSubtree(q, k) ensures q == k {
      NotBelowItself(k, q);
    }
  }

  /** Deleting k/ from a closed table takes what is below k, and leaves the key k itself. */
  lemma FolderDelete(t: Rows, k: string)
    requires CanonicalRows(t) && AncestorClosed(t) && Canonical(k)
    ensures Survivors(t, k + "/") == map r | r in t && !InSubtree(k, r.path) :: t[r]
    ensures LeafRow(k) in t ==> LeafRow(k) in Survivors(t, k + "/")
  {
    forall r | r in t ensures Doomed(t, k + "/", r) <==> InSubtree(k, r.path) {
      DoomedInFolder(t, k, r);
      if InSubtree(k, r.path) {
        SubtreeNotEmptyPath(k, r.path);
        ClosedIsMarked(t, k, r);
      }
    }
    RowOfKey(k);
    UnderFolderByKey(k, LeafRow(k));
  }
}
