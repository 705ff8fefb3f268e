/** How far a reader gets who lists one folder and then the folders it was shown. */
module Navigation {
  import opened Text
  import opened Paths
  import opened Table
  import opened KeyTree
  import opened EntryLevels

  /** A listing of directory p shows a folder marker that leads to directory c. */
  ghost predicate ShownStep(t: Rows, p: string, c: string) {
    exists r :: r in LevelRows(t, p) && IsMarker(r) && ChildPath(r) == c
  }

  ghost predicate Trail(t: Rows, start: string, p: string, dirs: seq<string>) {
    && |dirs| >= 1 && dirs[0] == start && dirs[|dirs| - 1] == p
    && forall i :: 0 <= i < |dirs| - 1 ==> ShownStep(t, dirs[i], dirs[i + 1])
  }

  /** Following what the listings show, a reader at start gets to directory p. */
  ghost predicate Navigable(t: Rows, start: string, p: string) {
    exists dirs: seq<string> :: Trail(t, start, p, dirs)
  }

  /** And some listing on the way shows row r. */
  ghost predicate Met(t: Rows, start: string, r: RowKey) {
    Navigable(t, start, r.path) && r in LevelRows(t, r.path)
  }

  predicate IsLockName(s: string) {
    HasPrefix(s, "_")
  }

  /** The rows that some listing shows. */
  function Visible(t: Rows): Rows {
    map r | r in t && !IsLockName(r.key) :: t[r]
  }

  lemma StepsAreVisible(t: Rows, p: string, c: string)
    ensures ShownStep(t, p, c) <==> ChildStep(Visible(t), p, c)
  {
    if ShownStep(t, p, c) {
      var r :| r in LevelRows(t, p) && IsMarker(r) && ChildPath(r) == c;
      assert r in Visible(t);
    }
    if ChildStep(Visible(t), p, c) {
      var r :| r in Visible(t) && r.path == p && IsMarker(r) && ChildPath(r) == c;
      assert r in LevelRows(t, p);
    }
  }

  /** Navigating is walking on the visible rows. */
  lemma NavigableIsReachable(t: Rows, start: string, p: string)
    ensures Navigable(t, start, p) <==> Reachable(Visible(t), start, p)
  {
    forall dirs: seq<string> ensures Trail(t, start, p, dirs) <==> Walk(Visible(t), start, p, dirs) {
      forall i | 0 <= i < |dirs| - 1
        ensures ShownStep(t, dirs[i], dirs[i + 1]) <==> ChildStep(Visible(t), dirs[i], dirs[i + 1])
      {
        StepsAreVisible(t, dirs[i], dirs[i + 1]);
      }
    }
  }

  lemma VisibleMarker(t: Rows, q: string)
    requires Canonical(q)
    ensures MarkerRow(q) in Visible(t) <==> MarkerRow(q) in t && !IsLockName(BaseKey(q))
  {
    CanonicalCases(q);
    var b := BaseKey(q);
    assert (b + "/")[0] == b[0];
  }

  // ------------------------------------------------------- folders and segments

  /** No segment of the name from the n-th on starts like a lock. */
  predicate NoLockFrom(n: nat, name: string) {
    forall i :: n <= i < |Split(name)| ==> !IsLockName(Split(name)[i])
  }

  lemma NoLockChild(n: nat, d: string, b: string)
    requires SlashFree(b) && n <= |Split(d)|
    ensures NoLockFrom(n, d + "/" + b) <==> NoLockFrom(n, d) && !IsLockName(b)
    ensures |Split(d + "/" + b)| == |Split(d)| + 1
  {
    SplitAppend(d, b);
    SplitSlashFree(b);
    var x, y := Split(d), Split(d + "/" + b);
    assert y == x + [b];
    assert forall i :: 0 <= i < |x| ==> y[i] == x[i];
    assert y[|x|] == b;
  }

  /** Every folder from below k down to p is visible. */
  ghost predicate FoldersVisible(k: string, p: string) {
    forall q :: InSubtree(k, q) && q != k && InSubtree(q, p) ==> !IsLockName(BaseKey(q))
  }

  lemma FoldersVisibleChild(k: string, d: string, b: string)
    requires Canonical(d) && GoodSegment(b) && InSubtree(k, d)
    ensures FoldersVisible(k, d + "/" + b) <==> FoldersVisible(k, d) && !IsLockName(b)
  {
    var p := d + "/" + b;
    SplitChild(d, b);
    SubtreeOfChild(d, b, k);
    BelowMeansLonger(k, d, b);
    forall q ensures InSubtree(q, p) <==> q == p || InSubtree(q, d) {
      SubtreeOfChild(d, b, q);
    }
  }

  lemma BelowMeansLonger(k: string, d: string, b: string)
    requires InSubtree(k, d)
    ensures k != d + "/" + b
  {
  }

  lemma {:induction false} FoldersAreSegments(k: string, p: string)
    requires Canonical(k) && Canonical(p) && InSubtree(k, p)
    ensures |Split(k)| <= |Split(p)|
    ensures FoldersVisible(k, p) <==> NoLockFrom(|Split(k)|, p)
    decreases |p|
  {
    if p == k {
      forall q | InSubtree(k, q) && InSubtree(q, p) ensures q == k {
        NotBelowItself(k, q);
      }
    } else {
      CanonicalCases(p);
      SubtreeParent(k, p);
      var d, b := PathWithoutKey(p), BaseKey(p);
      FoldersAreSegments(k, d);
      FoldersVisibleChild(k, d, b);
      NoLockChild(|Split(k)|, d, b);
    }
  }

  /** Below k, the directory of p is again k or below it. */
  lemma SubtreeParent(k: string, p: string)
    requires Canonical(k) && Canonical(p) && HasPrefix(p, k + "/")
    ensures PathWithoutKey(p) != EMPTY_PATH && InSubtree(k, PathWithoutKey(p))
  {
    CanonicalCases(p);
    if PathWithoutKey(p) == EMPTY_PATH {
      NoFolderInSegment(p, k);
    } else {
      SubtreeOfChild(PathWithoutKey(p), BaseKey(p), k);
    }
  }

  // ------------------------------------------------------------ starting at a folder

  lemma MarkedAndVisible(t: Rows, k: string, p: string)
    requires Canonical(k) && CanonicalDir(p) && MarkedDown(t, k, p)
    ensures InSubtree(k, p) ==> (MarkedDown(Visible(t), k, p) <==> FoldersVisible(k, p))
  {
    if InSubtree(k, p) {
      SubtreeNotEmptyPath(k, p);
      forall q | InSubtree(k, q) && q != k && InSubtree(q, p)
        ensures MarkerRow(q) in Visible(t) <==> !IsLockName(BaseKey(q))
      {
        if q != p {
          CanonicalFolder(p, q);
        }
        VisibleMarker(t, q);
      }
    }
  }

  lemma VisibleIsCanonical(t: Rows)
    requires CanonicalRows(t)
    ensures CanonicalRows(Visible(t))
  {
  }

  lemma NavigableExactly(t: Rows, k: string, r: RowKey)
    requires CanonicalRows(t) && AncestorClosed(t) && Canonical(k) && r in t
    ensures Navigable(t, k, r.path) <==> InSubtree(k, r.path) && FoldersVisible(k, r.path)
  {
    var p := r.path;
    NavigableIsReachable(t, k, p);
    VisibleIsCanonical(t);
    if Reachable(Visible(t), k, p) {
      ReachableIsMarked(Visible(t), k, p);
      SubtreeNotEmptyPath(k, p);
      ClosedIsMarked(t, k, r);
      MarkedAndVisible(t, k, p);
    }
    if InSubtree(k, p) && FoldersVisible(k, p) {
      SubtreeNotEmptyPath(k, p);
      ClosedIsMarked(t, k, r);
      MarkedAndVisible(t, k, p);
      MarkedIsReachable(Visible(t), k, p);
    }
  }

  /** On a closed table a reader who starts at folder k is shown row r if and only if r lies
      below k and no segment of its key below k starts like a lock. */
  lemma MetExactly(t: Rows, k: string, r: RowKey)
    requires CanonicalRows(t) && AncestorClosed(t) && Canonical(k) && r in t
    ensures Met(t, k, r) <==> InSubtree(k, r.path) && NoLockFrom(|Split(k)|, Name(r))
  {
    NavigableExactly(t, k, r);
    if InSubtree(k, r.path) {
      SubtreeNotEmptyPath(k, r.path);
      RowName(r);
      LockNameOfRow(r);
      FoldersAreSegments(k, r.path);
      NoLockChild(|Split(k)|, r.path, Segment(r));
    }
  }

  lemma LockNameOfRow(r: RowKey)
    requires CanonicalRow(r)
    ensures IsLockName(r.key) <==> IsLockName(Segment(r))
  {
    SegmentCases(r);
    assert r.key[0] == Segment(r)[0];
  }

  // ------------------------------------------------------------- starting at the root

  /** Directory p and every folder above it has its marker row. */
  ghost predicate MarkedAbove(t: Rows, p: string) {
    forall q :: InSubtree(q, p) ==> MarkerRow(q) in t
  }

  /** What a walk from the root gets to: the root, or a folder that is marked all the way. */
  ghost predicate AtRootOrMarked(t: Rows, p: string) {
    p == EMPTY_PATH || (Canonical(p) && MarkedAbove(t, p))
  }

  lemma RootStep(t: Rows, p: string, c: string)
    requires CanonicalRows(t) && ChildStep(t, p, c) && AtRootOrMarked(t, p)
    ensures AtRootOrMarked(t, c)
  {
    var r :| r in t && r.path == p && IsMarker(r) && ChildPath(r) == c;
    RowName(r);
    RowDeterminedByName(r);
    forall q | InSubtree(q, c) ensures MarkerRow(q) in t {
      if p == EMPTY_PATH {
        NoFolderInSegment(c, q);
      } else {
        CanonicalShape(p);
        SubtreeOfChild(p, Segment(r), q);
      }
    }
  }

  lemma {:induction false} RootReachesMarked(t: Rows, p: string)
    requires CanonicalRows(t) && Reachable(t, EMPTY_PATH, p)
    ensures AtRootOrMarked(t, p)
  {
    var dirs: seq<string> :| Walk(t, EMPTY_PATH, p, dirs);
    for i := 0 to |dirs| - 1
      invariant AtRootOrMarked(t, dirs[i])
    {
      RootStep(t, dirs[i], dirs[i + 1]);
    }
  }

  lemma {:induction false} MarkedIsReachedFromRoot(t: Rows, p: string)
    requires CanonicalRows(t) && AtRootOrMarked(t, p)
    ensures Reachable(t, EMPTY_PATH, p)
    decreases |p|, p != EMPTY_PATH
  {
    ReachStart(t, EMPTY_PATH);
    if p == EMPTY_PATH {
    } else {
      var m := MarkerRow(p);
      RowOfKey(p);
      RowName(m);
      CanonicalCases(p);
      CanonicalShape(p);
      var d := m.path;
      if d != EMPTY_PATH {
        forall q | InSubtree(q, d) ensures MarkerRow(q) in t {
          SubtreeOfChild(d, BaseKey(p), q);
        }
        MarkedIsReachedFromRoot(t, d);
      }
      assert ChildStep(t, d, p);
      ReachStep(t, EMPTY_PATH, d, p);
    }
  }

  /** Folder p and every folder above it is visible. */
  ghost predicate AboveVisible(p: string) {
    forall q :: InSubtree(q, p) ==> !IsLockName(BaseKey(q))
  }

  lemma AboveVisibleChild(d: string, b: string)
    requires Canonical(d) && GoodSegment(b)
    ensures AboveVisible(d + "/" + b) <==> AboveVisible(d) && !IsLockName(b)
  {
    SplitChild(d, b);
    forall q ensures InSubtree(q, d + "/" + b) <==> q == d + "/" + b || InSubtree(q, d) {
      SubtreeOfChild(d, b, q);
    }
  }

  lemma AboveVisibleSingle(b: string)
    requires GoodSegment(b)
    ensures AboveVisible(b) <==> NoLockFrom(0, b)
  {
    NoLockSegment(b);
    SplitSingle(b);
    forall q ensures InSubtree(q, b) <==> q == b {
      NoFolderInSegment(b, q);
    }
  }

  lemma NoLockSegment(b: string)
    requires SlashFree(b)
    ensures NoLockFrom(0, b) <==> !IsLockName(b)
  {
    SplitSlashFree(b);
    assert Split(b)[0] == b;
  }

  lemma {:induction false} FoldersAboveAreSegments(p: string)
    requires Canonical(p)
    ensures AboveVisible(p) <==> NoLockFrom(0, p)
    decreases |p|
  {
    CanonicalCases(p);
    var d, b := PathWithoutKey(p), BaseKey(p);
    if d == EMPTY_PATH {
      AboveVisibleSingle(p);
    } else {
      FoldersAboveAreSegments(d);
      NoLockChild(0, d, b);
      AboveVisibleChild(d, b);
    }
  }

  lemma VisibleAbove(t: Rows, r: RowKey)
    requires CanonicalRows(t) && AncestorClosed(t) && r in t && r.path != EMPTY_PATH
    ensures MarkedAbove(Visible(t), r.path) <==> NoLockFrom(0, r.path)
  {
    RowName(r);
    forall q | InSubtree(q, r.path) ensures MarkerRow(q) in Visible(t) <==> !IsLockName(BaseKey(q)) {
      PrefixOfChild(r.path, Segment(r), q);
      PrefixesExact(Name(r), q);
      if q != r.path {
        CanonicalFolder(r.path, q);
      }
      VisibleMarker(t, q);
    }
    FoldersAboveAreSegments(r.path);
  }

  /** On a closed table a reader who starts at the root is shown row r if and only if no
      segment of its key starts like a lock. */
  lemma MetFromRootExactly(t: Rows, r: RowKey)
    requires CanonicalRows(t) && AncestorClosed(t) && r in t
    ensures Met(t, EMPTY_PATH, r) <==> NoLockFrom(0, Name(r))
  {
    NavigableIsReachable(t, EMPTY_PATH, r.path);
    VisibleIsCanonical(t);
    RowName(r);
    LockNameOfRow(r);
    if r.path == EMPTY_PATH {
      ReachStart(Visible(t), EMPTY_PATH);
      SplitSlashFree(Name(r));
      assert Split(Name(r))[0] == Segment(r);
    } else {
      NoLockChild(0, r.path, Segment(r));
      VisibleAbove(t, r);
      if Reachable(Visible(t), EMPTY_PATH, r.path) {
        RootReachesMarked(Visible(t), r.path);
      }
      if MarkedAbove(Visible(t), r.path) {
        MarkedIsReachedFromRoot(Visible(t), r.path);
      }
    }
  }
}
