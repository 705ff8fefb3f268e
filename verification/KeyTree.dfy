/** The tree of keys that the flat table represents: every row sits in a directory, and
    the row (d, b/) is the folder marker of b in d. */
module KeyTree {
  import opened Text
  import opened Paths
  import opened Table

  function LeafRow(k: string): RowKey {
    RowKey(PathWithoutKey(k), BaseKey(k))
  }

  function MarkerRow(q: string): RowKey {
    RowKey(PathWithoutKey(q), BaseKey(q) + "/")
  }

  predicate IsMarker(r: RowKey) {
    HasSuffix(r.key, "/")
  }

  function FullKey(r: RowKey): string {
    Concat(r.path, r.key)
  }

  /** The key of a row; for a marker, the key of the folder. */
  function Name(r: RowKey): string {
    TrimSuffix(FullKey(r), "/")
  }

  /** The directory below a marker row. */
  function ChildPath(r: RowKey): string {
    EscapeEmptyPath(Name(r))
  }

  function Segment(r: RowKey): string {
    TrimSuffix(r.key, "/")
  }

  predicate CanonicalRow(r: RowKey) {
    CanonicalDir(r.path) && GoodSegment(Segment(r))
  }

  ghost predicate CanonicalRows(t: Rows) {
    forall r :: r in t ==> CanonicalRow(r)
  }

  /** Every row has a marker row for each folder above it. */
  ghost predicate AncestorClosed(t: Rows) {
    forall r, q :: r in t && q in Prefixes(Name(r)) ==> MarkerRow(q) in t
  }

  /** The key of segment b in directory d. */
  function Under(d: string, b: string): string {
    if d == EMPTY_PATH then b else d + "/" + b
  }

  lemma SegmentCases(r: RowKey)
    ensures IsMarker(r) <==> r.key == Segment(r) + "/"
    ensures !IsMarker(r) ==> r.key == Segment(r)
  {
    var s := Segment(r);
    assert s + "/" == s + ['/'];
    if IsMarker(r) {
      assert r.key == s + "/";
    }
  }

  lemma RowName(r: RowKey)
    requires CanonicalRow(r)
    ensures Name(r) == Under(r.path, Segment(r))
    ensures Canonical(Name(r))
    ensures ChildPath(r) == Name(r)
    ensures PathWithoutKey(Name(r)) == r.path && BaseKey(Name(r)) == Segment(r)
  {
    var d, b := r.path, Segment(r);
    var k := Under(d, b);
    SegmentCases(r);
    if d == EMPTY_PATH {
      CanonicalAppend("x", b);
      SplitSingle(b);
    } else {
      CanonicalShape(d);
      ConcatChild(d, b);
      CanonicalAppend(d, b);
      SplitChild(d, b);
    }
    CanonicalShape(k);
    assert FullKey(r) == if IsMarker(r) then k + "/" else k;
    TrimSlash(k);
  }

  lemma TrimSlash(k: string)
    requires k != "" && k[|k| - 1] != '/'
    ensures TrimSuffix(k + "/", "/") == k && TrimSuffix(k, "/") == k
  {
    assert (k + "/")[|k|..] == "/";
    assert (k + "/")[..|k|] == k;
    assert k[|k| - 1..] == [k[|k| - 1]];
  }

  lemma RowOfKey(k: string)
    requires Canonical(k)
    ensures CanonicalRow(LeafRow(k)) && !IsMarker(LeafRow(k)) && FullKey(LeafRow(k)) == k
    ensures CanonicalRow(MarkerRow(k)) && IsMarker(MarkerRow(k)) && FullKey(MarkerRow(k)) == k + "/"
    ensures Name(LeafRow(k)) == k && Name(MarkerRow(k)) == k
  {
    CanonicalCases(k);
    RoundTrip(k);
    var b := BaseKey(k);
    assert b[|b| - 1] in b;
    TrimSlash(b);
    assert (b + "/")[|b|..] == "/";
    assert b[|b| - 1..] == [b[|b| - 1]];
    CanonicalShape(k);
    TrimSlash(k);
  }

  lemma RowDeterminedByName(r: RowKey)
    requires CanonicalRow(r)
    ensures r == if IsMarker(r) then MarkerRow(Name(r)) else LeafRow(Name(r))
  {
    RowName(r);
    SegmentCases(r);
  }

  lemma NoFolderInSegment(b: string, q: string)
    requires SlashFree(b)
    ensures !HasPrefix(b, q + "/")
  {
    assert (q + "/")[|q|] == '/';
    assert forall i :: 0 <= i < |b| ==> b[i] != '/';
  }

  /** One level is enough: each row's own directory has its marker. */
  ghost predicate ParentClosed(t: Rows) {
    forall r :: r in t && r.path != EMPTY_PATH ==> MarkerRow(r.path) in t
  }

  lemma {:induction false} ParentsGiveAncestors(t: Rows, r: RowKey, q: string)
    requires CanonicalRows(t) && ParentClosed(t) && r in t && q in Prefixes(Name(r))
    ensures MarkerRow(q) in t
    decreases |r.path|
  {
    var d, b := r.path, Segment(r);
    RowName(r);
    PrefixesExact(Name(r), q);
    if d == EMPTY_PATH {
      NoFolderInSegment(b, q);
    } else {
      PrefixOfChild(d, b, q);
      if d != q {
        RowOfKey(d);
        PrefixesExact(d, q);
        CanonicalCases(d);
        CanonicalShape(d);
        ParentsGiveAncestors(t, MarkerRow(d), q);
      }
    }
  }

  lemma ClosedByParents(t: Rows)
    requires CanonicalRows(t)
    ensures AncestorClosed(t) <==> ParentClosed(t)
  {
    if AncestorClosed(t) {
      forall r | r in t && r.path != EMPTY_PATH ensures MarkerRow(r.path) in t {
        RowName(r);
        PrefixesExact(Name(r), r.path);
        assert HasPrefix(Name(r), r.path + "/");
      }
    }
    if ParentClosed(t) {
      forall r, q | r in t && q in Prefixes(Name(r)) ensures MarkerRow(q) in t {
        ParentsGiveAncestors(t, r, q);
      }
    }
  }

  // ----------------------------------------------------------------- marker walks

  /** Some marker row in directory p leads to directory c. */
  ghost predicate ChildStep(t: Rows, p: string, c: string) {
    exists r :: r in t && r.path == p && IsMarker(r) && ChildPath(r) == c
  }

  ghost predicate Walk(t: Rows, start: string, p: string, dirs: seq<string>) {
    && |dirs| >= 1 && dirs[0] == start && dirs[|dirs| - 1] == p
    && forall i :: 0 <= i < |dirs| - 1 ==> ChildStep(t, dirs[i], dirs[i + 1])
  }

  /** Directory p can be reached from start by following markers downwards. */
  ghost predicate Reachable(t: Rows, start: string, p: string) {
    exists dirs: seq<string> :: Walk(t, start, p, dirs)
  }

  lemma ReachStart(t: Rows, start: string)
    ensures Reachable(t, start, start)
  {
    assert Walk(t, start, start, [start]);
  }

  lemma ReachStep(t: Rows, start: string, p: string, c: string)
    requires Reachable(t, start, p) && ChildStep(t, p, c)
    ensures Reachable(t, start, c)
  {
    var dirs: seq<string> :| Walk(t, start, p, dirs);
    assert Walk(t, start, c, dirs + [c]);
  }

  /** A set of directories that holds the start and is closed downwards holds everything
      reachable. */
  lemma {:induction false} ReachMinimal(t: Rows, start: string, p: string, closed: set<string>)
    requires Reachable(t, start, p)
    requires start in closed
    requires forall x, y :: x in closed && ChildStep(t, x, y) ==> y in closed
    ensures p in closed
  {
    var dirs: seq<string> :| Walk(t, start, p, dirs);
    for i := 0 to |dirs| - 1
      invariant dirs[i] in closed
    {
      assert ChildStep(t, dirs[i], dirs[i + 1]);
    }
  }

  // --------------------------------------------------------------------- subtrees

  /** Directory p is folder k or lies below it. */
  predicate InSubtree(k: string, p: string) {
    p == k || HasPrefix(p, k + "/")
  }

  /** Every folder from below k down to p has its marker row. */
  ghost predicate MarkedDown(t: Rows, k: string, p: string) {
    forall q :: InSubtree(k, q) && q != k && InSubtree(q, p) ==> MarkerRow(q) in t
  }

  lemma NotBelowItself(k: string, q: string)
    requires InSubtree(k, q) && InSubtree(q, k)
    ensures q == k
  {
    assert q != k ==> |q| > |k| && |k| > |q|;
  }

  lemma SubtreeOfChild(d: string, b: string, q: string)
    requires SlashFree(b)
    ensures InSubtree(q, d + "/" + b) <==> q == d + "/" + b || InSubtree(q, d)
  {
    PrefixOfChild(d, b, q);
  }

  lemma SubtreeNotEmptyPath(k: string, p: string)
    requires Canonical(k) && InSubtree(k, p)
    ensures p != EMPTY_PATH
  {
    CanonicalShape(k);
    assert |k + "/"| >= 2;
  }

  lemma MarkedStep(t: Rows, k: string, p: string, c: string)
    requires CanonicalRows(t) && Canonical(k) && ChildStep(t, p, c)
    requires InSubtree(k, p) && MarkedDown(t, k, p)
    ensures InSubtree(k, c) && MarkedDown(t, k, c)
  {
    var r :| r in t && r.path == p && IsMarker(r) && ChildPath(r) == c;
    RowName(r);
    RowDeterminedByName(r);
    SubtreeNotEmptyPath(k, p);
    SubtreeOfChild(p, Segment(r), k);
    forall q | InSubtree(k, q) && q != k && InSubtree(q, c) ensures MarkerRow(q) in t {
      SubtreeOfChild(p, Segment(r), q);
    }
  }

  lemma {:induction false} ReachableIsMarked(t: Rows, k: string, p: string)
    requires CanonicalRows(t) && Canonical(k) && Reachable(t, k, p)
    ensures InSubtree(k, p) && MarkedDown(t, k, p)
  {
    var dirs: seq<string> :| Walk(t, k, p, dirs);
    forall q | InSubtree(k, q) && InSubtree(q, k) ensures q == k {
      assert q != k ==> |q| > |k| && |k| > |q|;
    }
    for i := 0 to |dirs| - 1
      invariant InSubtree(k, dirs[i]) && MarkedDown(t, k, dirs[i])
    {
      MarkedStep(t, k, dirs[i], dirs[i + 1]);
    }
  }

  lemma {:induction false} MarkedIsReachable(t: Rows, k: string, p: string)
    requires CanonicalRows(t) && Canonical(k) && CanonicalDir(p)
    requires InSubtree(k, p) && MarkedDown(t, k, p)
    ensures Reachable(t, k, p)
    decreases |p|
  {
    SubtreeNotEmptyPath(k, p);
    if p == k {
      ReachStart(t, k);
    } else {
      var m := MarkerRow(p);
      RowOfKey(p);
      RowName(m);
      CanonicalCases(p);
      var d, b := m.path, BaseKey(p);
      if d == EMPTY_PATH {
        NoFolderInSegment(p, k);
      } else {
        SubtreeOfChild(d, b, k);
        forall q | InSubtree(k, q) && q != k && InSubtree(q, d) ensures MarkerRow(q) in t {
          SubtreeOfChild(d, b, q);
        }
        MarkedIsReachable(t, k, d);
        assert ChildStep(t, d, p);
        ReachStep(t, k, d, p);
      }
    }
  }

  lemma ClosedIsMarked(t: Rows, k: string, r: RowKey)
    requires CanonicalRows(t) && AncestorClosed(t) && r in t && r.path != EMPTY_PATH
    ensures MarkedDown(t, k, r.path)
  {
    RowName(r);
    forall q | InSubtree(q, r.path) ensures MarkerRow(q) in t {
      PrefixOfChild(r.path, Segment(r), q);
      PrefixesExact(Name(r), q);
    }
  }

  /** In a closed table of canonical rows, the rows that the marker walk from k visits are
      exactly the rows stored under k. */
  lemma WalkVisitsSubtree(t: Rows, k: string, r: RowKey)
    requires CanonicalRows(t) && AncestorClosed(t) && Canonical(k) && r in t
    ensures Reachable(t, k, r.path) <==> InSubtree(k, r.path)
  {
    if Reachable(t, k, r.path) {
      ReachableIsMarked(t, k, r.path);
    }
    if InSubtree(k, r.path) {
      SubtreeNotEmptyPath(k, r.path);
      ClosedIsMarked(t, k, r);
      MarkedIsReachable(t, k, r.path);
    }
  }

  /** For canonical keys, lying under folder k is a matter of the key's text. */
  lemma UnderFolderByKey(k: string, r: RowKey)
    requires CanonicalRow(r) && Canonical(k)
    ensures InSubtree(k, r.path) <==> HasPrefix(Name(r), k + "/")
  {
    RowName(r);
    if r.path == EMPTY_PATH {
      NoFolderInSegment(Name(r), k);
      CanonicalShape(k);
      assert |k + "/"| >= 2;
    } else {
      PrefixOfChild(r.path, Segment(r), k);
    }
  }
}
