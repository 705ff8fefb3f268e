/** The marker invariant over whole histories of writes and deletes. */
module TreeRuns {
  import opened Text
  import opened Paths
  import opened Canonicalize
  import opened Options
  import opened Table
  import opened KeyTree
  import opened SubtreeDelete
  import opened Subtree
  import opened FirstWins
  import opened EntryStore
  import opened UpsertTree

  // ---------------------------------------------------- the folders a batch needs

  /** No marker that the batch needs is lost to another one with the same identifier,
      unless it is stored already. */
  ghost predicate NoMarkerLost(t0: Rows, entries: seq<Entry>, s: Stamp) {
    forall q :: q in Needed(entries) ==> Chosen(entries, q, s) || MarkerRow(q) in t0
  }

  lemma NeededMarkerAfter(t0: Rows, t1: Rows, entries: seq<Entry>, s: Stamp, q: string)
    requires CanonicalEntries(entries) && Installed(t0, t1, RequestsOf(entries, s))
    requires q in Needed(entries)
    ensures Canonical(q)
    ensures MarkerRow(q) in t1 <==> Chosen(entries, q, s) || MarkerRow(q) in t0
  {
    NeededIsCanonical(entries, q);
    BatchRows(t0, t1, entries, s, MarkerRow(q));
    RowOfKey(q);
    if IsKeyOf(entries, MarkerRow(q)) {
      var i :| 0 <= i < |entries| && MarkerRow(q) == LeafRow(entries[i].key);
      RowOfKey(entries[i].key);
    }
    if IsChosenMarker(entries, s, MarkerRow(q)) {
      var p :| p in Needed(entries) && Chosen(entries, p, s) && MarkerRow(q) == MarkerRow(p);
      NeededIsCanonical(entries, p);
      RowOfKey(p);
    }
  }

  /** The directory of a row that the batch adds is among the folders it needs. */
  lemma NewRowNeedsFolder(t0: Rows, t1: Rows, entries: seq<Entry>, s: Stamp, r: RowKey)
    requires CanonicalEntries(entries) && Installed(t0, t1, RequestsOf(entries, s))
    requires r in t1 && r !in t0
    ensures CanonicalRow(r)
    ensures r.path != EMPTY_PATH ==> r.path in Needed(entries)
  {
    BatchRows(t0, t1, entries, s, r);
    if IsKeyOf(entries, r) {
      var i :| 0 <= i < |entries| && r == LeafRow(entries[i].key);
      RowOfKey(entries[i].key);
      CanonicalCases(entries[i].key);
      if r.path != EMPTY_PATH {
        assert HasPrefix(entries[i].key, r.path + "/");
        NeededExact(entries, r.path);
      }
    } else {
      var q :| q in Needed(entries) && Chosen(entries, q, s) && r == MarkerRow(q);
      NeededIsCanonical(entries, q);
      RowOfKey(q);
      CanonicalCases(q);
      if r.path != EMPTY_PATH {
        NeededExact(entries, q);
        var i :| 0 <= i < |entries| && HasPrefix(entries[i].key, q + "/");
        assert HasPrefix(q, r.path + "/");
        FolderOfFolder(entries[i].key, q, r.path);
        NeededExact(entries, r.path);
      }
    }
  }

  lemma BatchKeepsCanonical(t0: Rows, t1: Rows, entries: seq<Entry>, s: Stamp)
    requires CanonicalRows(t0) && CanonicalEntries(entries) && Installed(t0, t1, RequestsOf(entries, s))
    ensures CanonicalRows(t1)
  {
    forall r | r in t1 ensures CanonicalRow(r) {
      if r !in t0 {
        NewRowNeedsFolder(t0, t1, entries, s, r);
      }
    }
  }

  /** A batch written in full keeps the table closed if and only if it loses no marker. */
  lemma BatchKeepsTree(t0: Rows, t1: Rows, entries: seq<Entry>, s: Stamp)
    requires CanonicalRows(t0) && AncestorClosed(t0)
    requires CanonicalEntries(entries) && Installed(t0, t1, RequestsOf(entries, s))
    ensures CanonicalRows(t1)
    ensures AncestorClosed(t1) <==> NoMarkerLost(t0, entries, s)
  {
    BatchKeepsCanonical(t0, t1, entries, s);
    if NoMarkerLost(t0, entries, s) {
      ClosedByParents(t0);
      forall r | r in t1 && r.path != EMPTY_PATH ensures MarkerRow(r.path) in t1 {
        if r in t0 {
          BatchRows(t0, t1, entries, s, MarkerRow(r.path));
        } else {
          NewRowNeedsFolder(t0, t1, entries, s, r);
          NeededMarkerAfter(t0, t1, entries, s, r.path);
        }
      }
      ClosedByParents(t1);
    }
    if AncestorClosed(t1) {
      forall q | q in Needed(entries) ensures Chosen(entries, q, s) || MarkerRow(q) in t0 {
        NeededMarkerAfter(t0, t1, entries, s, q);
        var _ := LeafBelow(t0, t1, entries, s, q);
      }
    }
  }

  lemma LeafBelow(t0: Rows, t1: Rows, entries: seq<Entry>, s: Stamp, q: string) returns (k: string)
    requires CanonicalEntries(entries) && Installed(t0, t1, RequestsOf(entries, s))
    requires q in Needed(entries)
    ensures Canonical(k) && LeafRow(k) in t1 && HasPrefix(k, q + "/")
    ensures Name(LeafRow(k)) == k && q in Prefixes(k)
  {
    NeededExact(entries, q);
    var i :| 0 <= i < |entries| && HasPrefix(entries[i].key, q + "/");
    k := entries[i].key;
    BatchRows(t0, t1, entries, s, LeafRow(k));
    RowOfKey(k);
    PrefixesExact(k, q);
  }

  /** A lost marker has a price: whatever is stored below it survives the deletion of any
      folder above it, and something is stored below it. */
  lemma LostMarkerOrphans(t0: Rows, t1: Rows, entries: seq<Entry>, s: Stamp, q: string, folder: string)
    requires CanonicalRows(t0) && AncestorClosed(t0)
    requires CanonicalEntries(entries) && Installed(t0, t1, RequestsOf(entries, s))
    requires q in Needed(entries) && !Chosen(entries, q, s) && MarkerRow(q) !in t0
    requires HasPrefix(q, folder + "/")
    ensures forall r :: r in t1 && InSubtree(q, r.path) ==> r in Survivors(t1, folder)
    ensures exists i :: 0 <= i < |entries| && HasPrefix(entries[i].key, q + "/") &&
                        LeafRow(entries[i].key) in Survivors(t1, folder)
  {
    BatchKeepsTree(t0, t1, entries, s);
    NeededMarkerAfter(t0, t1, entries, s, q);
    forall r | r in t1 && InSubtree(q, r.path) ensures r in Survivors(t1, folder) {
      OrphanSurvives(t1, q, folder, r);
    }
    NeededExact(entries, q);
    var i :| 0 <= i < |entries| && HasPrefix(entries[i].key, q + "/");
    BatchRows(t0, t1, entries, s, LeafRow(entries[i].key));
    RowOfKey(entries[i].key);
    UnderFolderByKey(q, LeafRow(entries[i].key));
  }

  /** Without q's marker a delete of a folder above q does not get to what lies below q. */
  lemma OrphanSurvives(t: Rows, q: string, folder: string, r: RowKey)
    requires CanonicalRows(t) && Canonical(q) && HasPrefix(q, folder + "/")
    requires MarkerRow(q) !in t && r in t && InSubtree(q, r.path)
    ensures r in Survivors(t, folder)
  {
    CanonicalFolder(q, folder);
    assert !MarkedDown(t, folder, r.path) by {
      assert InSubtree(folder, q) && InSubtree(q, r.path) && q != folder;
    }
    DoomedMeans(t, folder, r);
    FolderRowIsAbove(q, folder, r);
  }

  lemma FolderRowIsAbove(q: string, folder: string, r: RowKey)
    requires CanonicalRow(r) && Canonical(q) && HasPrefix(q, folder + "/") && InSubtree(q, r.path)
    ensures r != LeafRow(folder)
  {
    CanonicalFolder(q, folder);
    UnderFolderByKey(q, r);
    RowOfKey(folder);
    assert |Name(r)| > |q| > |folder|;
  }

  // ------------------------------------------------- batches that lose no marker

  /** No two needed folders share an identifier. */
  ghost predicate InjectiveMarkers(entries: seq<Entry>) {
    forall p, q :: p in Needed(entries) && q in Needed(entries) && MarkerId(p) == MarkerId(q) ==> p == q
  }

  lemma InjectiveChosen(entries: seq<Entry>, q: string, s: Stamp)
    requires InjectiveMarkers(entries) && q in Needed(entries)
    ensures Chosen(entries, q, s)
  {
    var qs := Needed(entries);
    var cs := MarkerClaims(qs, s);
    var n :| 0 <= n < |qs| && qs[n] == q;
    ClaimedHasFirst(cs, n);
    FirstIsClaimed(cs, MarkerId(q));
    var i :| 0 <= i < |cs| && cs[i].id == MarkerId(q) && First(cs, MarkerId(q)) == Some(cs[i].request);
    assert qs[i] in qs && MarkerId(qs[i]) == MarkerId(q);
  }

  lemma InjectiveLosesNone(t0: Rows, entries: seq<Entry>, s: Stamp)
    requires InjectiveMarkers(entries)
    ensures NoMarkerLost(t0, entries, s)
  {
    forall q | q in Needed(entries) ensures Chosen(entries, q, s) {
      InjectiveChosen(entries, q, s);
    }
  }

  /** The identifier of a top folder starts with a space; any other has its key's length. */
  lemma MarkerIdForm(q: string)
    requires Canonical(q)
    ensures SlashFree(q) ==> MarkerId(q)[0] == ' '
    ensures !SlashFree(q) ==> MarkerId(q)[0] != ' ' && |MarkerId(q)| == |q|
  {
    CanonicalCases(q);
    if PathWithoutKey(q) != EMPTY_PATH {
      CanonicalShape(PathWithoutKey(q));
      CanonicalCharacters(PathWithoutKey(q));
      assert q[|PathWithoutKey(q)|] == '/';
    }
  }

  lemma NestedFoldersDiffer(p: string, q: string)
    requires Canonical(p) && Canonical(q) && HasPrefix(q, p + "/")
    ensures MarkerId(p) != MarkerId(q)
  {
    MarkerIdForm(p);
    MarkerIdForm(q);
    assert q[|p|] == (p + "/")[|p|] == '/';
    assert q[|p|] in q;
  }

  lemma FoldersOfOneKeyDiffer(k: string, i: nat, j: nat)
    requires Canonical(k) && i < j < |Prefixes(k)|
    ensures MarkerId(Prefixes(k)[i]) != MarkerId(Prefixes(k)[j])
  {
    var p, q := Prefixes(k)[i], Prefixes(k)[j];
    PrefixesExact(k, p);
    PrefixesExact(k, q);
    CanonicalFolder(k, p);
    CanonicalFolder(k, q);
    PrefixesGrow(k, i, j);
    NestedFoldersDiffer(p, q);
  }

  lemma NeededByOne(e: Entry)
    ensures Needed([e]) == Prefixes(e.key)
  {
    assert [e][..0] == [];
  }

  /** One key on its own never loses a marker. */
  lemma SingleKeyIsInjective(e: Entry)
    requires Canonical(e.key)
    ensures InjectiveMarkers([e])
  {
    NeededByOne(e);
    var qs := Prefixes(e.key);
    forall i, j | 0 <= i < |qs| && 0 <= j < |qs| && i != j ensures MarkerId(qs[i]) != MarkerId(qs[j]) {
      FoldersOfOneKeyDiffer(e.key, if i < j then i else j, if i < j then j else i);
    }
  }

  lemma ThreeSegments(a: string, b: string, c: string)
    requires GoodSegment(a) && GoodSegment(b) && GoodSegment(c)
    ensures var k := a + "/" + b + "/" + c;
            Canonical(k) && Prefixes(k) == [a, a + "/" + b]
  {
    CanonicalAppend("x", a);
    CanonicalAppend(a, b);
    CanonicalAppend(a + "/" + b, c);
    SplitSlashFree(a);
    SplitSlashFree(b);
    SplitSlashFree(c);
    SplitAppend(a, b);
    SplitAppend(a + "/" + b, c);
    var segs := Split(a + "/" + b + "/" + c);
    assert segs == [a, b, c];
    assert segs[..1] == [a] && segs[..2] == [a, b];
    assert [a, b][1..] == [b];
    var folders := Prefixes(a + "/" + b + "/" + c);
    assert folders[0] == Join(segs[..1]) && folders[1] == Join(segs[..2]);
  }

  lemma NeededByTwo(x: Entry, y: Entry)
    ensures Needed([x, y]) == Prefixes(x.key) + Prefixes(y.key)
  {
    NeededByOne(x);
    assert [x, y][..1] == [x];
  }

  lemma MarkerIdOfTwo(a: string, b: string)
    requires GoodSegment(a) && GoodSegment(b)
    ensures MarkerId(a + "/" + b) == a + (b + "/")
    ensures MarkerRow(a + "/" + b) == RowKey(a, b + "/")
    ensures MarkerId(a) == " " + (a + "/")
  {
    CanonicalAppend("x", a);
    SplitChild(a, b);
    SplitSingle(a);
  }

  lemma SecondClaimLoses(cs: seq<Claim>)
    requires |cs| == 4 && cs[0].id != cs[3].id && cs[1].id == cs[3].id
    ensures First(cs, cs[3].id) == Some(cs[1].request)
  {
    var id := cs[3].id;
    assert cs[..3][..2] == cs[..2] && cs[..2][..1] == cs[..1] && cs[..1][..0] == [];
    assert First(cs[..1], id) == None;
    assert First(cs[..2], id) == Some(cs[1].request);
    assert First(cs[..3], id) == Some(cs[1].request);
  }

  lemma Regroup(a: string, b: string, c: string)
    ensures a + (b + c + "/") == a + b + (c + "/")
  {
  }

  lemma CollidingIds(a: string, b: string, c: string)
    requires GoodSegment(a) && GoodSegment(b + c) && GoodSegment(a + b) && GoodSegment(c)
    ensures MarkerId(a + "/" + (b + c)) == MarkerId(a + b + "/" + c) != MarkerId(a)
  {
    MarkerIdOfTwo(a, b + c);
    MarkerIdOfTwo(a + b, c);
    Regroup(a, b, c);
    SpaceFirst(a, b + c + "/");
  }

  lemma SpaceFirst(a: string, rest: string)
    requires GoodSegment(a)
    ensures " " + (a + "/") != a + rest
  {
    assert (" " + (a + "/"))[0] == ' ' && (a + rest)[0] == a[0];
  }

  /** Two keys whose folders spell the same identifier: a/bc and ab/c. */
  lemma IdentifiersCollide(x: Entry, y: Entry, s: Stamp, a: string, b: string, c: string, v: string, w: string)
    requires GoodSegment(a) && GoodSegment(b + c) && GoodSegment(v)
    requires GoodSegment(a + b) && GoodSegment(c) && GoodSegment(w) && b != ""
    requires x.key == a + "/" + (b + c) + "/" + v && y.key == a + b + "/" + c + "/" + w
    ensures CanonicalEntries([x, y])
    ensures a + b + "/" + c in Needed([x, y]) && !Chosen([x, y], a + b + "/" + c, s)
  {
    CollidingFolders(x, y, a, b + c, a + b, c, v, w);
    CollidingIds(a, b, c);
    MarkerRowsDiffer(a, b, c);
    LaterFolderLoses([x, y], s, a, a + "/" + (b + c), a + b, a + b + "/" + c);
  }

  lemma LaterFolderLoses(entries: seq<Entry>, s: Stamp, o: string, p: string, o': string, q: string)
    requires Needed(entries) == [o, p, o', q]
    requires MarkerId(p) == MarkerId(q) != MarkerId(o) && MarkerRow(p) != MarkerRow(q)
    ensures q in Needed(entries) && !Chosen(entries, q, s)
  {
    SecondFolderLoses(Needed(entries), s);
    assert [o, p, o', q][3] == q;
  }

  lemma CollidingFolders(x: Entry, y: Entry, a: string, bc: string, ab: string, c: string, v: string, w: string)
    requires GoodSegment(a) && GoodSegment(bc) && GoodSegment(v)
    requires GoodSegment(ab) && GoodSegment(c) && GoodSegment(w)
    requires x.key == a + "/" + bc + "/" + v && y.key == ab + "/" + c + "/" + w
    ensures CanonicalEntries([x, y])
    ensures Needed([x, y]) == [a, a + "/" + bc, ab, ab + "/" + c]
  {
    ThreeSegments(a, bc, v);
    ThreeSegments(ab, c, w);
    NeededByTwo(x, y);
  }

  lemma MarkerRowsDiffer(a: string, b: string, c: string)
    requires GoodSegment(a) && GoodSegment(b + c) && GoodSegment(a + b) && GoodSegment(c) && b != ""
    ensures MarkerRow(a + "/" + (b + c)) != MarkerRow(a + b + "/" + c)
  {
    MarkerIdOfTwo(a, b + c);
    MarkerIdOfTwo(a + b, c);
    assert |a| < |a + b|;
  }

  lemma SecondFolderLoses(qs: seq<string>, s: Stamp)
    requires |qs| == 4 && MarkerId(qs[1]) == MarkerId(qs[3]) && MarkerId(qs[0]) != MarkerId(qs[3])
    ensures First(MarkerClaims(qs, s), MarkerId(qs[3])) == Some(Put(MarkerRow(qs[1]), MarkerRecord(s)))
  {
    var cs := MarkerClaims(qs, s);
    assert forall i :: 0 <= i < 4 ==> cs[i] == MarkerClaim(qs[i], s);
    SecondClaimLoses(cs);
  }

  /** Writing such a pair to an empty table leaves it without a marker, and the second key
      outlives its top folder. */
  lemma CollisionOrphansSubtree(t1: Rows, x: Entry, y: Entry, s: Stamp,
                                a: string, b: string, c: string, v: string, w: string)
    requires GoodSegment(a) && GoodSegment(b + c) && GoodSegment(v)
    requires GoodSegment(a + b) && GoodSegment(c) && GoodSegment(w) && b != ""
    requires x.key == a + "/" + (b + c) + "/" + v && y.key == a + b + "/" + c + "/" + w
    requires Installed(map[], t1, RequestsOf([x, y], s))
    ensures !AncestorClosed(t1)
    ensures forall r :: r in t1 && InSubtree(a + b + "/" + c, r.path) ==> r in Survivors(t1, a + b)
    ensures LeafRow(y.key) in Survivors(t1, a + b)
  {
    IdentifiersCollide(x, y, s, a, b, c, v, w);
    var q := a + b + "/" + c;
    assert HasPrefix(q, a + b + "/");
    LostFromEmpty(t1, [x, y], s, q, a + b);
    SecondKeyBelow(t1, x, y, s, q, w);
  }

  lemma LostFromEmpty(t1: Rows, entries: seq<Entry>, s: Stamp, q: string, folder: string)
    requires CanonicalEntries(entries) && Installed(map[], t1, RequestsOf(entries, s))
    requires q in Needed(entries) && !Chosen(entries, q, s) && HasPrefix(q, folder + "/")
    ensures !AncestorClosed(t1) && Canonical(q)
    ensures forall r :: r in t1 && InSubtree(q, r.path) ==> r in Survivors(t1, folder)
  {
    BatchKeepsTree(map[], t1, entries, s);
    NeededIsCanonical(entries, q);
    LostMarkerOrphans(map[], t1, entries, s, q, folder);
  }

  lemma SecondKeyBelow(t1: Rows, x: Entry, y: Entry, s: Stamp, q: string, w: string)
    requires CanonicalEntries([x, y]) && Installed(map[], t1, RequestsOf([x, y], s))
    requires y.key == q + "/" + w && Canonical(q)
    ensures LeafRow(y.key) in t1 && InSubtree(q, LeafRow(y.key).path)
  {
    assert [x, y][1] == y && Canonical([x, y][1].key);
    BatchRows(map[], t1, [x, y], s, LeafRow(y.key));
    RowOfKey(y.key);
    UnderFolderByKey(q, LeafRow(y.key));
    assert HasPrefix(y.key, q + "/");
  }

  // ------------------------------------------------------------------ whole runs

  datatype Op = Write(entries: seq<Entry>, stamp: Stamp) | Erase(key: string)

  /** A write that reached the table in full, or a delete that reported success. */
  ghost predicate Step(t0: Rows, op: Op, t1: Rows) {
    match op
    case Write(entries, s) => CanonicalEntries(entries) && Installed(t0, t1, RequestsOf(entries, s))
    case Erase(k) => Canonical(k) && t1 == Survivors(t0, k)
  }

  /** A run: the empty table, and steps one after another with the table each led to. */
  datatype History = Empty | Then(before: History, op: Op, rows: Rows)

  function Current(h: History): Rows {
    if h.Empty? then map[] else h.rows
  }

  ghost predicate Run(h: History) {
    h.Then? ==> Run(h.before) && Step(Current(h.before), h.op, h.rows)
  }

  ghost predicate LosesNothing(t0: Rows, op: Op) {
    op.Write? ==> NoMarkerLost(t0, op.entries, op.stamp)
  }

  /** No write of the run loses a marker. */
  ghost predicate KeepsMarkers(h: History) {
    h.Then? ==> KeepsMarkers(h.before) && LosesNothing(Current(h.before), h.op)
  }

  /** In every state of the run every row has a marker for each folder above it. */
  ghost predicate AlwaysClosed(h: History) {
    AncestorClosed(Current(h)) && (h.Then? ==> AlwaysClosed(h.before))
  }

  lemma StepKeepsTree(t0: Rows, op: Op, t1: Rows)
    requires CanonicalRows(t0) && AncestorClosed(t0) && Step(t0, op, t1)
    ensures CanonicalRows(t1)
    ensures AncestorClosed(t1) <==> LosesNothing(t0, op)
    ensures op.Erase? ==> t1 == Pruned(t0, op.key)
  {
    match op {
      case Write(entries, s) =>
        BatchKeepsTree(t0, t1, entries, s);
      case Erase(k) =>
        DeleteFromClosed(t0, k);
        PrunedKeepsTree(t0, k);
    }
  }

  /** In every state of a run every row has a marker for each folder above it if and only if
      no write of the run loses a marker, and then every delete that reports success takes
      exactly the subtree. */
  lemma {:induction false} RunsKeepTree(h: History)
    requires Run(h)
    ensures AlwaysClosed(h) <==> KeepsMarkers(h)
    ensures KeepsMarkers(h) ==> CanonicalRows(Current(h))
    ensures KeepsMarkers(h) && h.Then? && h.op.Erase? ==> h.rows == Pruned(Current(h.before), h.op.key)
  {
    if h.Empty? {
    } else {
      RunsKeepTree(h.before);
      if KeepsMarkers(h.before) {
        StepKeepsTree(Current(h.before), h.op, h.rows);
      }
    }
  }
}
