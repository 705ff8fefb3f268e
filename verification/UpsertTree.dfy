/** What a batch of writes does to the tree: which rows it installs, and when the table
    keeps a marker for every folder above every row. */
module UpsertTree {
  import opened Text
  import opened Paths
  import opened Canonicalize
  import opened Options
  import opened Table
  import opened KeyTree
  import opened FirstWins
  import opened EntryStore

  predicate CanonicalEntries(entries: seq<Entry>) {
    forall i :: 0 <= i < |entries| ==> Canonical(entries[i].key)
  }

  lemma SanitizeCanonical(k: string)
    requires Canonical(k)
    ensures Sanitize(k) == k
  {
    CanonicalIsStable(k);
  }

  // ------------------------------------- a batch is its leaves and its markers apart

  function LeafClaim(e: Entry, s: Stamp): Claim {
    Claim(LeafId(e.key), Put(LeafRow(e.key), LeafRecord(e, s)))
  }

  function LeafClaims(entries: seq<Entry>, s: Stamp): (cs: seq<Claim>)
    ensures |cs| == |entries|
    ensures forall i :: 0 <= i < |entries| ==> cs[i] == LeafClaim(entries[i], s)
  {
    seq(|entries|, i requires 0 <= i < |entries| => LeafClaim(entries[i], s))
  }

  function LeafMap(entries: seq<Entry>, s: Stamp): Requests {
    SetAll(map[], LeafClaims(entries, s))
  }

  lemma LeafMapNext(entries: seq<Entry>, s: Stamp)
    requires entries != []
    ensures var e := entries[|entries| - 1];
            LeafMap(entries, s) == AddLeaf(LeafMap(entries[..|entries| - 1], s), e.key, e, s)
  {
    assert LeafClaims(entries, s)[..|entries| - 1] == LeafClaims(entries[..|entries| - 1], s);
  }

  /** The folders that the batch needs markers for, in the order they come up. */
  function Needed(entries: seq<Entry>): seq<string> {
    if entries == [] then []
    else Needed(entries[..|entries| - 1]) + Prefixes(entries[|entries| - 1].key)
  }

  /** Some key of the batch lies below folder q. */
  predicate SomeKeyBelow(entries: seq<Entry>, q: string) {
    exists i :: 0 <= i < |entries| && HasPrefix(entries[i].key, q + "/")
  }

  lemma SomeKeyBelowNext(entries: seq<Entry>, q: string)
    requires entries != []
    ensures SomeKeyBelow(entries, q) <==>
            SomeKeyBelow(entries[..|entries| - 1], q) || HasPrefix(entries[|entries| - 1].key, q + "/")
  {
    var front := entries[..|entries| - 1];
    if SomeKeyBelow(front, q) {
      var i :| 0 <= i < |front| && HasPrefix(front[i].key, q + "/");
      assert entries[i] == front[i];
    }
    if SomeKeyBelow(entries, q) {
      var i :| 0 <= i < |entries| && HasPrefix(entries[i].key, q + "/");
      assert i < |front| ==> front[i] == entries[i];
    }
  }

  lemma {:induction false} NeededExact(entries: seq<Entry>, q: string)
    ensures q in Needed(entries) <==> SomeKeyBelow(entries, q)
  {
    if entries == [] {
    } else {
      var n := |entries| - 1;
      NeededExact(entries[..n], q);
      PrefixesExact(entries[n].key, q);
      SomeKeyBelowNext(entries, q);
    }
  }

  lemma NeededIsCanonical(entries: seq<Entry>, q: string)
    requires CanonicalEntries(entries) && q in Needed(entries)
    ensures Canonical(q)
  {
    NeededExact(entries, q);
    var i :| 0 <= i < |entries| && HasPrefix(entries[i].key, q + "/");
    CanonicalFolder(entries[i].key, q);
  }

  lemma LeafIdEnd(k: string)
    requires Canonical(k)
    ensures !HasSuffix(LeafId(k), "/")
  {
    CanonicalCases(k);
    var b := BaseKey(k);
    assert b[|b| - 1] in b;
    var id := LeafId(k);
    assert id[|id| - 1] == b[|b| - 1];
    assert id[|id| - 1..] == [id[|id| - 1]];
  }

  lemma MarkerIdEnd(q: string)
    ensures HasSuffix(MarkerId(q), "/")
  {
    var id := MarkerId(q);
    assert id[|id| - 1..] == "/";
  }

  ghost predicate LeafIds(m: Requests) {
    forall id :: id in m ==> !HasSuffix(id, "/")
  }

  ghost predicate MarkerIds(m: Requests) {
    forall id :: id in m ==> HasSuffix(id, "/")
  }

  lemma MarkersBeside(leaves: Requests, markers: Requests, qs: seq<string>, s: Stamp)
    requires LeafIds(leaves)
    ensures AddMarkers(leaves + markers, qs, s) == leaves + AddMarkers(markers, qs, s)
  {
    var cs := MarkerClaims(qs, s);
    forall i | 0 <= i < |cs| ensures cs[i].id !in leaves {
      MarkerIdEnd(qs[i]);
    }
    AddAllBeside(leaves, markers, cs);
  }

  lemma ClaimsAppend(x: seq<string>, y: seq<string>, s: Stamp)
    ensures MarkerClaims(x + y, s) == MarkerClaims(x, s) + MarkerClaims(y, s)
  {
  }

  lemma MarkersInTurn(acc: Requests, x: seq<string>, y: seq<string>, s: Stamp)
    ensures AddMarkers(AddMarkers(acc, x, s), y, s) == AddMarkers(acc, x + y, s)
  {
    AddAllInTurn(acc, MarkerClaims(x, s), MarkerClaims(y, s));
    ClaimsAppend(x, y, s);
  }

  lemma MarkerMapIds(qs: seq<string>, s: Stamp)
    ensures MarkerIds(AddMarkers(map[], qs, s))
  {
    var cs := MarkerClaims(qs, s);
    forall id | id in AddMarkers(map[], qs, s) ensures HasSuffix(id, "/") {
      AddAllKeepsFirst(cs, id);
      FirstIsClaimed(cs, id);
      var i :| 0 <= i < |cs| && cs[i].id == id;
      MarkerIdEnd(qs[i]);
    }
  }

  lemma LeafBeside(leaves: Requests, markers: Requests, k: string, e: Entry, s: Stamp)
    requires LeafIds(leaves) && MarkerIds(markers) && Canonical(k)
    ensures AddLeaf(leaves + markers, k, e, s) == AddLeaf(leaves, k, e, s) + markers
    ensures LeafIds(AddLeaf(leaves, k, e, s))
  {
    LeafIdEnd(k);
    UpdateBeside(leaves, markers, LeafId(k), Put(LeafRow(k), LeafRecord(e, s)));
  }

  lemma UpdateBeside(a: Requests, b: Requests, id: string, q: WriteRequest)
    requires id !in b
    ensures (a + b)[id := q] == a[id := q] + b
  {
  }

  lemma {:induction false} BatchSplits(entries: seq<Entry>, s: Stamp)
    requires CanonicalEntries(entries)
    ensures RequestsOf(entries, s) == LeafMap(entries, s) + AddMarkers(map[], Needed(entries), s)
    ensures LeafIds(LeafMap(entries, s))
  {
    if entries == [] {
    } else {
      var front, e := entries[..|entries| - 1], entries[|entries| - 1];
      BatchSplits(front, s);
      LeafMapNext(entries, s);
      SanitizeCanonical(e.key);
      var l, m := LeafMap(front, s), AddMarkers(map[], Needed(front), s);
      MarkerMapIds(Needed(front), s);
      LeafBeside(l, m, e.key, e, s);
      MarkersBeside(AddLeaf(l, e.key, e, s), m, Prefixes(e.key), s);
      MarkersInTurn(map[], Needed(front), Prefixes(e.key), s);
    }
  }

  // ---------------------------------------------------- the rows a batch installs

  /** Every request of the map took effect, and nothing else changed. */
  ghost predicate Installed(t0: Rows, t1: Rows, m: Requests) {
    && (forall id :: id in m ==> Applied(t1, m[id]))
    && (forall r :: (forall id :: id in m ==> m[id].row != r) ==> Same(t0, t1, r))
  }

  /** done is a part of m. */
  ghost predicate PartOf(done: Requests, m: Requests) {
    forall id :: id in done ==> id in m && done[id] == m[id]
  }

  lemma OtherRequest(m: Requests, i: string, j: string)
    requires WellIdentified(m) && i in m && j in m && i != j
    ensures m[i].row != m[j].row
  {
  }

  lemma InstallOne(t0: Rows, t: Rows, m: Requests, done: Requests, id: string)
    requires WellIdentified(m) && PartOf(done, m) && id in m && id !in done
    requires Installed(t0, t, done)
    ensures Installed(t0, Apply(t, m[id]), done[id := m[id]]) && PartOf(done[id := m[id]], m)
  {
    var t1, all := Apply(t, m[id]), done[id := m[id]];
    forall r | forall i :: i in all ==> all[i].row != r ensures Same(t0, t1, r) {
      assert all[id].row != r;
      assert forall i :: i in done ==> all[i] == done[i];
      assert Same(t0, t, r);
    }
    forall i | i in all ensures Applied(t1, all[i]) {
      if i != id {
        OtherRequest(m, i, id);
        assert Applied(t, done[i]);
      }
    }
  }

  /** Whatever is stored, every batch can be carried out in full. */
  lemma BatchCanBeInstalled(t0: Rows, m: Requests) returns (t1: Rows)
    requires WellIdentified(m)
    ensures Installed(t0, t1, m)
  {
    t1 := t0;
    var left, done: Requests := m.Keys, map[];
    while left != {}
      invariant left <= m.Keys && done.Keys == m.Keys - left
      invariant PartOf(done, m) && Installed(t0, t1, done)
      decreases |left|
    {
      var id :| id in left;
      InstallOne(t0, t1, m, done, id);
      t1, done, left := Apply(t1, m[id]), done[id := m[id]], left - {id};
    }
    WholePart(done, m);
  }

  lemma WholePart(done: Requests, m: Requests)
    requires PartOf(done, m) && done.Keys == m.Keys
    ensures done == m
  {
  }

  lemma InstalledRow(t0: Rows, t1: Rows, m: Requests, r: RowKey)
    requires Installed(t0, t1, m)
    requires forall id :: id in m ==> m[id].Put?
    ensures r in t1 <==> r in t0 || exists id :: id in m && m[id].row == r
  {
    if exists id :: id in m && m[id].row == r {
      var id :| id in m && m[id].row == r;
      assert Applied(t1, m[id]);
    } else {
      assert Same(t0, t1, r);
    }
  }

  lemma WrittenInstalls(t0: Rows, t1: Rows, reqs: seq<WriteRequest>, m: Requests)
    requires Enumerates(reqs, m) && Written(t0, t1, reqs, [])
    ensures Installed(t0, t1, m)
  {
    forall r | forall id :: id in m ==> m[id].row != r ensures Same(t0, t1, r) {
      assert forall q :: q in reqs ==> q.row != r;
    }
    forall id | id in m ensures Applied(t1, m[id]) {
      assert m[id] in reqs;
    }
  }

  ghost predicate HasKey(entries: seq<Entry>, k: string) {
    exists i :: 0 <= i < |entries| && entries[i].key == k
  }

  /** The batch keeps folder q's marker under its identifier, rather than another one's. */
  predicate Chosen(entries: seq<Entry>, q: string, s: Stamp) {
    First(MarkerClaims(Needed(entries), s), MarkerId(q)) == Some(Put(MarkerRow(q), MarkerRecord(s)))
  }

  lemma CanonicalStart(k: string)
    requires Canonical(k)
    ensures k != "" && k[0] != ' '
  {
    CanonicalShape(k);
    CanonicalCharacters(k);
    assert !IsSpace(k[0]);
  }

  lemma LeafIdForm(k: string)
    requires Canonical(k)
    ensures LeafId(k) == if PathWithoutKey(k) == EMPTY_PATH then " /" + k else k
    ensures k != "" && k[0] != ' '
  {
    CanonicalCases(k);
    CanonicalStart(k);
    JoinedParts(PathWithoutKey(k), BaseKey(k));
  }

  lemma JoinedParts(d: string, b: string)
    ensures d == EMPTY_PATH ==> d + "/" + b == " /" + b
  {
  }

  lemma LeafIdInjective(k1: string, k2: string)
    requires Canonical(k1) && Canonical(k2) && LeafId(k1) == LeafId(k2)
    ensures k1 == k2
  {
    LeafIdForm(k1);
    LeafIdForm(k2);
    assert (" /" + k1)[2..] == k1 && (" /" + k2)[2..] == k2;
    assert (" /" + k1)[0] == ' ' && (" /" + k2)[0] == ' ';
  }

  ghost predicate IsKeyOf(entries: seq<Entry>, r: RowKey) {
    exists i :: 0 <= i < |entries| && r == LeafRow(entries[i].key)
  }

  ghost predicate IsChosenMarker(entries: seq<Entry>, s: Stamp, r: RowKey) {
    exists q :: q in Needed(entries) && Chosen(entries, q, s) && r == MarkerRow(q)
  }

  lemma KeptClaim(entries: seq<Entry>, s: Stamp, id: string)
    requires id in AddMarkers(map[], Needed(entries), s)
    ensures AddMarkers(map[], Needed(entries), s)[id].Put?
    ensures IsChosenMarker(entries, s, AddMarkers(map[], Needed(entries), s)[id].row)
  {
    var qs := Needed(entries);
    var ms := MarkerClaims(qs, s);
    AddAllKeepsFirst(ms, id);
    FirstIsClaimed(ms, id);
    var i :| 0 <= i < |ms| && ms[i].id == id && First(ms, id) == Some(ms[i].request);
    assert ms[i] == MarkerClaim(qs[i], s);
    assert Chosen(entries, qs[i], s);
  }

  /** Each request of a batch is for a leaf of one of its keys or for a chosen marker. */
  lemma RequestCases(entries: seq<Entry>, s: Stamp, id: string)
    requires CanonicalEntries(entries) && id in RequestsOf(entries, s)
    ensures RequestsOf(entries, s)[id].Put?
    ensures IsKeyOf(entries, RequestsOf(entries, s)[id].row) ||
            IsChosenMarker(entries, s, RequestsOf(entries, s)[id].row)
  {
    BatchSplits(entries, s);
    var l, qs := LeafMap(entries, s), Needed(entries);
    var ls, ms := LeafClaims(entries, s), MarkerClaims(qs, s);
    if id in AddAll(map[], ms) {
      KeptClaim(entries, s, id);
    } else {
      SetAllIsClaimed(ls, id);
      var n :| 0 <= n < |ls| && LastClaim(ls, id, n) && SetAll(map[], ls)[id] == ls[n].request;
    }
  }

  lemma LeafPart(entries: seq<Entry>, s: Stamp, i: nat)
    requires CanonicalEntries(entries) && i < |entries|
    ensures LeafId(entries[i].key) in LeafMap(entries, s)
    ensures LeafId(entries[i].key) in RequestsOf(entries, s)
    ensures RequestsOf(entries, s)[LeafId(entries[i].key)] == LeafMap(entries, s)[LeafId(entries[i].key)]
  {
    BatchSplits(entries, s);
    SetAllHasClaimed(LeafClaims(entries, s), i);
    LeafIdEnd(entries[i].key);
    MarkerMapIds(Needed(entries), s);
  }

  /** Conversely the batch has a request for each of its keys and each chosen marker. The
      request for a key carries the last entry given for it. */
  lemma RequestForKey(entries: seq<Entry>, s: Stamp, i: nat) returns (j: nat)
    requires CanonicalEntries(entries) && i < |entries|
    ensures j < |entries| && entries[j].key == entries[i].key
    ensures forall n :: j < n < |entries| ==> entries[n].key != entries[i].key
    ensures LeafId(entries[i].key) in RequestsOf(entries, s)
    ensures RequestsOf(entries, s)[LeafId(entries[i].key)] == Put(LeafRow(entries[i].key), LeafRecord(entries[j], s))
  {
    var ls, id := LeafClaims(entries, s), LeafId(entries[i].key);
    LeafPart(entries, s, i);
    SetAllIsClaimed(ls, id);
    j :| 0 <= j < |ls| && LastClaim(ls, id, j) && LeafMap(entries, s)[id] == ls[j].request;
    assert ls[j] == LeafClaim(entries[j], s);
    LeafIdInjective(entries[i].key, entries[j].key);
    forall n | j < n < |entries| ensures entries[n].key != entries[i].key {
      assert ls[n] == LeafClaim(entries[n], s);
    }
  }

  lemma RequestForMarker(entries: seq<Entry>, s: Stamp, q: string)
    requires CanonicalEntries(entries) && Chosen(entries, q, s)
    ensures MarkerId(q) in RequestsOf(entries, s)
    ensures RequestsOf(entries, s)[MarkerId(q)] == Put(MarkerRow(q), MarkerRecord(s))
  {
    BatchSplits(entries, s);
    AddAllKeepsFirst(MarkerClaims(Needed(entries), s), MarkerId(q));
  }

  /** The rows of the table after a batch: the old ones, a leaf for each key, and the chosen
      markers. */
  lemma BatchRows(t0: Rows, t1: Rows, entries: seq<Entry>, s: Stamp, r: RowKey)
    requires CanonicalEntries(entries) && Installed(t0, t1, RequestsOf(entries, s))
    ensures r in t1 <==> r in t0 || IsKeyOf(entries, r) || IsChosenMarker(entries, s, r)
  {
    var m := RequestsOf(entries, s);
    forall id | id in m
      ensures m[id].Put? && (IsKeyOf(entries, m[id].row) || IsChosenMarker(entries, s, m[id].row))
    {
      RequestCases(entries, s, id);
    }
    InstalledRow(t0, t1, m, r);
    if IsKeyOf(entries, r) {
      var i :| 0 <= i < |entries| && r == LeafRow(entries[i].key);
      var _ := RequestForKey(entries, s, i);
    } else if IsChosenMarker(entries, s, r) {
      var q :| q in Needed(entries) && Chosen(entries, q, s) && r == MarkerRow(q);
      RequestForMarker(entries, s, q);
    }
  }

  /** The row of a folder marker holds no value, and who caused it when. */
  lemma MarkerHolds(t0: Rows, t1: Rows, entries: seq<Entry>, s: Stamp, q: string)
    requires CanonicalEntries(entries) && Installed(t0, t1, RequestsOf(entries, s))
    requires q in Needed(entries) && Chosen(entries, q, s)
    ensures MarkerRow(q) in t1 && t1[MarkerRow(q)] == Record("", Metadata(s.now, s.actor, false, "", "", "", 0))
  {
    RequestForMarker(entries, s, q);
    assert Applied(t1, RequestsOf(entries, s)[MarkerId(q)]);
  }

  /** Letter case, white space and slashes around a key do not matter. */
  lemma SanitizeDecorated(k: string, raw: string, x: string, y: string)
    requires Canonical(k) && ToLower(raw) == k && AllCut(x, Spaces) && AllCut(y, Spaces)
    ensures Sanitize(x + "/" + raw + "/" + y) == k
  {
    var slash, inner := "/", "/" + k + "/";
    LowerParts(x, slash, raw, slash, y);
    LowerSpaces(x);
    LowerSpaces(y);
    assert ToLower(slash) == slash;
    SlashesAround(x, slash, k, y);
    TrimUnique(x, inner, y, Spaces);
    CanonicalShape(k);
    TrimUnique(slash, k, slash, Slashes);
  }

  lemma LowerParts(a: string, b: string, c: string, d: string, e: string)
    ensures ToLower(a + b + c + d + e) == ToLower(a) + ToLower(b) + ToLower(c) + ToLower(d) + ToLower(e)
  {
    LowerSum(a, b);
    LowerSum(a + b, c);
    LowerSum(a + b + c, d);
    LowerSum(a + b + c + d, e);
  }

  lemma LowerSum(a: string, b: string)
    ensures ToLower(a + b) == ToLower(a) + ToLower(b)
  {
  }

  lemma SlashesAround(x: string, slash: string, k: string, y: string)
    ensures x + slash + k + slash + y == x + (slash + k + slash) + y
  {
  }

  lemma LowerSpaces(x: string)
    requires AllCut(x, Spaces)
    ensures ToLower(x) == x
  {
  }
}
