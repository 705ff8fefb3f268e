/** Entries as the table stores them: batched writes with folder markers, point and
    batched reads, and the flat listing of a subtree. */
module EntryStore {
  import opened Seqs
  import opened Text
  import opened Paths
  import opened Options
  import opened Table
  import opened TableKit
  import opened KeyTree
  import opened FirstWins

  const BACKEND_DYNAMODB := "dynamodb"
  const LOCK_PREFIX := "_"

  datatype Entry = Entry(key: string, value: string, secure: bool, metadata: Metadata)

  datatype Action = Unset | Created | Updated | Failed

  datatype Result = Result(key: string, action: Action, err: Option<string>, output: Option<Entry>)

  type Results = map<string, Result>

  /** The time and the actor of a request. */
  datatype Stamp = Stamp(now: int, actor: string)

  function Sanitize(key: string): string {
    TrimSlashes(TrimSpace(ToLower(key)))
  }

  function LeafRecord(e: Entry, s: Stamp): Record {
    Record(e.value, Metadata(
      s.now, s.actor, e.secure, "upsert",
      if e.metadata.backend != "" then e.metadata.backend else BACKEND_DYNAMODB,
      e.metadata.fingerprint, e.metadata.version))
  }

  function MarkerRecord(s: Stamp): Record {
    Record("", Metadata(s.now, s.actor, false, "", "", "", 0))
  }

  // --------------------------------------------------- the requests of one upsert

  function LeafId(k: string): string {
    PathWithoutKey(k) + "/" + BaseKey(k)
  }

  function MarkerId(q: string): string {
    PathWithoutKey(q) + (BaseKey(q) + "/")
  }

  /** The claim that a needed folder makes on its identifier. */
  function MarkerClaim(q: string, s: Stamp): Claim {
    Claim(MarkerId(q), Put(MarkerRow(q), MarkerRecord(s)))
  }

  function MarkerClaims(qs: seq<string>, s: Stamp): (cs: seq<Claim>)
    ensures |cs| == |qs|
    ensures forall i :: 0 <= i < |qs| ==> cs[i] == MarkerClaim(qs[i], s)
  {
    seq(|qs|, i requires 0 <= i < |qs| => MarkerClaim(qs[i], s))
  }

  function AddMarkers(acc: Requests, qs: seq<string>, s: Stamp): Requests {
    AddAll(acc, MarkerClaims(qs, s))
  }

  function AddLeaf(acc: Requests, k: string, e: Entry, s: Stamp): Requests {
    acc[LeafId(k) := Put(LeafRow(k), LeafRecord(e, s))]
  }

  function AddEntry(acc: Requests, k: string, e: Entry, s: Stamp): Requests {
    AddMarkers(AddLeaf(acc, k, e, s), Prefixes(k), s)
  }

  function RequestsOf(entries: seq<Entry>, s: Stamp): Requests {
    if entries == [] then map[]
    else
      var e := entries[|entries| - 1];
      AddEntry(RequestsOf(entries[..|entries| - 1], s), Sanitize(e.key), e, s)
  }

  function SanitizedKeys(entries: seq<Entry>): (keys: seq<string>)
    ensures |keys| == |entries|
    ensures forall i :: 0 <= i < |entries| ==> keys[i] == Sanitize(entries[i].key)
  {
    seq(|entries|, i requires 0 <= i < |entries| => Sanitize(entries[i].key))
  }

  function ReportUpdated(k: string, e: Entry): Result {
    Result(k, Updated, None, Some(e))
  }

  function Reports(keys: seq<string>, entries: seq<Entry>): Results
    requires |keys| == |entries|
  {
    if entries == [] then map[]
    else
      var n := |entries| - 1;
      Reports(keys[..n], entries[..n])[keys[n] := ReportUpdated(keys[n], entries[n])]
  }

  /** What the batch reports before the write: every key updated. */
  function Optimistic(entries: seq<Entry>): Results {
    Reports(SanitizedKeys(entries), entries)
  }

  const WRITE_FAILED := "write operation failed after retries"

  function ReportFailed(k: string): Result {
    Result(k, Failed, Some(WRITE_FAILED), None)
  }

  function FailKeys(results: Results, keys: seq<string>): Results {
    if keys == [] then results
    else
      var k := keys[|keys| - 1];
      FailKeys(results, keys[..|keys| - 1])[k := ReportFailed(k)]
  }

  /** The names under which requests are reported. */
  function NamesOf(left: seq<WriteRequest>): (names: seq<string>)
    ensures |names| == |left|
    ensures forall i :: 0 <= i < |left| ==> names[i] == FullKey(left[i].row)
  {
    seq(|left|, i requires 0 <= i < |left| => FullKey(left[i].row))
  }

  /** The report after the write: what is left over has failed. */
  function MarkFailed(results: Results, left: seq<WriteRequest>): Results {
    FailKeys(results, NamesOf(left))
  }

  /** The identifier of a request is a function of its row, so that no row is requested
      twice in a batch. */
  function IdOfRow(r: RowKey): string {
    if IsMarker(r) then r.path + r.key else r.path + "/" + r.key
  }

  ghost predicate WellIdentified(reqs: Requests) {
    forall id :: id in reqs ==> IdOfRow(reqs[id].row) == id
  }

  lemma SlashFreeEnd(b: string)
    requires SlashFree(b)
    ensures !HasSuffix(b, "/")
  {
    if b != "" {
      assert b[|b| - 1..] == [b[|b| - 1]];
      assert b[|b| - 1] in b;
    }
  }

  lemma SanitizedBase(k: string)
    requires Trimmed(k)
    ensures !HasSuffix(BaseKey(k), "/")
  {
    if k == "" {
      SlashFreeEnd(".");
    } else {
      assert TrimRight(k, Slashes) == k;
      SlashFreeEnd(k[LastSlash(k) + 1..]);
    }
  }

  lemma {:induction false} ClaimsWellIdentified(acc: Requests, cs: seq<Claim>)
    requires WellIdentified(acc)
    requires forall i :: 0 <= i < |cs| ==> IdOfRow(cs[i].request.row) == cs[i].id
    ensures WellIdentified(AddAll(acc, cs))
  {
    if cs == [] {
    } else {
      ClaimsWellIdentified(acc, cs[..|cs| - 1]);
      assert IdOfRow(cs[|cs| - 1].request.row) == cs[|cs| - 1].id;
    }
  }

  lemma MarkersWellIdentified(acc: Requests, qs: seq<string>, s: Stamp)
    requires WellIdentified(acc)
    ensures WellIdentified(AddMarkers(acc, qs, s))
  {
    var cs := MarkerClaims(qs, s);
    forall i | 0 <= i < |cs| ensures IdOfRow(cs[i].request.row) == cs[i].id {
      var b := BaseKey(qs[i]);
      assert (b + "/")[|b|..] == "/";
    }
    ClaimsWellIdentified(acc, cs);
  }

  lemma {:induction false} RequestsWellIdentified(entries: seq<Entry>, s: Stamp)
    ensures WellIdentified(RequestsOf(entries, s))
  {
    if entries == [] {
    } else {
      var front, e := entries[..|entries| - 1], entries[|entries| - 1];
      RequestsWellIdentified(front, s);
      var k := Sanitize(e.key);
      TrimmedIsStable(TrimSpace(ToLower(e.key)));
      SanitizedBase(k);
      var acc := AddLeaf(RequestsOf(front, s), k, e, s);
      assert WellIdentified(acc);
      MarkersWellIdentified(acc, Prefixes(k), s);
    }
  }

  /** reqs lists the values of a request map, in some order. */
  ghost predicate Enumerates(reqs: seq<WriteRequest>, m: Requests) {
    && DistinctRows(reqs)
    && (forall q :: q in reqs <==> exists id :: id in m && m[id] == q)
  }

  // ----------------------------------------------------------------------- Upsert

  lemma RequestsNext(entries: seq<Entry>, i: nat, s: Stamp)
    requires i < |entries|
    ensures RequestsOf(entries[..i + 1], s) ==
            AddEntry(RequestsOf(entries[..i], s), Sanitize(entries[i].key), entries[i], s)
  {
    Front(entries, i);
  }

  lemma OptimisticNext(entries: seq<Entry>, i: nat)
    requires i < |entries|
    ensures var k := Sanitize(entries[i].key);
            Optimistic(entries[..i + 1]) == Optimistic(entries[..i])[k := ReportUpdated(k, entries[i])]
  {
    assert SanitizedKeys(entries[..i + 1])[..i] == SanitizedKeys(entries[..i]);
    Front(entries, i);
  }

  /** The request map of the batch and its first report. */
  method Collect(entries: seq<Entry>, s: Stamp) returns (unique: Requests, results: Results)
    ensures unique == RequestsOf(entries, s)
    ensures results == Optimistic(entries)
  {
    unique, results := map[], map[];
    for i := 0 to |entries|
      invariant unique == RequestsOf(entries[..i], s)
      invariant results == Optimistic(entries[..i])
    {
      var k := Sanitize(entries[i].key);
      RequestsNext(entries, i, s);
      OptimisticNext(entries, i);
      unique := CollectEntry(unique, k, entries[i], s);
      results := results[k := ReportUpdated(k, entries[i])];
    }
    assert entries[..|entries|] == entries;
  }

  method CollectEntry(acc: Requests, k: string, e: Entry, s: Stamp) returns (unique: Requests)
    ensures unique == AddEntry(acc, k, e, s)
  {
    unique := AddLeaf(acc, k, e, s);
    unique := CollectMarkers(unique, k, s);
  }

  /** A marker for every folder above k, unless its identifier is taken. */
  method CollectMarkers(acc: Requests, k: string, s: Stamp) returns (unique: Requests)
    ensures unique == AddMarkers(acc, Prefixes(k), s)
  {
    unique := acc;
    var folders := ComputePrefixes(k);
    for i := 0 to |folders|
      invariant unique == AddMarkers(acc, folders[..i], s)
    {
      MarkersNext(acc, folders, i, s);
      unique := AddFirst(unique, MarkerClaim(folders[i], s));
    }
    assert folders[..|folders|] == folders;
  }

  lemma MarkersNext(acc: Requests, qs: seq<string>, i: nat, s: Stamp)
    requires i < |qs|
    ensures AddMarkers(acc, qs[..i + 1], s) == AddFirst(AddMarkers(acc, qs[..i], s), MarkerClaim(qs[i], s))
  {
    assert MarkerClaims(qs[..i + 1], s)[..i] == MarkerClaims(qs[..i], s);
  }

  /** The requests in whatever order the map yields them. */
  method ListRequests(m: Requests) returns (reqs: seq<WriteRequest>)
    requires WellIdentified(m)
    ensures Enumerates(reqs, m)
  {
    reqs := [];
    var ids := m.Keys;
    while ids != {}
      invariant ids <= m.Keys
      invariant DistinctRows(reqs)
      invariant forall q :: q in reqs ==> IdOfRow(q.row) in m.Keys - ids && m[IdOfRow(q.row)] == q
      invariant forall id :: id in m && id !in ids ==> m[id] in reqs
      decreases |ids|
    {
      var id :| id in ids;
      ids := ids - {id};
      reqs := reqs + [m[id]];
    }
  }

  method ReportFailures(before: Results, left: seq<WriteRequest>) returns (results: Results)
    ensures results == MarkFailed(before, left)
  {
    results := before;
    ghost var names := NamesOf(left);
    for i := 0 to |left|
      invariant results == FailKeys(before, names[..i])
    {
      Front(names, i);
      var k := FullKey(left[i].row);
      results := results[k := ReportFailed(k)];
    }
    assert names[..|names|] == names;
  }

  /** Writes the entries and the markers of all folders above them. reqs and left are the
      requests sent and those of them that were given up. */
  method Upsert(svc: TableService, entries: seq<Entry>, s: Stamp)
    returns (results: Results, ghost reqs: seq<WriteRequest>, ghost left: seq<WriteRequest>)
    modifies svc
    ensures Enumerates(reqs, RequestsOf(entries, s))
    ensures Conserved(old(svc.WriteLog()), svc.WriteLog(), reqs, left)
    ensures results == MarkFailed(Optimistic(entries), left)
    ensures svc.refused == old(svc.refused) ==> left == [] && results == Optimistic(entries)
  {
    var unique;
    unique, results := Collect(entries, s);
    RequestsWellIdentified(entries, s);
    var requests := ListRequests(unique);
    reqs := requests;
    if requests == [] {
      left := [];
      ConservedNothing(svc.WriteLog());
      return;
    }
    var failed, err := BatchWrite(svc, requests);
    results := ReportFailures(results, failed);
    left := failed;
  }
}
