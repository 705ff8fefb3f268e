/** What a key resolves to after a batched write in which anything may have failed: when a
    write that is reported as done can be read, and what is read when it cannot. */
module GatewayReads {
  import opened Options
  import opened Paths
  import opened Table
  import opened TableKit
  import opened KeyTree
  import opened FirstWins
  import opened EntryStore
  import opened UpsertTree
  import opened UpsertReport
  import opened Parameters
  import opened Gateway
  import opened ExternalWrites
  import opened GatewayOps
  import opened GatewayPlan
  import opened GatewayReport
  import opened Schedules
  import Runs = GatewayRuns

  /** The key of entry i. */
  function KeyAt(b: Batch, i: nat): string
    requires i < |b.entries|
  {
    b.entries[i].key
  }

  /** Whether the value ends up secure: asked for, or forced by the vault. */
  predicate SecureAt(b: Batch, i: nat)
    requires i < |b.entries| && i < |b.routes| && b.routes[i].To?
  {
    b.entries[i].secure || b.routes[i].store == SecureParamStore
  }

  /** Entry i went to an external backend, which took it. */
  predicate Taken(b: Batch, failing: set<string>, i: nat)
    requires WellSized(b)
  {
    i < |b.entries| && b.routes[i].To? && b.routes[i].store != IndexStore && b.entries[i].key !in failing
  }

  lemma FateIsHeld(b: Batch, ps: Params, failing: set<string>, params: Params, i: nat)
    requires GoodBatch(b) && Taken(b, failing, i) && Sent(ps, FatesOf(b, ps, failing), {}, params)
    ensures var k := KeyAt(b, i);
            && Canonical(k) && NormalizeKey(k) in params
            && params[NormalizeKey(k)].value == b.entries[i].value
            && params[NormalizeKey(k)].secure == SecureAt(b, i)
            && params[NormalizeKey(k)] == FateAt(b, ps, failing, i).param
  {
    var task := TaskAt(b, i, b.routes[i].store);
    EveryEntryPlaced(b, i);
    var j :| 0 <= j < |PlanOf(b).tasks| && PlanOf(b).tasks[j] == task;
    assert FatesOf(b, ps, failing)[j] == FateAt(b, ps, failing, i);
    WriteNameCanonical(KeyAt(b, i));
  }

  lemma FormIsIndexed(b: Batch, ps: Params, failing: set<string>, outer: Results, toIndex: seq<Entry>, i: nat)
    returns (n: nat)
    requires GoodBatch(b) && Taken(b, failing, i)
    requires MergeInvariant(PlanOf(b).results, PlanOf(b).direct, FatesOf(b, ps, failing),
                            UpTo(|FatesOf(b, ps, failing)|), outer, toIndex)
    ensures n < |toIndex| && toIndex[n] == FateAt(b, ps, failing, i).form
  {
    var j := OuterHasFate(b, ps, failing, outer, toIndex, i);
    var fs := FatesOf(b, ps, failing);
    assert !fs[j].fails && PassedOn(fs, UpTo(|fs|), fs[j].form);
    n :| 0 <= n < |toIndex| && toIndex[n] == fs[j].form;
  }

  /** A write that an external backend took and whose index row was not given up can be
      read, whatever else failed: the key resolves to the value written. */
  lemma TakenAndIndexedResolves(b: Batch, ps: Params, failing: set<string>, outer: Results, toIndex: seq<Entry>,
                                t0: Rows, t1: Rows, reqs: seq<WriteRequest>, left: seq<WriteRequest>,
                                params: Params, backends: Backends, i: nat)
    requires CarriedOut(b, ps, failing, outer, toIndex, t0, t1, reqs, left)
    requires Sent(ps, FatesOf(b, ps, failing), {}, params) && Runs.Registered(backends)
    requires Taken(b, failing, i) && forall q :: q in left ==> q.row != LeafRow(KeyAt(b, i))
    ensures ResolveSpec(t1, params, backends, KeyAt(b, i)) == Resolved(Plain(b.entries[i].value), SecureAt(b, i))
  {
    var f := FateAt(b, ps, failing, i);
    FateIsHeld(b, ps, failing, params, i);
    MergedCanonical(b, ps, failing, outer, toIndex);
    var n := FormIsIndexed(b, ps, failing, outer, toIndex, i);
    LeafStored(t0, t1, toIndex, b.env.stamp, reqs, left, n);
    Runs.ResolveExternal(Runs.State(t1, params), backends, KeyAt(b, i), LeafRecord(f.form, b.env.stamp), f.param);
  }

  // --------------------------------------------------- when the index write is lost

  /** The store that the stamp of an index row leads to, if there is one. */
  function StampedStore(rec: Record, backends: Backends): Option<Store> {
    var stamp := rec.metadata.backend;
    if stamp == "" || stamp == BACKEND_DYNAMODB then Some(IndexStore)
    else if stamp in backends then Some(backends[stamp]) else None
  }

  /** A write that an external backend took, but whose index row is what it was before: the
      key is not found exactly if it had no row; a row stamped with the index still gives
      the old value; a row stamped with an external backend gives the new one, which the
      plain backend cannot decrypt. */
  lemma TakenButLostResolves(b: Batch, ps: Params, failing: set<string>, t0: Rows, t1: Rows,
                             params: Params, backends: Backends, i: nat)
    requires GoodBatch(b) && Taken(b, failing, i) && Sent(ps, FatesOf(b, ps, failing), {}, params)
    requires Same(t0, t1, LeafRow(KeyAt(b, i)))
    ensures var k, r := KeyAt(b, i), LeafRow(KeyAt(b, i));
            var now := ResolveSpec(t1, params, backends, k);
            && (now == NotFound <==> r !in t0)
            && (r in t0 ==>
                match StampedStore(t0[r], backends)
                case None => now == NotRegistered
                case Some(IndexStore) => now == Resolved(Plain(t0[r].value), t0[r].metadata.secure)
                case Some(ParamStore) => now == Revealed(b.entries[i].value, SecureAt(b, i), false)
                case Some(SecureParamStore) => now == Resolved(Plain(b.entries[i].value), SecureAt(b, i)))
  {
    FateIsHeld(b, ps, failing, params, i);
  }

  /** Row r of t leads to the value of entry i, or holds it. */
  predicate Readable(t: Rows, b: Batch, backends: Backends, i: nat)
    requires i < |b.entries| && i < |b.routes| && b.routes[i].To?
  {
    var r := LeafRow(KeyAt(b, i));
    r in t && match StampedStore(t[r], backends)
              case None => false
              case Some(IndexStore) => t[r].value == b.entries[i].value && t[r].metadata.secure == SecureAt(b, i)
              case Some(ParamStore) => !SecureAt(b, i)
              case Some(SecureParamStore) => true
  }

  /** Hence a write that an external backend took can be read, whatever became of its index
      write, if and only if the key has a row, stamped with a backend that can read what was
      written, or with the index and holding the same already. */
  lemma ReadableAfter(b: Batch, ps: Params, failing: set<string>, t1: Rows,
                      params: Params, backends: Backends, i: nat)
    requires GoodBatch(b) && Taken(b, failing, i) && Sent(ps, FatesOf(b, ps, failing), {}, params)
    ensures ResolveSpec(t1, params, backends, KeyAt(b, i)) == Resolved(Plain(b.entries[i].value), SecureAt(b, i)) <==>
            Readable(t1, b, backends, i)
  {
    TakenButLostResolves(b, ps, failing, t1, t1, params, backends, i);
  }

  // ------------------------------------------------------ an execution that loses it

  /** Some order of merging the reports, and what it ends in. */
  lemma MergingEnds(r0: Results, direct: seq<Entry>, fs: seq<Fate>)
    returns (results: Results, toIndex: seq<Entry>)
    requires Orderly(r0, direct, fs)
    ensures MergeInvariant(r0, direct, fs, UpTo(|fs|), results, toIndex)
  {
    results, toIndex := r0, direct;
    NothingMerged(r0, direct, fs);
    for i := 0 to |fs|
      invariant MergeInvariant(r0, direct, fs, UpTo(i), results, toIndex)
    {
      MergedOne(r0, direct, fs, UpTo(i), i, results, toIndex);
      DistinctOne(r0, direct, fs, UpTo(i), i, results, toIndex);
      results, toIndex := results[fs[i].key := fs[i].report],
                          if fs[i].fails then toIndex else toIndex + [fs[i].form];
    }
  }

  /** Some order of sending, and the parameters that it leaves. */
  lemma SendingEnds(ps: Params, fs: seq<Fate>) returns (params: Params)
    requires Independent(fs)
    ensures Sent(ps, fs, {}, params)
  {
    params := ps;
    var pending := UpTo(|fs|);
    NothingSent(ps, fs);
    while pending != {}
      invariant pending <= UpTo(|fs|) && Sent(ps, fs, pending, params)
      decreases |pending|
    {
      var i :| i in pending;
      var before := params;
      params := if fs[i].fails then before else before[fs[i].name := fs[i].param];
      SentOne(ps, fs, pending, i, before, params);
      pending := pending - {i};
    }
  }

  /** The requests of a batch can be listed. */
  lemma Listing(m: Requests) returns (reqs: seq<WriteRequest>)
    requires WellIdentified(m)
    ensures Enumerates(reqs, m)
  {
    reqs := [];
    var ids := m.Keys;
    while ids != {}
      invariant ids <= m.Keys && DistinctRows(reqs)
      invariant forall q :: q in reqs ==> IdOfRow(q.row) in m.Keys - ids && m[IdOfRow(q.row)] == q
      invariant forall id :: id in m && id !in ids ==> m[id] in reqs
      decreases |ids|
    {
      var id :| id in ids;
      ids := ids - {id};
      reqs := reqs + [m[id]];
    }
  }

  /** On any table and any parameters, a batch can be carried out like this: the backends
      take all but the keys refused, the index takes nothing. */
  lemma IndexWriteCanBeLost(b: Batch, ps: Params, failing: set<string>, t: Rows)
    returns (outer: Results, toIndex: seq<Entry>, reqs: seq<WriteRequest>, params: Params)
    requires GoodBatch(b)
    ensures CarriedOut(b, ps, failing, outer, toIndex, t, t, reqs, reqs)
    ensures Sent(ps, FatesOf(b, ps, failing), {}, params)
  {
    BatchOrderly(b, ps, failing);
    outer, toIndex := MergingEnds(PlanOf(b).results, PlanOf(b).direct, FatesOf(b, ps, failing));
    params := SendingEnds(ps, FatesOf(b, ps, failing));
    RequestsWellIdentified(toIndex, b.env.stamp);
    reqs := Listing(RequestsOf(toIndex, b.env.stamp));
    WrittenNothing(t, reqs);
  }

  /** So a key that had no row can be reported as written and not be found. */
  lemma ReportedButNotFound(b: Batch, ps: Params, failing: set<string>, t: Rows, backends: Backends, i: nat)
    returns (outer: Results, toIndex: seq<Entry>, reqs: seq<WriteRequest>, params: Params)
    requires GoodBatch(b) && Taken(b, failing, i) && LeafRow(KeyAt(b, i)) !in t
    ensures CarriedOut(b, ps, failing, outer, toIndex, t, t, reqs, reqs)
    ensures Sent(ps, FatesOf(b, ps, failing), {}, params)
    ensures KeyAt(b, i) in Report(outer, toIndex, reqs) && Report(outer, toIndex, reqs)[KeyAt(b, i)].err.None?
    ensures ResolveSpec(t, params, backends, KeyAt(b, i)) == NotFound
  {
    outer, toIndex, reqs, params := IndexWriteCanBeLost(b, ps, failing, t);
    ExternalReport(b, ps, failing, outer, toIndex, t, t, reqs, reqs, i);
    TakenButLostResolves(b, ps, failing, t, t, params, backends, i);
  }

  /** And a key that moved from the index to an external backend can be reported as written
      and keep its old value. */
  lemma ReportedButStale(b: Batch, ps: Params, failing: set<string>, t: Rows, backends: Backends, i: nat)
    returns (outer: Results, toIndex: seq<Entry>, reqs: seq<WriteRequest>, params: Params)
    requires GoodBatch(b) && Taken(b, failing, i) && LeafRow(KeyAt(b, i)) in t
    requires t[LeafRow(KeyAt(b, i))].metadata.backend == BACKEND_DYNAMODB
    ensures CarriedOut(b, ps, failing, outer, toIndex, t, t, reqs, reqs)
    ensures Sent(ps, FatesOf(b, ps, failing), {}, params)
    ensures KeyAt(b, i) in Report(outer, toIndex, reqs) && Report(outer, toIndex, reqs)[KeyAt(b, i)].err.None?
    ensures var rec := t[LeafRow(KeyAt(b, i))];
            ResolveSpec(t, params, backends, KeyAt(b, i)) == Resolved(Plain(rec.value), rec.metadata.secure)
  {
    outer, toIndex, reqs, params := IndexWriteCanBeLost(b, ps, failing, t);
    ExternalReport(b, ps, failing, outer, toIndex, t, t, reqs, reqs, i);
    TakenButLostResolves(b, ps, failing, t, t, params, backends, i);
  }

  // -------------------------------------- when a write that is reported done can be read

  /** Whatever fails, entry i resolves to the value written once its backend took it. */
  ghost predicate SurelyReadable(b: Batch, ps: Params, failing: set<string>, t0: Rows, backends: Backends, i: nat)
    requires GoodBatch(b) && Taken(b, failing, i)
  {
    forall outer: Results, toIndex: seq<Entry>, t1: Rows, reqs: seq<WriteRequest>, left: seq<WriteRequest>,
        params: Params ::
      CarriedOut(b, ps, failing, outer, toIndex, t0, t1, reqs, left) &&
      Sent(ps, FatesOf(b, ps, failing), {}, params) ==>
        ResolveSpec(t1, params, backends, KeyAt(b, i)) == Resolved(Plain(b.entries[i].value), SecureAt(b, i))
  }

  /** A request for a key's row took effect, or the row is what it was. */
  lemma LeafWrittenOrKept(t0: Rows, t1: Rows, entries: seq<Entry>, s: Stamp,
                          reqs: seq<WriteRequest>, left: seq<WriteRequest>, n: nat)
    requires CanonicalEntries(entries) && DistinctEntries(entries) && n < |entries|
    requires Enumerates(reqs, RequestsOf(entries, s)) && Written(t0, t1, reqs, left)
    ensures var r := LeafRow(entries[n].key);
            Same(t0, t1, r) || (r in t1 && t1[r] == LeafRecord(entries[n], s))
  {
    LeafRequested(entries, s, reqs, n);
    AppliedUnlessLeft(t0, t1, reqs, left, Put(LeafRow(entries[n].key), LeafRecord(entries[n], s)));
  }

  lemma ReadableStaysSo(b: Batch, ps: Params, failing: set<string>, outer: Results, toIndex: seq<Entry>,
                        t0: Rows, t1: Rows, reqs: seq<WriteRequest>, left: seq<WriteRequest>,
                        params: Params, backends: Backends, i: nat)
    requires CarriedOut(b, ps, failing, outer, toIndex, t0, t1, reqs, left)
    requires Sent(ps, FatesOf(b, ps, failing), {}, params) && Runs.Registered(backends)
    requires Taken(b, failing, i) && Readable(t0, b, backends, i)
    ensures ResolveSpec(t1, params, backends, KeyAt(b, i)) == Resolved(Plain(b.entries[i].value), SecureAt(b, i))
  {
    var f := FateAt(b, ps, failing, i);
    FateIsHeld(b, ps, failing, params, i);
    MergedCanonical(b, ps, failing, outer, toIndex);
    var n := FormIsIndexed(b, ps, failing, outer, toIndex, i);
    LeafWrittenOrKept(t0, t1, toIndex, b.env.stamp, reqs, left, n);
    if Same(t0, t1, LeafRow(KeyAt(b, i))) {
      ReadableAfter(b, ps, failing, t1, params, backends, i);
    } else {
      var rec := LeafRecord(f.form, b.env.stamp);
      Runs.ResolveExternal(Runs.State(t1, params), backends, KeyAt(b, i), rec, f.param);
    }
  }

  /** Among all executions of a batch, a write that its external backend takes, and that is
      therefore reported as done, resolves to the value written in every one of them if and
      only if the row that the key had before the call could read it already: a vault row,
      a plain one for a value that is not secure, or an index row with the same value. */
  lemma ReadableExactly(b: Batch, ps: Params, failing: set<string>, t0: Rows, backends: Backends, i: nat)
    requires GoodBatch(b) && Taken(b, failing, i) && Runs.Registered(backends)
    ensures SurelyReadable(b, ps, failing, t0, backends, i) <==> Readable(t0, b, backends, i)
  {
    if Readable(t0, b, backends, i) {
      forall outer: Results, toIndex: seq<Entry>, t1: Rows, reqs: seq<WriteRequest>, left: seq<WriteRequest>,
          params: Params | CarriedOut(b, ps, failing, outer, toIndex, t0, t1, reqs, left) &&
                           Sent(ps, FatesOf(b, ps, failing), {}, params)
        ensures ResolveSpec(t1, params, backends, KeyAt(b, i)) == Resolved(Plain(b.entries[i].value), SecureAt(b, i))
      {
        ReadableStaysSo(b, ps, failing, outer, toIndex, t0, t1, reqs, left, params, backends, i);
      }
    } else {
      var outer, toIndex, reqs, params := IndexWriteCanBeLost(b, ps, failing, t0);
      ReadableAfter(b, ps, failing, t0, params, backends, i);
    }
  }

  // --------------------------------------------------------- the method carries out

  /** Every call of the manager's write with a batch of distinct canonical keys is an
      execution in the sense of these statements. */
  lemma UpsertCarriesOut(b: Batch, failing: set<string>, before: Ledger, after: Ledger, ps: Params, params: Params,
                         outer: Results, toIndex: seq<Entry>, reqs: seq<WriteRequest>, left: seq<WriteRequest>)
    requires GoodBatch(b)
    requires Orderly(PlanOf(b).results, PlanOf(b).direct, FatesOf(b, ps, failing)) ==>
               && Sent(ps, FatesOf(b, ps, failing), {}, params)
               && MergeInvariant(PlanOf(b).results, PlanOf(b).direct, FatesOf(b, ps, failing),
                                 UpTo(|FatesOf(b, ps, failing)|), outer, toIndex)
    requires Enumerates(reqs, RequestsOf(toIndex, b.env.stamp)) && Conserved(before, after, reqs, left)
    ensures CarriedOut(b, ps, failing, outer, toIndex, before.rows, after.rows, reqs, left)
    ensures Sent(ps, FatesOf(b, ps, failing), {}, params)
  {
    BatchOrderly(b, ps, failing);
    SubMultisetWithin(left, reqs);
  }
}
