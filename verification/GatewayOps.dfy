/** The manager's operations: a batch of writes over all backends, a delete and a resolve. */
module GatewayOps {
  import opened Seqs
  import opened Text
  import opened Paths
  import opened Table
  import opened TableKit
  import opened EntryStore
  import opened EntryReads
  import opened Parameters
  import opened Gateway
  import opened ExternalWrites
  import EntryLevels
  import PrefixIndex
  import SubtreeDelete

  /** Where the entries of a batch go; each is routed by the configuration in force when
      its turn comes. */
  function Routes(entries: seq<Entry>, cfgs: seq<PrefixIndex.Index>, backends: Backends): (routes: seq<Routing>)
    requires |cfgs| == |entries|
    ensures |routes| == |entries|
    ensures forall i :: 0 <= i < |entries| ==> routes[i] == Route(cfgs[i], backends, entries[i].key, entries[i].secure)
  {
    seq(|entries|, i requires 0 <= i < |entries| => Route(cfgs[i], backends, entries[i].key, entries[i].secure))
  }

  method Sort(entries: seq<Entry>, cfgs: seq<PrefixIndex.Index>, backends: Backends, env: Env) returns (p: Plan)
    requires |cfgs| == |entries|
    ensures p == PlanAll(entries, Routes(entries, cfgs, backends), env)
  {
    p := Plan(map[], [], []);
    ghost var routes := Routes(entries, cfgs, backends);
    for i := 0 to |entries|
      invariant p == PlanAll(entries[..i], routes[..i], env)
    {
      PlanNext(entries, routes, env, i);
      var route := ResolveBackend(cfgs[i], backends, entries[i].key, entries[i].secure);
      p := PlanOne(p, Prepared(entries[i], env), route);
    }
    assert entries[..|entries|] == entries && routes[..|routes|] == routes;
  }

  method ResolveBackend(cfg: PrefixIndex.Index, backends: Backends, key: string, secure: bool) returns (r: Routing)
    ensures r == Route(cfg, backends, key, secure)
  {
    var found := PrefixIndex.ByPrefix(cfg, key);
    match found {
      case NotFound => r := To(IndexStore);
      case EmptyPrefix => r := Unroutable;
      case Found(c) =>
        var target := if secure then c.typeSecure else c.typeDefault;
        r := if target in backends then To(backends[target]) else Unroutable;
    }
  }

  lemma PlanNext(entries: seq<Entry>, routes: seq<Routing>, env: Env, i: nat)
    requires |routes| == |entries| && i < |entries|
    ensures PlanAll(entries[..i + 1], routes[..i + 1], env) ==
            PlanOne(PlanAll(entries[..i], routes[..i], env), Prepared(entries[i], env), routes[i])
  {
    Front(entries, i);
    Front(routes, i);
  }

  /** The reports of the backends and of the index put together: what the backend reported
      stands, unless it failed and the index failed too. */
  function MergeIndex(r: Results, idx: Results): Results {
    map k | k in r.Keys + idx.Keys ::
      if k in r && (k !in idx || r[k].err.None? || idx[k].err.None?) then r[k] else idx[k]
  }

  /** One report of the index taken in. */
  function TakeIn(results: Results, k: string, res: Result): Results {
    if res.err.Some? then
      if k in results && results[k].err.None? then results else results[k := res]
    else if k in results then results
    else results[k := res]
  }

  lemma TakeInNext(r: Results, done: Results, k: string, res: Result)
    requires k !in done
    ensures TakeIn(MergeIndex(r, done), k, res) == MergeIndex(r, done[k := res])
  {
    var a, b := TakeIn(MergeIndex(r, done), k, res), MergeIndex(r, done[k := res]);
    assert a.Keys == b.Keys;
  }

  lemma FoldStart(r: Results, idx: Results)
    ensures MergeIndex(r, idx - idx.Keys) == r
  {
    assert idx - idx.Keys == map[];
  }

  lemma FoldNext(r: Results, idx: Results, ks: set<string>, k: string)
    requires k in ks && ks <= idx.Keys
    ensures TakeIn(MergeIndex(r, idx - ks), k, idx[k]) == MergeIndex(r, idx - (ks - {k}))
  {
    TakeInNext(r, idx - ks, k, idx[k]);
    OneMoreKey(idx, ks, k);
  }

  lemma OneMoreKey(idx: Results, ks: set<string>, k: string)
    requires k in ks && ks <= idx.Keys
    ensures k !in idx - ks && (idx - ks)[k := idx[k]] == idx - (ks - {k})
  {
  }

  lemma FoldEnd(r: Results, idx: Results)
    ensures MergeIndex(r, idx - {}) == MergeIndex(r, idx)
  {
    assert idx - {} == idx;
  }

  method FoldIndexReport(r: Results, idx: Results) returns (results: Results)
    ensures results == MergeIndex(r, idx)
  {
    results := r;
    var ks := idx.Keys;
    FoldStart(r, idx);
    while ks != {}
      invariant ks <= idx.Keys && results == MergeIndex(r, idx - ks)
      decreases |ks|
    {
      var k :| k in ks;
      FoldNext(r, idx, ks, k);
      results := TakeIn(results, k, idx[k]);
      ks := ks - {k};
    }
    FoldEnd(r, idx);
  }

  /** The backend that a configuration names for a write. */
  function TargetOf(c: PrefixIndex.Config, secure: bool): string {
    if secure then c.typeSecure else c.typeDefault
  }

  /** A key is routed by the best stored prefix that covers it: to the backend it names, or
      nowhere if that one is not registered. Only a key that no prefix covers goes to the
      index by default. */
  lemma RouteFollowsBestCover(cfg: PrefixIndex.Index, backends: Backends, key: string, secure: bool)
    requires PrefixIndex.WellKeyed(cfg) && TrimSlashes(key) != ""
    ensures (forall c :: c in cfg ==> !PrefixIndex.Covers(c, TrimSlashes(key))) ==>
              Route(cfg, backends, key, secure) == To(IndexStore)
    ensures forall c :: PrefixIndex.BestCover(cfg, TrimSlashes(key), c) ==>
              var target := TargetOf(cfg[c], secure);
              Route(cfg, backends, key, secure) == if target in backends then To(backends[target]) else Unroutable
  {
    var clean := TrimSlashes(key);
    PrefixIndex.LookupIsBestCover(cfg, clean);
    forall c | PrefixIndex.BestCover(cfg, clean, c)
      ensures PrefixIndex.ByPrefixSpec(cfg, key) == PrefixIndex.Found(cfg[c])
    {
      var b :| PrefixIndex.BestCover(cfg, clean, b) && PrefixIndex.ByPrefixSpec(cfg, key) == PrefixIndex.Found(cfg[b]);
      PrefixIndex.BestCoverUnique(cfg, clean, b, c);
    }
  }

  /** A batch of writes. The ghost results are the reports of the backends, the entries sent
      to the index in the order they arrived, its requests, and those given up. */
  method Upsert(svc: TableService, ps: ParameterService, backends: Backends, entries: seq<Entry>,
                cfgs: seq<PrefixIndex.Index>, env: Env, failing: set<string>)
    returns (results: Results, ghost outer: Results, ghost toIndex: seq<Entry>,
             ghost reqs: seq<WriteRequest>, ghost left: seq<WriteRequest>)
    requires |cfgs| == |entries|
    modifies svc, ps
    ensures var p := PlanAll(entries, Routes(entries, cfgs, backends), env);
            var fs := Fates(old(ps.params), failing, env.style, p.tasks);
            Orderly(p.results, p.direct, fs) ==>
              && Sent(old(ps.params), fs, {}, ps.params)
              && MergeInvariant(p.results, p.direct, fs, UpTo(|fs|), outer, toIndex)
    ensures Enumerates(reqs, RequestsOf(toIndex, env.stamp))
    ensures Conserved(old(svc.WriteLog()), svc.WriteLog(), reqs, left)
    ensures results == MergeIndex(outer, MarkFailed(Optimistic(toIndex), left))
    ensures svc.refused == old(svc.refused) ==> left == [] && results == MergeIndex(outer, Optimistic(toIndex))
  {
    var p := Sort(entries, cfgs, backends, env);
    PlanTasks(entries, Routes(entries, cfgs, backends), env);
    var res, indexed := WriteExternal(ps, p.tasks, failing, env.style, p.results, p.direct);
    outer, toIndex := res, indexed;
    if indexed == [] {
      reqs, left := [], [];
      NothingToIndex(svc.WriteLog(), env.stamp, outer);
      results := res;
    } else {
      var idx;
      idx, reqs, left := EntryStore.Upsert(svc, indexed, env.stamp);
      results := FoldIndexReport(res, idx);
    }
  }

  lemma NothingToIndex(log: Ledger, s: Stamp, r: Results)
    ensures Enumerates([], RequestsOf([], s)) && Conserved(log, log, [], [])
    ensures MergeIndex(r, MarkFailed(Optimistic([]), [])) == r
  {
    ConservedNothing(log);
  }

  lemma {:induction false} PlanTasks(entries: seq<Entry>, routes: seq<Routing>, env: Env)
    requires |routes| == |entries|
    ensures forall i :: 0 <= i < |PlanAll(entries, routes, env).tasks| ==>
              PlanAll(entries, routes, env).tasks[i].store != IndexStore
  {
    if entries == [] {
    } else {
      var n := |entries| - 1;
      PlanTasks(entries[..n], routes[..n], env);
    }
  }

  // ------------------------------------------------------------ Delete and Resolve

  /** Deletes through the backend that the key is routed to as if it were not secure, and
      then from the index; a failure of that last step is not reported. */
  method Delete(svc: TableService, ps: ParameterService, backends: Backends, cfg: PrefixIndex.Index, key: string)
    returns (err: bool, ghost indexErr: bool)
    modifies svc, ps
    ensures var route := Route(cfg, backends, key, false);
            && (route == Unroutable ==> err)
            && (!err ==>
                  ps.params == if route == To(IndexStore) then old(ps.params) else RemoveParam(old(ps.params), key))
            && (!err && route == To(IndexStore) ==> !indexErr)
    ensures forall name :: name != NormalizeKey(key) ==> SameParam(old(ps.params), ps.params, name)
    ensures svc.refused >= old(svc.refused) && ps.refused >= old(ps.refused)
    ensures err && Route(cfg, backends, key, false).To? ==>
              svc.refused > old(svc.refused) || ps.refused > old(ps.refused)
    ensures indexErr ==> svc.refused > old(svc.refused)
    ensures !err && svc.refused == old(svc.refused) ==> svc.rows == SubtreeDelete.Survivors(old(svc.rows), key)
    ensures !err && !indexErr ==> svc.rows == SubtreeDelete.Survivors(old(svc.rows), key)
    ensures SubtreeDelete.OnlyDoomedLost(old(svc.rows), svc.rows, key)
  {
    var route := ResolveBackend(cfg, backends, key, false);
    err, indexErr := true, false;
    if route.To? {
      if route.store == IndexStore {
        err := SubtreeDelete.Delete(svc, key);
        indexErr := err;
      } else {
        ghost var before := ps.params;
        err := ps.Remove(key);
        if !err {
          RemovedExactly(before, ps.params, key);
          var e := SubtreeDelete.Delete(svc, key);
          indexErr := e;
        }
      }
    }
  }

  /** What resolving a key gives: the index row decides which backend is asked. */
  function ResolveSpec(t: Rows, params: Params, backends: Backends, key: string): Resolution {
    match Lookup(t, key)
    case None => NotFound
    case Some(e) =>
      var b := e.metadata.backend;
      if b == "" || b == BACKEND_DYNAMODB then Resolved(Plain(e.value), e.secure)
      else if b !in backends then NotRegistered
      else if backends[b] == IndexStore then Resolved(Plain(e.value), e.secure)
      else ReadParam(params, key, backends[b] == SecureParamStore)
  }

  method Resolve(svc: TableService, ps: ParameterService, backends: Backends, key: string) returns (r: Resolution)
    modifies svc`refused, ps`refused
    ensures r == ReadFailed ==> svc.refused > old(svc.refused) || ps.refused > old(ps.refused)
    ensures r == ReadFailed || r == ResolveSpec(svc.rows, ps.params, backends, key)
  {
    var found, ok := Retrieve(svc, key);
    if !ok {
      return ReadFailed;
    }
    match found {
      case None => r := NotFound;
      case Some(e) =>
        var b := e.metadata.backend;
        if b == "" || b == BACKEND_DYNAMODB {
          r := Resolved(Plain(e.value), e.secure);
        } else if b !in backends {
          r := NotRegistered;
        } else if backends[b] == IndexStore {
          var again, ok' := Retrieve(svc, key);
          r := if ok' && again.Some? then Resolved(Plain(again.value.value), again.value.secure) else ReadFailed;
        } else {
          r := ps.Read(key, backends[b] == SecureParamStore);
        }
    }
  }

  /** A key that is empty but for slashes goes nowhere, whatever is configured. */
  lemma EmptyKeyUnroutable(cfg: PrefixIndex.Index, backends: Backends, key: string, secure: bool)
    requires forall i :: 0 <= i < |key| ==> key[i] == '/'
    ensures Route(cfg, backends, key, secure) == Unroutable
  {
    EntryLevels.OnlySlashes(key);
  }
}
