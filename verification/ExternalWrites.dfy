/** The concurrent part of a write: every external entry is sent by its backend's own
    routine, in any interleaving, and each routine reports under a lock when it is done. */
module ExternalWrites {
  import opened Options
  import opened EntryStore
  import opened UpsertReport
  import opened Parameters
  import opened Gateway

  /** What becomes of one external write, whenever it is its turn: the report, the entry
      passed on to the index, and the parameter it leaves. */
  datatype Fate = Fate(
    store: Store, key: string, name: string, fails: bool,
    report: Result, form: Entry, param: Parameter)

  function FateOf(ps: Params, failing: set<string>, style: ArnStyle, t: Task): Fate {
    var e, name := t.entry, WriteName(t.entry.key);
    var v := NextVersion(ps, name);
    var fails := e.key in failing;
    Fate(t.store, e.key, name, fails,
         if fails then SendFailure(e) else SendResult(ps, e, style),
         IndexForm(e, v, style), Parameter(e.value, e.secure, v))
  }

  function Fates(ps: Params, failing: set<string>, style: ArnStyle, tasks: seq<Task>): (fs: seq<Fate>)
    ensures |fs| == |tasks|
    ensures forall i :: 0 <= i < |tasks| ==> fs[i] == FateOf(ps, failing, style, tasks[i])
  {
    seq(|tasks|, i requires 0 <= i < |tasks| => FateOf(ps, failing, style, tasks[i]))
  }

  /** No two tasks write the same key or the same parameter. */
  predicate Independent(fs: seq<Fate>) {
    forall i, j :: 0 <= i < |fs| && 0 <= j < |fs| && i != j ==> fs[i].key != fs[j].key && fs[i].name != fs[j].name
  }

  // ------------------------------------------------------------------- the sends

  /** Writes outside pending have been sent, and only those. */
  ghost predicate Sent(p0: Params, fs: seq<Fate>, pending: set<nat>, params: Params) {
    && (forall i :: 0 <= i < |fs| && i in pending ==> SameParam(p0, params, fs[i].name))
    && (forall i :: 0 <= i < |fs| && i !in pending && !fs[i].fails ==>
          fs[i].name in params && params[fs[i].name] == fs[i].param)
    && (forall name :: (forall i :: 0 <= i < |fs| ==> fs[i].name != name) ==> SameParam(p0, params, name))
  }

  lemma SentOne(p0: Params, fs: seq<Fate>, pending: set<nat>, i: nat, before: Params, after: Params)
    requires Independent(fs) && Sent(p0, fs, pending, before) && i < |fs| && i in pending
    requires !fs[i].fails ==> fs[i].name in after && after[fs[i].name] == fs[i].param
    requires forall name :: name != fs[i].name ==> SameParam(before, after, name)
    ensures Sent(p0, fs, pending - {i}, after)
  {
    forall name | forall j :: 0 <= j < |fs| ==> fs[j].name != name ensures SameParam(p0, after, name) {
      assert SameParam(p0, before, name) && SameParam(before, after, name);
    }
    forall j | 0 <= j < |fs| && j != i
      ensures j in pending ==> SameParam(p0, after, fs[j].name)
      ensures j !in pending && !fs[j].fails ==> fs[j].name in after && after[fs[j].name] == fs[j].param
    {
      assert SameParam(before, after, fs[j].name);
    }
  }

  /** The reports collected so far by one backend's routine. */
  ghost predicate Collected(fs: seq<Fate>, pending: set<nat>, st: Store, op: Results) {
    && (forall i :: 0 <= i < |fs| && i !in pending && fs[i].store == st ==>
          fs[i].key in op && op[fs[i].key] == fs[i].report)
    && (forall k :: k in op ==> Reported(fs, pending, st, k))
  }

  /** Key k is that of a write of the backend that has been sent. */
  ghost predicate Reported(fs: seq<Fate>, pending: set<nat>, st: Store, k: string) {
    exists i :: 0 <= i < |fs| && i !in pending && fs[i].store == st && fs[i].key == k
  }

  lemma StillReported(fs: seq<Fate>, pending: set<nat>, i: nat, st: Store, k: string)
    requires Reported(fs, pending, st, k)
    ensures Reported(fs, pending - {i}, st, k)
  {
    var j :| 0 <= j < |fs| && j !in pending && fs[j].store == st && fs[j].key == k;
    assert j !in pending - {i};
  }

  lemma CollectedMine(fs: seq<Fate>, pending: set<nat>, i: nat, st: Store, op: Results)
    requires Independent(fs) && i < |fs| && i in pending && Collected(fs, pending, st, op) && fs[i].store == st
    ensures Collected(fs, pending - {i}, st, op[fs[i].key := fs[i].report])
  {
    forall k | k in op ensures Reported(fs, pending - {i}, st, k) {
      StillReported(fs, pending, i, st, k);
    }
    assert i !in pending - {i};
    assert Reported(fs, pending - {i}, st, fs[i].key);
  }

  lemma CollectedOther(fs: seq<Fate>, pending: set<nat>, i: nat, st: Store, op: Results)
    requires i < |fs| && Collected(fs, pending, st, op) && fs[i].store != st
    ensures Collected(fs, pending - {i}, st, op)
  {
    forall k | k in op ensures Reported(fs, pending - {i}, st, k) {
      StillReported(fs, pending, i, st, k);
    }
  }

  lemma CollectedOne(fs: seq<Fate>, pending: set<nat>, i: nat, st: Store, op: Results)
    requires Independent(fs) && i < |fs| && i in pending && Collected(fs, pending, st, op)
    ensures fs[i].store == st ==> Collected(fs, pending - {i}, st, op[fs[i].key := fs[i].report])
    ensures fs[i].store != st ==> Collected(fs, pending - {i}, st, op)
  {
    if fs[i].store == st {
      CollectedMine(fs, pending, i, st, op);
    } else {
      CollectedOther(fs, pending, i, st, op);
    }
  }

  // ------------------------------------------------------------------ the merges

  /** The entry is passed on by a write whose backend has reported. */
  ghost predicate PassedOn(fs: seq<Fate>, merged: set<nat>, x: Entry) {
    exists i :: 0 <= i < |fs| && i in merged && !fs[i].fails && x == fs[i].form
  }

  /** The reports and the entries for the index once the writes in merged are reported. */
  ghost predicate Merged(r0: Results, direct: seq<Entry>, fs: seq<Fate>, merged: set<nat>,
                         results: Results, toIndex: seq<Entry>) {
    && (forall i :: 0 <= i < |fs| && i in merged ==> fs[i].key in results && results[fs[i].key] == fs[i].report)
    && (forall k :: k in r0 ==> k in results && results[k] == r0[k])
    && (forall k :: k in results && k !in r0 ==> exists i :: 0 <= i < |fs| && i in merged && fs[i].key == k)
    && (forall x :: x in toIndex <==> x in direct || PassedOn(fs, merged, x))
  }

  lemma MergedOne(r0: Results, direct: seq<Entry>, fs: seq<Fate>, merged: set<nat>, i: nat,
                  results: Results, toIndex: seq<Entry>)
    requires Independent(fs) && i < |fs| && i !in merged && fs[i].key !in r0
    requires Merged(r0, direct, fs, merged, results, toIndex)
    ensures Merged(r0, direct, fs, merged + {i}, results[fs[i].key := fs[i].report],
                   if fs[i].fails then toIndex else toIndex + [fs[i].form])
  {
    var merged' := merged + {i};
    var toIndex' := if fs[i].fails then toIndex else toIndex + [fs[i].form];
    forall x ensures x in toIndex' <==> x in direct || PassedOn(fs, merged', x) {
      if PassedOn(fs, merged', x) {
        var j :| 0 <= j < |fs| && j in merged' && !fs[j].fails && x == fs[j].form;
        assert j == i || PassedOn(fs, merged, x);
      }
      if PassedOn(fs, merged, x) {
        var j :| 0 <= j < |fs| && j in merged && !fs[j].fails && x == fs[j].form;
        assert j in merged';
      }
    }
    forall k | k in results && k !in r0
      ensures exists j :: 0 <= j < |fs| && j in merged' && fs[j].key == k
    {
      var j :| 0 <= j < |fs| && j in merged && fs[j].key == k;
      assert j in merged';
    }
  }

  /** What FateOf guarantees of a single write. */
  predicate WellFormed(f: Fate) {
    && f.form.key == f.key
    && (f.fails ==> f.report.err.Some?)
    && (!f.fails ==> f.report.err.None? && f.report.output == Some(f.form))
  }

  /** A batch on whose entries the order of events has no influence. */
  ghost predicate Orderly(r0: Results, direct: seq<Entry>, fs: seq<Fate>) {
    && Independent(fs)
    && DistinctEntries(direct)
    && (forall i :: 0 <= i < |fs| ==> WellFormed(fs[i]) && fs[i].key !in r0 && fs[i].store != IndexStore)
    && (forall i, x :: 0 <= i < |fs| && x in direct ==> x.key != fs[i].key)
  }

  lemma DistinctOne(r0: Results, direct: seq<Entry>, fs: seq<Fate>, merged: set<nat>, i: nat,
                    results: Results, toIndex: seq<Entry>)
    requires Orderly(r0, direct, fs) && i < |fs| && i !in merged
    requires Merged(r0, direct, fs, merged, results, toIndex) && DistinctEntries(toIndex)
    ensures DistinctEntries(toIndex + [fs[i].form])
  {
    forall x | x in toIndex ensures x.key != fs[i].key {
      if PassedOn(fs, merged, x) {
        var j :| 0 <= j < |fs| && j in merged && !fs[j].fails && x == fs[j].form;
        assert WellFormed(fs[j]);
      }
    }
    assert WellFormed(fs[i]);
  }

  // ------------------------------------------------------ the routines, interleaved

  lemma SendMatchesFate(p0: Params, fs: seq<Fate>, pending: set<nat>, before: Params, failing: set<string>,
                        style: ArnStyle, tasks: seq<Task>, i: nat)
    requires fs == Fates(p0, failing, style, tasks) && Sent(p0, fs, pending, before)
    requires i < |tasks| && i in pending
    ensures FateOf(before, failing, style, tasks[i]) == fs[i]
  {
    assert SameParam(p0, before, fs[i].name);
    assert NextVersion(before, fs[i].name) == NextVersion(p0, fs[i].name);
    assert fs[i] == FateOf(p0, failing, style, tasks[i]);
  }

  /** A result that leads to the parameter as it is held is the one the fate foresees. */
  lemma LeadsToIndexForm(x: Entry, e: Entry, p: Parameter, style: ArnStyle)
    requires LeadsTo(x, e, p, style) && p.secure == e.secure
    ensures x == IndexForm(e, p.version, style)
  {
    var m := e.metadata;
    assert x.metadata == x.metadata.(version := 0, backend := "").(version := p.version, backend := x.metadata.backend);
    assert m.(version := 0, backend := "").(version := p.version, backend := x.metadata.backend) ==
           m.(version := p.version, backend := x.metadata.backend);
  }

  /** Sends one entry; its report and its trace are those of its fate at this moment. */
  method SendTask(ps: ParameterService, t: Task, failing: set<string>, style: ArnStyle) returns (res: Result)
    modifies ps
    ensures res == FateOf(old(ps.params), failing, style, t).report
    ensures Traced(old(ps.params), ps.params, FateOf(old(ps.params), failing, style, t))
  {
    var fails := t.entry.key in failing;
    res := ps.Send(t.entry, style, fails);
    if !fails {
      LeadsToIndexForm(res.output.value, t.entry, ps.params[WriteName(t.entry.key)], style);
    }
  }

  ghost predicate Traced(before: Params, after: Params, f: Fate) {
    && (!f.fails ==> f.name in after && after[f.name] == f.param)
    && (forall name :: name != f.name ==> SameParam(before, after, name))
  }

  ghost predicate MergeInvariant(r0: Results, direct: seq<Entry>, fs: seq<Fate>, merged: set<nat>,
                                 results: Results, toIndex: seq<Entry>) {
    && Orderly(r0, direct, fs)
    && Merged(r0, direct, fs, merged, results, toIndex)
    && DistinctEntries(toIndex)
  }

  ghost predicate MergedBy(fs: seq<Fate>, merged0: set<nat>, st: Store, ks: set<string>, merged: set<nat>) {
    && (forall i :: i in merged ==> i < |fs|)
    && (forall i: nat :: i < |fs| ==> (i in merged <==> i in merged0 || (fs[i].store == st && fs[i].key !in ks)))
  }

  lemma MergedByOne(fs: seq<Fate>, merged0: set<nat>, st: Store, ks: set<string>, merged: set<nat>, i: nat)
    requires Independent(fs) && MergedBy(fs, merged0, st, ks, merged)
    requires i < |fs| && fs[i].store == st && fs[i].key in ks
    ensures MergedBy(fs, merged0, st, ks - {fs[i].key}, merged + {i})
  {
  }

  lemma MergeStep(r0: Results, direct: seq<Entry>, fs: seq<Fate>, merged0: set<nat>, st: Store,
                  pending: set<nat>, op: Results, ks: set<string>, k: string, merged: set<nat>,
                  results: Results, toIndex: seq<Entry>)
    returns (merged': set<nat>)
    requires MergeInvariant(r0, direct, fs, merged, results, toIndex)
    requires MergedBy(fs, merged0, st, ks, merged) && k in ks && ks <= op.Keys
    requires Collected(fs, pending, st, op)
    requires forall i :: i in merged0 ==> i < |fs| && fs[i].store != st
    ensures MergeInvariant(r0, direct, fs, merged', results[k := op[k]],
                           if op[k].err.None? && op[k].output.Some? then toIndex + [op[k].output.value] else toIndex)
    ensures MergedBy(fs, merged0, st, ks - {k}, merged')
  {
    assert Reported(fs, pending, st, k);
    var i :| 0 <= i < |fs| && i !in pending && fs[i].store == st && fs[i].key == k;
    assert op[k] == fs[i].report;
    MergeFate(r0, direct, fs, merged, i, results, toIndex);
    MergedByOne(fs, merged0, st, ks, merged, i);
    merged' := merged + {i};
  }

  /** Taking in the report of one more write, and the entry that comes with it. */
  lemma MergeFate(r0: Results, direct: seq<Entry>, fs: seq<Fate>, merged: set<nat>, i: nat,
                  results: Results, toIndex: seq<Entry>)
    requires MergeInvariant(r0, direct, fs, merged, results, toIndex) && i < |fs| && i !in merged
    ensures var res := fs[i].report;
            MergeInvariant(r0, direct, fs, merged + {i}, results[fs[i].key := res],
                           if res.err.None? && res.output.Some? then toIndex + [res.output.value] else toIndex)
  {
    assert WellFormed(fs[i]);
    MergedOne(r0, direct, fs, merged, i, results, toIndex);
    DistinctOne(r0, direct, fs, merged, i, results, toIndex);
  }

  /** One routine's report, merged into the shared maps in whatever order the map yields. */
  method MergeReports(op: Results, results0: Results, toIndex0: seq<Entry>, ghost st: Store, ghost pending: set<nat>,
                      ghost r0: Results, ghost direct: seq<Entry>, ghost fs: seq<Fate>, ghost merged0: set<nat>)
    returns (results: Results, toIndex: seq<Entry>, ghost merged: set<nat>)
    ensures CanMerge(op, results0, toIndex0, st, pending, r0, direct, fs, merged0) ==>
              && MergeInvariant(r0, direct, fs, merged, results, toIndex)
              && MergedBy(fs, merged0, st, {}, merged)
  {
    results, toIndex, merged := results0, toIndex0, merged0;
    ghost var ok := CanMerge(op, results0, toIndex0, st, pending, r0, direct, fs, merged0);
    if ok {
      MergedByNone(fs, merged0, st, pending, op);
    }
    var ks := op.Keys;
    while ks != {}
      invariant ks <= op.Keys
      invariant ok ==> MergeInvariant(r0, direct, fs, merged, results, toIndex) && MergedBy(fs, merged0, st, ks, merged)
      decreases |ks|
    {
      var k :| k in ks;
      if ok {
        merged := MergeStep(r0, direct, fs, merged0, st, pending, op, ks, k, merged, results, toIndex);
      }
      var res := op[k];
      results := results[k := res];
      if res.err.None? && res.output.Some? {
        toIndex := toIndex + [res.output.value];
      }
      ks := ks - {k};
    }
  }

  ghost predicate CanMerge(op: Results, results: Results, toIndex: seq<Entry>, st: Store, pending: set<nat>,
                           r0: Results, direct: seq<Entry>, fs: seq<Fate>, merged: set<nat>) {
    && MergeInvariant(r0, direct, fs, merged, results, toIndex)
    && Collected(fs, pending, st, op)
    && (forall i :: 0 <= i < |fs| && i in pending ==> fs[i].store != st)
    && (forall i :: i in merged ==> i < |fs| && fs[i].store != st)
  }

  lemma MergedByNone(fs: seq<Fate>, merged: set<nat>, st: Store, pending: set<nat>, op: Results)
    requires Collected(fs, pending, st, op)
    requires forall i :: 0 <= i < |fs| && i in pending ==> fs[i].store != st
    requires forall i :: i in merged ==> i < |fs| && fs[i].store != st
    ensures MergedBy(fs, merged, st, op.Keys, merged)
  {
  }

  /** The reports collected by the two routines. */
  datatype Collections = Collections(plain: Results, secure: Results)

  function Of(c: Collections, st: Store): Results {
    if st == SecureParamStore then c.secure else c.plain
  }

  function Collect(c: Collections, st: Store, k: string, res: Result): Collections {
    if st == SecureParamStore then c.(secure := c.secure[k := res]) else c.(plain := c.plain[k := res])
  }

  /** The state in the middle of the concurrent part: some writes are still to be sent, and
      the backends in unmerged have not reported. */
  ghost predicate Underway(p0: Params, fs: seq<Fate>, params: Params, pending: set<nat>, c: Collections,
                           unmerged: set<Store>, merged: set<nat>) {
    && Sent(p0, fs, pending, params)
    && Collected(fs, pending, ParamStore, c.plain)
    && Collected(fs, pending, SecureParamStore, c.secure)
    && (forall i :: i in pending ==> i < |fs| && fs[i].store in unmerged)
    && (forall i :: i in merged ==> i < |fs|)
    && (forall i: nat :: i < |fs| ==> (i in merged <==> fs[i].store !in unmerged))
  }

  lemma UnderwaySend(p0: Params, fs: seq<Fate>, params: Params, pending: set<nat>, c: Collections,
                     unmerged: set<Store>, merged: set<nat>, i: nat, params': Params)
    requires Independent(fs) && Underway(p0, fs, params, pending, c, unmerged, merged)
    requires i in pending && i < |fs| && fs[i].store != IndexStore && Traced(params, params', fs[i])
    ensures Underway(p0, fs, params', pending - {i}, Collect(c, fs[i].store, fs[i].key, fs[i].report), unmerged, merged)
  {
    SentOne(p0, fs, pending, i, params, params');
    CollectedOne(fs, pending, i, ParamStore, c.plain);
    CollectedOne(fs, pending, i, SecureParamStore, c.secure);
  }

  /** The routine of backend st has sent everything it has to send. */
  predicate Done(tasks: seq<Task>, pending: set<nat>, st: Store) {
    forall i :: 0 <= i < |tasks| && i in pending ==> tasks[i].store != st
  }

  lemma UnderwayMerge(p0: Params, fs: seq<Fate>, params: Params, pending: set<nat>, c: Collections,
                      unmerged: set<Store>, merged: set<nat>, st: Store, merged': set<nat>)
    requires Underway(p0, fs, params, pending, c, unmerged, merged) && st in unmerged
    requires forall i :: i in pending ==> fs[i].store != st
    requires MergedBy(fs, merged, st, {}, merged')
    ensures Underway(p0, fs, params, pending, c, unmerged - {st}, merged')
  {
  }

  function UpTo(n: nat): (s: set<nat>)
    ensures forall i: nat :: i in s <==> i < n
  {
    if n == 0 then {} else UpTo(n - 1) + {n - 1}
  }

  lemma NothingCollected(fs: seq<Fate>, st: Store)
    ensures Collected(fs, UpTo(|fs|), st, map[])
  {
  }

  lemma NothingSent(p0: Params, fs: seq<Fate>)
    ensures Sent(p0, fs, UpTo(|fs|), p0)
  {
  }

  lemma NothingMerged(r0: Results, direct: seq<Entry>, fs: seq<Fate>)
    requires Orderly(r0, direct, fs)
    ensures MergeInvariant(r0, direct, fs, {}, r0, direct)
  {
  }

  lemma TwoBackends(r0: Results, direct: seq<Entry>, fs: seq<Fate>)
    requires Orderly(r0, direct, fs)
    ensures forall i: nat :: i < |fs| ==> fs[i].store in {ParamStore, SecureParamStore}
  {
    forall i: nat | i < |fs| ensures fs[i].store in {ParamStore, SecureParamStore} {
      assert WellFormed(fs[i]) && fs[i].store != IndexStore;
    }
  }

  lemma UnderwayStarts(p0: Params, fs: seq<Fate>, r0: Results, direct: seq<Entry>)
    requires Orderly(r0, direct, fs)
    ensures Underway(p0, fs, p0, UpTo(|fs|), Collections(map[], map[]), {ParamStore, SecureParamStore}, {})
    ensures MergeInvariant(r0, direct, fs, {}, r0, direct)
  {
    TwoBackends(r0, direct, fs);
    NothingSent(p0, fs);
    NothingCollected(fs, ParamStore);
    NothingCollected(fs, SecureParamStore);
    NothingMerged(r0, direct, fs);
  }

  lemma UnderwayEnds(p0: Params, fs: seq<Fate>, params: Params, c: Collections, merged: set<nat>)
    requires Underway(p0, fs, params, {}, c, {}, merged)
    ensures Sent(p0, fs, {}, params) && merged == UpTo(|fs|)
  {
  }

  /** One step of a routine: it sends one of its entries and keeps the report. */
  method SendStep(ps: ParameterService, tasks: seq<Task>, pending: set<nat>, i: nat, c: Collections,
                  failing: set<string>, style: ArnStyle,
                  ghost p0: Params, ghost fs: seq<Fate>, ghost unmerged: set<Store>, ghost merged: set<nat>)
    returns (c': Collections)
    requires i in pending && i < |tasks| && tasks[i].store != IndexStore
    modifies ps
    ensures fs == Fates(p0, failing, style, tasks) && Independent(fs) &&
            Underway(p0, fs, old(ps.params), pending, c, unmerged, merged) ==>
              Underway(p0, fs, ps.params, pending - {i}, c', unmerged, merged)
  {
    var res := SendTask(ps, tasks[i], failing, style);
    c' := Collect(c, tasks[i].store, tasks[i].entry.key, res);
    if fs == Fates(p0, failing, style, tasks) && Independent(fs) &&
       Underway(p0, fs, old(ps.params), pending, c, unmerged, merged)
    {
      SendMatchesFate(p0, fs, pending, old(ps.params), failing, style, tasks, i);
      UnderwaySend(p0, fs, old(ps.params), pending, c, unmerged, merged, i, ps.params);
    }
  }

  /** The last step of a routine: its reports are merged. */
  method ReportStep(c: Collections, st: Store, results0: Results, toIndex0: seq<Entry>,
                    ghost params: Params, ghost pending: set<nat>, ghost r0: Results, ghost direct: seq<Entry>,
                    ghost p0: Params, ghost fs: seq<Fate>, ghost unmerged: set<Store>, ghost merged0: set<nat>)
    returns (results: Results, toIndex: seq<Entry>, ghost merged: set<nat>)
    requires st in unmerged && st != IndexStore
    ensures MergeInvariant(r0, direct, fs, merged0, results0, toIndex0) &&
            Underway(p0, fs, params, pending, c, unmerged, merged0) &&
            (forall i: nat :: i in pending && i < |fs| ==> fs[i].store != st) ==>
              && MergeInvariant(r0, direct, fs, merged, results, toIndex)
              && Underway(p0, fs, params, pending, c, unmerged - {st}, merged)
  {
    results, toIndex, merged := MergeReports(Of(c, st), results0, toIndex0, st, pending, r0, direct, fs, merged0);
    if MergeInvariant(r0, direct, fs, merged0, results0, toIndex0) &&
       Underway(p0, fs, params, pending, c, unmerged, merged0) &&
       (forall i: nat :: i in pending && i < |fs| ==> fs[i].store != st)
    {
      assert CanMerge(Of(c, st), results0, toIndex0, st, pending, r0, direct, fs, merged0);
      UnderwayMerge(p0, fs, params, pending, c, unmerged, merged0, st, merged);
    }
  }

  /** The whole state of the concurrent part. */
  datatype Progress = Progress(
    pending: set<nat>, unmerged: set<Store>, collected: Collections, results: Results, toIndex: seq<Entry>)

  ghost predicate Running(p0: Params, fs: seq<Fate>, params: Params, g: Progress,
                          r0: Results, direct: seq<Entry>, merged: set<nat>) {
    && Underway(p0, fs, params, g.pending, g.collected, g.unmerged, merged)
    && MergeInvariant(r0, direct, fs, merged, g.results, g.toIndex)
  }

  /** What every state keeps, whatever the batch. */
  predicate Sane(tasks: seq<Task>, g: Progress) {
    && IndexStore !in g.unmerged
    && forall i :: i in g.pending ==> 0 <= i < |tasks| && tasks[i].store in g.unmerged
  }

  function StepsLeft(g: Progress): nat {
    |g.pending| + |g.unmerged|
  }

  lemma SaneStart(tasks: seq<Task>, g: Progress)
    requires forall i :: 0 <= i < |tasks| ==> tasks[i].store != IndexStore
    requires g.pending == UpTo(|tasks|) && g.unmerged == {ParamStore, SecureParamStore}
    ensures Sane(tasks, g)
  {
    forall i | i in g.pending ensures 0 <= i < |tasks| && tasks[i].store in g.unmerged {
      assert tasks[i].store != IndexStore;
    }
  }

  lemma OneFewer<T>(s: set<T>, x: T)
    requires x in s
    ensures |s - {x}| < |s|
  {
  }

  lemma SaneAfterSend(tasks: seq<Task>, g: Progress, g': Progress, i: nat)
    requires Sane(tasks, g) && i in g.pending && g' == g.(pending := g.pending - {i}, collected := g'.collected)
    ensures Sane(tasks, g') && StepsLeft(g') < StepsLeft(g)
  {
    OneFewer(g.pending, i);
  }

  lemma SaneAfterReport(tasks: seq<Task>, g: Progress, g': Progress, st: Store)
    requires Sane(tasks, g) && st in g.unmerged && Done(tasks, g.pending, st)
    requires g' == g.(unmerged := g.unmerged - {st}, results := g'.results, toIndex := g'.toIndex)
    ensures Sane(tasks, g') && StepsLeft(g') < StepsLeft(g)
  {
    OneFewer(g.unmerged, st);
  }

  /** A step in which the routine of write i sends it. */
  method AdvanceSend(ps: ParameterService, tasks: seq<Task>, failing: set<string>, style: ArnStyle, g: Progress, i: nat,
                     ghost p0: Params, ghost fs: seq<Fate>, ghost r0: Results, ghost direct: seq<Entry>,
                     ghost merged: set<nat>)
    returns (g': Progress)
    requires Sane(tasks, g) && i in g.pending && i < |tasks| && tasks[i].store != IndexStore
    requires fs == Fates(p0, failing, style, tasks)
    modifies ps
    ensures Sane(tasks, g') && StepsLeft(g') < StepsLeft(g)
    ensures Running(p0, fs, old(ps.params), g, r0, direct, merged) ==>
              Running(p0, fs, ps.params, g', r0, direct, merged)
  {
    var c := SendStep(ps, tasks, g.pending, i, g.collected, failing, style, p0, fs, g.unmerged, merged);
    g' := g.(pending := g.pending - {i}, collected := c);
    SaneAfterSend(tasks, g, g', i);
  }

  /** A step in which the routine of a backend reports. */
  method AdvanceReport(tasks: seq<Task>, g: Progress, st: Store, ghost params: Params,
                       ghost p0: Params, ghost fs: seq<Fate>, ghost r0: Results, ghost direct: seq<Entry>,
                       ghost merged0: set<nat>, ghost failing: set<string>, ghost style: ArnStyle)
    returns (g': Progress, ghost merged: set<nat>)
    requires Sane(tasks, g) && st in g.unmerged && st != IndexStore && Done(tasks, g.pending, st)
    requires fs == Fates(p0, failing, style, tasks)
    ensures Sane(tasks, g') && StepsLeft(g') < StepsLeft(g)
    ensures Running(p0, fs, params, g, r0, direct, merged0) ==> Running(p0, fs, params, g', r0, direct, merged)
  {
    var results, toIndex;
    results, toIndex, merged := ReportStep(g.collected, st, g.results, g.toIndex, params, g.pending,
                                           r0, direct, p0, fs, g.unmerged, merged0);
    g' := g.(unmerged := g.unmerged - {st}, results := results, toIndex := toIndex);
    SaneAfterReport(tasks, g, g', st);
  }

  /** All external writes of a batch, under any interleaving of the routines: each step is
      one send of some routine, or the report of a routine that has sent everything. */
  method WriteExternal(ps: ParameterService, tasks: seq<Task>, failing: set<string>, style: ArnStyle,
                       r0: Results, direct: seq<Entry>)
    returns (results: Results, toIndex: seq<Entry>)
    requires forall i :: 0 <= i < |tasks| ==> tasks[i].store != IndexStore
    modifies ps
    ensures var fs := Fates(old(ps.params), failing, style, tasks);
            Orderly(r0, direct, fs) ==>
              && Sent(old(ps.params), fs, {}, ps.params)
              && MergeInvariant(r0, direct, fs, UpTo(|fs|), results, toIndex)
  {
    ghost var p0, fs := ps.params, Fates(ps.params, failing, style, tasks);
    ghost var ok := Orderly(r0, direct, fs);
    ghost var merged: set<nat> := {};
    var g := Progress(UpTo(|tasks|), {ParamStore, SecureParamStore}, Collections(map[], map[]), r0, direct);
    SaneStart(tasks, g);
    if ok {
      UnderwayStarts(p0, fs, r0, direct);
    }
    while g.unmerged != {}
      invariant Sane(tasks, g)
      invariant ok ==> Running(p0, fs, ps.params, g, r0, direct, merged)
      decreases StepsLeft(g)
    {
      var send: bool := *;
      var st :| st in g.unmerged;
      if g.pending != {} && (send || !Done(tasks, g.pending, st)) {
        var i :| i in g.pending;
        g := AdvanceSend(ps, tasks, failing, style, g, i, p0, fs, r0, direct, merged);
      } else {
        g, merged := AdvanceReport(tasks, g, st, ps.params, p0, fs, r0, direct, merged, failing, style);
      }
    }
    results, toIndex := g.results, g.toIndex;
    assert g.pending == {};
    if ok {
      UnderwayEnds(p0, fs, ps.params, g.collected, merged);
    }
  }
}
