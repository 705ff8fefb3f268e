/** The manager over whole histories: whatever the routing does, resolving a key gives what
    a plain map would. */
module GatewayRuns {
  import opened Text
  import opened Paths
  import opened Table
  import opened KeyTree
  import opened SubtreeDelete
  import opened Subtree
  import opened EntryStore
  import opened UpsertTree
  import opened UpsertReport
  import opened TreeRuns
  import opened Parameters
  import opened Gateway
  import opened ExternalWrites
  import opened GatewayOps
  import opened GatewayPlan
  import opened Schedules

  datatype State = State(rows: Rows, params: Params)

  /** The plain map: what each key holds, and whether it was written as secure. */
  datatype Value = Value(text: string, secure: bool)

  type Model = map<string, Value>

  /** The three backends under their own names. */
  predicate Registered(backends: Backends) {
    && BACKEND_DYNAMODB in backends && backends[BACKEND_DYNAMODB] == IndexStore
    && BACKEND_PARAMETERS in backends && backends[BACKEND_PARAMETERS] == ParamStore
    && BACKEND_PARAMETERS_SECURE in backends && backends[BACKEND_PARAMETERS_SECURE] == SecureParamStore
  }

  /** Resolving k gives what the plain map holds, decrypted, and marked secure if it was
      written so; and not found if the map has nothing. */
  predicate AgreesAt(s: State, backends: Backends, m: Model, k: string) {
    var r := ResolveSpec(s.rows, s.params, backends, k);
    if k in m then r.Resolved? && r.value == Plain(m[k].text) && (m[k].secure ==> r.secure)
    else r == NotFound
  }

  /** k has a row in the index exactly if the plain map has it. */
  predicate IndexedAt(s: State, m: Model, k: string) {
    LeafRow(k) in s.rows <==> k in m
  }

  // ---------------------------------------------------------------- reading a key

  /** Resolving depends on the key's row and its parameter only. */
  lemma ResolveLocal(a: State, b: State, backends: Backends, k: string)
    requires Same(a.rows, b.rows, LeafRow(k)) && SameParam(a.params, b.params, NormalizeKey(k))
    ensures ResolveSpec(a.rows, a.params, backends, k) == ResolveSpec(b.rows, b.params, backends, k)
  {
  }

  lemma ResolveIndexed(s: State, backends: Backends, k: string, rec: Record)
    requires LeafRow(k) in s.rows && s.rows[LeafRow(k)] == rec && rec.metadata.backend == BACKEND_DYNAMODB
    ensures ResolveSpec(s.rows, s.params, backends, k) == Resolved(Plain(rec.value), rec.metadata.secure)
  {
  }

  lemma ResolveExternal(s: State, backends: Backends, k: string, rec: Record, p: Parameter)
    requires Registered(backends) && LeafRow(k) in s.rows && s.rows[LeafRow(k)] == rec
    requires rec.metadata.backend == if p.secure then BACKEND_PARAMETERS_SECURE else BACKEND_PARAMETERS
    requires NormalizeKey(k) in s.params && s.params[NormalizeKey(k)] == p
    ensures ResolveSpec(s.rows, s.params, backends, k) == Resolved(Plain(p.value), p.secure)
  {
  }

  // -------------------------------------------------------------- a batch of writes

  /** The state after a batch of distinct canonical keys that succeeded everywhere. */
  ghost predicate Wrote(s0: State, b: Batch, outer: Results, toIndex: seq<Entry>, s1: State) {
    && GoodBatch(b)
    && (forall i :: 0 <= i < |b.entries| ==> b.routes[i].To?)
    && MergeInvariant(PlanOf(b).results, PlanOf(b).direct, FatesOf(b, s0.params, {}),
                      UpTo(|FatesOf(b, s0.params, {})|), outer, toIndex)
    && Sent(s0.params, FatesOf(b, s0.params, {}), {}, s1.params)
    && Installed(s0.rows, s1.rows, RequestsOf(toIndex, b.env.stamp))
  }

  lemma DirectResolved(s0: State, b: Batch, outer: Results, toIndex: seq<Entry>, s1: State, backends: Backends, i: nat)
    requires Wrote(s0, b, outer, toIndex, s1) && i < |b.entries| && b.routes[i] == To(IndexStore)
    ensures ResolveSpec(s1.rows, s1.params, backends, b.entries[i].key) ==
            Resolved(Plain(b.entries[i].value), b.entries[i].secure)
  {
    EveryEntryPlaced(b, i);
    var x := DirectAt(b, i);
    assert x in toIndex;
    MergedCanonical(b, s0.params, {}, outer, toIndex);
    LeafAfter(s0.rows, s1.rows, toIndex, b.env.stamp, x);
    ResolveIndexed(s1, backends, x.key, LeafRecord(x, b.env.stamp));
  }

  lemma TaskFate(b: Batch, ps: Params, i: nat) returns (j: nat)
    requires GoodBatch(b) && i < |b.entries| && b.routes[i].To? && b.routes[i].store != IndexStore
    ensures j < |PlanOf(b).tasks| && PlanOf(b).tasks[j] == TaskAt(b, i, b.routes[i].store)
    ensures FatesOf(b, ps, {})[j] == FateOf(ps, {}, b.env.style, TaskAt(b, i, b.routes[i].store))
  {
    EveryEntryPlaced(b, i);
    assert TaskAt(b, i, b.routes[i].store) in PlanOf(b).tasks;
    j :| 0 <= j < |PlanOf(b).tasks| && PlanOf(b).tasks[j] == TaskAt(b, i, b.routes[i].store);
  }

  lemma TaskResolved(s0: State, b: Batch, outer: Results, toIndex: seq<Entry>, s1: State, backends: Backends, i: nat)
    requires Wrote(s0, b, outer, toIndex, s1) && Registered(backends)
    requires i < |b.entries| && b.routes[i].store != IndexStore
    ensures ResolveSpec(s1.rows, s1.params, backends, b.entries[i].key) ==
            Resolved(Plain(b.entries[i].value), b.entries[i].secure || b.routes[i].store == SecureParamStore)
  {
    var k := b.entries[i].key;
    var j := TaskFate(b, s0.params, i);
    var f := FatesOf(b, s0.params, {})[j];
    var e := TaskAt(b, i, b.routes[i].store).entry;
    assert !f.fails && f.form in toIndex by {
      assert PassedOn(FatesOf(b, s0.params, {}), UpTo(|FatesOf(b, s0.params, {})|), f.form);
    }
    WriteNameCanonical(k);
    MergedCanonical(b, s0.params, {}, outer, toIndex);
    LeafAfter(s0.rows, s1.rows, toIndex, b.env.stamp, f.form);
    ResolveExternal(s1, backends, k, LeafRecord(f.form, b.env.stamp), f.param);
  }

  /** A key outside the batch resolves as before. */
  lemma OtherResolved(s0: State, b: Batch, outer: Results, toIndex: seq<Entry>, s1: State,
                      backends: Backends, k: string)
    requires Wrote(s0, b, outer, toIndex, s1) && Canonical(k)
    requires forall i :: 0 <= i < |b.entries| ==> b.entries[i].key != k
    ensures Same(s0.rows, s1.rows, LeafRow(k))
    ensures ResolveSpec(s1.rows, s1.params, backends, k) == ResolveSpec(s0.rows, s0.params, backends, k)
  {
    MergedCanonical(b, s0.params, {}, outer, toIndex);
    OtherRow(b, s0.params, outer, toIndex, k);
    OthersAfter(s0.rows, s1.rows, toIndex, b.env.stamp, LeafRow(k));
    var fs := FatesOf(b, s0.params, {});
    WriteNameCanonical(k);
    forall j | 0 <= j < |fs| ensures fs[j].name != "/" + k {
      var i := FateNamed(b, s0.params, {}, j);
      assert ("/" + k)[1..] == k && ("/" + b.entries[i].key)[1..] == b.entries[i].key;
    }
    assert SameParam(s0.params, s1.params, "/" + k);
    ResolveLocal(s0, s1, backends, k);
  }

  lemma OtherRow(b: Batch, ps: Params, outer: Results, toIndex: seq<Entry>, k: string)
    requires GoodBatch(b) && Canonical(k) && CanonicalEntries(toIndex)
    requires MergeInvariant(PlanOf(b).results, PlanOf(b).direct, FatesOf(b, ps, {}),
                            UpTo(|FatesOf(b, ps, {})|), outer, toIndex)
    requires forall i :: 0 <= i < |b.entries| ==> b.entries[i].key != k
    ensures !Touched(toIndex, LeafRow(k))
  {
    RowOfKey(k);
    forall n | 0 <= n < |toIndex| ensures LeafRow(toIndex[n].key) != LeafRow(k) {
      assert toIndex[n] in toIndex;
      var i := IndexedKeyKnown(b, ps, {}, toIndex[n]);
      RowOfKey(toIndex[n].key);
    }
    forall q | q in Needed(toIndex) ensures MarkerRow(q) != LeafRow(k) {
      NeededIsCanonical(toIndex, q);
      RowOfKey(q);
    }
  }

  function ValueOf(e: Entry): Value {
    Value(e.value, e.secure)
  }

  function WriteAll(m: Model, entries: seq<Entry>): Model {
    if entries == [] then m
    else
      var e := entries[|entries| - 1];
      WriteAll(m, entries[..|entries| - 1])[e.key := ValueOf(e)]
  }

  lemma {:induction false} WriteAllAt(m: Model, entries: seq<Entry>, k: string)
    requires DistinctEntries(entries)
    ensures forall i :: 0 <= i < |entries| && entries[i].key == k ==>
              k in WriteAll(m, entries) && WriteAll(m, entries)[k] == ValueOf(entries[i])
    ensures (forall i :: 0 <= i < |entries| ==> entries[i].key != k) ==>
              (k in WriteAll(m, entries) <==> k in m) && (k in m ==> WriteAll(m, entries)[k] == m[k])
  {
    if entries == [] {
    } else {
      var n := |entries| - 1;
      var front := entries[..n];
      WriteAllAt(m, front, k);
      assert forall i :: 0 <= i < n ==> front[i] == entries[i];
    }
  }

  lemma WroteAgrees(s0: State, b: Batch, outer: Results, toIndex: seq<Entry>, s1: State,
                    backends: Backends, m: Model, k: string)
    requires Wrote(s0, b, outer, toIndex, s1) && Registered(backends) && Canonical(k)
    requires AgreesAt(s0, backends, m, k) && IndexedAt(s0, m, k)
    ensures AgreesAt(s1, backends, WriteAll(m, b.entries), k) && IndexedAt(s1, WriteAll(m, b.entries), k)
  {
    WriteAllAt(m, b.entries, k);
    if i: nat :| i < |b.entries| && b.entries[i].key == k {
      if b.routes[i] == To(IndexStore) {
        DirectResolved(s0, b, outer, toIndex, s1, backends, i);
      } else {
        TaskResolved(s0, b, outer, toIndex, s1, backends, i);
      }
    } else {
      OtherResolved(s0, b, outer, toIndex, s1, backends, k);
    }
  }

  // -------------------------------------------------------------------- a delete

  /** The state after a delete that reported success and reached the index. */
  ghost predicate Erased(s0: State, k: string, store: Store, s1: State) {
    && Canonical(k)
    && s1.rows == Survivors(s0.rows, k)
    && s1.params == if store == IndexStore then s0.params else RemoveParam(s0.params, k)
  }

  function EraseAll(m: Model, k: string): Model {
    map other | other in m && other != k && !HasPrefix(other, k + "/") :: m[other]
  }

  lemma RemoveParamLocal(ps: Params, k: string, other: string)
    requires Canonical(k) && Canonical(other) && k != other
    ensures SameParam(ps, RemoveParam(ps, k), NormalizeKey(other))
  {
    WriteNameCanonical(k);
    WriteNameCanonical(other);
    assert ("/" + k)[1..] == k && ("/" + other)[1..] == other;
  }

  /** Every key that is stored below k has its markers between k and itself. */
  ghost predicate Reaches(t: Rows, k: string) {
    forall other :: Canonical(other) && LeafRow(other) in t && HasPrefix(other, k + "/") ==>
      MarkedDown(t, k, LeafRow(other).path)
  }

  /** A delete of k that reaches everything below k keeps the agreement. */
  lemma ErasedAgrees(s0: State, k: string, store: Store, s1: State, backends: Backends, m: Model, other: string)
    requires Erased(s0, k, store, s1) && CanonicalRows(s0.rows) && Reaches(s0.rows, k)
    requires Canonical(other) && AgreesAt(s0, backends, m, other) && IndexedAt(s0, m, other)
    ensures AgreesAt(s1, backends, EraseAll(m, k), other) && IndexedAt(s1, EraseAll(m, k), other)
  {
    if LeafRow(other) in s0.rows {
      ErasedLeaf(s0.rows, k, other);
    }
    if other != k && !HasPrefix(other, k + "/") {
      RemoveParamLocal(s0.params, k, other);
      ResolveLocal(s0, s1, backends, other);
    }
  }

  /** And one that misses a key leaves it to be resolved. */
  lemma MissedStays(s0: State, k: string, store: Store, s1: State, backends: Backends, m: Model, other: string)
    requires Erased(s0, k, store, s1) && CanonicalRows(s0.rows) && Canonical(other)
    requires LeafRow(other) in s0.rows && HasPrefix(other, k + "/") && !MarkedDown(s0.rows, k, LeafRow(other).path)
    requires AgreesAt(s0, backends, m, other) && IndexedAt(s0, m, other)
    ensures !AgreesAt(s1, backends, EraseAll(m, k), other)
  {
    ErasedLeaf(s0.rows, k, other);
    assert |other| > |k|;
    RemoveParamLocal(s0.params, k, other);
    ResolveLocal(s0, s1, backends, other);
  }

  // ------------------------------------------------------------------- histories

  datatype Step =
    | WriteStep(batch: Batch, outer: Results, toIndex: seq<Entry>)
    | EraseStep(key: string, store: Store)

  /** The empty stores, and steps one after another with the state each led to. Every write
      carries the routes its entries took, every delete the backend it was routed to. */
  datatype Past = Begin | Next(before: Past, step: Step, state: State)

  function Now(h: Past): State {
    if h.Begin? then State(map[], map[]) else h.state
  }

  ghost predicate Taken(s0: State, step: Step, s1: State) {
    match step
    case WriteStep(b, outer, toIndex) => Wrote(s0, b, outer, toIndex, s1)
    case EraseStep(k, store) => Erased(s0, k, store, s1)
  }

  ghost predicate Happened(h: Past) {
    h.Next? ==> Happened(h.before) && Taken(Now(h.before), h.step, h.state)
  }

  function ReplayStep(m: Model, step: Step): Model {
    match step
    case WriteStep(b, _, _) => WriteAll(m, b.entries)
    case EraseStep(k, _) => EraseAll(m, k)
  }

  /** The plain map after the same history. */
  function Replay(h: Past): Model {
    if h.Begin? then map[] else ReplayStep(Replay(h.before), h.step)
  }

  /** Every delete of the history reaches what is below its key. */
  ghost predicate ErasesReach(h: Past) {
    h.Next? ==> ErasesReach(h.before) && (h.step.EraseStep? ==> Reaches(Now(h.before).rows, h.step.key))
  }

  lemma StepKeepsCanonical(s0: State, step: Step, s1: State)
    requires Taken(s0, step, s1) && CanonicalRows(s0.rows)
    ensures CanonicalRows(s1.rows)
  {
    if step.WriteStep? {
      MergedCanonical(step.batch, s0.params, {}, step.outer, step.toIndex);
      BatchKeepsCanonical(s0.rows, s1.rows, step.toIndex, step.batch.env.stamp);
    }
  }

  lemma {:induction false} RowsStayCanonical(h: Past)
    requires Happened(h)
    ensures CanonicalRows(Now(h).rows)
  {
    if h.Begin? {
    } else {
      RowsStayCanonical(h.before);
      StepKeepsCanonical(Now(h.before), h.step, h.state);
    }
  }

  lemma StepAgrees(s0: State, step: Step, s1: State, backends: Backends, m: Model, k: string)
    requires Taken(s0, step, s1) && CanonicalRows(s0.rows) && Registered(backends) && Canonical(k)
    requires step.EraseStep? ==> Reaches(s0.rows, step.key)
    requires AgreesAt(s0, backends, m, k) && IndexedAt(s0, m, k)
    ensures AgreesAt(s1, backends, ReplayStep(m, step), k) && IndexedAt(s1, ReplayStep(m, step), k)
  {
    match step {
      case WriteStep(b, outer, toIndex) =>
        WroteAgrees(s0, b, outer, toIndex, s1, backends, m, k);
      case EraseStep(key, store) =>
        ErasedAgrees(s0, key, store, s1, backends, m, k);
    }
  }

  /** After any history of successful writes and deletes, under routes that changed in any
      way in between, if the deletes reached what was below their keys, resolving a canonical
      key gives what the plain map holds. */
  lemma {:induction false} ResolveRefinesMap(h: Past, backends: Backends, k: string)
    requires Happened(h) && ErasesReach(h) && Registered(backends) && Canonical(k)
    ensures AgreesAt(Now(h), backends, Replay(h), k) && IndexedAt(Now(h), Replay(h), k)
  {
    if h.Begin? {
    } else {
      RowsStayCanonical(h.before);
      ResolveRefinesMap(h.before, backends, k);
      StepAgrees(Now(h.before), h.step, h.state, backends, Replay(h.before), k);
    }
  }

  ghost predicate AgreesNow(s: State, backends: Backends, m: Model) {
    forall k :: Canonical(k) ==> AgreesAt(s, backends, m, k)
  }

  /** In every state of the history every canonical key resolves as the plain map says. */
  ghost predicate AgreesThroughout(h: Past, backends: Backends) {
    AgreesNow(Now(h), backends, Replay(h)) && (h.Next? ==> AgreesThroughout(h.before, backends))
  }

  lemma MissedDisagrees(h: Past, backends: Backends)
    requires Happened(h) && h.Next? && h.step.EraseStep? && Registered(backends)
    requires ErasesReach(h.before) && !Reaches(Now(h.before).rows, h.step.key)
    ensures !AgreesNow(Now(h), backends, Replay(h))
  {
    var s, k := Now(h.before), h.step.key;
    var other :| && Canonical(other) && LeafRow(other) in s.rows && HasPrefix(other, k + "/")
                 && !MarkedDown(s.rows, k, LeafRow(other).path);
    RowsStayCanonical(h.before);
    ResolveRefinesMap(h.before, backends, other);
    MissedStays(s, k, h.step.store, h.state, backends, Replay(h.before), other);
  }

  /** The manager refines the plain map throughout a history if and only if every delete of
      it reached what was below its key. */
  lemma {:induction false} RefinesExactly(h: Past, backends: Backends)
    requires Happened(h) && Registered(backends)
    ensures AgreesThroughout(h, backends) <==> ErasesReach(h)
  {
    if ErasesReach(h) {
      forall k | Canonical(k) ensures AgreesAt(Now(h), backends, Replay(h), k) {
        ResolveRefinesMap(h, backends, k);
      }
    }
    if h.Begin? {
    } else {
      RefinesExactly(h.before, backends);
      if ErasesReach(h.before) && !ErasesReach(h) {
        MissedDisagrees(h, backends);
      }
    }
  }

  /** No write of the history loses a marker. */
  ghost predicate MarkersKept(h: Past) {
    h.Next? ==>
      && MarkersKept(h.before)
      && (h.step.WriteStep? ==> NoMarkerLost(Now(h.before).rows, h.step.toIndex, h.step.batch.env.stamp))
  }

  lemma StepKeepsIndex(s0: State, step: Step, s1: State)
    requires Taken(s0, step, s1) && CanonicalRows(s0.rows) && AncestorClosed(s0.rows)
    requires step.WriteStep? ==> NoMarkerLost(s0.rows, step.toIndex, step.batch.env.stamp)
    ensures CanonicalRows(s1.rows) && AncestorClosed(s1.rows)
  {
    match step {
      case WriteStep(b, outer, toIndex) =>
        MergedCanonical(b, s0.params, {}, outer, toIndex);
        BatchKeepsTree(s0.rows, s1.rows, toIndex, b.env.stamp);
      case EraseStep(k, store) =>
        DeleteFromClosed(s0.rows, k);
        PrunedKeepsTree(s0.rows, k);
    }
  }

  lemma ClosedReaches(t: Rows, k: string)
    requires CanonicalRows(t) && AncestorClosed(t) && Canonical(k)
    ensures Reaches(t, k)
  {
    forall other | Canonical(other) && LeafRow(other) in t && HasPrefix(other, k + "/")
      ensures MarkedDown(t, k, LeafRow(other).path)
    {
      RowOfKey(other);
      UnderFolderByKey(k, LeafRow(other));
      SubtreeNotEmptyPath(k, LeafRow(other).path);
      ClosedIsMarked(t, k, LeafRow(other));
    }
  }

  /** If no write lost a marker, every delete reached what was below its key. */
  lemma {:induction false} KeptMarkersReach(h: Past)
    requires Happened(h) && MarkersKept(h)
    ensures CanonicalRows(Now(h).rows) && AncestorClosed(Now(h).rows) && ErasesReach(h)
  {
    if h.Begin? {
    } else {
      KeptMarkersReach(h.before);
      StepKeepsIndex(Now(h.before), h.step, h.state);
      if h.step.EraseStep? {
        ClosedReaches(Now(h.before).rows, h.step.key);
      }
    }
  }

  // ------------------------------------------- the operations as steps of a history

  /** A write in which everything succeeded is a step of a history. */
  lemma UpsertIsStep(s0: State, s1: State, b: Batch, outer: Results, toIndex: seq<Entry>,
                     reqs: seq<WriteRequest>)
    requires GoodBatch(b) && forall i :: 0 <= i < |b.entries| ==> b.routes[i].To?
    requires Orderly(PlanOf(b).results, PlanOf(b).direct, FatesOf(b, s0.params, {})) ==>
               && Sent(s0.params, FatesOf(b, s0.params, {}), {}, s1.params)
               && MergeInvariant(PlanOf(b).results, PlanOf(b).direct, FatesOf(b, s0.params, {}),
                                 UpTo(|FatesOf(b, s0.params, {})|), outer, toIndex)
    requires Enumerates(reqs, RequestsOf(toIndex, b.env.stamp)) && Written(s0.rows, s1.rows, reqs, [])
    ensures Wrote(s0, b, outer, toIndex, s1)
  {
    BatchOrderly(b, s0.params, {});
    WrittenInstalls(s0.rows, s1.rows, reqs, RequestsOf(toIndex, b.env.stamp));
  }
}
