/** A batch of distinct canonical keys: the order in which its parts finish is immaterial. */
module GatewayPlan {
  import opened Text
  import opened Paths
  import opened Table
  import opened Canonicalize
  import opened EntryStore
  import opened UpsertTree
  import opened UpsertReport
  import opened Parameters
  import opened Gateway
  import opened ExternalWrites

  /** A batch with everything that decides where its entries go. */
  datatype Batch = Batch(entries: seq<Entry>, routes: seq<Routing>, env: Env)

  predicate WellSized(b: Batch) {
    |b.routes| == |b.entries|
  }

  function PlanOf(b: Batch): Plan
    requires WellSized(b)
  {
    PlanAll(b.entries, b.routes, b.env)
  }

  function Front(b: Batch): Batch
    requires WellSized(b) && b.entries != []
  {
    b.(entries := b.entries[..|b.entries| - 1], routes := b.routes[..|b.routes| - 1])
  }

  /** What entry i contributes to the index directly, if it is routed there. */
  function DirectAt(b: Batch, i: nat): Entry
    requires i < |b.entries|
  {
    IndexedDirectly(Prepared(b.entries[i], b.env))
  }

  function TaskAt(b: Batch, i: nat, st: Store): Task
    requires i < |b.entries|
  {
    Task(st, ForBackend(Prepared(b.entries[i], b.env), st))
  }

  /** Entry i is accounted for in the plan, in the part its route says. */
  ghost predicate Placed(b: Batch, p: Plan, i: nat)
    requires WellSized(b) && i < |b.entries|
  {
    match b.routes[i]
    case Unroutable => b.entries[i].key in p.results
    case To(IndexStore) => DirectAt(b, i) in p.direct
    case To(st) => TaskAt(b, i, st) in p.tasks
  }

  lemma {:induction false} EveryEntryPlaced(b: Batch, i: nat)
    requires WellSized(b) && i < |b.entries|
    ensures Placed(b, PlanOf(b), i)
    decreases |b.entries|
  {
    if i == |b.entries| - 1 {
    } else {
      EveryEntryPlaced(Front(b), i);
    }
  }

  ghost predicate DirectFrom(b: Batch, x: Entry)
    requires WellSized(b)
  {
    exists i :: 0 <= i < |b.entries| && b.routes[i] == To(IndexStore) && x == DirectAt(b, i)
  }

  ghost predicate TaskFrom(b: Batch, t: Task)
    requires WellSized(b)
  {
    exists i :: 0 <= i < |b.entries| && t.store != IndexStore &&
                b.routes[i] == To(t.store) && t == TaskAt(b, i, t.store)
  }

  ghost predicate FailureFrom(b: Batch, k: string)
    requires WellSized(b)
  {
    exists i :: 0 <= i < |b.entries| && b.routes[i] == Unroutable && k == b.entries[i].key
  }

  lemma FrontOrigins(b: Batch)
    requires WellSized(b) && b.entries != []
    ensures forall x :: DirectFrom(Front(b), x) ==> DirectFrom(b, x)
    ensures forall t :: TaskFrom(Front(b), t) ==> TaskFrom(b, t)
    ensures forall k :: FailureFrom(Front(b), k) ==> FailureFrom(b, k)
  {
    var f := Front(b);
    forall x | DirectFrom(f, x) ensures DirectFrom(b, x) {
      var i :| 0 <= i < |f.entries| && f.routes[i] == To(IndexStore) && x == DirectAt(f, i);
      assert b.routes[i] == To(IndexStore) && x == DirectAt(b, i);
    }
    forall t | TaskFrom(f, t) ensures TaskFrom(b, t) {
      var i :| 0 <= i < |f.entries| && t.store != IndexStore &&
               f.routes[i] == To(t.store) && t == TaskAt(f, i, t.store);
      assert b.routes[i] == To(t.store) && t == TaskAt(b, i, t.store);
    }
    forall k | FailureFrom(f, k) ensures FailureFrom(b, k) {
      var i :| 0 <= i < |f.entries| && f.routes[i] == Unroutable && k == f.entries[i].key;
      assert b.routes[i] == Unroutable && k == b.entries[i].key;
    }
  }

  /** Everything in the plan stems from an entry with the matching route. */
  ghost predicate Grounded(b: Batch, p: Plan)
    requires WellSized(b)
  {
    && (forall x :: x in p.direct ==> DirectFrom(b, x))
    && (forall t :: t in p.tasks ==> TaskFrom(b, t))
    && (forall k :: k in p.results ==> FailureFrom(b, k))
  }

  lemma {:induction false} PlanGrounded(b: Batch)
    requires WellSized(b)
    ensures Grounded(b, PlanOf(b))
    decreases |b.entries|
  {
    if b.entries == [] {
    } else {
      var n := |b.entries| - 1;
      var f := Front(b);
      PlanGrounded(f);
      FrontOrigins(b);
      var p, p' := PlanOf(f), PlanOf(b);
      var route := b.routes[n];
      assert p' == PlanOne(p, Prepared(b.entries[n], b.env), route);
      match route {
        case Unroutable => assert FailureFrom(b, b.entries[n].key);
        case To(IndexStore) => assert DirectFrom(b, DirectAt(b, n));
        case To(st) => assert TaskFrom(b, TaskAt(b, n, st));
      }
    }
  }

  predicate GoodBatch(b: Batch) {
    WellSized(b) && CanonicalEntries(b.entries) && DistinctEntries(b.entries)
  }

  predicate DistinctTasks(ts: seq<Task>) {
    forall i, j :: 0 <= i < |ts| && 0 <= j < |ts| && i != j ==> ts[i].entry.key != ts[j].entry.key
  }

  lemma LastKeyIsNew(b: Batch, i: nat)
    requires GoodBatch(b) && i < |b.entries| - 1
    ensures b.entries[i].key != b.entries[|b.entries| - 1].key
  {
  }

  lemma {:induction false} PlanDistinct(b: Batch)
    requires GoodBatch(b)
    ensures DistinctEntries(PlanOf(b).direct) && DistinctTasks(PlanOf(b).tasks)
    decreases |b.entries|
  {
    if b.entries == [] {
    } else {
      var n := |b.entries| - 1;
      var f := Front(b);
      PlanDistinct(f);
      var p := PlanOf(f);
      assert PlanOf(b) == PlanOne(p, Prepared(b.entries[n], b.env), b.routes[n]);
      forall x | x in p.direct ensures x.key != b.entries[n].key {
        DirectIsOlder(b, x);
      }
      forall t | t in p.tasks ensures t.entry.key != b.entries[n].key {
        TaskIsOlder(b, t);
      }
    }
  }

  lemma DirectIsOlder(b: Batch, x: Entry)
    requires GoodBatch(b) && b.entries != [] && x in PlanOf(Front(b)).direct
    ensures x.key != b.entries[|b.entries| - 1].key
  {
    var f := Front(b);
    PlanGrounded(f);
    assert DirectFrom(f, x);
    var i :| 0 <= i < |f.entries| && f.routes[i] == To(IndexStore) && x == DirectAt(f, i);
    LastKeyIsNew(b, i);
  }

  lemma TaskIsOlder(b: Batch, t: Task)
    requires GoodBatch(b) && b.entries != [] && t in PlanOf(Front(b)).tasks
    ensures t.entry.key != b.entries[|b.entries| - 1].key
  {
    var f := Front(b);
    PlanGrounded(f);
    assert TaskFrom(f, t);
    var i :| 0 <= i < |f.entries| && t.store != IndexStore &&
             f.routes[i] == To(t.store) && t == TaskAt(f, i, t.store);
    LastKeyIsNew(b, i);
  }

  function FatesOf(b: Batch, ps: Params, failing: set<string>): seq<Fate>
    requires WellSized(b)
  {
    Fates(ps, failing, b.env.style, PlanOf(b).tasks)
  }

  lemma WriteNameCanonical(k: string)
    requires Canonical(k)
    ensures WriteName(k) == "/" + k && NormalizeKey(k) == "/" + k
  {
    assert NormalizeKey(k) == "/" + k by { CanonicalIsStable(k); }
    assert SpaceFreeLower("/" + k) by {
      CanonicalCharacters(k);
      SlashInFront(k);
    }
    LowerStable("/" + k);
  }

  lemma FateWellFormed(ps: Params, failing: set<string>, style: ArnStyle, t: Task)
    ensures WellFormed(FateOf(ps, failing, style, t))
  {
  }

  lemma FateNamed(b: Batch, ps: Params, failing: set<string>, j: nat) returns (i: nat)
    requires GoodBatch(b) && j < |PlanOf(b).tasks|
    ensures i < |b.entries| && FatesOf(b, ps, failing)[j].key == b.entries[i].key
    ensures FatesOf(b, ps, failing)[j].store != IndexStore && b.routes[i] == To(FatesOf(b, ps, failing)[j].store)
    ensures FatesOf(b, ps, failing)[j].name == "/" + b.entries[i].key
  {
    PlanGrounded(b);
    var t := PlanOf(b).tasks[j];
    assert TaskFrom(b, t);
    i :| 0 <= i < |b.entries| && t.store != IndexStore && b.routes[i] == To(t.store) && t == TaskAt(b, i, t.store);
    WriteNameCanonical(b.entries[i].key);
    assert FatesOf(b, ps, failing)[j] == FateOf(ps, failing, b.env.style, t);
  }

  /** Batches of distinct canonical keys are orderly. */
  lemma FateIsNew(b: Batch, ps: Params, failing: set<string>, j: nat)
    requires GoodBatch(b) && j < |FatesOf(b, ps, failing)|
    ensures var f := FatesOf(b, ps, failing)[j];
            WellFormed(f) && f.key !in PlanOf(b).results && f.store != IndexStore
  {
    FateWellFormed(ps, failing, b.env.style, PlanOf(b).tasks[j]);
    var i := FateNamed(b, ps, failing, j);
    RoutedIsNoFailure(b, i);
  }

  lemma RoutedIsNoFailure(b: Batch, i: nat)
    requires GoodBatch(b) && i < |b.entries| && b.routes[i].To?
    ensures b.entries[i].key !in PlanOf(b).results
  {
    var k := b.entries[i].key;
    PlanGrounded(b);
    forall n | 0 <= n < |b.entries| && b.entries[n].key == k ensures b.routes[n].To? {
      assert n == i;
    }
    assert !FailureFrom(b, k);
  }

  lemma FateIsNotDirect(b: Batch, ps: Params, failing: set<string>, j: nat, x: Entry)
    requires GoodBatch(b) && j < |FatesOf(b, ps, failing)| && x in PlanOf(b).direct
    ensures x.key != FatesOf(b, ps, failing)[j].key
  {
    PlanGrounded(b);
    var i := FateNamed(b, ps, failing, j);
    var n :| 0 <= n < |b.entries| && b.routes[n] == To(IndexStore) && x == DirectAt(b, n);
    assert i != n;
  }

  lemma BatchOrderly(b: Batch, ps: Params, failing: set<string>)
    requires GoodBatch(b)
    ensures Orderly(PlanOf(b).results, PlanOf(b).direct, FatesOf(b, ps, failing))
  {
    var p, fs := PlanOf(b), FatesOf(b, ps, failing);
    PlanDistinct(b);
    forall j | 0 <= j < |fs| ensures WellFormed(fs[j]) && fs[j].key !in p.results && fs[j].store != IndexStore {
      FateIsNew(b, ps, failing, j);
    }
    forall j, x | 0 <= j < |fs| && x in p.direct ensures x.key != fs[j].key {
      FateIsNotDirect(b, ps, failing, j, x);
    }
    FatesIndependent(b, ps, failing);
  }

  lemma FatesIndependent(b: Batch, ps: Params, failing: set<string>)
    requires GoodBatch(b)
    ensures Independent(FatesOf(b, ps, failing))
  {
    var fs := FatesOf(b, ps, failing);
    PlanDistinct(b);
    forall i, j | 0 <= i < |fs| && 0 <= j < |fs| && i != j ensures fs[i].key != fs[j].key && fs[i].name != fs[j].name {
      assert PlanOf(b).tasks[i].entry.key != PlanOf(b).tasks[j].entry.key;
      var m := FateNamed(b, ps, failing, i);
      var n := FateNamed(b, ps, failing, j);
      assert ("/" + b.entries[m].key)[1..] == b.entries[m].key;
      assert ("/" + b.entries[n].key)[1..] == b.entries[n].key;
    }
  }

  /** How the index refers to a parameter: by its name, or by region, account and name. */
  lemma ArnOfKey(k: string, region: string, account: string)
    requires Canonical(k)
    ensures Arn(k, ShortArn) == "/" + k
    ensures Arn(k, FullArn(region, account)) == "arn:aws:ssm:" + region + ":" + account + ":parameter/" + k
  {
    WriteNameCanonical(k);
    assert ("/" + k)[1..] == k;
  }

  /** The index row of a directly routed entry: its value, the time and actor of the
      request, whether it is secure, the index as its backend, and the value's hash. */
  lemma RecordOfDirect(b: Batch, i: nat)
    requires i < |b.entries|
    ensures LeafRecord(DirectAt(b, i), b.env.stamp) ==
            Record(b.entries[i].value,
                   Metadata(b.env.stamp.now, b.env.stamp.actor, b.entries[i].secure, "upsert", "dynamodb",
                            b.env.hash(b.entries[i].value), 0))
  {
  }

  /** That of an externally routed entry: where the value is, and in which version. */
  lemma RecordOfExternal(b: Batch, ps: Params, failing: set<string>, i: nat)
    requires i < |b.entries| && i < |b.routes| && b.routes[i].To? && Canonical(b.entries[i].key)
    ensures var e, secure := b.entries[i], b.entries[i].secure || b.routes[i].store == SecureParamStore;
            LeafRecord(FateOf(ps, failing, b.env.style, TaskAt(b, i, b.routes[i].store)).form, b.env.stamp) ==
            Record(Arn(e.key, b.env.style),
                   Metadata(b.env.stamp.now, b.env.stamp.actor, secure, "upsert",
                            if secure then "parameterstore_secure" else "parameterstore", b.env.hash(e.value),
                            if "/" + e.key in ps then ps["/" + e.key].version + 1 else 1))
  {
    WriteNameCanonical(b.entries[i].key);
  }

  /** Writes use the lower-case name, reads the name as it is spelt; so a key written with
      capital letters is read back under its lower-case spelling only. */
  lemma WriteNameLowers(raw: string, x: string, y: string)
    requires Canonical(ToLower(raw)) && AllCut(x, Spaces) && AllCut(y, Spaces)
    ensures WriteName(x + raw + y) == "/" + ToLower(raw)
    ensures NormalizeKey(x + raw + y) == WriteName(x + raw + y) <==> ToLower(raw) == raw
  {
    NormalizeDecorated(raw, x, y);
    assert ToLower("/" + raw) == "/" + ToLower(raw);
    assert ("/" + raw)[1..] == raw && ("/" + ToLower(raw))[1..] == ToLower(raw);
  }
}
