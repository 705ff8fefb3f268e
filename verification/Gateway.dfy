/** The manager that routes entries over several backends and keeps one index of them. */
module Gateway {
  import opened Options
  import opened Table
  import opened EntryStore
  import opened Parameters
  import PrefixIndex

  datatype Store = IndexStore | ParamStore | SecureParamStore

  type Backends = map<string, Store>

  datatype Routing = To(store: Store) | Unroutable

  /** The backend for a key under a configuration: without a matching prefix the index,
      otherwise the backend registered for the prefix, failing closed. */
  function Route(cfg: PrefixIndex.Index, backends: Backends, key: string, secure: bool): Routing {
    match PrefixIndex.ByPrefixSpec(cfg, key)
    case NotFound => To(IndexStore)
    case EmptyPrefix => Unroutable
    case Found(c) =>
      var target := if secure then c.typeSecure else c.typeDefault;
      if target in backends then To(backends[target]) else Unroutable
  }

  const UNROUTABLE := "no backend for prefix"

  /** What a request brings along: its time, its actor, a content hash, the ARN style. */
  datatype Env = Env(stamp: Stamp, hash: string -> string, style: ArnStyle)

  /** The entry with fresh metadata and the fingerprint of its value. */
  function Prepared(e: Entry, env: Env): Entry {
    e.(metadata := Metadata(env.stamp.now, "", false, "", "", env.hash(e.value), 0))
  }

  /** The entry as the index takes it directly. */
  function IndexedDirectly(e: Entry): Entry {
    e.(metadata := e.metadata.(backend := BACKEND_DYNAMODB))
  }

  /** The entry as the external backend takes it: the vault makes it secure. */
  function ForBackend(e: Entry, store: Store): Entry {
    if store == SecureParamStore then e.(secure := true) else e
  }

  /** One external write in progress. */
  datatype Task = Task(store: Store, entry: Entry)

  // ------------------------------------------------------- sorting entries by route

  /** The tasks, the entries for the index and the failures that routing leads to. */
  datatype Plan = Plan(results: Results, direct: seq<Entry>, tasks: seq<Task>)

  function PlanOne(p: Plan, e: Entry, route: Routing): Plan {
    match route
    case Unroutable => p.(results := p.results[e.key := Result(e.key, Failed, Some(UNROUTABLE), None)])
    case To(IndexStore) => p.(direct := p.direct + [IndexedDirectly(e)])
    case To(store) => p.(tasks := p.tasks + [Task(store, ForBackend(e, store))])
  }

  function PlanAll(entries: seq<Entry>, routes: seq<Routing>, env: Env): Plan
    requires |routes| == |entries|
  {
    if entries == [] then Plan(map[], [], [])
    else
      var n := |entries| - 1;
      PlanOne(PlanAll(entries[..n], routes[..n], env), Prepared(entries[n], env), routes[n])
  }
}
