/** Deleting a key with everything below it: the root row, then a breadth-first walk over
    folder markers that empties one directory at a time. */
module SubtreeDelete {
  import opened Seqs
  import opened Text
  import opened Paths
  import opened Table
  import opened TableKit
  import opened KeyTree

  /** The directory the walk starts from. */
  function StartDir(key: string): string {
    EscapeEmptyPath(TrimSuffix(key, "/"))
  }

  function Partition(t: Rows, dir: string): set<RowKey> {
    set r | r in t && r.path == dir
  }

  function Markers(t: Rows): set<RowKey> {
    set r | r in t && IsMarker(r)
  }

  /** t1 is t0 without some of the rows in gone. */
  ghost predicate Shrunk(t0: Rows, t1: Rows, gone: set<RowKey>) {
    && (forall r :: r in t1 ==> r in t0 && t1[r] == t0[r])
    && (forall r :: r in t0 && r !in t1 ==> r in gone)
  }

  function Removals(page: seq<RowKey>): (reqs: seq<WriteRequest>)
    ensures |reqs| == |page|
    ensures forall i :: 0 <= i < |page| ==> reqs[i] == Remove(page[i])
  {
    seq(|page|, i requires 0 <= i < |page| => Remove(page[i]))
  }

  function PageSet(page: seq<RowKey>): set<RowKey> {
    set r | r in page
  }

  /** The directories that the markers of a page lead to, in page order. */
  function Children(page: seq<RowKey>): seq<string> {
    if page == [] then []
    else
      var front, r := Children(page[..|page| - 1]), page[|page| - 1];
      if IsMarker(r) then front + [ChildPath(r)] else front
  }

  lemma RemovalsWritten(t0: Rows, t1: Rows, page: seq<RowKey>, left: seq<WriteRequest>)
    requires Written(t0, t1, Removals(page), left) && Within(left, Removals(page))
    ensures Shrunk(t0, t1, PageSet(page))
    ensures left == [] ==> t1 == t0 - PageSet(page)
  {
    var reqs := Removals(page);
    forall r ensures r !in PageSet(page) ==> Same(t0, t1, r) {
      if r !in PageSet(page) {
        assert forall q :: q in reqs ==> q.row != r;
      }
    }
    forall r | r in PageSet(page) ensures (r in t1 ==> r in t0 && t1[r] == t0[r]) && (left == [] ==> r !in t1) {
      var i :| 0 <= i < |page| && page[i] == r;
      assert reqs[i] == Remove(r) && reqs[i] in reqs;
      assert reqs[i] !in left ==> Applied(t1, reqs[i]);
    }
  }

  lemma RemovalsNext(page: seq<RowKey>, i: nat)
    requires i < |page|
    ensures Removals(page[..i + 1]) == Removals(page[..i]) + [Remove(page[i])]
  {
    TakeOneMore(page, i);
  }

  lemma ChildrenNext(page: seq<RowKey>, i: nat)
    requires i < |page|
    ensures Children(page[..i + 1]) ==
            Children(page[..i]) + if IsMarker(page[i]) then [ChildPath(page[i])] else []
  {
    Front(page, i);
  }

  /** Notes the directories that the page's markers lead to, and asks for its removal. */
  method ReadPage(page: seq<RowKey>, queue: seq<string>) returns (queue': seq<string>, reqs: seq<WriteRequest>)
    ensures queue' == queue + Children(page)
    ensures reqs == Removals(page)
  {
    queue', reqs := queue, [];
    for i := 0 to |page|
      invariant reqs == Removals(page[..i])
      invariant queue' == queue + Children(page[..i])
    {
      RemovalsNext(page, i);
      ChildrenNext(page, i);
      reqs := reqs + [Remove(page[i])];
      if IsMarker(page[i]) {
        queue' := queue' + [ChildPath(page[i])];
      }
    }
    assert page[..|page|] == page;
  }

  lemma RemovalsDistinct(page: seq<RowKey>)
    requires NoRepeats(page)
    ensures DistinctRows(Removals(page))
  {
  }

  /** Removes the rows of one page, after noting the directories its markers lead to. */
  method DeletePage(svc: TableService, page: seq<RowKey>, queue: seq<string>)
    returns (queue': seq<string>, err: bool)
    requires NoRepeats(page)
    modifies svc
    ensures queue' == queue + Children(page)
    ensures Shrunk(old(svc.rows), svc.rows, PageSet(page))
    ensures !err ==> svc.rows == old(svc.rows) - PageSet(page)
    ensures svc.queries == old(svc.queries)
    ensures svc.refused >= old(svc.refused) && (err ==> svc.refused > old(svc.refused))
  {
    var reqs;
    queue', reqs := ReadPage(page, queue);
    RemovalsDistinct(page);
    var failed;
    failed, err := BatchWrite(svc, reqs);
    SubMultisetWithin(failed, reqs);
    RemovalsWritten(old(svc.rows), svc.rows, page, failed);
  }

  lemma {:induction false} ChildrenAppend(x: seq<RowKey>, y: seq<RowKey>)
    ensures Children(x + y) == Children(x) + Children(y)
  {
    if y == [] {
      assert x + y == x;
    } else {
      ChildrenAppend(x, y[..|y| - 1]);
      DropLastOfSum(x, y);
    }
  }

  lemma {:induction false} ChildrenOf(page: seq<RowKey>)
    ensures forall c :: c in Children(page) <==> exists r :: r in page && IsMarker(r) && ChildPath(r) == c
  {
    if page == [] {
    } else {
      var front, last := page[..|page| - 1], page[|page| - 1];
      ChildrenOf(front);
      assert forall r :: r in page <==> r in front || r == last;
    }
  }

  function MarkersIn(page: seq<RowKey>): set<RowKey> {
    set r | r in page && IsMarker(r)
  }

  lemma MarkersInLast(front: seq<RowKey>, last: RowKey)
    requires last !in front
    ensures MarkersIn(front + [last]) == if IsMarker(last) then MarkersIn(front) + {last} else MarkersIn(front)
    ensures last !in MarkersIn(front)
  {
    assert forall r :: r in front + [last] <==> r in front || r == last;
  }

  lemma {:induction false} ChildrenCount(page: seq<RowKey>)
    requires NoRepeats(page)
    ensures |Children(page)| == |MarkersIn(page)|
  {
    if page == [] {
    } else {
      var front, last := page[..|page| - 1], page[|page| - 1];
      ChildrenCount(front);
      assert page == front + [last];
      MarkersInLast(front, last);
    }
  }

  lemma {:induction false} FlattenIsPrefix(pages: seq<seq<RowKey>>, i: nat)
    requires i <= |pages|
    ensures Flatten(pages[..i]) <= Flatten(pages)
    decreases |pages|
  {
    if i < |pages| {
      var front := pages[..|pages| - 1];
      assert front[..i] == pages[..i];
      FlattenIsPrefix(front, i);
    } else {
      assert pages[..i] == pages;
    }
  }

  lemma FlattenMore(pages: seq<seq<RowKey>>, i: nat)
    requires i < |pages|
    ensures Flatten(pages[..i + 1]) == Flatten(pages[..i]) + pages[i]
  {
    TakeOneMore(pages, i);
    FlattenAppend(pages[..i], pages[i]);
  }

  lemma PartOfNoRepeats(x: seq<RowKey>, y: seq<RowKey>, all: seq<RowKey>)
    requires x + y <= all && NoRepeats(all)
    ensures NoRepeats(y) && forall r :: r in x + y ==> r in all
  {
    assert forall j :: 0 <= j < |y| ==> y[j] == (x + y)[|x| + j] == all[|x| + j];
    assert forall j :: 0 <= j < |x + y| ==> (x + y)[j] == all[j];
  }

  lemma FlattenNext(pages: seq<seq<RowKey>>, i: nat)
    requires i < |pages| && NoRepeats(Flatten(pages))
    ensures Flatten(pages[..i + 1]) == Flatten(pages[..i]) + pages[i]
    ensures NoRepeats(pages[i])
    ensures forall r :: r in Flatten(pages[..i + 1]) ==> r in Flatten(pages)
  {
    FlattenMore(pages, i);
    FlattenIsPrefix(pages, i + 1);
    PartOfNoRepeats(Flatten(pages[..i]), pages[i], Flatten(pages));
  }

  /** The pages read so far are gone from t0, and their markers are queued. */
  ghost predicate PagesDone(t0: Rows, t1: Rows, seen: seq<RowKey>, queue: seq<string>, queue': seq<string>) {
    && t1 == t0 - PageSet(seen)
    && queue' == queue + Children(seen)
  }

  lemma PageSetAppend(x: seq<RowKey>, y: seq<RowKey>)
    ensures PageSet(x + y) == PageSet(x) + PageSet(y)
  {
  }

  lemma Associate<T>(x: seq<T>, y: seq<T>, z: seq<T>)
    ensures x + y + z == x + (y + z)
  {
  }

  lemma ShrunkTwice(t0: Rows, t1: Rows, t2: Rows, a: set<RowKey>, b: set<RowKey>)
    requires t1 == t0 - a && Shrunk(t1, t2, b)
    ensures Shrunk(t0, t2, a + b)
    ensures t2 == t1 - b ==> t2 == t0 - (a + b)
  {
  }

  lemma PageDone(t0: Rows, t1: Rows, t2: Rows, seen: seq<RowKey>, page: seq<RowKey>,
                 queue: seq<string>, queue1: seq<string>)
    requires PagesDone(t0, t1, seen, queue, queue1)
    requires Shrunk(t1, t2, PageSet(page))
    ensures Shrunk(t0, t2, PageSet(seen + page))
    ensures t2 == t1 - PageSet(page) ==>
              PagesDone(t0, t2, seen + page, queue, queue1 + Children(page))
  {
    PageSetAppend(seen, page);
    ShrunkTwice(t0, t1, t2, PageSet(seen), PageSet(page));
    ChildrenAppend(seen, page);
    Associate(queue, Children(seen), Children(page));
  }

  /** Empties one directory. When it succeeds, all lists what was in it. */
  method DeletePartition(svc: TableService, dir: string, queue: seq<string>)
    returns (queue': seq<string>, err: bool, ghost all: seq<RowKey>)
    modifies svc
    ensures Shrunk(old(svc.rows), svc.rows, Partition(old(svc.rows), dir))
    ensures !err ==> NoRepeats(all) && PageSet(all) == Partition(old(svc.rows), dir)
    ensures !err ==> PagesDone(old(svc.rows), svc.rows, all, queue, queue')
    ensures svc.queries == old(svc.queries) + 1
    ensures svc.refused >= old(svc.refused) && (err ==> svc.refused > old(svc.refused))
  {
    var pages, ok := svc.Query(dir);
    all := Flatten(pages);
    assert PageSet(all) <= Partition(svc.rows, dir);
    queue' := queue;
    for i := 0 to |pages|
      invariant PagesDone(old(svc.rows), svc.rows, Flatten(pages[..i]), queue, queue')
      invariant svc.refused >= old(svc.refused) + if ok then 0 else 1
      invariant svc.queries == old(svc.queries) + 1
    {
      FlattenNext(pages, i);
      ghost var t1 := svc.rows;
      ghost var queue1 := queue';
      queue', err := DeletePage(svc, pages[i], queue');
      PageDone(old(svc.rows), t1, svc.rows, Flatten(pages[..i]), pages[i], queue, queue1);
      if err {
        return;
      }
    }
    assert pages[..|pages|] == pages;
    err := !ok;
  }

  // ------------------------------------------------------------- the walk itself

  /** The rows left when the directories in visited have been emptied. */
  function Cleared(t: Rows, visited: set<string>): Rows {
    map r | r in t && r.path !in visited :: t[r]
  }

  /** Progress of the walk over t: visited directories are done, queued ones are next. */
  ghost predicate WalkInvariant(t: Rows, start: string, visited: set<string>, queue: seq<string>) {
    && (forall p :: p in visited || p in queue ==> Reachable(t, start, p))
    && (start in visited || start in queue)
    && (forall p, c :: p in visited && ChildStep(t, p, c) ==> c in visited || c in queue)
  }

  lemma WalkAdvances(t: Rows, start: string, visited: set<string>, queue: seq<string>, all: seq<RowKey>)
    requires WalkInvariant(t, start, visited, queue) && queue != []
    requires PageSet(all) == Partition(Cleared(t, visited), queue[0])
    ensures WalkInvariant(t, start, visited + {queue[0]}, queue[1..] + Children(all))
  {
    var dir, next := queue[0], queue[1..] + Children(all);
    ChildrenOf(all);
    assert forall r :: r in all <==> r in PageSet(all);
    assert forall p :: p in queue ==> p == dir || p in next;
    forall p | p in next ensures Reachable(t, start, p) {
      if p in Children(all) {
        var r :| r in all && IsMarker(r) && ChildPath(r) == p;
        assert ChildStep(t, dir, p);
        ReachStep(t, start, dir, p);
      }
    }
    forall p, c | p in visited + {dir} && ChildStep(t, p, c) ensures c in visited + {dir} || c in next {
      if p !in visited {
        var r :| r in t && r.path == p && IsMarker(r) && ChildPath(r) == c;
        assert r in all;
      }
    }
  }

  lemma WalkDone(t: Rows, start: string, visited: set<string>, p: string)
    requires WalkInvariant(t, start, visited, [])
    ensures p in visited <==> Reachable(t, start, p)
  {
    if Reachable(t, start, p) {
      ReachMinimal(t, start, p, visited);
    }
  }

  lemma ClearedOnce(t: Rows, visited: set<string>, dir: string)
    ensures Cleared(t, visited) - Partition(Cleared(t, visited), dir) == Cleared(t, visited + {dir})
  {
  }

  lemma MarkersRemoved(t: Rows, all: seq<RowKey>)
    requires NoRepeats(all) && PageSet(all) <= t.Keys
    ensures |Markers(t - PageSet(all))| + |Children(all)| == |Markers(t)|
  {
    ChildrenCount(all);
    var m := MarkersIn(all);
    assert Markers(t - PageSet(all)) == Markers(t) - m;
    assert m <= Markers(t);
  }

  /** The row that Delete removes first, and the rows of every directory that markers lead
      to from the key. */
  ghost predicate Doomed(t: Rows, key: string, r: RowKey) {
    || r == LeafRow(key)
    || Reachable(t - {LeafRow(key)}, StartDir(key), r.path)
  }

  ghost function Survivors(t: Rows, key: string): Rows {
    map r | r in t && !Doomed(t, key, r) :: t[r]
  }

  ghost predicate OnlyDoomedLost(t0: Rows, t1: Rows, key: string) {
    && (forall r :: r in t1 ==> r in t0 && t1[r] == t0[r])
    && (forall r :: r in t0 && r !in t1 ==> Doomed(t0, key, r))
  }

  /** The state of a walk over t after rounds directories were taken from the queue. */
  ghost predicate Walking(t: Rows, start: string, rows: Rows, visited: set<string>,
                          queue: seq<string>, rounds: nat) {
    && rows == Cleared(t, visited)
    && WalkInvariant(t, start, visited, queue)
    && |queue| + |Markers(rows)| + rounds == 1 + |Markers(t)|
  }

  lemma WalkingStarts(t: Rows, start: string)
    ensures Walking(t, start, t, {}, [start], 0)
  {
    ReachStart(t, start);
    assert Cleared(t, {}) == t;
  }

  lemma WalkingGoesOn(t: Rows, start: string, before: Rows, visited: set<string>, queue: seq<string>,
                      rounds: nat, after: Rows, all: seq<RowKey>, queue': seq<string>)
    requires Walking(t, start, before, visited, queue, rounds) && queue != []
    requires NoRepeats(all) && PageSet(all) == Partition(before, queue[0])
    requires PagesDone(before, after, all, queue[1..], queue')
    ensures Walking(t, start, after, visited + {queue[0]}, queue', rounds + 1)
    ensures |queue'| + |Markers(after)| < |queue| + |Markers(before)|
  {
    WalkAdvances(t, start, visited, queue, all);
    ClearedOnce(t, visited, queue[0]);
    MarkersRemoved(before, all);
  }

  lemma PartialWalk(t0: Rows, t: Rows, before: Rows, after: Rows, key: string, visited: set<string>,
                    queue: seq<string>, rounds: nat)
    requires t == t0 - {LeafRow(key)}
    requires Walking(t, StartDir(key), before, visited, queue, rounds) && queue != []
    requires Shrunk(before, after, Partition(before, queue[0]))
    ensures OnlyDoomedLost(t0, after, key)
  {
    assert queue[0] in queue;
  }

  lemma FullWalk(t0: Rows, t: Rows, rows: Rows, key: string, visited: set<string>, rounds: nat)
    requires t == t0 - {LeafRow(key)}
    requires Walking(t, StartDir(key), rows, visited, [], rounds)
    ensures rows == Survivors(t0, key)
    ensures OnlyDoomedLost(t0, rows, key)
  {
    forall p ensures p in visited <==> Reachable(t, StartDir(key), p) {
      WalkDone(t, StartDir(key), visited, p);
    }
  }

  /** Removes the key's row and its whole subtree, with one query for the key's directory and
      one for each marker removed on the way. */
  method Delete(svc: TableService, key: string) returns (err: bool)
    modifies svc
    ensures OnlyDoomedLost(old(svc.rows), svc.rows, key)
    ensures !err ==> svc.rows == Survivors(old(svc.rows), key)
    ensures !err ==> svc.queries ==
                     old(svc.queries) + 1 + |Markers(old(svc.rows) - {LeafRow(key)})| - |Markers(svc.rows)|
    ensures svc.refused >= old(svc.refused) && (err ==> svc.refused > old(svc.refused))
  {
    err := DeleteRow(svc, LeafRow(key));
    if err {
      return;
    }
    err := DeleteTree(svc, key, old(svc.rows));
  }

  method DeleteRow(svc: TableService, row: RowKey) returns (err: bool)
    modifies svc
    ensures Shrunk(old(svc.rows), svc.rows, {row})
    ensures !err ==> svc.rows == old(svc.rows) - {row}
    ensures svc.queries == old(svc.queries)
    ensures svc.refused >= old(svc.refused) && (err ==> svc.refused > old(svc.refused))
  {
    var failed;
    failed, err := BatchWrite(svc, [Remove(row)]);
    SubMultisetWithin(failed, [Remove(row)]);
    assert Removals([row]) == [Remove(row)];
    RemovalsWritten(old(svc.rows), svc.rows, [row], failed);
    assert PageSet([row]) == {row};
  }

  /** The breadth-first walk: take a directory, remove its rows, queue its folders. */
  method DeleteTree(svc: TableService, key: string, ghost t0: Rows) returns (err: bool)
    requires svc.rows == t0 - {LeafRow(key)}
    modifies svc
    ensures OnlyDoomedLost(t0, svc.rows, key)
    ensures !err ==> svc.rows == Survivors(t0, key)
    ensures !err ==> svc.queries == old(svc.queries) + 1 + |Markers(old(svc.rows))| - |Markers(svc.rows)|
    ensures svc.refused >= old(svc.refused) && (err ==> svc.refused > old(svc.refused))
  {
    ghost var t := svc.rows;
    ghost var start := StartDir(key);
    ghost var visited: set<string> := {};
    ghost var rounds := 0;
    err := false;
    var queue := [StartDir(key)];
    WalkingStarts(t, start);
    while queue != []
      invariant Walking(t, start, svc.rows, visited, queue, rounds)
      invariant svc.queries == old(svc.queries) + rounds && svc.refused >= old(svc.refused)
      decreases |queue| + |Markers(svc.rows)|
    {
      ghost var before, queue0 := svc.rows, queue;
      ghost var all;
      var current := queue[0];
      queue := queue[1..];
      queue, err, all := DeletePartition(svc, current, queue);
      if err {
        PartialWalk(t0, t, before, svc.rows, key, visited, queue0, rounds);
        return;
      }
      WalkingGoesOn(t, start, before, visited, queue0, rounds, svc.rows, all, queue);
      visited, rounds := visited + {current}, rounds + 1;
    }
    FullWalk(t0, t, svc.rows, key, visited, rounds);
  }
}
