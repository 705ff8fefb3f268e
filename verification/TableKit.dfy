/** Batched access to the table service: chunking, retries of the part that the service
    left undone, and the report of what was never done. */
module TableKit {
  import opened Seqs
  import opened Options
  import opened Table

  /** How many rows the service takes in one call. */
  const MAX_WRITES := 25
  const MAX_KEYS := 100

  const WRITE_CHUNK := 25
  const GET_CHUNK := 100
  const GET_RETRIES := 3

  datatype WriteOutcome = WriteError | Unprocessed(items: seq<WriteRequest>) | AllProcessed

  datatype Item = Item(row: RowKey, record: Record)

  datatype GetOutcome = GetError | Got(items: seq<Item>, unprocessed: Option<seq<RowKey>>)

  /** A call that was made, and what came back. */
  datatype Call<T, O> = Call(asked: seq<T>, out: O)

  type WriteCall = Call<WriteRequest, WriteOutcome>

  type GetCall = Call<RowKey, GetOutcome>

  predicate NoRepeats(keys: seq<RowKey>) {
    forall i, j :: 0 <= i < j < |keys| ==> keys[i] != keys[j]
  }

  /** items are the stored rows among keys, except those in skipped. */
  ghost predicate ReadFrom(t: Rows, keys: seq<RowKey>, skipped: seq<RowKey>, items: seq<Item>) {
    && (forall it :: it in items ==> it.row in keys && it.row in t && it.record == t[it.row])
    && (forall r :: r in keys && r !in skipped && r in t ==> Item(r, t[r]) in items)
  }

  lemma ReadNext(t: Rows, keys: seq<RowKey>, r: RowKey, skipped: seq<RowKey>, items: seq<Item>)
    requires ReadFrom(t, keys, skipped, items)
    ensures ReadFrom(t, keys + [r], skipped + [r], items)
    ensures r in t ==> ReadFrom(t, keys + [r], skipped, items + [Item(r, t[r])])
    ensures r !in t ==> ReadFrom(t, keys + [r], skipped, items)
  {
  }

  /** The stored rows, the requests the service acknowledged, the write calls it received,
      and how many calls of any kind it did not carry out completely. */
  datatype Ledger = Ledger(rows: Rows, acked: multiset<WriteRequest>, calls: seq<WriteCall>, refused: nat)

  /** What the caller still has to do after a call. */
  function Undone(reqs: seq<WriteRequest>, out: WriteOutcome): seq<WriteRequest> {
    match out
    case WriteError => reqs
    case Unprocessed(items) => items
    case AllProcessed => []
  }

  /** One call: a repeated row is rejected, an error acknowledges nothing although any
      part may have been done, and otherwise all but the undone part has taken effect. */
  ghost predicate OneCall(a: Ledger, b: Ledger, reqs: seq<WriteRequest>, out: WriteOutcome) {
    && b.calls == a.calls + [Call(reqs, out)]
    && b.refused == a.refused + (if out.AllProcessed? then 0 else 1)
    && (!DistinctRows(reqs) || |reqs| > MAX_WRITES ==> out == WriteError)
    && multiset(Undone(reqs, out)) <= multiset(reqs)
    && b.acked == a.acked + (multiset(reqs) - multiset(Undone(reqs, out)))
    && Written(a.rows, b.rows, reqs, Undone(reqs, out))
  }

  lemma WrittenNothing(t: Rows, reqs: seq<WriteRequest>)
    ensures Written(t, t, reqs, reqs)
  {
  }

  /** What was carried out in part may also be reported as not done at all. */
  lemma WrittenOrNot(t0: Rows, t1: Rows, reqs: seq<WriteRequest>, skipped: seq<WriteRequest>)
    requires Written(t0, t1, reqs, skipped) && Within(skipped, reqs)
    ensures Written(t0, t1, reqs, reqs)
  {
  }

  /** The service as its clients see it: any call may fail, having done any part of its
      work, and any call may hand part of its work back. It remembers the calls and counts
      those that it did not carry out completely, so that its clients can be held to fail
      for no other reason. */
  class TableService {
    var rows: Rows
    ghost var writeCalls: seq<WriteCall>
    ghost var acked: multiset<WriteRequest>
    ghost var getCalls: seq<GetCall>
    ghost var queries: nat
    ghost var refused: nat

    constructor (initial: Rows)
      ensures rows == initial && writeCalls == [] && acked == multiset{} && getCalls == []
      ensures queries == 0 && refused == 0
    {
      rows := initial;
      writeCalls, acked, getCalls, queries, refused := [], multiset{}, [], 0, 0;
    }

    ghost function WriteLog(): Ledger
      reads this
    {
      Ledger(rows, acked, writeCalls, refused)
    }

    method BatchWriteItem(reqs: seq<WriteRequest>) returns (out: WriteOutcome)
      modifies this
      ensures getCalls == old(getCalls) && queries == old(queries)
      ensures OneCall(old(WriteLog()), WriteLog(), reqs, out)
    {
      if DistinctRows(reqs) && |reqs| <= MAX_WRITES {
        var skipped := ProcessSome(reqs);
        SubMultisetWithin(skipped, reqs);
        var failed: bool := *;
        out := if failed then WriteError else if skipped == [] then AllProcessed else Unprocessed(skipped);
        WrittenOrNot(old(rows), rows, reqs, skipped);
      } else {
        out := WriteError;
        WrittenNothing(rows, reqs);
      }
      writeCalls := writeCalls + [Call(reqs, out)];
      refused := refused + if out.AllProcessed? then 0 else 1;
      acked := acked + (multiset(reqs) - multiset(Undone(reqs, out)));
    }

    /** Carries out any part of the requests. */
    method ProcessSome(reqs: seq<WriteRequest>) returns (skipped: seq<WriteRequest>)
      requires DistinctRows(reqs)
      modifies this`rows
      ensures multiset(skipped) <= multiset(reqs)
      ensures Written(old(rows), rows, reqs, skipped)
    {
      skipped := [];
      for i := 0 to |reqs|
        invariant multiset(skipped) <= multiset(reqs[..i])
        invariant Within(skipped, reqs[..i])
        invariant Written(old(rows), rows, reqs[..i], skipped)
      {
        WrittenNext(old(rows), rows, reqs, i, skipped);
        TakeOneMore(reqs, i);
        var leave: bool := *;
        if leave {
          skipped := skipped + [reqs[i]];
        } else {
          rows := Apply(rows, reqs[i]);
        }
      }
      assert reqs[..|reqs|] == reqs;
    }

    method BatchGetItem(keys: seq<RowKey>) returns (out: GetOutcome)
      modifies this`getCalls, this`refused
      ensures getCalls == old(getCalls) + [Call(keys, out)]
      ensures refused == old(refused) + if out.Got? && out.unprocessed.None? then 0 else 1
      ensures !NoRepeats(keys) || |keys| > MAX_KEYS ==> out == GetError
      ensures out.Got? && out.unprocessed.None? ==> ReadFrom(rows, keys, [], out.items)
      ensures out.Got? && out.unprocessed.Some? ==>
                && multiset(out.unprocessed.value) <= multiset(keys)
                && ReadFrom(rows, keys, out.unprocessed.value, out.items)
    {
      var failed: bool := *;
      if !NoRepeats(keys) || |keys| > MAX_KEYS || failed {
        getCalls, refused := getCalls + [Call(keys, GetError)], refused + 1;
        return GetError;
      }
      var items, skipped := ReadSome(keys);
      out := Got(items, if skipped == [] then None else Some(skipped));
      getCalls, refused := getCalls + [Call(keys, out)], refused + if skipped == [] then 0 else 1;
    }

    /** Reads any part of the rows. */
    method ReadSome(keys: seq<RowKey>) returns (items: seq<Item>, skipped: seq<RowKey>)
      ensures multiset(skipped) <= multiset(keys) && ReadFrom(rows, keys, skipped, items)
    {
      items, skipped := [], [];
      for i := 0 to |keys|
        invariant multiset(skipped) <= multiset(keys[..i]) && ReadFrom(rows, keys[..i], skipped, items)
      {
        var r := keys[i];
        TakeOneMore(keys, i);
        ReadNext(rows, keys[..i], r, skipped, items);
        var leave: bool := *;
        if leave {
          skipped := skipped + [r];
        } else if r in rows {
          items := items + [Item(r, rows[r])];
        }
      }
      assert keys[..|keys|] == keys;
    }

    /** One row. */
    method GetItem(row: RowKey) returns (record: Option<Record>, ok: bool)
      modifies this`refused
      ensures refused == old(refused) + if ok then 0 else 1
      ensures ok ==> record == if row in rows then Some(rows[row]) else None
    {
      record, ok := if row in rows then Some(rows[row]) else None, *;
      refused := refused + if ok then 0 else 1;
    }

    /** Whether the guard in front of the reads lets the next one through. */
    method Admit() returns (ok: bool)
      modifies this`refused
      ensures refused == old(refused) + if ok then 0 else 1
    {
      ok := *;
      refused := refused + if ok then 0 else 1;
    }

    /** The rows of one directory, page by page; reading may break off after any page. */
    method Query(path: string) returns (pages: seq<seq<RowKey>>, ok: bool)
      modifies this`queries, this`refused
      ensures queries == old(queries) + 1
      ensures refused == old(refused) + if ok then 0 else 1
      ensures NoRepeats(Flatten(pages))
      ensures forall r :: r in Flatten(pages) ==> r in rows && r.path == path
      ensures ok ==> forall r :: r in rows && r.path == path ==> r in Flatten(pages)
    {
      var remaining := set r | r in rows && r.path == path;
      pages := Paginate(remaining);
      ok := forall r :: r in remaining ==> r in Flatten(pages);
      queries := queries + 1;
      refused := refused + if ok then 0 else 1;
    }

    /** All rows with their records, page by page; reading may break off after any page. */
    method Scan() returns (pages: seq<seq<RowKey>>, ok: bool)
      modifies this`refused
      ensures refused == old(refused) + if ok then 0 else 1
      ensures NoRepeats(Flatten(pages))
      ensures forall r :: r in Flatten(pages) ==> r in rows
      ensures ok ==> forall r :: r in rows ==> r in Flatten(pages)
    {
      pages := Paginate(rows.Keys);
      ok := forall r :: r in rows.Keys ==> r in Flatten(pages);
      refused := refused + if ok then 0 else 1;
    }

    /** Some of the keys, in any order and cut anywhere, without repetition. */
    static method Paginate(keys: set<RowKey>) returns (pages: seq<seq<RowKey>>)
      ensures NoRepeats(Flatten(pages))
      ensures forall r :: r in Flatten(pages) ==> r in keys
    {
      pages := [[]];
      var left := keys;
      var more: bool := *;
      while more && left != {}
        invariant NoRepeats(Flatten(pages))
        invariant left <= keys
        invariant forall r :: r in Flatten(pages) ==> r in keys && r !in left
        decreases |left|
      {
        var r :| r in left;
        left := left - {r};
        FlattenAppend(pages, [r]);
        pages := pages + [[r]];
        more := *;
      }
    }
  }

  function Flatten<T>(pages: seq<seq<T>>): seq<T> {
    if pages == [] then [] else Flatten(pages[..|pages| - 1]) + pages[|pages| - 1]
  }

  lemma FlattenAppend<T>(pages: seq<seq<T>>, page: seq<T>)
    ensures Flatten(pages + [page]) == Flatten(pages) + page
  {
    assert (pages + [page])[..|pages|] == pages;
  }

  // ------------------------------------------------------------------- BatchWrite

  /** Calls of a permitted size were added. */
  ghost predicate CallsWithin<T(!new), O(!new)>(before: seq<Call<T, O>>, after: seq<Call<T, O>>, limit: nat) {
    && before <= after
    && forall i :: |before| <= i < |after| ==> 0 < |after[i].asked| <= limit
  }

  /** Some new call carried the request. */
  ghost predicate Carried(before: seq<WriteCall>, after: seq<WriteCall>, q: WriteRequest) {
    exists i :: |before| <= i < |after| && q in after[i].asked
  }

  /** Some new call carried the request, and the service left it undone. */
  ghost predicate LeftUndone(before: seq<WriteCall>, after: seq<WriteCall>, q: WriteRequest) {
    exists i :: |before| <= i < |after| && q in Undone(after[i].asked, after[i].out)
  }

  /** Every request was sent, and what is left is so because the service left it undone. */
  ghost predicate Answered(a: Ledger, b: Ledger, reqs: seq<WriteRequest>, left: seq<WriteRequest>) {
    && a.calls <= b.calls && a.refused <= b.refused
    && (forall q :: q in reqs ==> Carried(a.calls, b.calls, q))
    && (forall q :: q in left ==> LeftUndone(a.calls, b.calls, q))
    && (left != [] ==> a.refused < b.refused)
  }

  /** From a to b every request of reqs was sent and acknowledged, or left undone by the
      service and is in left, none twice; and on distinct rows, the acknowledged ones are
      what the table now holds. */
  ghost predicate Conserved(a: Ledger, b: Ledger, reqs: seq<WriteRequest>, left: seq<WriteRequest>) {
    Balanced(a, b, reqs, left) && Answered(a, b, reqs, left)
  }

  ghost predicate Balanced(a: Ledger, b: Ledger, reqs: seq<WriteRequest>, left: seq<WriteRequest>) {
    && Counted(a.acked, b.acked, multiset(reqs), multiset(left))
    && CallsWithin(a.calls, b.calls, MAX_WRITES)
    && (DistinctRows(reqs) ==> Written(a.rows, b.rows, reqs, left))
  }

  /** What was acknowledged from before to after is all but what is left. */
  predicate Counted<T>(before: multiset<T>, after: multiset<T>, all: multiset<T>, left: multiset<T>) {
    left <= all && after == before + (all - left)
  }

  lemma CountedRetry<T>(a: multiset<T>, b: multiset<T>, c: multiset<T>, all: multiset<T>,
                        left: multiset<T>, rest: multiset<T>)
    requires Counted(a, b, all, left) && Counted(b, c, left, rest)
    ensures Counted(a, c, all, rest)
  {
    assert all - rest == (all - left) + (left - rest);
  }

  lemma CountedAppend<T>(a: multiset<T>, b: multiset<T>, c: multiset<T>,
                         x: multiset<T>, leftX: multiset<T>, y: multiset<T>, leftY: multiset<T>)
    requires Counted(a, b, x, leftX) && Counted(b, c, y, leftY)
    ensures Counted(a, c, x + y, leftX + leftY)
  {
    assert (x + y) - (leftX + leftY) == (x - leftX) + (y - leftY);
  }

  lemma OneMoreCall<T(!new), O(!new)>(before: seq<Call<T, O>>, calls: seq<Call<T, O>>, call: Call<T, O>, limit: nat)
    requires CallsWithin(before, calls, limit) && 0 < |call.asked| <= limit
    ensures CallsWithin(before, calls + [call], limit)
  {
  }

  lemma MoreCalls<T(!new), O(!new)>(before: seq<Call<T, O>>, calls: seq<Call<T, O>>, after: seq<Call<T, O>>,
                                    limit: nat)
    requires CallsWithin(before, calls, limit) && CallsWithin(calls, after, limit)
    ensures CallsWithin(before, after, limit)
  {
  }

  lemma SubMultisetWithin(left: seq<WriteRequest>, reqs: seq<WriteRequest>)
    requires multiset(left) <= multiset(reqs)
    ensures Within(left, reqs)
  {
    forall q | q in left ensures q in reqs {
      assert q in multiset(left);
      assert q in multiset(reqs);
    }
  }

  lemma BalancedNothing(a: Ledger, reqs: seq<WriteRequest>)
    ensures Balanced(a, a, reqs, reqs)
  {
    assert multiset(reqs) - multiset(reqs) == multiset{};
  }

  lemma ConservedNothing(a: Ledger)
    ensures Conserved(a, a, [], [])
  {
    BalancedNothing(a, []);
  }

  lemma BalancedRetry(a: Ledger, b: Ledger, c: Ledger, reqs: seq<WriteRequest>,
                      left: seq<WriteRequest>, out: WriteOutcome)
    requires Balanced(a, b, reqs, left) && OneCall(b, c, left, out)
    requires 0 < |left| <= WRITE_CHUNK
    ensures Balanced(a, c, reqs, Undone(left, out))
  {
    var rest := Undone(left, out);
    CountedRetry(a.acked, b.acked, c.acked, multiset(reqs), multiset(left), multiset(rest));
    OneMoreCall(a.calls, b.calls, Call(left, out), MAX_WRITES);
    if DistinctRows(reqs) {
      SubMultisetWithin(left, reqs);
      SubMultisetWithin(rest, left);
      WrittenRetry(a.rows, b.rows, c.rows, reqs, left, rest);
    }
  }

  lemma DistinctParts(x: seq<WriteRequest>, y: seq<WriteRequest>)
    requires DistinctRows(x + y)
    ensures DistinctRows(x) && DistinctRows(y)
  {
    assert forall i :: 0 <= i < |x| ==> x[i] == (x + y)[i];
    assert forall i :: 0 <= i < |y| ==> y[i] == (x + y)[|x| + i];
  }

  lemma WrittenParts(t0: Rows, t1: Rows, t2: Rows, x: seq<WriteRequest>, leftX: seq<WriteRequest>,
                     y: seq<WriteRequest>, leftY: seq<WriteRequest>)
    requires multiset(leftX) <= multiset(x) && multiset(leftY) <= multiset(y) && DistinctRows(x + y)
    requires DistinctRows(x) ==> Written(t0, t1, x, leftX)
    requires DistinctRows(y) ==> Written(t1, t2, y, leftY)
    ensures Written(t0, t2, x + y, leftX + leftY)
  {
    DistinctParts(x, y);
    SubMultisetWithin(leftX, x);
    SubMultisetWithin(leftY, y);
    WrittenAppend(t0, t1, t2, x, leftX, y, leftY);
  }

  lemma MultisetOfSum<T>(x: seq<T>, y: seq<T>)
    ensures multiset(x + y) == multiset(x) + multiset(y)
  {
  }

  lemma CarriedLater(a: seq<WriteCall>, b: seq<WriteCall>, c: seq<WriteCall>, q: WriteRequest)
    requires a <= b <= c
    ensures Carried(a, b, q) || Carried(b, c, q) ==> Carried(a, c, q)
    ensures LeftUndone(a, b, q) || LeftUndone(b, c, q) ==> LeftUndone(a, c, q)
  {
    if Carried(a, b, q) {
      var i :| |a| <= i < |b| && q in b[i].asked;
      assert c[i] == b[i];
    }
    if LeftUndone(a, b, q) {
      var i :| |a| <= i < |b| && q in Undone(b[i].asked, b[i].out);
      assert c[i] == b[i];
    }
  }

  lemma AnsweredAppend(a: Ledger, b: Ledger, c: Ledger, x: seq<WriteRequest>, leftX: seq<WriteRequest>,
                       y: seq<WriteRequest>, leftY: seq<WriteRequest>)
    requires Answered(a, b, x, leftX) && Answered(b, c, y, leftY)
    ensures Answered(a, c, x + y, leftX + leftY)
  {
    forall q | q in x + y ensures Carried(a.calls, c.calls, q) {
      CarriedLater(a.calls, b.calls, c.calls, q);
    }
    forall q | q in leftX + leftY ensures LeftUndone(a.calls, c.calls, q) {
      CarriedLater(a.calls, b.calls, c.calls, q);
    }
  }

  lemma ConservedAppend(a: Ledger, b: Ledger, c: Ledger, x: seq<WriteRequest>, leftX: seq<WriteRequest>,
                        y: seq<WriteRequest>, leftY: seq<WriteRequest>)
    requires Conserved(a, b, x, leftX) && Conserved(b, c, y, leftY)
    ensures Conserved(a, c, x + y, leftX + leftY)
  {
    AnsweredAppend(a, b, c, x, leftX, y, leftY);
    CountedAppend(a.acked, b.acked, c.acked, multiset(x), multiset(leftX), multiset(y), multiset(leftY));
    MultisetOfSum(x, y);
    MultisetOfSum(leftX, leftY);
    MoreCalls(a.calls, b.calls, c.calls, MAX_WRITES);
    if DistinctRows(x + y) {
      WrittenParts(a.rows, b.rows, c.rows, x, leftX, y, leftY);
    }
  }

  lemma ConservedChunk(a: Ledger, b: Ledger, c: Ledger, reqs: seq<WriteRequest>, i: nat, end: nat,
                       left: seq<WriteRequest>, more: seq<WriteRequest>)
    requires i <= end <= |reqs|
    requires Conserved(a, b, reqs[..i], left) && Conserved(b, c, reqs[i..end], more)
    ensures Conserved(a, c, reqs[..end], left + more)
  {
    ConservedAppend(a, b, c, reqs[..i], left, reqs[i..end], more);
    assert reqs[..end] == reqs[..i] + reqs[i..end];
  }

  lemma SubMultisetSize(left: seq<WriteRequest>, reqs: seq<WriteRequest>)
    requires multiset(left) <= multiset(reqs)
    ensures |left| <= |reqs|
  {
    assert multiset(reqs) == multiset(left) + (multiset(reqs) - multiset(left));
    assert |multiset(left)| == |left| && |multiset(reqs)| == |reqs|;
  }

  /** The new calls: the first asked for the whole chunk, each later one for what the one
      before it left undone, and the last one left what is left. */
  ghost predicate Attempted(before: seq<WriteCall>, after: seq<WriteCall>, chunk: seq<WriteRequest>,
                            left: seq<WriteRequest>) {
    && before <= after
    && (|after| == |before| ==> left == chunk)
    && (|after| > |before| ==> after[|before|].asked == chunk)
    && (|after| > |before| ==> left == Undone(after[|after| - 1].asked, after[|after| - 1].out))
    && forall i :: |before| < i < |after| ==> after[i].asked == Undone(after[i - 1].asked, after[i - 1].out)
  }

  lemma AttemptedNext(before: seq<WriteCall>, calls: seq<WriteCall>, chunk: seq<WriteRequest>,
                      left: seq<WriteRequest>, out: WriteOutcome)
    requires Attempted(before, calls, chunk, left)
    ensures Attempted(before, calls + [Call(left, out)], chunk, Undone(left, out))
  {
  }

  /** The state between two attempts. */
  ghost predicate Trying(start: Ledger, now: Ledger, chunk: seq<WriteRequest>, left: seq<WriteRequest>, err: bool) {
    && Balanced(start, now, chunk, left) && Attempted(start.calls, now.calls, chunk, left)
    && start.refused <= now.refused && (err ==> start.refused < now.refused)
    && |left| <= |chunk|
  }

  lemma TryingNext(start: Ledger, before: Ledger, now: Ledger, chunk: seq<WriteRequest>, left: seq<WriteRequest>,
                   err: bool, out: WriteOutcome)
    requires Trying(start, before, chunk, left, err) && OneCall(before, now, left, out)
    requires left != [] && |chunk| <= WRITE_CHUNK
    ensures Trying(start, now, chunk, Undone(left, out), out != AllProcessed)
    ensures |now.calls| > |start.calls|
  {
    BalancedRetry(start, before, now, chunk, left, out);
    AttemptedNext(start.calls, before.calls, chunk, left, out);
    SubMultisetSize(Undone(left, out), left);
  }

  lemma AttemptsAnswer(a: Ledger, b: Ledger, chunk: seq<WriteRequest>, left: seq<WriteRequest>)
    requires Attempted(a.calls, b.calls, chunk, left) && a.refused <= b.refused
    requires chunk != [] ==> |b.calls| > |a.calls|
    requires left != [] ==> a.refused < b.refused
    ensures Answered(a, b, chunk, left)
  {
    forall q | q in chunk ensures Carried(a.calls, b.calls, q) {
      assert q in b.calls[|a.calls|].asked;
    }
    forall q | q in left ensures LeftUndone(a.calls, b.calls, q) {
      var last := |b.calls| - 1;
      assert q in Undone(b.calls[last].asked, b.calls[last].out);
    }
  }

  /** The retried operation on one chunk: each attempt sends what is still undone. The
      budget is how many more attempts there is time for. */
  method WriteChunk(svc: TableService, chunk: seq<WriteRequest>, budget: nat)
    returns (unprocessed: seq<WriteRequest>, err: bool)
    requires |chunk| <= WRITE_CHUNK
    modifies svc
    ensures svc.getCalls == old(svc.getCalls)
    ensures Conserved(old(svc.WriteLog()), svc.WriteLog(), chunk, unprocessed)
    ensures Attempted(old(svc.writeCalls), svc.writeCalls, chunk, unprocessed)
    ensures unprocessed != [] ==> err && |svc.writeCalls| == |old(svc.writeCalls)| + budget + 1
    ensures err ==> svc.refused > old(svc.refused)
    ensures svc.queries == old(svc.queries)
  {
    ghost var start := svc.WriteLog();
    unprocessed, err := chunk, false;
    var attempts, again := budget, true;
    BalancedNothing(start, chunk);
    while again
      invariant svc.getCalls == old(svc.getCalls)
      invariant Trying(start, svc.WriteLog(), chunk, unprocessed, err)
      invariant !again && chunk != [] ==> |svc.writeCalls| > |start.calls|
      invariant again ==> |svc.writeCalls| + attempts == |start.calls| + budget
      invariant !again && err ==> |svc.writeCalls| == |start.calls| + budget + 1
      invariant svc.queries == old(svc.queries)
      invariant !again && !err ==> unprocessed == []
      decreases again, attempts
    {
      if unprocessed == [] {
        err, again := false, false;
      } else {
        ghost var before := svc.WriteLog();
        var out := svc.BatchWriteItem(unprocessed);
        TryingNext(start, before, svc.WriteLog(), chunk, unprocessed, err, out);
        unprocessed, err := Undone(unprocessed, out), out != AllProcessed;
        again := err && attempts > 0;
        attempts := if attempts > 0 then attempts - 1 else 0;
      }
    }
    AttemptsAnswer(start, svc.WriteLog(), chunk, unprocessed);
  }

  /** Writes the next chunk and adds what is left of it to what has failed so far. */
  method WriteNext(svc: TableService, requests: seq<WriteRequest>, i: nat, end: nat, failed: seq<WriteRequest>,
                   ghost start: Ledger)
    returns (failed': seq<WriteRequest>)
    requires i <= end <= |requests| && end - i <= WRITE_CHUNK
    requires Conserved(start, svc.WriteLog(), requests[..i], failed)
    modifies svc
    ensures svc.getCalls == old(svc.getCalls) && svc.queries == old(svc.queries)
    ensures Conserved(start, svc.WriteLog(), requests[..end], failed')
  {
    ghost var before := svc.WriteLog();
    var budget: nat := *;
    var unprocessed, err := WriteChunk(svc, requests[i..end], budget);
    ConservedChunk(start, before, svc.WriteLog(), requests, i, end, failed, unprocessed);
    failed' := failed + unprocessed;
  }

  /** Writes all requests in chunks. Each one ends up acknowledged or in the leftovers,
      and there is an error exactly when there are leftovers. */
  method BatchWrite(svc: TableService, requests: seq<WriteRequest>)
    returns (failed: seq<WriteRequest>, err: bool)
    modifies svc
    ensures err <==> failed != []
    ensures Conserved(old(svc.WriteLog()), svc.WriteLog(), requests, failed)
    ensures svc.getCalls == old(svc.getCalls) && svc.queries == old(svc.queries)
  {
    ghost var start := svc.WriteLog();
    failed := [];
    var i := 0;
    ConservedNothing(start);
    assert requests[..0] == [];
    while i < |requests|
      invariant 0 <= i <= |requests|
      invariant svc.getCalls == old(svc.getCalls) && svc.queries == old(svc.queries)
      invariant Conserved(start, svc.WriteLog(), requests[..i], failed)
    {
      var end := if i + WRITE_CHUNK < |requests| then i + WRITE_CHUNK else |requests|;
      failed := WriteNext(svc, requests, i, end, failed, start);
      i := end;
    }
    assert requests[..|requests|] == requests;
    err := failed != [];
  }

  // --------------------------------------------------------------------- BatchGet

  /** The new calls are within the size limit, and repeat no row if keys did not. */
  ghost predicate GetCallsOk(before: seq<GetCall>, after: seq<GetCall>, keys: seq<RowKey>) {
    && CallsWithin(before, after, MAX_KEYS)
    && (NoRepeats(keys) ==> forall i :: |before| <= i < |after| ==> NoRepeats(after[i].asked))
  }

  predicate Partial(call: GetCall) {
    call.out.Got? && call.out.unprocessed.Some?
  }

  /** The new calls: the first asked for all keys, and each later one for what the partial
      answer before it left out. */
  ghost predicate Continued(before: seq<GetCall>, after: seq<GetCall>, keys: seq<RowKey>) {
    && before <= after
    && (|after| > |before| ==> after[|before|].asked == keys)
    && forall i :: |before| <= i < |after| - 1 ==> Continues(after[i], after[i + 1])
  }

  predicate Continues(call: GetCall, next: GetCall) {
    Partial(call) && next.asked == call.out.unprocessed.value
  }

  /** Why a chunk may fail: the guard did not let it through, a call failed, or too many
      answers were partial. */
  predicate GaveUp(before: seq<GetCall>, after: seq<GetCall>) {
    || |after| <= |before|
    || after[|after| - 1].out.GetError?
    || (|after| == |before| + 4 && Partial(after[|after| - 1]))
  }

  lemma SubMultisetKeys(left: seq<RowKey>, keys: seq<RowKey>)
    requires multiset(left) <= multiset(keys)
    ensures |left| <= |keys|
    ensures forall r :: r in left ==> r in keys
  {
    assert multiset(keys) == multiset(left) + (multiset(keys) - multiset(left));
    assert |multiset(left)| == |left| && |multiset(keys)| == |keys|;
    forall r | r in left ensures r in keys {
      assert r in multiset(left);
      assert r in multiset(keys);
    }
  }

  lemma {:induction false} KeyCountAtMostOne(keys: seq<RowKey>, r: RowKey)
    requires NoRepeats(keys)
    ensures multiset(keys)[r] <= 1
  {
    if keys == [] {
    } else {
      var front, last := keys[..|keys| - 1], keys[|keys| - 1];
      assert keys == front + [last];
      KeyCountAtMostOne(front, r);
      assert r in multiset(front) ==> r in front;
    }
  }

  lemma SubMultisetNoRepeats(left: seq<RowKey>, keys: seq<RowKey>)
    requires multiset(left) <= multiset(keys) && NoRepeats(keys)
    ensures NoRepeats(left)
  {
    forall i, j | 0 <= i < j < |left| ensures left[i] != left[j] {
      if left[i] == left[j] {
        assert left == left[..j] + left[j..];
        assert left[..j][i] == left[i] && left[j..][0] == left[i];
        KeyCountAtMostOne(keys, left[i]);
      }
    }
  }

  /** The state between two calls for a chunk: current is still to be asked for. */
  ghost predicate Fetching(before: seq<GetCall>, after: seq<GetCall>, keys: seq<RowKey>, current: seq<RowKey>) {
    && multiset(current) <= multiset(keys) && (forall r :: r in current ==> r in keys)
    && GetCallsOk(before, after, keys) && Continued(before, after, keys)
    && if |after| == |before| then current == keys
       else Partial(after[|after| - 1]) && current == after[|after| - 1].out.unprocessed.value
  }

  lemma FetchingNext(before: seq<GetCall>, calls: seq<GetCall>, keys: seq<RowKey>, current: seq<RowKey>,
                     out: GetOutcome)
    requires Fetching(before, calls, keys, current) && current != [] && |keys| <= GET_CHUNK
    ensures var after := calls + [Call(current, out)];
            && GetCallsOk(before, after, keys) && Continued(before, after, keys)
            && (Partial(after[|calls|]) && multiset(out.unprocessed.value) <= multiset(current) ==>
                  && Fetching(before, after, keys, out.unprocessed.value)
                  && (forall r :: r in out.unprocessed.value ==> r in current))
  {
    SubMultisetKeys(current, keys);
    if NoRepeats(keys) {
      SubMultisetNoRepeats(current, keys);
    }
    OneMoreCall(before, calls, Call(current, out), MAX_KEYS);
    ContinuedNext(before, calls, keys, current, out);
    if out.Got? && out.unprocessed.Some? && multiset(out.unprocessed.value) <= multiset(current) {
      SubMultisetKeys(out.unprocessed.value, current);
    }
  }

  lemma ContinuedNext(before: seq<GetCall>, calls: seq<GetCall>, keys: seq<RowKey>, current: seq<RowKey>,
                      out: GetOutcome)
    requires Continued(before, calls, keys)
    requires |calls| == |before| ==> current == keys
    requires |calls| > |before| ==> Continues(calls[|calls| - 1], Call(current, out))
    ensures Continued(before, calls + [Call(current, out)], keys)
  {
  }

  /** The guarded operation on one chunk: only a partial answer is tried again. */
  method GetChunk(svc: TableService, keys: seq<RowKey>) returns (items: seq<Item>, ok: bool)
    requires |keys| <= GET_CHUNK
    modifies svc`getCalls, svc`refused
    ensures ok ==> ReadFrom(svc.rows, keys, [], items)
    ensures GetCallsOk(old(svc.getCalls), svc.getCalls, keys)
    ensures Continued(old(svc.getCalls), svc.getCalls, keys)
    ensures svc.refused >= old(svc.refused)
    ensures !ok ==> svc.refused > old(svc.refused) && GaveUp(old(svc.getCalls), svc.getCalls)
  {
    items, ok := [], false;
    var admitted := svc.Admit();
    if !admitted {
      return;
    }
    var current := keys;
    var retries := 0;
    while true
      invariant 0 <= retries <= GET_RETRIES
      invariant ReadFrom(svc.rows, keys, current, items)
      invariant Fetching(old(svc.getCalls), svc.getCalls, keys, current)
      invariant |svc.getCalls| == |old(svc.getCalls)| + retries && svc.refused >= old(svc.refused)
      decreases GET_RETRIES - retries
    {
      if current == [] {
        return items, true;
      }
      ghost var calls := svc.getCalls;
      var out := svc.BatchGetItem(current);
      FetchingNext(old(svc.getCalls), calls, keys, current, out);
      if out.GetError? {
        return items, false;
      }
      items := items + out.items;
      if out.unprocessed.None? {
        return items, true;
      }
      current := out.unprocessed.value;
      if retries == GET_RETRIES {
        return items, false;
      }
      retries := retries + 1;
    }
  }

  /** Reads the rows in chunks; a successful answer holds every stored row asked for. */
  method BatchGet(svc: TableService, keys: seq<RowKey>) returns (results: seq<Item>, ok: bool)
    modifies svc`getCalls, svc`refused
    ensures ok ==> ReadFrom(svc.rows, keys, [], results)
    ensures svc.refused >= old(svc.refused) && (!ok ==> svc.refused > old(svc.refused))
    ensures GetCallsOk(old(svc.getCalls), svc.getCalls, keys)
  {
    results, ok := [], true;
    var i := 0;
    while i < |keys|
      invariant 0 <= i <= |keys|
      invariant ReadFrom(svc.rows, keys[..i], [], results) && svc.refused >= old(svc.refused)
      invariant GetCallsOk(old(svc.getCalls), svc.getCalls, keys)
    {
      var end := if i + GET_CHUNK < |keys| then i + GET_CHUNK else |keys|;
      var chunk := keys[i..end];
      var items, chunkOk := GetChunk(svc, chunk);
      assert NoRepeats(keys) ==> NoRepeats(chunk);
      if !chunkOk {
        return [], false;
      }
      assert keys[..end] == keys[..i] + chunk;
      results := results + items;
      i := end;
    }
    assert keys[..|keys|] == keys;
  }
}
