/** The flat table behind the key tree: rows addressed by (Path, Key). */
module Table {

  datatype RowKey = RowKey(path: string, key: string)

  datatype Metadata = Metadata(
    updatedAt: int, updatedBy: string, secure: bool, action: string,
    backend: string, fingerprint: string, version: int)

  datatype Record = Record(value: string, metadata: Metadata)

  type Rows = map<RowKey, Record>

  datatype WriteRequest =
    | Put(row: RowKey, record: Record)
    | Remove(row: RowKey)

  function Apply(t: Rows, q: WriteRequest): Rows {
    match q
    case Put(r, rec) => t[r := rec]
    case Remove(r) => t - {r}
  }

  predicate Applied(t: Rows, q: WriteRequest) {
    match q
    case Put(r, rec) => r in t && t[r] == rec
    case Remove(r) => r !in t
  }

  /** Row r is the same in both tables. */
  predicate Same(t0: Rows, t1: Rows, r: RowKey) {
    (r in t0 <==> r in t1) && (r in t0 ==> t0[r] == t1[r])
  }

  lemma SameEverywhere(a: Rows, b: Rows)
    requires forall r :: Same(a, b, r)
    ensures a == b
  {
    forall r ensures r in a <==> r in b {
      assert Same(a, b, r);
    }
    forall r | r in a ensures a[r] == b[r] {
      assert Same(a, b, r);
    }
  }

  predicate DistinctRows(reqs: seq<WriteRequest>) {
    forall i, j :: 0 <= i < j < |reqs| ==> reqs[i].row != reqs[j].row
  }

  ghost predicate Within(left: seq<WriteRequest>, reqs: seq<WriteRequest>) {
    forall q :: q in left ==> q in reqs
  }

  /** Only rows named by reqs changed. */
  ghost predicate OnlyTouches(t0: Rows, t1: Rows, reqs: seq<WriteRequest>) {
    forall r :: (forall q :: q in reqs ==> q.row != r) ==> Same(t0, t1, r)
  }

  /** From t0 to t1 every request of reqs took effect, except that those in left may or
      may not have. */
  ghost predicate Written(t0: Rows, t1: Rows, reqs: seq<WriteRequest>, left: seq<WriteRequest>) {
    && OnlyTouches(t0, t1, reqs)
    && (forall q :: q in reqs && q !in left ==> Applied(t1, q))
    && (forall q :: q in left ==> Applied(t1, q) || Same(t0, t1, q.row))
  }

  lemma DistinctMeansUnique(reqs: seq<WriteRequest>, q1: WriteRequest, q2: WriteRequest)
    requires DistinctRows(reqs) && q1 in reqs && q2 in reqs && q1.row == q2.row
    ensures q1 == q2
  {
    var i :| 0 <= i < |reqs| && reqs[i] == q1;
    var j :| 0 <= j < |reqs| && reqs[j] == q2;
    assert i == j;
  }

  /** Retrying the leftovers of a call. */
  lemma WrittenRetry(t0: Rows, t1: Rows, t2: Rows, reqs: seq<WriteRequest>,
                     left1: seq<WriteRequest>, left2: seq<WriteRequest>)
    requires DistinctRows(reqs) && Within(left1, reqs) && Within(left2, left1)
    requires Written(t0, t1, reqs, left1) && Written(t1, t2, left1, left2)
    ensures Written(t0, t2, reqs, left2)
  {
    forall r | forall q :: q in reqs ==> q.row != r ensures Same(t0, t2, r) {
      assert Same(t0, t1, r);
      assert Same(t1, t2, r);
    }
    forall q | q in reqs && q !in left2 ensures Applied(t2, q) {
      if q !in left1 {
        forall p | p in left1 ensures p.row != q.row {
          if p.row == q.row {
            DistinctMeansUnique(reqs, p, q);
          }
        }
        assert Same(t1, t2, q.row);
      }
    }
    forall q | q in left2 ensures Applied(t2, q) || Same(t0, t2, q.row) {
      assert q in left1;
    }
  }

  /** Writing one batch after another. */
  lemma WrittenAppend(t0: Rows, t1: Rows, t2: Rows, x: seq<WriteRequest>, leftX: seq<WriteRequest>,
                      y: seq<WriteRequest>, leftY: seq<WriteRequest>)
    requires DistinctRows(x + y) && Within(leftX, x) && Within(leftY, y)
    requires Written(t0, t1, x, leftX) && Written(t1, t2, y, leftY)
    ensures Written(t0, t2, x + y, leftX + leftY)
  {
    var xy := x + y;
    assert forall q :: q in xy <==> q in x || q in y;
    forall q, p | q in x && p in y ensures q.row != p.row {
      var i :| 0 <= i < |x| && x[i] == q;
      var j :| 0 <= j < |y| && y[j] == p;
      assert xy[i] == q && xy[|x| + j] == p;
    }
    forall q | q in x ensures Same(t1, t2, q.row) {}
    forall q | q in y ensures Same(t0, t1, q.row) {}
    forall r | forall q :: q in xy ==> q.row != r ensures Same(t0, t2, r) {
      assert Same(t0, t1, r);
      assert Same(t1, t2, r);
    }
  }

  lemma WrittenNext(t0: Rows, t1: Rows, reqs: seq<WriteRequest>, i: nat, left: seq<WriteRequest>)
    requires i < |reqs| && DistinctRows(reqs) && Within(left, reqs[..i])
    requires Written(t0, t1, reqs[..i], left)
    ensures Written(t0, Apply(t1, reqs[i]), reqs[..i + 1], left)
    ensures Written(t0, t1, reqs[..i + 1], left + [reqs[i]])
    ensures Within(left, reqs[..i + 1]) && Within(left + [reqs[i]], reqs[..i + 1])
  {
    var x, q := reqs[..i], reqs[i];
    assert reqs[..i + 1] == x + [q];
    assert Written(t1, t1, [q], [q]);
    WrittenAppend(t0, t1, t1, x, left, [q], [q]);
    assert Written(t1, Apply(t1, q), [q], []);
    WrittenAppend(t0, t1, Apply(t1, q), x, left, [q], []);
    assert left + [] == left;
  }
}
