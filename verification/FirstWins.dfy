/** Requests kept under identifiers, where the first claim on an identifier wins. */
module FirstWins {
  import opened Seqs
  import opened Options
  import opened Table

  /** Requests under the string that identifies them within a batch. */
  type Requests = map<string, WriteRequest>

  datatype Claim = Claim(id: string, request: WriteRequest)

  function AddFirst(acc: Requests, c: Claim): Requests {
    if c.id in acc then acc else acc[c.id := c.request]
  }

  function AddAll(acc: Requests, cs: seq<Claim>): Requests {
    if cs == [] then acc else AddFirst(AddAll(acc, cs[..|cs| - 1]), cs[|cs| - 1])
  }

  lemma {:induction false} AddAllInTurn(acc: Requests, x: seq<Claim>, y: seq<Claim>)
    ensures AddAll(AddAll(acc, x), y) == AddAll(acc, x + y)
  {
    if y == [] {
      assert x + y == x;
    } else {
      AddAllInTurn(acc, x, y[..|y| - 1]);
      DropLastOfSum(x, y);
    }
  }

  /** Claims on identifiers outside a map do not see that map. */
  lemma {:induction false} AddAllBeside(outer: Requests, acc: Requests, cs: seq<Claim>)
    requires forall i :: 0 <= i < |cs| ==> cs[i].id !in outer
    ensures AddAll(outer + acc, cs) == outer + AddAll(acc, cs)
  {
    if cs == [] {
    } else {
      var front, c := cs[..|cs| - 1], cs[|cs| - 1];
      assert forall i :: 0 <= i < |front| ==> front[i] == cs[i];
      AddAllBeside(outer, acc, front);
      assert c.id !in outer;
    }
  }

  /** The request of the first claim on an identifier. */
  function First(cs: seq<Claim>, id: string): Option<WriteRequest> {
    if cs == [] then None
    else
      var before, c := First(cs[..|cs| - 1], id), cs[|cs| - 1];
      if before.Some? then before else if c.id == id then Some(c.request) else None
  }

  lemma {:induction false} AddAllKeepsFirst(cs: seq<Claim>, id: string)
    ensures id in AddAll(map[], cs) <==> First(cs, id).Some?
    ensures id in AddAll(map[], cs) ==> First(cs, id) == Some(AddAll(map[], cs)[id])
  {
    if cs == [] {
    } else {
      AddAllKeepsFirst(cs[..|cs| - 1], id);
    }
  }

  lemma {:induction false} FirstIsClaimed(cs: seq<Claim>, id: string)
    ensures First(cs, id).Some? ==>
              exists i :: 0 <= i < |cs| && cs[i].id == id && First(cs, id) == Some(cs[i].request)
  {
    if cs == [] {
    } else {
      var front := cs[..|cs| - 1];
      FirstIsClaimed(front, id);
      if First(front, id).Some? {
        var i :| 0 <= i < |front| && front[i].id == id && First(front, id) == Some(front[i].request);
        assert cs[i] == front[i];
      }
    }
  }

  lemma {:induction false} ClaimedHasFirst(cs: seq<Claim>, i: nat)
    requires i < |cs|
    ensures First(cs, cs[i].id).Some?
  {
    if i == |cs| - 1 {
    } else {
      ClaimedHasFirst(cs[..|cs| - 1], i);
    }
  }

  lemma {:induction false} AddAllCases(acc: Requests, cs: seq<Claim>, id: string)
    ensures id in acc ==> id in AddAll(acc, cs) && AddAll(acc, cs)[id] == acc[id]
    ensures id in AddAll(acc, cs) && id !in acc ==>
              exists i :: 0 <= i < |cs| && cs[i].id == id && AddAll(acc, cs)[id] == cs[i].request
  {
    if cs == [] {
    } else {
      var n := |cs| - 1;
      var front := cs[..n];
      AddAllCases(acc, front, id);
      if id in AddAll(acc, front) && id !in acc {
        var i :| 0 <= i < n && front[i].id == id && AddAll(acc, front)[id] == front[i].request;
        assert cs[i] == front[i];
      } else if id in AddAll(acc, cs) && id !in acc {
        assert cs[n].id == id;
      }
    }
  }

  // ------------------------------------------------------------ the last claim wins

  function SetAll(acc: Requests, cs: seq<Claim>): Requests {
    if cs == [] then acc else SetAll(acc, cs[..|cs| - 1])[cs[|cs| - 1].id := cs[|cs| - 1].request]
  }

  lemma {:induction false} SetAllIsClaimed(cs: seq<Claim>, id: string)
    ensures id in SetAll(map[], cs) ==>
              exists i :: 0 <= i < |cs| && LastClaim(cs, id, i) && SetAll(map[], cs)[id] == cs[i].request
  {
    if cs == [] {
    } else {
      var n := |cs| - 1;
      var front := cs[..n];
      SetAllIsClaimed(front, id);
      if id == cs[n].id {
        assert LastClaim(cs, id, n);
      } else if id in SetAll(map[], front) {
        var i :| 0 <= i < n && LastClaim(front, id, i) && SetAll(map[], front)[id] == front[i].request;
        assert LastClaim(cs, id, i);
      }
    }
  }

  /** Claim i is on the identifier, and no later one is. */
  predicate LastClaim(cs: seq<Claim>, id: string, i: nat)
    requires i < |cs|
  {
    cs[i].id == id && forall n :: i < n < |cs| ==> cs[n].id != id
  }

  lemma {:induction false} SetAllHasClaimed(cs: seq<Claim>, i: nat)
    requires i < |cs|
    ensures cs[i].id in SetAll(map[], cs)
  {
    if i == |cs| - 1 {
    } else {
      SetAllHasClaimed(cs[..|cs| - 1], i);
    }
  }
}
