/** The store as the push server reads it over HTTP: the flat listing of a prefix, and the
    plaintext of a key. */
module Snapshots {
  import opened Table
  import opened TableKit
  import opened EntryStore
  import opened EntryReads
  import opened EntryLevels
  import opened Events

  /** An entry of a snapshot. */
  datatype SnapEntry = SnapEntry(key: string, value: string)

  /** One prefix that was read, what was answered, and the table it was read from. */
  datatype Reading = Reading(prefix: string, entries: seq<SnapEntry>, table: Rows)

  /** A secret as it was resolved for a key. */
  datatype Secret = Secret(key: string, text: string)

  /** The entries of a listing as a client of the store sees them. */
  function Shown(es: seq<Entry>): (r: seq<SnapEntry>)
    ensures |r| == |es|
    ensures forall i :: 0 <= i < |es| ==> r[i] == SnapEntry(es[i].key, es[i].value)
  {
    seq(|es|, i requires 0 <= i < |es| => SnapEntry(es[i].key, es[i].value))
  }

  /** The answer to a read of one prefix, when the listing meets the rows in the given order. */
  function Answer(t: Rows, prefix: string, order: seq<RowKey>): Reading {
    Reading(prefix, Shown(Leaves(t, ListedRows(t, prefix, true), order)), t)
  }

  /** A listing in this order misses none of the rows that it should show. */
  ghost predicate Complete(t: Rows, prefix: string, order: seq<RowKey>) {
    NoRepeats(order) && forall r :: r in ListedRows(t, prefix, true) ==> r in order
  }

  /** The reading is what its table lists for its prefix. */
  ghost predicate TrueReading(r: Reading) {
    exists order: seq<RowKey> :: Complete(r.table, r.prefix, order) && r == Answer(r.table, r.prefix, order)
  }

  /** The store as read over HTTP, and the sealing of what was read. Others may have written
      to the store before any read, and any call may fail. It remembers what it answered. */
  class Snapshotter {
    const store: TableService
    ghost var answered: seq<Reading>
    ghost var resolved: seq<Secret>
    ghost var refused: nat

    constructor (store: TableService)
      ensures this.store == store && answered == [] && resolved == [] && refused == 0
    {
      this.store := store;
      answered, resolved, refused := [], [], 0;
    }

    method OthersWrite()
      modifies store
    {
      store.rows := *;
    }

    method Snapshot(prefix: string) returns (entries: seq<SnapEntry>, ok: bool)
      modifies this, store
      ensures resolved == old(resolved) && refused == old(refused) + if ok then 0 else 1
      ensures ok ==> answered == old(answered) + [Reading(prefix, entries, store.rows)]
      ensures ok ==> TrueReading(Reading(prefix, entries, store.rows))
      ensures !ok ==> answered == old(answered)
    {
      OthersWrite();
      var leaves;
      ghost var order;
      leaves, ok, order := List(store, prefix, true);
      entries := Show(leaves);
      if ok {
        ghost var r := Answer(store.rows, prefix, order);
        assert Reading(prefix, entries, store.rows) == r;
        answered := answered + [r];
      } else {
        refused := refused + 1;
      }
    }

    static method Show(es: seq<Entry>) returns (r: seq<SnapEntry>)
      ensures r == Shown(es)
    {
      r := [];
      for i := 0 to |es|
        invariant |r| == i && forall j :: 0 <= j < i ==> r[j] == SnapEntry(es[j].key, es[j].value)
      {
        r := r + [SnapEntry(es[i].key, es[i].value)];
      }
    }

    method Resolve(key: string) returns (text: string, ok: bool)
      modifies this
      ensures answered == old(answered) && refused == old(refused) + if ok then 0 else 1
      ensures ok ==> resolved == old(resolved) + [Secret(key, text)]
      ensures !ok ==> resolved == old(resolved)
    {
      text, ok := *, *;
      if ok {
        resolved := resolved + [Secret(key, text)];
      } else {
        refused := refused + 1;
      }
    }

    method Seal(key: string, text: string, pub: PublicKey) returns (ev: Event, ok: bool)
      modifies this`refused
      ensures refused == old(refused) + if ok then 0 else 1
      ensures ok ==> ev.etype == ENTRY_UPSERTED && ev.subject == key && ev.body == Sealed(pub, key, text)
    {
      var uuid: string := *;
      ev, ok := Event(uuid, ENTRY_UPSERTED, key, Sealed(pub, key, text)), *;
      refused := refused + if ok then 0 else 1;
    }
  }
}
