/** The pool mirror, the spend index and the address history, each on its own
    chained table; the history is on the multimap. `lookup` and `rows` are what
    the tables hold, as maps of stacks. */
module Indexes {
  import opened Wrappers
  import opened StackMaps
  import opened ChainTypes
  import opened HashTables
  import opened RecordMultimaps

  /** Positions and row numbers of the store start above the sentinel here, so
      that no table is ever full. */
  const SENTINEL: nat := 0
  const FIRST: nat := 1

  class UnconfirmedDatabase {
    const table: HashTable<Hash, Tx>
    ghost var lookup: StackMap<Hash, Tx>

    ghost function Repr(): set<object> {
      {this, table, table.header}
    }

    ghost predicate Valid()
      reads Repr()
    {
      table.Valid() && table.Unlimited() && lookup == table.View()
    }

    constructor (buckets: nat, hash: Hash -> nat)
      requires buckets > 0
      ensures Valid() && lookup == map[] && fresh(Repr())
    {
      table := new HashTable(buckets, hash, FIRST, SENTINEL);
      lookup := map[];
    }

    method Store(tx: Tx)
      requires Valid()
      modifies Repr()
      ensures Valid() && lookup == Push(old(lookup), tx.hash, tx)
    {
      hide HashTable.Valid, HashTable.View, Push;
      var size: nat :| size > 0;
      var position := table.Store(tx.hash, tx, size);
      lookup := table.View();
    }

    method UnlinkIfExists(hash: Hash) returns (ok: bool)
      requires Valid()
      modifies Repr()
      ensures Valid() && lookup == Pop(old(lookup), hash)
      ensures ok == (hash in old(lookup))
    {
      hide HashTable.Valid, HashTable.View, Pop;
      var found := table.Find(hash);
      if found.None? {
        PopAbsent(lookup, hash);
        return false;
      }
      table.BucketOf(hash);
      ok := table.Unlink(hash);
      lookup := table.View();
    }
  }

  class SpendDatabase {
    const table: HashTable<Point, Point>
    ghost var lookup: StackMap<Point, Point>

    ghost function Repr(): set<object> {
      {this, table, table.header}
    }

    ghost predicate Valid()
      reads Repr()
    {
      table.Valid() && table.Unlimited() && lookup == table.View()
    }

    constructor (buckets: nat, hash: Point -> nat)
      requires buckets > 0
      ensures Valid() && lookup == map[] && fresh(Repr())
    {
      table := new HashTable(buckets, hash, FIRST, SENTINEL);
      lookup := map[];
    }

    /** The newest spender stored for an output. */
    method Get(outpoint: Point) returns (r: Option<Point>)
      requires Valid()
      ensures r == Peek(lookup, outpoint)
    {
      hide HashTable.Valid, HashTable.View;
      var found := table.Find(outpoint);
      r := if found.None? then None else Some(table.rows[found.value].value);
    }

    method Store(outpoint: Point, spend: Point)
      requires Valid()
      modifies Repr()
      ensures Valid() && lookup == Push(old(lookup), outpoint, spend)
    {
      hide HashTable.Valid, HashTable.View, Push;
      var position := table.Store(outpoint, spend, 1);
      lookup := table.View();
    }

    method Unlink(outpoint: Point) returns (ok: bool)
      requires Valid()
      modifies Repr()
      ensures Valid() && lookup == Pop(old(lookup), outpoint)
      ensures ok == (outpoint in old(lookup))
    {
      hide HashTable.Valid, HashTable.View, Pop;
      var found := table.Find(outpoint);
      if found.None? {
        PopAbsent(lookup, outpoint);
        return false;
      }
      table.BucketOf(outpoint);
      ok := table.Unlink(outpoint);
      lookup := table.View();
    }
  }

  /** The rows at or above a height, in the order they are kept. */
  function AtLeast(rows: seq<HistoryRow>, from: nat): seq<HistoryRow> {
    if rows == [] then []
    else
      var last := rows[|rows| - 1];
      AtLeast(rows[..|rows| - 1], from) + (if last.height >= from then [last] else [])
  }

  /** At most `limit` rows, where zero is no limit. */
  function Limited(rows: seq<HistoryRow>, limit: nat): seq<HistoryRow> {
    if limit == 0 || |rows| <= limit then rows else rows[..limit]
  }

  lemma {:induction false} AtLeastExtends(rows: seq<HistoryRow>, from: nat, k: nat)
    requires k <= |rows|
    ensures |AtLeast(rows[..k], from)| <= |AtLeast(rows, from)|
    ensures AtLeast(rows, from)[..|AtLeast(rows[..k], from)|] == AtLeast(rows[..k], from)
  {
    if k < |rows| {
      assert rows[..|rows| - 1][..k] == rows[..k];
      AtLeastExtends(rows[..|rows| - 1], from, k);
    } else {
      assert rows[..k] == rows;
    }
  }

  /** What the height filter keeps: all of the rows that are high enough, and
      nothing else. */
  lemma {:induction false} AtLeastExact(rows: seq<HistoryRow>, from: nat)
    ensures multiset(AtLeast(rows, from)) <= multiset(rows)
    ensures forall r :: multiset(AtLeast(rows, from))[r] == if r.height >= from then multiset(rows)[r] else 0
  {
    if rows != [] {
      var front := rows[..|rows| - 1];
      AtLeastExact(front, from);
      assert rows == front + [rows[|rows| - 1]];
    }
  }

  class HistoryDatabase {
    const multimap: RecordMultimap<Address, HistoryRow>
    ghost var rows: StackMap<Address, HistoryRow>

    ghost function Repr(): set<object> {
      {this, multimap, multimap.table, multimap.table.header}
    }

    ghost predicate Valid()
      reads Repr()
    {
      multimap.Valid() && multimap.Unlimited() && rows == multimap.View()
    }

    constructor (buckets: nat, hash: Address -> nat)
      requires buckets > 0
      ensures Valid() && rows == map[] && fresh(Repr())
    {
      multimap := new RecordMultimap(buckets, hash, FIRST, SENTINEL);
      rows := map[];
    }

    method AddOutput(key: Address, outpoint: Point, height: nat, value: nat)
      requires Valid()
      modifies Repr()
      ensures Valid() && rows == Push(old(rows), key, OutputRow(outpoint, height, value))
    {
      hide RecordMultimap.Valid, RecordMultimap.View, Push;
      multimap.AddRow(key, OutputRow(outpoint, height, value));
      rows := multimap.View();
    }

    method AddInput(key: Address, inpoint: Point, height: nat, previous: Point)
      requires Valid()
      modifies Repr()
      ensures Valid() && rows == Push(old(rows), key, SpendRow(inpoint, height, previous))
    {
      hide RecordMultimap.Valid, RecordMultimap.View, Push;
      multimap.AddRow(key, SpendRow(inpoint, height, previous));
      rows := multimap.View();
    }

    method DeleteLastRow(key: Address) returns (ok: bool)
      requires Valid()
      modifies Repr()
      ensures Valid() && rows == Pop(old(rows), key)
      ensures ok == (key in old(rows))
    {
      hide RecordMultimap.Valid, RecordMultimap.View, Pop;
      ok := multimap.DeleteLastRow(key);
      rows := multimap.View();
    }

    /** The newest rows first, at most `limit` of those that are high enough. */
    method Get(key: Address, limit: nat, from: nat) returns (result: seq<HistoryRow>)
      requires Valid()
      ensures result == Limited(AtLeast(Stack(rows, key), from), limit)
    {
      hide RecordMultimap.View, HashTable.Valid, HashTable.View, Stack, RowsFrom;
      var list := multimap.list;
      ghost var seen, records := [], Stack(rows, key);
      var index := multimap.Lookup(key);
      result := [];
      assert seen + RowsFrom(list, index) == records;
      while index != list.empty
        invariant 0 <= index && (index == list.empty || list.Holds(index))
        invariant seen + RowsFrom(list, index) == records
        invariant result == AtLeast(seen, from)
        invariant limit == 0 || |result| <= limit
        decreases if index == list.empty then 0 else index + 1
      {
        if limit > 0 && |result| >= limit {
          AtLeastExtends(records, from, |seen|);
          assert records[..|seen|] == seen;
          return;
        }
        RowsFromStep(list, index, seen);
        var row := list.At(index).data;
        assert (seen + [row])[..|seen|] == seen;
        if from == 0 || row.height >= from {
          result := result + [row];
        }
        seen := seen + [row];
        index := list.At(index).next;
      }
      NoRowsFrom(list);
      assert seen + [] == seen;
    }
  }
}
