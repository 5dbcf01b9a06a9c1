/** Many rows per key: the hash table holds, for each key, the index of the first
    row of a linked list of rows in a second file. */
module RecordMultimaps {
  import opened Wrappers
  import opened StackMaps
  import opened HashTables

  datatype ListRow<V> = ListRow(next: nat, data: V)

  /** The rows of a file, numbered from `first`. */
  datatype List<V> = List(rows: seq<ListRow<V>>, first: nat, empty: nat) {
    function End(): nat { first + |rows| }

    predicate Holds(index: nat) { first <= index < End() }

    function At(index: nat): ListRow<V>
      requires Holds(index)
    {
      rows[index - first]
    }

    function Add(row: ListRow<V>): List<V> { this.(rows := rows + [row]) }
  }

  /** No row's number is the sentinel, and each row links to an older one or to
      none. */
  predicate Backward<V>(list: List<V>) {
    && (list.empty < list.first || list.End() <= list.empty)
    && forall i :: list.first <= i < list.End() ==>
         list.At(i).next == list.empty || list.first <= list.At(i).next < i
  }

  /** The rows from an index on. */
  function RowsFrom<V>(list: List<V>, index: nat): seq<V>
    requires Backward(list) && (index == list.empty || list.Holds(index))
    decreases if index == list.empty then 0 else index + 1
  {
    if index == list.empty then [] else [list.At(index).data] + RowsFrom(list, list.At(index).next)
  }

  lemma {:induction false} RowsFromFrame<V>(list: List<V>, row: ListRow<V>, index: nat)
    requires Backward(list) && Backward(list.Add(row)) && (index == list.empty || list.Holds(index))
    ensures RowsFrom(list.Add(row), index) == RowsFrom(list, index)
    decreases if index == list.empty then 0 else index + 1
  {
    if index != list.empty {
      assert list.Add(row).At(index) == list.At(index);
      RowsFromFrame(list, row, list.At(index).next);
    }
  }

  /** The lookup table holds a key at most once, and never with an empty list. */
  ghost predicate Lookups<K, V>(heads: StackMap<K, nat>, list: List<V>) {
    && Backward(list)
    && forall k :: k in heads ==> |heads[k]| == 1 && list.Holds(heads[k][0]) && heads[k][0] != list.empty
  }

  /** One row more would not get the sentinel as its number. */
  predicate HasRoom<V>(list: List<V>) {
    list.empty < list.first || list.End() < list.empty
  }

  ghost function RowsOf<K, V>(heads: StackMap<K, nat>, list: List<V>): StackMap<K, V>
    requires Lookups(heads, list)
  {
    map k | k in heads :: RowsFrom(list, heads[k][0])
  }

  lemma {:induction false} RowAdded<V>(list: List<V>, row: ListRow<V>)
    requires Backward(list) && HasRoom(list)
    requires row.next == list.empty || list.Holds(row.next)
    ensures Backward(list.Add(row))
    ensures list.Add(row).Holds(list.End()) && list.Add(row).At(list.End()) == row && list.End() != list.empty
  {
    var longer := list.Add(row);
    forall i | longer.first <= i < longer.End()
      ensures longer.At(i).next == longer.empty || longer.first <= longer.At(i).next < i
    {
      assert i < list.End() ==> longer.At(i) == list.At(i);
    }
  }

  /** The rows of all keys are as before when a row is added that none links. */
  lemma {:induction false} RowsKept<K, V>(heads: StackMap<K, nat>, list: List<V>, row: ListRow<V>)
    requires Lookups(heads, list) && Backward(list.Add(row))
    ensures Lookups(heads, list.Add(row)) && RowsOf(heads, list.Add(row)) == RowsOf(heads, list)
  {
    hide Backward;
    forall l | l in heads ensures RowsFrom(list.Add(row), heads[l][0]) == RowsFrom(list, heads[l][0]) {
      RowsFromFrame(list, row, heads[l][0]);
    }
  }

  /** One key gets a new head. */
  lemma {:induction false} HeadChanged<K, V>(heads: StackMap<K, nat>, list: List<V>, k: K, head: nat)
    requires Lookups(heads, list) && list.Holds(head) && head != list.empty
    ensures Lookups(heads[k := [head]], list)
    ensures RowsOf(heads[k := [head]], list) == RowsOf(heads, list)[k := RowsFrom(list, head)]
  {
    hide Backward, RowsFrom;
  }

  /** A first row, for a key that has none. */
  lemma {:induction false} RowCreated<K, V>(heads: StackMap<K, nat>, list: List<V>, k: K, v: V)
    requires Lookups(heads, list) && HasRoom(list) && k !in heads
    ensures var list' := list.Add(ListRow(list.empty, v));
            && Lookups(Push<K, nat>(heads, k, list.End()), list')
            && RowsOf(Push<K, nat>(heads, k, list.End()), list') == Push(RowsOf(heads, list), k, v)
  {
    var row := ListRow(list.empty, v);
    RowAdded(list, row);
    RowsKept(heads, list, row);
    RowsFromStep(list.Add(row), list.End(), []);
    NoRowsFrom(list.Add(row));
    hide Backward, RowsFrom;
    HeadChanged(heads, list.Add(row), k, list.End());
    assert [list.End()] + Stack<K, nat>(heads, k) == [list.End()];
    assert RowsFrom(list.Add(row), list.End()) == [] + RowsFrom(list.Add(row), list.End()) == [v];
  }

  /** One more row, in front of a key's others. */
  lemma {:induction false} RowInserted<K, V>(heads: StackMap<K, nat>, list: List<V>, k: K, v: V)
    requires Lookups(heads, list) && HasRoom(list) && k in heads
    ensures var list' := list.Add(ListRow(heads[k][0], v));
            && Lookups(Patch<K, nat>(heads, k, list.End()), list')
            && RowsOf(Patch<K, nat>(heads, k, list.End()), list') == Push(RowsOf(heads, list), k, v)
  {
    var row := ListRow(heads[k][0], v);
    RowAdded(list, row);
    RowsKept(heads, list, row);
    RowsFromStep(list.Add(row), list.End(), []);
    RowsFromFrame(list, row, heads[k][0]);
    hide Backward, RowsFrom;
    HeadChanged(heads, list.Add(row), k, list.End());
    assert [list.End()] + heads[k][1..] == [list.End()];
    var rest := RowsFrom(list, heads[k][0]);
    assert RowsFrom(list.Add(row), list.End()) == [] + RowsFrom(list.Add(row), list.End()) == [v] + rest;
  }

  /** The newest row of a key is skipped, and a key without rows disappears. */
  lemma {:induction false} RowDeleted<K, V>(heads: StackMap<K, nat>, list: List<V>, k: K)
    requires Lookups(heads, list) && k in heads
    ensures var next := list.At(heads[k][0]).next;
            var heads' := if next == list.empty then Pop<K, nat>(heads, k) else Patch<K, nat>(heads, k, next);
            && Lookups(heads', list)
            && RowsOf(heads', list) == Pop(RowsOf(heads, list), k)
  {
    var head, next := heads[k][0], list.At(heads[k][0]).next;
    var before := RowsOf(heads, list);
    RowsFromStep(list, head, []);
    assert before[k] == [list.At(head).data] + RowsFrom(list, next) by {
      assert [] + RowsFrom(list, head) == RowsFrom(list, head);
    }
    hide Backward, Pop, Patch, RowsFrom;
    if next == list.empty {
      NoRowsFrom(list);
      LastRowDeleted(heads, list, k);
    } else {
      RowsFromStep(list, next, []);
      FirstRowDeleted(heads, list, k, next);
    }
  }

  lemma {:induction false} NoRowsFrom<V>(list: List<V>)
    requires Backward(list)
    ensures RowsFrom(list, list.empty) == []
  {
  }

  lemma {:induction false} LastRowDeleted<K, V>(heads: StackMap<K, nat>, list: List<V>, k: K)
    requires Lookups(heads, list) && k in heads && |RowsOf(heads, list)[k]| == 1
    ensures Lookups(Pop<K, nat>(heads, k), list)
    ensures RowsOf(Pop<K, nat>(heads, k), list) == Pop(RowsOf(heads, list), k)
  {
    hide Backward, RowsFrom;
  }

  lemma {:induction false} FirstRowDeleted<K, V>(heads: StackMap<K, nat>, list: List<V>, k: K, next: nat)
    requires Lookups(heads, list) && k in heads && list.Holds(next) && next != list.empty
    requires RowsFrom(list, next) != []
    requires exists v :: RowsOf(heads, list)[k] == [v] + RowsFrom(list, next)
    ensures Lookups(Patch<K, nat>(heads, k, next), list)
    ensures RowsOf(Patch<K, nat>(heads, k, next), list) == Pop(RowsOf(heads, list), k)
  {
    hide Backward, RowsFrom;
    assert RowsOf(heads, list)[k][1..] == RowsFrom(list, next);
  }

  lemma {:induction false} DeletedAbsent<K, V>(heads: StackMap<K, nat>, list: List<V>, k: K)
    requires Lookups(heads, list) && k !in heads
    ensures k !in RowsOf(heads, list)
    ensures Pop(RowsOf(heads, list), k) == RowsOf(heads, list)
  {
  }

  /** Rows are kept for exactly the keys of the lookup table. */
  lemma {:induction false} SameKeys<K, V>(heads: StackMap<K, nat>, list: List<V>, k: K)
    requires Lookups(heads, list)
    ensures k in RowsOf(heads, list) <==> k in heads
    ensures Stack(RowsOf(heads, list), k) == RowsFrom(list, if k in heads then heads[k][0] else list.empty)
  {
  }

  class RecordMultimap<K(==, !new), V> {
    const table: HashTable<K, nat>
    var list: List<V>

    ghost predicate Valid()
      reads this, table, table.header
    {
      table.Valid() && Lookups(table.View(), list)
    }

    /** Each key's rows, newest first. */
    ghost function View(): StackMap<K, V>
      requires Valid()
      reads this, table, table.header
    {
      RowsOf(table.View(), list)
    }

    predicate Room()
      reads this`list, table`payload
    {
      HasRoom(list) && table.Room(1)
    }

    /** In both files the sentinel is below every number. */
    predicate Unlimited()
      reads this`list, table`payload
    {
      list.empty < list.first && table.Unlimited()
    }

    constructor (buckets: nat, hash: K -> nat, first: nat, empty: nat)
      requires buckets > 0
      ensures Valid() && View() == map[]
      ensures list == List([], first, empty) && table.empty == empty && table.payload == first
      ensures fresh(table) && fresh(table.header)
    {
      table := new HashTable(buckets, hash, first, empty);
      list := List([], first, empty);
    }

    /** The index of a key's first row, or the sentinel. */
    method Lookup(key: K) returns (start: nat)
      requires Valid()
      ensures start == list.empty || list.Holds(start)
      ensures RowsFrom(list, start) == Stack(View(), key)
    {
      hide RowsFrom, RowsOf, Stack;
      SameKeys(table.View(), list, key);
      var found := table.Find(key);
      start := if found.None? then list.empty else table.rows[found.value].value;
    }

    /** The rows of a key as iteration yields them. */
    method Iterate(key: K) returns (rows: seq<V>)
      requires Valid()
      ensures rows == Stack(View(), key)
    {
      hide Stack, RowsOf, HashTable.Valid, HashTable.View;
      var index := Lookup(key);
      rows := [];
      while index != list.empty
        invariant 0 <= index && (index == list.empty || list.Holds(index))
        invariant rows + RowsFrom(list, index) == Stack(View(), key)
        decreases if index == list.empty then 0 else index + 1
      {
        RowsFromStep(list, index, rows);
        rows := rows + [list.At(index).data];
        index := list.At(index).next;
      }
    }

    method AddRow(key: K, value: V)
      requires Valid() && Room()
      modifies this`list, table, table.header
      ensures Valid()
      ensures View() == Push(old(View()), key, value)
      ensures list.first == old(list.first) && list.empty == old(list.empty) && list.End() == old(list.End()) + 1
      ensures old(table.payload) <= table.payload <= old(table.payload) + 1
    {
      hide Lookups, RowsOf, Push, Patch, HashTable.Valid, HashTable.View, HashTable.IsNewest;
      var found := table.Find(key);
      if found.None? {
        CreateNew(key, value);
      } else {
        AddToList(key, found.value, value);
      }
    }

    method CreateNew(key: K, value: V)
      requires Valid() && Room()
      requires key !in table.View()
      modifies this`list, table, table.header
      ensures Valid()
      ensures View() == Push(old(View()), key, value)
      ensures list.first == old(list.first) && list.empty == old(list.empty) && list.End() == old(list.End()) + 1
      ensures old(table.payload) <= table.payload <= old(table.payload) + 1
    {
      hide Lookups, RowsOf, Push, HashTable.Valid, HashTable.View;
      RowCreated(table.View(), list, key, value);
      var begin := list.End();
      list := list.Add(ListRow(list.empty, value));
      var position := table.Store(key, begin, 1);
    }

    method AddToList(key: K, position: nat, value: V)
      requires Valid() && Room()
      requires position in table.rows && table.IsNewest(key, position)
      requires Peek(table.View(), key) == Some(table.rows[position].value)
      modifies this`list, table
      ensures Valid()
      ensures View() == Push(old(View()), key, value)
      ensures list.first == old(list.first) && list.empty == old(list.empty) && list.End() == old(list.End()) + 1
      ensures table.payload == old(table.payload)
    {
      hide Lookups, RowsOf, Push, Patch, HashTable.Valid, HashTable.View, HashTable.IsNewest;
      RowInserted(table.View(), list, key, value);
      var oldBegin := table.rows[position].value;
      var newBegin := list.End();
      list := list.Add(ListRow(oldBegin, value));
      table.Write(key, position, newBegin);
    }

    method DeleteLastRow(key: K) returns (ok: bool)
      requires Valid()
      modifies table, table.header
      ensures Valid()
      ensures ok == (key in old(View()))
      ensures View() == Pop(old(View()), key)
      ensures table.payload == old(table.payload)
    {
      hide RowsOf, RowsFrom, Pop, Patch, HashTable.Valid, HashTable.View, HashTable.IsNewest;
      SameKeys(table.View(), list, key);
      var found := table.Find(key);
      if found.None? {
        DeletedAbsent(table.View(), list, key);
        return false;
      }
      RowDeleted(table.View(), list, key);
      var oldBegin := table.rows[found.value].value;
      var newBegin := list.At(oldBegin).next;
      if newBegin == list.empty {
        table.BucketOf(key);
        ok := table.Unlink(key);
      } else {
        table.Write(key, found.value, newBegin);
        ok := true;
      }
    }

    /** Deleting undoes adding, for every key. */
    method AddThenDelete(key: K, value: V) returns (ok: bool)
      requires Valid() && Room()
      modifies this`list, table, table.header
      ensures Valid()
      ensures ok && View() == old(View())
    {
      PopAfterPush(View(), key, value);
      AddRow(key, value);
      ok := DeleteLastRow(key);
    }
  }

  /** One step of an iteration. */
  lemma {:induction false} RowsFromStep<V>(list: List<V>, index: nat, rows: seq<V>)
    requires Backward(list) && list.Holds(index) && index != list.empty
    ensures list.At(index).next == list.empty || list.Holds(list.At(index).next)
    ensures list.At(index).next != list.empty ==> list.At(index).next < index
    ensures rows + RowsFrom(list, index) == (rows + [list.At(index).data]) + RowsFrom(list, list.At(index).next)
  {
  }
}
