/** What the history table holds for a chain whose blocks were pushed by any number
    of workers: each block's rows on top of those before it, in some order. */
module HistoryLogs {
  import opened Wrappers
  import opened StackMaps
  import opened ChainTypes
  import opened ChainModel
  import opened ChainState
  import opened ChainProperties
  import opened Tables
  import opened Indexes
  import opened HistoryOrders

  type Rows = seq<Item<Address, HistoryRow>>

  /** The rows of a block in order. */
  function RowsAt(b: Block, height: nat, start: nat): Rows {
    Expand(BlockEntries(b, height), HistoryOf(start))
  }

  function Joined(log: seq<Rows>): Rows {
    if log == [] then [] else Joined(log[..|log| - 1]) + log[|log| - 1]
  }

  /** The histories were written block by block, each block's rows in the order
      that the log says. */
  ghost predicate Logged(rows: Histories, log: seq<Rows>, chain: seq<Block>, start: nat) {
    && |log| == |chain|
    && rows == PushItems(map[], Joined(log))
    && forall h :: 0 <= h < |chain| ==> multiset(log[h]) == multiset(RowsAt(chain[h], h, start))
  }

  /** The histories are in the order of the chain. */
  ghost predicate InOrder(rows: Histories, chain: seq<Block>, start: nat) {
    rows == HistoryTable(Flat(chain), start)
  }

  lemma {:induction false} LoggedNothing(start: nat)
    ensures Logged(map[], [], [], start) && InOrder(map[], [], start)
  {
  }

  /** One block more. */
  lemma {:induction false} LoggedPushed(rows: Histories, log: seq<Rows>, chain: seq<Block>, start: nat, b: Block,
                                        items: Rows)
    requires Logged(rows, log, chain, start) && multiset(items) == multiset(RowsAt(b, |chain|, start))
    ensures Logged(PushItems(rows, items), log + [items], chain + [b], start)
  {
    hide RowsAt, PushItems;
    var longer := log + [items];
    assert longer[..|log|] == log;
    PushItemsConcat<Address, HistoryRow>(map[], Joined(log), items);
    forall h | 0 <= h < |chain| + 1 ensures multiset(longer[h]) == multiset(RowsAt((chain + [b])[h], h, start)) {
      assert h < |chain| ==> longer[h] == log[h] && (chain + [b])[h] == chain[h];
    }
  }

  /** One block less: deleting backwards what the block gave, in the order of the
      block, leaves what was there before it, in whatever order it was written. */
  lemma {:induction false} LoggedPopped(rows: Histories, log: seq<Rows>, chain: seq<Block>, start: nat)
    requires Logged(rows, log, chain, start) && chain != []
    ensures var n := |chain| - 1;
            Logged(PopItems(rows, RowsAt(chain[n], n, start)), log[..n], chain[..n], start)
  {
    hide RowsAt, PushItems, PopItems;
    var n := |chain| - 1;
    PushItemsConcat<Address, HistoryRow>(map[], Joined(log[..n]), log[n]);
    PopsUndoPushes(PushItems<Address, HistoryRow>(map[], Joined(log[..n])), log[n], RowsAt(chain[n], n, start));
  }

  /** A block written in order, or with one worker for each address, keeps the
      order of the chain. */
  lemma {:induction false} InOrderPushed(rows: Histories, chain: seq<Block>, start: nat, b: Block, items: Rows)
    requires InOrder(rows, chain, start)
    requires forall a: Address :: ValuesOf(items, a) == ValuesOf(RowsAt(b, |chain|, start), a)
    ensures InOrder(PushItems(rows, items), chain + [b], start)
  {
    hide PushItems, HistoryTable, Flat, Expand, ValuesOf;
    FlatAppend(chain, b);
    SequentialHistory(Flat(chain), BlockEntries(b, |chain|), start);
    SameRows(rows, items, RowsAt(b, |chain|, start));
  }

  lemma {:induction false} InOrderPopped(rows: Histories, chain: seq<Block>, start: nat)
    requires InOrder(rows, chain, start) && chain != []
    ensures var n := |chain| - 1; InOrder(PopItems(rows, RowsAt(chain[n], n, start)), chain[..n], start)
  {
    hide PushItems, PopItems, HistoryTable, Expand;
    var n := |chain| - 1;
    SequentialHistory(Flat(chain[..n]), BlockEntries(chain[n], n), start);
    PopsUndoPushes(HistoryTable(Flat(chain[..n]), start), RowsAt(chain[n], n, start), RowsAt(chain[n], n, start));
  }

  // ------------------------------------------------------------------ what it says

  /** In whatever order, the log holds what a scan of the chain gives. */
  lemma {:induction false} JoinedScan(log: seq<Rows>, chain: seq<Block>, start: nat)
    requires |log| == |chain|
    requires forall h :: 0 <= h < |chain| ==> multiset(log[h]) == multiset(RowsAt(chain[h], h, start))
    ensures multiset(Joined(log)) == multiset(HistoryScan(Flat(chain), start))
  {
    if chain != [] {
      var n := |chain| - 1;
      JoinedScan(log[..n], chain[..n], start);
      HistoryScanConcat(Flat(chain[..n]), BlockEntries(chain[n], n), start);
    }
  }

  /** A block's rows are at its height. */
  lemma {:induction false} RowsAtHeight(b: Block, height: nat, start: nat, a: Address, items: Rows)
    requires multiset(items) == multiset(RowsAt(b, height, start))
    ensures forall r :: r in ValuesOf(items, a) ==> r.height == height
  {
    hide ValuesOf;
    ValuesPermuted(items, RowsAt(b, height, start), a);
    forall r | r in ValuesOf(items, a) ensures r.height == height {
      assert r in multiset(ValuesOf(items, a));
      ExpandHeights(BlockEntries(b, height), height, start, a, r);
    }
  }

  lemma {:induction false} ExpandHeights(fs: seq<Entry>, height: nat, start: nat, a: Address, r: HistoryRow)
    requires forall k :: 0 <= k < |fs| ==> fs[k].height == height
    requires r in ValuesOf(Expand(fs, HistoryOf(start)), a)
    ensures r.height == height
  {
    if fs != [] {
      hide ValuesOf, InputRows, OutputRows;
      var n := |fs| - 1;
      ValuesOfConcat(Expand(fs[..n], HistoryOf(start)), HistoryOf(start)(fs[n]), a);
      if r in ValuesOf(HistoryOf(start)(fs[n]), a) {
        EntryHeights(fs[n], start, a, r);
      } else {
        ExpandHeights(fs[..n], height, start, a, r);
      }
    } else {
      NoValues<Address, HistoryRow>(a);
    }
  }

  lemma {:induction false} EntryHeights(e: Entry, start: nat, a: Address, r: HistoryRow)
    requires r in ValuesOf(HistoryOf(start)(e), a)
    ensures r.height == e.height
  {
    hide ValuesOf, InputRows, OutputRows;
    if e.height >= start {
      ValuesOfConcat(InputRows(e, |Spending(e)|), OutputRows(e, |e.tx.outputs|), a);
      RowsOfExact(e, a, r);
    } else {
      NoValues<Address, HistoryRow>(a);
    }
  }

  lemma {:induction false} JoinedAscending(log: seq<Rows>, chain: seq<Block>, start: nat, a: Address)
    requires |log| == |chain|
    requires forall h :: 0 <= h < |chain| ==> multiset(log[h]) == multiset(RowsAt(chain[h], h, start))
    ensures RowsAscending(ValuesOf(Joined(log), a))
    ensures forall r :: r in ValuesOf(Joined(log), a) ==> r.height < |chain|
  {
    hide ValuesOf, RowsAt;
    if chain == [] {
      NoValues<Address, HistoryRow>(a);
    } else {
      var n := |chain| - 1;
      JoinedAscending(log[..n], chain[..n], start, a);
      RowsAtHeight(chain[n], n, start, a, log[n]);
      ValuesOfConcat(Joined(log[..n]), log[n], a);
      var before, last := ValuesOf(Joined(log[..n]), a), ValuesOf(log[n], a);
      assert forall i :: 0 <= i < |before| ==> before[i] in before;
      assert forall i :: 0 <= i < |last| ==> last[i] in last;
    }
  }

  /** History agreement: whoever wrote them, an address's rows are those that a
      scan of the chain gives, each as often, with heights that never rise from the
      newest down; and they are exactly the rows that indexed blocks give. */
  lemma {:induction false} HistoryAgreement(rows: Histories, log: seq<Rows>, chain: seq<Block>, start: nat, a: Address)
    requires Logged(rows, log, chain, start)
    ensures multiset(Stack(rows, a)) == multiset(ValuesOf(HistoryScan(Flat(chain), start), a))
    ensures RowsDescending(Stack(rows, a))
    ensures forall r :: r in Stack(rows, a) <==> GivenRow(Flat(chain), start, a, r)
  {
    hide HistoryScan, ValuesOf, Gives, Flat, PushItems, Stack, RowsAt;
    var scan, written := HistoryScan(Flat(chain), start), ValuesOf(Joined(log), a);
    JoinedScan(log, chain, start);
    ValuesPermuted(Joined(log), scan, a);
    PushItemsStack<Address, HistoryRow>(map[], Joined(log), a);
    JoinedAscending(log, chain, start, a);
    EmptyStack<Address, HistoryRow>(a);
    assert Stack(rows, a) == Reversed(written);
    ReversedRows(written);
    ReversedSame(written);
    forall r ensures r in Stack(rows, a) <==> GivenRow(Flat(chain), start, a, r) {
      HistoryExact(Flat(chain), start, a, r);
      assert r in multiset(Stack(rows, a)) <==> r in multiset(ValuesOf(scan, a));
    }
  }

  lemma {:induction false} EmptyStack<K, V>(k: K)
    ensures Stack<K, V>(map[], k) == []
    ensures forall s: seq<V> :: s + Stack<K, V>(map[], k) == s
  {
  }

  lemma {:induction false} ReversedSame<T>(s: seq<T>)
    ensures multiset(Reversed(s)) == multiset(s)
  {
    if s != [] {
      var n := |s| - 1;
      ReversedSame(s[..n]);
      assert s == s[..n] + [s[n]];
    }
  }

  /** In the order of the chain a history is the reversed scan. */
  lemma {:induction false} HistoryInOrder(rows: Histories, chain: seq<Block>, start: nat, a: Address)
    requires InOrder(rows, chain, start)
    ensures Stack(rows, a) == Reversed(ValuesOf(HistoryScan(Flat(chain), start), a))
  {
    hide HistoryScan, ValuesOf, Flat, Reversed;
    PushItemsStack<Address, HistoryRow>(map[], HistoryScan(Flat(chain), start), a);
    EmptyStack<Address, HistoryRow>(a);
  }
}
