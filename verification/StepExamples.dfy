/** What goes wrong when the steps of two calls race. */
module StepExamples {
  import opened Wrappers
  import opened StackMaps
  import opened ChainTypes
  import opened ChainModel
  import opened Tables
  import opened ParallelPush
  import opened HistoryOrders
  import RecordMultimaps
  import opened ConcurrentMultimaps
  import opened HistorySteps
  import ConcurrentUnlinks
  import opened Examples

  const FIRST_ROW: HistoryRow := OutputRow(Point(10, 0), 0, 50)

  lemma {:induction false} FirstScan()
    ensures HistoryScan(Flat([FIRST]), 0) == [Item(7, FIRST_ROW)]
  {
    ExampleFlat();
    var e, item := Entries()[0], Item(7, FIRST_ROW);
    assert OutputRows(e, 0) == [];
    assert OutputRows(e, 1) == [] + [item] == [item];
    assert InputRows(e, |Spending(e)|) + OutputRows(e, |e.tx.outputs|) == [item];
    Append([], e, 0);
    assert [] + [e] == Entries()[..1];
    assert HistoryScan(Entries()[..1], 0) == [] + [item] == [item];
  }

  lemma {:induction false} FirstHistory()
    ensures HistoryTable(Flat([FIRST]), 0) == map[7 := [FIRST_ROW]]
  {
    hide HistoryScan, Flat;
    FirstScan();
    PushItemsLast<Address, HistoryRow>(map[], [], Item(7, FIRST_ROW));
    assert [] + [Item(7, FIRST_ROW)] == [Item(7, FIRST_ROW)];
    assert [FIRST_ROW] + Stack<Address, HistoryRow>(map[], 7) == [FIRST_ROW];
  }

  /** The history table after the first block, with one list of one row. */
  lemma {:induction false} FirstStored(workers: seq<Worker<Address, HistoryRow>>) returns (s: HistoryState)
    requires forall w :: 0 <= w < |workers| ==> workers[w].phase.Idle?
    ensures s.workers == workers && Quiet(s) && View(s) == HistoryTable(Flat([FIRST]), 0)
  {
    s := ConcurrentMultimaps.State([Head(7, 1)], RecordMultimaps.List([RecordMultimaps.ListRow(0, FIRST_ROW)], 1, 0),
                                   workers);
    FirstHistory();
    assert Newest(s.heads, 7) == Some(0);
    assert RecordMultimaps.RowsFrom(s.list, 1) == [FIRST_ROW] + RecordMultimaps.RowsFrom(s.list, 0) == [FIRST_ROW];
    forall a: Address ensures Stack(View(s), a) == if a == 7 then [FIRST_ROW] else [] {
      ViewStack(s, a);
      assert s.heads[..0] == [];
    }
    Extensional(View(s), map[7 := [FIRST_ROW]]);
  }

  /** The last two transactions of the second block involve address 7, and are with
      different workers. */
  lemma {:induction false} SecondShared()
    ensures var fs := BlockEntries(SECOND, 1);
            && |fs| == 3 && fs[1].height == fs[2].height == 1 && Involves(fs[1], 7) && Involves(fs[2], 7)
            && WorkerOf(1, 2) != WorkerOf(2, 2)
  {
    var fs := BlockEntries(SECOND, 1);
    assert Spending(fs[1])[0].address == Some(7) && Spending(fs[2])[0].address == Some(7);
    assert WorkerOf(1, 2) == 1 && WorkerOf(2, 2) == WorkerOf(0, 2) == 0;
  }

  /** Two workers push the second block on the first, and the steps of two of their
      calls race: a row of address 7 is lost. Popping the block then deletes the row
      that the first block gave the address. */
  lemma {:induction false} SecondLosesRow() returns (s: HistoryState, schedule: seq<nat>)
    ensures Quiet(s) && Todos(s) == Shares(BlockEntries(SECOND, 1), 2, 2, HistoryOf(0))
    ensures View(s) == HistoryTable(Flat([FIRST]), 0) && Stack(View(s), 7) == [FIRST_ROW]
    ensures Loses(s, schedule, BlockEntries(SECOND, 1), 0, 7)
    ensures Stack(PopItems(View(Run(s, schedule)), Expand(BlockEntries(SECOND, 1), HistoryOf(0))), 7) == []
  {
    hide Shares, HistoryOf, HistoryTable, Involves, WorkerOf, Quiet, View, Run, Complete, Expand, PopItems, ValuesOf, Flat,
         Strided, BlockEntries;
    var fs := BlockEntries(SECOND, 1);
    SecondShared();
    FirstHistory();
    var shares := Shares(fs, 2, 2, HistoryOf(0));
    SharesAt(fs, 2, 2, HistoryOf(0));
    s := FirstStored([Worker(shares[0], Idle), Worker(shares[1], Idle)]);
    assert Todos(s) == shares;
    schedule := RowLost(s, fs, 2, 0, 1, 2, 7);
  }

  /** Two workers unlink the two rows of a bucket, and one of the rows stays. */
  lemma {:induction false} RowStays() returns (s: ConcurrentUnlinks.State, schedule: seq<nat>)
    ensures ConcurrentUnlinks.Start(s, [Some(0), Some(1)])
    ensures ConcurrentUnlinks.Complete(ConcurrentUnlinks.Run(s, schedule))
    ensures 1 in ConcurrentUnlinks.LinkedFrom(ConcurrentUnlinks.Run(s, schedule).next, 0)
  {
    s := ConcurrentUnlinks.State([0, 1, 2], [ConcurrentUnlinks.Worker([0], ConcurrentUnlinks.Idle),
                                             ConcurrentUnlinks.Worker([1], ConcurrentUnlinks.Idle)]);
    schedule := ConcurrentUnlinks.StillLinked(s, [Some(0), Some(1)], 0);
  }
}
