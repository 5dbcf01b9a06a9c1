/** What several workers of a block leave in the histories when every access of a
    call is a step of its own. */
module HistorySteps {
  import opened Wrappers
  import opened StackMaps
  import opened ChainTypes
  import opened ChainModel
  import opened ChainProperties
  import opened ChainState
  import opened Tables
  import opened Interleavings
  import opened ParallelPush
  import opened HistoryOrders
  import opened HistoryLogs
  import opened TableWrites
  import opened PushSteps
  import opened ConcurrentMultimaps

  type HistoryState = State<Address, HistoryRow>

  lemma {:induction false} ValuesExist<K, V>(items: seq<Item<K, V>>, k: K)
    ensures ValuesOf(items, k) != [] <==> exists i :: 0 <= i < |items| && items[i].key == k
  {
    if items != [] {
      var n := |items| - 1;
      ValuesExist(items[..n], k);
      if i :| 0 <= i < |items| && items[i].key == k {
        assert i < n ==> items[..n][i] == items[i];
      }
    }
  }

  /** A worker has rows of an address if and only if one of its transactions involves
      the address. */
  lemma {:induction false} ShareInvolves(fs: seq<Entry>, v: nat, n: nat, start: nat, a: Address)
    requires v < n
    ensures ValuesOf(Expand(Strided(fs, v, n), HistoryOf(start)), a) != [] <==>
            exists k :: 0 <= k < |fs| && WorkerOf(k, n) == v && fs[k].height >= start && Involves(fs[k], a)
  {
    hide *;
    var own := ValuesOf(Expand(Strided(fs, v, n), HistoryOf(start)), a);
    if own != [] {
      StrideRows(fs, v, n, start, a, own[0]);
      var k :| 0 <= k < |fs| && WorkerOf(k, n) == v && own[0] in ValuesOf(HistoryOf(start)(fs[k]), a);
      InvolvedRows(fs[k], start, a);
    }
    if k :| 0 <= k < |fs| && WorkerOf(k, n) == v && fs[k].height >= start && Involves(fs[k], a) {
      InvolvedRows(fs[k], start, a);
      var r := ValuesOf(HistoryOf(start)(fs[k]), a)[0];
      StrideRows(fs, v, n, start, a, r);
    }
  }

  /** Two workers with transactions of one address both have rows of it. */
  lemma {:induction false} SharedAddress(fs: seq<Entry>, n: nat, start: nat, i: nat, j: nat, a: Address)
    returns (x: nat, y: nat)
    requires n > 0 && i < j < |fs| && fs[i].height >= start && fs[j].height >= start
    requires Involves(fs[i], a) && Involves(fs[j], a) && WorkerOf(i, n) != WorkerOf(j, n)
    ensures var shares := Shares(fs, n, n, HistoryOf(start));
            && |shares| == n && x < |shares[WorkerOf(i, n)]| && y < |shares[WorkerOf(j, n)]|
            && shares[WorkerOf(i, n)][x].key == shares[WorkerOf(j, n)][y].key == a
  {
    hide Shares, HistoryOf, Involves, WorkerOf, Strided, Expand, ValuesOf;
    var shares, v, w := Shares(fs, n, n, HistoryOf(start)), WorkerOf(i, n), WorkerOf(j, n);
    SharesAt(fs, n, n, HistoryOf(start));
    ShareInvolves(fs, v, n, start, a);
    ShareInvolves(fs, w, n, start, a);
    ValuesExist(shares[v], a);
    ValuesExist(shares[w], a);
    x :| 0 <= x < |shares[v]| && shares[v][x].key == a;
    y :| 0 <= y < |shares[w]| && shares[w][y].key == a;
  }

  lemma {:induction false} TwoWorkers(fs: seq<Entry>, n: nat, start: nat, v: nat, w: nat, a: Address)
    requires v < n && w < n && v != w
    requires ValuesOf(Expand(Strided(fs, v, n), HistoryOf(start)), a) != []
    requires ValuesOf(Expand(Strided(fs, w, n), HistoryOf(start)), a) != []
    ensures !OneWorkerEach(fs, n, start)
  {
    hide HistoryOf, Involves, WorkerOf, Strided, Expand, ValuesOf;
    ShareInvolves(fs, v, n, start, a);
    ShareInvolves(fs, w, n, start, a);
    var i :| 0 <= i < |fs| && WorkerOf(i, n) == v && fs[i].height >= start && Involves(fs[i], a);
    var j :| 0 <= j < |fs| && WorkerOf(j, n) == w && fs[j].height >= start && Involves(fs[j], a);
    assert i < j || j < i;
  }

  /** The workers of a block add rows under keys of their own exactly when each address
      has its transactions with one worker. */
  lemma {:induction false} OwnAddresses(fs: seq<Entry>, n: nat, start: nat)
    requires n > 0
    ensures OwnKeys(Shares(fs, n, n, HistoryOf(start))) <==> OneWorkerEach(fs, n, start)
  {
    hide Shares, HistoryOf, Involves, WorkerOf, Strided, Expand, ValuesOf;
    var shares: seq<seq<Item<Address, HistoryRow>>> := Shares(fs, n, n, HistoryOf(start));
    SharesAt(fs, n, n, HistoryOf(start));
    if OneWorkerEach(fs, n, start) {
      forall v, w, x, y | 0 <= v < w < |shares| && 0 <= x < |shares[v]| && 0 <= y < |shares[w]|
        ensures shares[v][x].key != shares[w][y].key
      {
        ValuesExist(shares[v], shares[v][x].key);
        ValuesExist(shares[w], shares[w][y].key);
        if shares[v][x].key == shares[w][y].key {
          TwoWorkers(fs, n, start, v, w, shares[v][x].key);
        }
      }
    } else {
      var i, j, a: Address :| && 0 <= i < j < |fs| && fs[i].height >= start && fs[j].height >= start
                              && Involves(fs[i], a) && Involves(fs[j], a) && WorkerOf(i, n) != WorkerOf(j, n);
      var x, y := SharedAddress(fs, n, start, i, j, a);
      assert WorkerOf(i, n) < WorkerOf(j, n) || WorkerOf(j, n) < WorkerOf(i, n);
    }
  }

  /** A complete run of the steps leaves what one pass in order leaves. */
  ghost predicate AsInOrder(s: HistoryState, schedule: seq<nat>, fs: seq<Entry>, start: nat)
    requires Sane(s)
  {
    Complete(Run(s, schedule)) ==> View(Run(s, schedule)) == PushItems(View(s), Expand(fs, HistoryOf(start)))
  }

  /** A run of the steps has lost a row of an address: deleting what the block gives
      the address then deletes a row of an earlier block, if there is one. */
  ghost predicate Loses(s: HistoryState, schedule: seq<nat>, fs: seq<Entry>, start: nat, a: Address)
    requires Sane(s)
  {
    var rows := Expand(fs, HistoryOf(start));
    && Complete(Run(s, schedule))
    && |Stack(View(Run(s, schedule)), a)| + 1 == |Stack(View(s), a)| + |ValuesOf(rows, a)|
    && Stack(PopItems(View(Run(s, schedule)), rows), a) == Drop(Stack(View(s), a), 1)
  }

  lemma {:induction false} LostToPop(s: HistoryState, schedule: seq<nat>, added: seq<HistoryRow>, fs: seq<Entry>,
                                     start: nat, a: Address)
    requires Sane(s) && Complete(Run(s, schedule))
    requires Stack(View(Run(s, schedule)), a) == added + Stack(View(s), a)
    requires |added| + 1 == |ValuesOf(Expand(fs, HistoryOf(start)), a)|
    ensures Loses(s, schedule, fs, start, a)
  {
    hide View, Run, Sane, Complete, Stack, PopItems, ValuesOf, Expand, HistoryOf;
    var before, n := Stack(View(s), a), |added|;
    PopItemsStack(View(Run(s, schedule)), Expand(fs, HistoryOf(start)), a);
    assert Drop(added + before, n + 1) == Drop(before, 1);
  }

  /** If two workers have rows of an address, some run of the steps loses one. */
  lemma {:induction false} RowLost(s: HistoryState, fs: seq<Entry>, n: nat, start: nat, i: nat, j: nat, a: Address)
    returns (schedule: seq<nat>)
    requires n > 0 && Quiet(s) && Todos(s) == Shares(fs, n, n, HistoryOf(start))
    requires i < j < |fs| && fs[i].height >= start && fs[j].height >= start
    requires Involves(fs[i], a) && Involves(fs[j], a) && WorkerOf(i, n) != WorkerOf(j, n)
    ensures Loses(s, schedule, fs, start, a)
  {
    hide Shares, HistoryOf, Involves, WorkerOf, Strided, Expand, ValuesOf, View, Run, Complete, Stack, Loses, Interleaves,
         Work, Sane;
    var g := HistoryOf(start);
    var shares := Shares(fs, n, n, g);
    SharesAt(fs, n, n, g);
    var x, y := SharedAddress(fs, n, start, i, j, a);
    var added;
    schedule, added := LostRow(s, WorkerOf(i, n), WorkerOf(j, n), x, y);
    var merged := FirstGoes(shares, 0);
    InterleavingWork(shares, merged);
    SharesExact(fs, n, g);
    ValuesPermuted(merged, Expand(fs, g), a);
    LostToPop(s, schedule, added, fs, start, a);
  }

  /** The steps of the workers of a block leave the histories as one pass in order does,
      under every schedule, exactly when each address has its transactions with one
      worker. */
  lemma {:induction false} HistoryBySteps(s: HistoryState, fs: seq<Entry>, n: nat, start: nat)
    requires n > 0 && Quiet(s) && Todos(s) == Shares(fs, n, n, HistoryOf(start))
    ensures (forall schedule :: AsInOrder(s, schedule, fs, start)) <==> OneWorkerEach(fs, n, start)
  {
    hide Shares, HistoryOf, Involves, WorkerOf, Expand, View, Run, Complete, PushItems, Interleaves, Sane, ValuesOf,
         AsInOrder, OwnKeys, Linkings, AllSteady;
    var g := HistoryOf(start);
    if OneWorkerEach(fs, n, start) {
      OwnAddresses(fs, n, start);
      QuietSteady(s);
      forall schedule ensures AsInOrder(s, schedule, fs, start) {
        EveryRun(s, schedule);
        InOrderRun(s, schedule, fs, n, start);
      }
    } else {
      var i, j, a: Address :| && 0 <= i < j < |fs| && fs[i].height >= start && fs[j].height >= start
                              && Involves(fs[i], a) && Involves(fs[j], a) && WorkerOf(i, n) != WorkerOf(j, n);
      var schedule := RowLost(s, fs, n, start, i, j, a);
      NotInOrder(s, schedule, fs, start, a);
    }
  }

  lemma {:induction false} InOrderRun(s: HistoryState, schedule: seq<nat>, fs: seq<Entry>, n: nat, start: nat)
    requires n > 0 && Sane(s) && Todos(s) == Shares(fs, n, n, HistoryOf(start)) && OneWorkerEach(fs, n, start)
    requires View(Run(s, schedule)) == PushItems(View(s), Linkings(s, schedule))
    requires Complete(Run(s, schedule)) ==> Interleaves(Todos(s), Linkings(s, schedule))
    ensures AsInOrder(s, schedule, fs, start)
  {
    hide Shares, HistoryOf, OneWorkerEach, Expand, View, Run, Complete, PushItems, Interleaves, Sane, ValuesOf, Linkings;
    if Complete(Run(s, schedule)) {
      var merged := Linkings(s, schedule);
      forall a: Address ensures ValuesOf(merged, a) == ValuesOf(Expand(fs, HistoryOf(start)), a) {
        OrderKept(fs, start, n, merged, a);
      }
      SameRows(View(s), merged, Expand(fs, HistoryOf(start)));
    }
  }

  lemma {:induction false} NotInOrder(s: HistoryState, schedule: seq<nat>, fs: seq<Entry>, start: nat, a: Address)
    requires Sane(s) && Loses(s, schedule, fs, start, a)
    ensures !AsInOrder(s, schedule, fs, start)
  {
    hide HistoryOf, Expand, View, Run, Complete, PushItems, PopItems, Sane, ValuesOf, Stack;
    PushItemsLength(View(s), Expand(fs, HistoryOf(start)), a);
  }

  // -------------------------------------------------------------------- the whole push

  /** The tables after all transactions of a block are stored, the rows of its
      histories by the steps of a run. */
  ghost predicate ArrivedBySteps(s: TableState, h: HistoryState, schedule: seq<nat>, chain: seq<Block>, b: Block,
                                 start: nat, content: Hash -> Tx)
    requires Sane(h)
  {
    Complete(Run(h, schedule)) ==>
      exists log :: Arrived(s.(rows := View(Run(h, schedule))), log, chain, b, start, content)
  }

  lemma {:induction false} LoggedCount(rows: Histories, log: seq<Rows>, chain: seq<Block>, start: nat, a: Address)
    requires Logged(rows, log, chain, start)
    ensures |Stack(rows, a)| == |ValuesOf(HistoryScan(Flat(chain), start), a)|
  {
    hide *;
    HistoryAgreement(rows, log, chain, start, a);
    assert |Stack(rows, a)| == |multiset(Stack(rows, a))|;
    assert |multiset(ValuesOf(HistoryScan(Flat(chain), start), a))| == |ValuesOf(HistoryScan(Flat(chain), start), a)|;
  }

  /** A log that has lost a row is no log of the longer chain. */
  lemma {:induction false} LostNotLogged(rows: Histories, log: seq<Rows>, rows': Histories, log': seq<Rows>,
                                         chain: seq<Block>, b: Block, start: nat, a: Address)
    requires Logged(rows, log, chain, start)
    requires |Stack(rows', a)| + 1 == |Stack(rows, a)| + |ValuesOf(RowsAt(b, |chain|, start), a)|
    ensures !Logged(rows', log', chain + [b], start)
  {
    hide Logged, Stack, ValuesOf, HistoryScan, Flat, Expand, BlockEntries, HistoryOf;
    LoggedCount(rows, log, chain, start, a);
    FlatAppend(chain, b);
    HistoryScanConcat(Flat(chain), BlockEntries(b, |chain|), start);
    ValuesOfConcat(HistoryScan(Flat(chain), start), RowsAt(b, |chain|, start), a);
    if Logged(rows', log', chain + [b], start) {
      LoggedCount(rows', log', chain + [b], start, a);
    }
  }

  /** A block that several workers push arrives under every schedule of the steps of
      their `add_row` calls exactly when each address has its transactions with one
      worker; the calls on the other tables may interleave in any way. */
  lemma {:induction false} BlockBySteps(s: TableState, log: seq<Rows>, chain: seq<Block>, b: Block, start: nat,
                                        buckets: nat, merged: seq<Write>, h: HistoryState, content: Hash -> Tx)
    requires ValidChain(chain) && WellFormed(chain, b, content) && VerifyCode(chain, b, |chain|) == Success
    requires Holding(s, log, chain, start, content)
    requires buckets > 0 && Interleaves(Programs(b, |chain|, buckets, start), merged)
    requires Quiet(h) && View(h) == s.rows
    requires Todos(h) == Shares(BlockEntries(CleanBlock(b), |chain|), buckets, buckets, HistoryOf(start))
    ensures (forall schedule :: ArrivedBySteps(PerformAll(s, merged), h, schedule, chain, b, start, content))
            <==> KeepsOrder(b, |chain|, buckets, start)
  {
    hide ValidChain, WellFormed, VerifyCode, Shows, Logged, Interleaves, Programs, Shares, HistoryOf, Involves, WorkerOf, Sane,
         View, Run, Complete, PerformAll, CleanBlock, BlockEntries, SpendTable, Expand, PushItems, PartsOf, Flat, Stack,
         ValuesOf, PopItems, Confirmed, Marks;
    var fs, s' := BlockEntries(CleanBlock(b), |chain|), PerformAll(s, merged);
    BlockArrives(s, log, chain, b, start, buckets, merged, content);
    if OneWorkerEach(fs, buckets, start) {
      HistoryBySteps(h, fs, buckets, start);
      LoggedPushed(s.rows, log, chain, start, CleanBlock(b), Expand(fs, HistoryOf(start)));
      forall schedule ensures ArrivedBySteps(s', h, schedule, chain, b, start, content) {
        assert AsInOrder(h, schedule, fs, start);
        if Complete(Run(h, schedule)) {
          assert Arrived(s'.(rows := View(Run(h, schedule))), log + [Expand(fs, HistoryOf(start))], chain, b, start,
                         content);
        }
      }
    } else {
      var i, j, a: Address :| && 0 <= i < j < |fs| && fs[i].height >= start && fs[j].height >= start
                              && Involves(fs[i], a) && Involves(fs[j], a) && WorkerOf(i, buckets) != WorkerOf(j, buckets);
      var schedule := RowLost(h, fs, buckets, start, i, j, a);
      forall log' ensures !Arrived(s'.(rows := View(Run(h, schedule))), log', chain, b, start, content) {
        LostNotLogged(s.rows, log, View(Run(h, schedule)), log', chain, CleanBlock(b), start, a);
      }
      assert !ArrivedBySteps(s', h, schedule, chain, b, start, content);
    }
  }
}
