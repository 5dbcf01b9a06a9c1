/** When several workers push a block: exactly when do the histories end in the
    order of the chain? */
module HistoryOrders {
  import opened Wrappers
  import opened StackMaps
  import opened ChainTypes
  import opened ChainModel
  import opened ChainProperties
  import opened Tables
  import opened Interleavings
  import opened ParallelPush

  /** A transaction pays an address or spends from it. */
  predicate Involves(e: Entry, a: Address) {
    || (exists i :: 0 <= i < |Spending(e)| && Spending(e)[i].address == Some(a))
    || (exists j :: 0 <= j < |e.tx.outputs| && e.tx.outputs[j].address == Some(a))
  }

  /** Every address has all of its indexed transactions with one worker. */
  ghost predicate OneWorkerEach(fs: seq<Entry>, buckets: nat, start: nat)
    requires buckets > 0
  {
    forall i, j, a: Address ::
      && 0 <= i < j < |fs| && fs[i].height >= start && fs[j].height >= start
      && Involves(fs[i], a) && Involves(fs[j], a)
      ==> WorkerOf(i, buckets) == WorkerOf(j, buckets)
  }

  /** A transaction's rows for an address: there are some if it involves the
      address, and each names the transaction. */
  lemma {:induction false} InvolvedRows(e: Entry, start: nat, a: Address)
    ensures ValuesOf(HistoryOf(start)(e), a) != [] <==> e.height >= start && Involves(e, a)
    ensures forall r :: r in ValuesOf(HistoryOf(start)(e), a) ==> r.point.hash == e.tx.hash
  {
    hide ValuesOf, InputRows, OutputRows;
    var rows := ValuesOf(HistoryOf(start)(e), a);
    if e.height >= start {
      ValuesOfConcat(InputRows(e, |Spending(e)|), OutputRows(e, |e.tx.outputs|), a);
      assert rows == RowsOf(e, a);
      forall r ensures r in rows <==> Gives(e, a, r) {
        RowsOfExact(e, a, r);
      }
      hide RowsOf;
      if rows != [] {
        assert rows[0] in rows;
        assert Gives(e, a, rows[0]);
      }
      if Involves(e, a) {
        var r := GivenTo(e, a);
        assert r in rows;
      }
    } else {
      NoValues<Address, HistoryRow>(a);
    }
  }

  lemma {:induction false} NoValues<K, V>(k: K)
    ensures ValuesOf<K, V>([], k) == []
  {
  }

  lemma {:induction false} GivenTo(e: Entry, a: Address) returns (r: HistoryRow)
    requires Involves(e, a)
    ensures Gives(e, a, r)
  {
    if i :| 0 <= i < |Spending(e)| && Spending(e)[i].address == Some(a) {
      r := SpendRow(Point(e.tx.hash, i), e.height, Spending(e)[i].prev);
      assert GivesInput(e, i, a, r);
    } else {
      var j :| 0 <= j < |e.tx.outputs| && e.tx.outputs[j].address == Some(a);
      r := OutputRow(Point(e.tx.hash, j), e.height, e.tx.outputs[j].value);
      assert GivesOutput(e, j, a, r);
    }
  }

  // ------------------------------------------------------------------- one worker

  /** What an address gets from one more transaction of a stride. */
  lemma {:induction false} StrideStep<V>(fs: seq<Entry>, v: nat, n: nat, g: Entry -> seq<Item<Address, V>>, a: Address)
    requires v < n && fs != []
    ensures var k := |fs| - 1;
            ValuesOf(Expand(Strided(fs, v, n), g), a) ==
            ValuesOf(Expand(Strided(fs[..k], v, n), g), a) +
            if WorkerOf(k, n) == v then ValuesOf(g(fs[k]), a) else []
  {
    hide Expand, ValuesOf, Strided, WorkerOf, Meets;
    var k := |fs| - 1;
    var before := Strided(fs[..k], v, n);
    assert fs == fs[..k] + [fs[k]];
    StridedAppend(fs[..k], fs[k], v, n);
    OneWorker(k, v, n);
    if WorkerOf(k, n) == v {
      ExpandLast(before, fs[k], g);
      ValuesOfConcat(Expand(before, g), g(fs[k]), a);
    } else {
      assert Strided(fs, v, n) == before;
    }
  }

  /** What an address gets from a worker: of the worker's positions, and only of
      those. */
  lemma {:induction false} StrideRows(fs: seq<Entry>, v: nat, n: nat, start: nat, a: Address, r: HistoryRow)
    requires v < n
    ensures r in ValuesOf(Expand(Strided(fs, v, n), HistoryOf(start)), a) <==>
            exists k :: 0 <= k < |fs| && WorkerOf(k, n) == v && r in ValuesOf(HistoryOf(start)(fs[k]), a)
  {
    hide ValuesOf, HistoryOf, WorkerOf;
    if fs == [] {
      assert Strided(fs, v, n) == [];
      assert Expand<Item<Address, HistoryRow>>([], HistoryOf(start)) == [];
      NoValues<Address, HistoryRow>(a);
    } else {
      hide Strided, Expand;
      var n' := |fs| - 1;
      StrideStep(fs, v, n, HistoryOf(start), a);
      StrideRows(fs[..n'], v, n, start, a, r);
      if k :| 0 <= k < |fs| && WorkerOf(k, n) == v && r in ValuesOf(HistoryOf(start)(fs[k]), a) {
        assert k < n' ==> fs[..n'][k] == fs[k];
      }
    }
  }

  /** If all of an address's rows are one worker's, that worker gives them in the
      order of the block, and the others give none. */
  lemma {:induction false} StrideOrder(fs: seq<Entry>, v: nat, w: nat, n: nat, start: nat, a: Address)
    requires v < n && w < n
    requires forall k :: 0 <= k < |fs| && ValuesOf(HistoryOf(start)(fs[k]), a) != [] ==> WorkerOf(k, n) == w
    ensures ValuesOf(Expand(Strided(fs, v, n), HistoryOf(start)), a) ==
            if v == w then ValuesOf(Expand(fs, HistoryOf(start)), a) else []
  {
    hide ValuesOf, HistoryOf, WorkerOf;
    if fs == [] {
      assert Strided(fs, v, n) == [];
      assert Expand<Item<Address, HistoryRow>>([], HistoryOf(start)) == [];
      NoValues<Address, HistoryRow>(a);
    } else {
      hide Strided, Expand;
      var k := |fs| - 1;
      assert fs == fs[..k] + [fs[k]];
      StrideStep(fs, v, n, HistoryOf(start), a);
      StrideOrder(fs[..k], v, w, n, start, a);
      ExpandLast(fs[..k], fs[k], HistoryOf(start));
      ValuesOfConcat(Expand(fs[..k], HistoryOf(start)), HistoryOf(start)(fs[k]), a);
    }
  }

  // ---------------------------------------------------------------- order kept

  /** With one worker for each address, every merge gives each address its rows in
      the order of the block. */
  lemma {:induction false} OrderKept(fs: seq<Entry>, start: nat, buckets: nat, merged: seq<Item<Address, HistoryRow>>,
                                     a: Address)
    requires buckets > 0 && OneWorkerEach(fs, buckets, start)
    requires Interleaves(Shares(fs, buckets, buckets, HistoryOf(start)), merged)
    ensures ValuesOf(merged, a) == ValuesOf(Expand(fs, HistoryOf(start)), a)
  {
    var shares := Shares(fs, buckets, buckets, HistoryOf(start));
    var w := WorkerFor(fs, start, buckets, a);
    hide *;
    SharesAt(fs, buckets, buckets, HistoryOf(start));
    forall v | 0 <= v < buckets
      ensures ValuesOf(shares[v], a) == if v == w then ValuesOf(Expand(fs, HistoryOf(start)), a) else []
    {
      StrideOrder(fs, v, w, buckets, start, a);
    }
    OwnersOrder(shares, merged, w, a);
  }

  /** The one worker that has an address's rows. */
  lemma {:induction false} WorkerFor(fs: seq<Entry>, start: nat, buckets: nat, a: Address) returns (w: nat)
    requires buckets > 0 && OneWorkerEach(fs, buckets, start)
    ensures w < buckets
    ensures forall k :: 0 <= k < |fs| && ValuesOf(HistoryOf(start)(fs[k]), a) != [] ==> WorkerOf(k, buckets) == w
  {
    hide ValuesOf, HistoryOf, WorkerOf, Involves;
    forall k | 0 <= k < |fs|
      ensures ValuesOf(HistoryOf(start)(fs[k]), a) != [] <==> fs[k].height >= start && Involves(fs[k], a)
    {
      InvolvedRows(fs[k], start, a);
    }
    if i :| 0 <= i < |fs| && ValuesOf(HistoryOf(start)(fs[i]), a) != [] {
      w := WorkerOf(i, buckets);
      forall k | 0 <= k < |fs| && ValuesOf(HistoryOf(start)(fs[k]), a) != [] ensures WorkerOf(k, buckets) == w {
        assert k < i || k == i || i < k;
      }
    } else {
      w := 0;
    }
  }

  // ---------------------------------------------------------------- order lost

  /** Rows that start with all that one worker writes start, for an address, with a
      row of one of that worker's positions. */
  lemma {:induction false} OwnFirst(fs: seq<Entry>, start: nat, buckets: nat, i: nat, a: Address,
                                    merged: seq<Item<Address, HistoryRow>>) returns (k: nat)
    requires buckets > 0 && i < |fs| && fs[i].height >= start && Involves(fs[i], a)
    requires Expand(Strided(fs, WorkerOf(i, buckets), buckets), HistoryOf(start)) <= merged
    ensures ValuesOf(merged, a) != []
    ensures k < |fs| && WorkerOf(k, buckets) == WorkerOf(i, buckets) && ValuesOf(merged, a)[0].point.hash == fs[k].tx.hash
  {
    hide *;
    var v, g := WorkerOf(i, buckets), HistoryOf(start);
    var own := Expand(Strided(fs, v, buckets), g);
    assert merged == own + merged[|own|..];
    ValuesOfConcat(own, merged[|own|..], a);
    InvolvedRows(fs[i], start, a);
    var some := ValuesOf(g(fs[i]), a)[0];
    StrideRows(fs, v, buckets, start, a, some);
    assert some in ValuesOf(own, a);
    var first := ValuesOf(own, a)[0];
    StrideRows(fs, v, buckets, start, a, first);
    k :| 0 <= k < |fs| && WorkerOf(k, buckets) == v && first in ValuesOf(g(fs[k]), a);
    InvolvedRows(fs[k], start, a);
  }

  /** Some merge starts with a worker who has rows of an address. */
  lemma {:induction false} WorkerFirst(fs: seq<Entry>, start: nat, buckets: nat, i: nat, a: Address)
    returns (merged: seq<Item<Address, HistoryRow>>, k: nat)
    requires buckets > 0 && i < |fs| && fs[i].height >= start && Involves(fs[i], a)
    ensures Interleaves(Shares(fs, buckets, buckets, HistoryOf(start)), merged)
    ensures ValuesOf(merged, a) != []
    ensures k < |fs| && WorkerOf(k, buckets) == WorkerOf(i, buckets) && ValuesOf(merged, a)[0].point.hash == fs[k].tx.hash
  {
    hide *;
    SharesAt(fs, buckets, buckets, HistoryOf(start));
    merged := FirstGoes(Shares(fs, buckets, buckets, HistoryOf(start)), WorkerOf(i, buckets));
    k := OwnFirst(fs, start, buckets, i, a, merged);
  }

  /** If two workers have rows of an address, two merges differ in their order. */
  lemma {:induction false} OrderLost(fs: seq<Entry>, start: nat, buckets: nat, i: nat, j: nat, a: Address)
    returns (merged: seq<Item<Address, HistoryRow>>, other: seq<Item<Address, HistoryRow>>)
    requires buckets > 0 && i < j < |fs| && fs[i].height >= start && fs[j].height >= start
    requires Involves(fs[i], a) && Involves(fs[j], a) && WorkerOf(i, buckets) != WorkerOf(j, buckets)
    requires forall k, l :: 0 <= k < l < |fs| ==> fs[k].tx.hash != fs[l].tx.hash
    ensures Interleaves(Shares(fs, buckets, buckets, HistoryOf(start)), merged)
    ensures Interleaves(Shares(fs, buckets, buckets, HistoryOf(start)), other)
    ensures ValuesOf(merged, a) != ValuesOf(other, a)
  {
    hide *;
    var k, l;
    merged, k := WorkerFirst(fs, start, buckets, i, a);
    other, l := WorkerFirst(fs, start, buckets, j, a);
    assert k < l || l < k;
  }

  // ---------------------------------------------------------------------- exactly

  lemma {:induction false} SameRows(m: Histories, a: seq<Item<Address, HistoryRow>>, b: seq<Item<Address, HistoryRow>>)
    requires forall k: Address :: ValuesOf(a, k) == ValuesOf(b, k)
    ensures PushItems(m, a) == PushItems(m, b)
  {
    hide PushItems, ValuesOf, Stack, Reversed;
    forall k: Address ensures Stack(PushItems(m, a), k) == Stack(PushItems(m, b), k) {
      PushItemsStack(m, a, k);
      PushItemsStack(m, b, k);
    }
    Extensional(PushItems(m, a), PushItems(m, b));
  }

  lemma {:induction false} SameValues(m: Histories, a: seq<Item<Address, HistoryRow>>,
                                      b: seq<Item<Address, HistoryRow>>,
                                      k: Address)
    requires PushItems(m, a) == PushItems(m, b)
    ensures ValuesOf(a, k) == ValuesOf(b, k)
  {
    hide PushItems, ValuesOf, Stack, Reversed;
    PushItemsStack(m, a, k);
    PushItemsStack(m, b, k);
    SameReversed(ValuesOf(a, k), ValuesOf(b, k), Stack(m, k));
  }

  lemma {:induction false} SameReversed<T>(a: seq<T>, b: seq<T>, tail: seq<T>)
    ensures Reversed(a) + tail == Reversed(b) + tail <==> a == b
  {
    if Reversed(a) + tail == Reversed(b) + tail {
      assert |a| == |b|;
      assert Reversed(a) == (Reversed(a) + tail)[..|a|] == (Reversed(b) + tail)[..|b|] == Reversed(b);
      forall i | 0 <= i < |a| ensures a[i] == b[i] {
        assert a[i] == Reversed(a)[|a| - 1 - i];
      }
    }
  }

  /** With one worker the rows come in order. */
  lemma {:induction false} SequentialHistory(es: seq<Entry>, fs: seq<Entry>, start: nat)
    ensures PushItems(HistoryTable(es, start), Expand(fs, HistoryOf(start))) == HistoryTable(es + fs, start)
  {
    HistoryScanConcat(es, fs, start);
    PushItemsConcat<Address, HistoryRow>(map[], HistoryScan(es, start), Expand(fs, HistoryOf(start)));
  }

  /** The histories end in the order of the chain under every interleaving exactly
      when each address has its rows from one worker. */
  lemma {:induction false} HistoryOrder(es: seq<Entry>, fs: seq<Entry>, start: nat, buckets: nat)
    requires buckets > 0
    requires forall k, l :: 0 <= k < l < |fs| ==> fs[k].tx.hash != fs[l].tx.hash
    ensures (forall merged | Interleaves(Shares(fs, buckets, buckets, HistoryOf(start)), merged) ::
              PushItems(HistoryTable(es, start), merged) == HistoryTable(es + fs, start))
            <==> OneWorkerEach(fs, buckets, start)
  {
    hide Interleaves, Shares, HistoryOf, HistoryTable, Involves, WorkerOf, Expand, PushItems, ValuesOf;
    SequentialHistory(es, fs, start);
    var inOrder := Expand(fs, HistoryOf(start));
    if OneWorkerEach(fs, buckets, start) {
      forall merged | Interleaves(Shares(fs, buckets, buckets, HistoryOf(start)), merged)
        ensures PushItems(HistoryTable(es, start), merged) == HistoryTable(es + fs, start)
      {
        forall a: Address ensures ValuesOf(merged, a) == ValuesOf(inOrder, a) {
          OrderKept(fs, start, buckets, merged, a);
        }
        SameRows(HistoryTable(es, start), merged, inOrder);
      }
    } else {
      var i, j, a: Address :| && 0 <= i < j < |fs| && fs[i].height >= start && fs[j].height >= start
                     && Involves(fs[i], a) && Involves(fs[j], a) && WorkerOf(i, buckets) != WorkerOf(j, buckets);
      var merged, other := OrderLost(fs, start, buckets, i, j, a);
      if PushItems(HistoryTable(es, start), merged) == HistoryTable(es + fs, start) {
        SameValues(HistoryTable(es, start), merged, inOrder, a);
      }
      if PushItems(HistoryTable(es, start), other) == HistoryTable(es + fs, start) {
        SameValues(HistoryTable(es, start), other, inOrder, a);
      }
    }
  }
}
