/** The cache stays sound while a block is pushed if each of its transactions is
    new to the table at the moment it is stored, whoever stores it. */
module FreshWrites {
  import opened Wrappers
  import opened StackMaps
  import opened ChainTypes
  import opened ChainModel
  import opened TransactionTable
  import opened TransactionDatabases
  import opened Interleavings
  import opened TableWrites
  import opened ParallelPush

  /** Transactions of a worker that are new to the table when they are stored. */
  ghost predicate FreshAlong(t: Slabs, txs: seq<Tx>, fs: seq<Entry>) {
    && (forall k :: 0 <= k < |fs| ==> fs[k].position < |txs| && fs[k].tx.hash == txs[fs[k].position].hash)
    && (forall k :: 0 <= k < |fs| ==> Fresh(txs[fs[k].position], t, fs[k].position))
    && (forall j, k :: 0 <= j < k < |fs| ==> fs[j].tx.hash != fs[k].tx.hash)
  }

  /** Writes leave the slabs of hashes alone that they do not store. */
  lemma {:induction false} StoredElsewhere(s: TableState, ws: seq<Write>, h: Hash)
    requires forall i :: 0 <= i < |ws| && ws[i].StoreTx? ==> ws[i].op.tx.hash != h
    ensures Stack(PerformAll(s, ws).slabs, h) == Stack(s.slabs, h)
  {
    if ws != [] {
      hide Stored, Stack;
      var n := |ws| - 1;
      StoredElsewhere(s, ws[..n], h);
      if ws[n].StoreTx? {
        StoredLocal(PerformAll(s, ws[..n]).slabs, s.slabs, ws[n].op, h);
      }
    }
  }

  /** Being new is a matter of the slabs of the hash. */
  lemma {:induction false} FreshSame(tx: Tx, t: Slabs, u: Slabs, position: nat)
    requires Fresh(tx, t, position) && Stack(t, tx.hash) == Stack(u, tx.hash)
    ensures Fresh(tx, u, position)
  {
  }

  /** The transactions that entries store. */
  lemma {:induction false} StoredBy(fs: seq<Entry>, txs: seq<Tx>, start: nat, h: Hash)
    requires forall k :: 0 <= k < |fs| ==> fs[k].position < |txs| && txs[fs[k].position].hash == fs[k].tx.hash != h
    ensures forall w :: w in Expand(fs, WritesOf(txs, start)) && w.StoreTx? ==> w.op.tx.hash != h
  {
    if fs != [] {
      var n := |fs| - 1;
      StoredBy(fs[..n], txs, start, h);
      EntryStores(fs[n], txs, start);
    }
  }

  lemma {:induction false} EntryStores(e: Entry, txs: seq<Tx>, start: nat)
    requires e.position < |txs|
    ensures forall w :: w in WritesOf(txs, start)(e) && w.StoreTx? ==> w.op.tx == txs[e.position]
  {
    InputsStoreNothing(e, |Spending(e)|);
    OutputsStoreNothing(e, |e.tx.outputs|);
    hide InputWrites, OutputWrites;
  }

  lemma {:induction false} InputsStoreNothing(e: Entry, k: nat)
    requires k <= |Spending(e)|
    ensures forall w :: w in InputWrites(e, k) ==> !w.StoreTx?
  {
    if k > 0 {
      InputsStoreNothing(e, k - 1);
    }
  }

  lemma {:induction false} OutputsStoreNothing(e: Entry, k: nat)
    requires k <= |e.tx.outputs|
    ensures forall w :: w in OutputWrites(e, k) ==> !w.StoreTx?
  {
    if k > 0 {
      OutputsStoreNothing(e, k - 1);
    }
  }

  /** A transaction is new to the table until it is stored itself. */
  lemma {:induction false} FreshAt(s: TableState, txs: seq<Tx>, start: nat, fs: seq<Entry>, k: nat)
    requires FreshAlong(s.slabs, txs, fs) && k < |fs|
    ensures fs[k].position < |txs|
    ensures Fresh(txs[fs[k].position], PerformAll(s, Expand(fs[..k], WritesOf(txs, start))).slabs, fs[k].position)
  {
    hide Fresh, Stack, PerformAll, Expand, WritesOf;
    var tx, ws := txs[fs[k].position], Expand(fs[..k], WritesOf(txs, start));
    StoredBy(fs[..k], txs, start, tx.hash);
    forall i | 0 <= i < |ws| && ws[i].StoreTx? ensures ws[i].op.tx.hash != tx.hash {
      assert ws[i] in ws;
    }
    StoredElsewhere(s, ws, tx.hash);
    FreshSame(tx, s.slabs, PerformAll(s, ws).slabs, fs[k].position);
  }

  /** So it is when workers interleave. */
  lemma {:induction false} FreshInMerge(s: TableState, merged: seq<Write>, k: nat)
    requires k < |merged| && merged[k].StoreTx?
    requires DistinctTxs(Select(merged, AsStore))
    requires Fresh(merged[k].op.tx, s.slabs, merged[k].op.position)
    ensures Fresh(merged[k].op.tx, PerformAll(s, merged[..k]).slabs, merged[k].op.position)
  {
    hide Fresh, Stack, PerformAll, DistinctTxs, Select;
    var tx := merged[k].op.tx;
    forall i | 0 <= i < |merged[..k]| && merged[..k][i].StoreTx? ensures merged[..k][i].op.tx.hash != tx.hash {
      DistinctInMerge(merged, i, k);
    }
    StoredElsewhere(s, merged[..k], tx.hash);
    FreshSame(tx, s.slabs, PerformAll(s, merged[..k]).slabs, merged[k].op.position);
  }

  lemma {:induction false} DistinctInMerge(merged: seq<Write>, i: nat, k: nat)
    requires i < k < |merged| && merged[i].StoreTx? && merged[k].StoreTx?
    requires DistinctTxs(Select(merged, AsStore))
    ensures merged[i].op.tx.hash != merged[k].op.tx.hash
  {
    hide DistinctTxs, Select;
    var a, b := merged[..k], merged[k..];
    assert merged == a + b && a[i] == merged[i] && b[0] == merged[k];
    SelectConcat(a, b, AsStore);
    SelectConcat(a[..i], a[i..], AsStore);
    assert a == a[..i] + a[i..];
    SelectFirst(a[i..], AsStore);
    SelectFirst(b, AsStore);
    var front := |Select(a[..i], AsStore)|;
    assert Select(merged, AsStore)[front] == merged[i].op;
    assert Select(merged, AsStore)[|Select(a, AsStore)|] == merged[k].op;
    DistinctAt(Select(merged, AsStore), front, |Select(a, AsStore)|);
  }

  lemma {:induction false} DistinctAt(ops: seq<StoreOp>, i: nat, j: nat)
    requires DistinctTxs(ops) && i < j < |ops|
    ensures ops[i].tx.hash != ops[j].tx.hash
  {
  }
}
