/** A block pushed by several workers, each on its stride of positions. Whatever
    the order in which their writes reach the tables, the transaction, pool and
    spend tables end as if one worker had gone through the block; the rows of an
    address keep the chain's order exactly when one worker has them all. */
module ParallelPush {
  import opened Wrappers
  import opened StackMaps
  import opened ChainTypes
  import opened ChainModel
  import opened ChainProperties
  import opened TransactionTable
  import opened Tables
  import opened Interleavings
  import opened TableWrites

  // ----------------------------------------------------------------------- strides

  const MAX_SIZE: nat := 0xffff_ffff_ffff_ffff

  function CeilingAdd(a: nat, b: nat): nat {
    if a + b > MAX_SIZE then MAX_SIZE else a + b
  }

  /** The entries one strided worker processes, in its order. */
  function Strided(es: seq<Entry>, from: nat, step: nat): seq<Entry>
    requires step > 0
    decreases |es| - from
  {
    if from >= |es| then [] else [es[from]] + Strided(es, from + step, step)
  }

  lemma {:induction false} StridedByOne(es: seq<Entry>, from: nat)
    requires from <= |es|
    ensures Strided(es, from, 1) == es[from..]
    decreases |es| - from
  {
    if from < |es| {
      StridedByOne(es, from + 1);
    }
  }

  /** One more step of the strided loop over all entries. */
  lemma {:induction false} StridedNext(fs: seq<Entry>, k: nat, all: seq<Entry>, from: nat, step: nat)
    requires step > 0 && k <= |fs| && fs[k..] == Strided(all, from, step)
    requires from < |all| <= MAX_SIZE
    ensures k < |fs| && fs[k] == all[from]
    ensures fs[..k + 1] == fs[..k] + [fs[k]]
    ensures from < CeilingAdd(from, step)
    ensures fs[k + 1..] == Strided(all, CeilingAdd(from, step), step)
  {
    assert fs[k] == fs[k..][0];
    assert fs[k + 1..] == fs[k..][1..];
  }

  lemma {:induction false} StridedDone(fs: seq<Entry>, k: nat, all: seq<Entry>, from: nat, step: nat)
    requires step > 0 && k <= |fs| && fs[k..] == Strided(all, from, step)
    requires from >= |all|
    ensures fs[..k] == fs
  {
  }

  /** The work of each of n workers. */
  function Shares<T>(es: seq<Entry>, n: nat, step: nat, g: Entry -> seq<T>): seq<seq<T>>
    requires step > 0
  {
    if n == 0 then [] else Shares(es, n - 1, step, g) + [Expand(Strided(es, n - 1, step), g)]
  }

  /** A stride from `from` meets position n. */
  predicate Meets(from: nat, n: nat, step: nat)
    requires step > 0
    decreases if from <= n then n - from else 0
  {
    from == n || (from < n && Meets(from + step, n, step))
  }

  /** The worker of position n: the remainder of n by the number of workers. */
  function WorkerOf(n: nat, step: nat): (b: nat)
    requires step > 0
    ensures b < step
  {
    if n < step then n else WorkerOf(n - step, step)
  }

  lemma {:induction false} MeetsShifted(from: nat, n: nat, step: nat)
    requires step > 0
    ensures Meets(from + step, n + step, step) == Meets(from, n, step)
    decreases if from <= n then n - from else 0
  {
    if from < n {
      MeetsShifted(from + step, n, step);
    }
  }

  /** Of the strides of all workers exactly one meets a position. */
  lemma {:induction false} OneWorker(n: nat, b: nat, step: nat)
    requires b < step
    ensures Meets(b, n, step) <==> b == WorkerOf(n, step)
  {
    if n >= step {
      OneWorker(n - step, b, step);
      MeetsShifted(b, n - step, step);
    }
  }

  /** One more entry goes to exactly the worker whose stride meets it. */
  lemma {:induction false} StridedAppend(es: seq<Entry>, x: Entry, from: nat, step: nat)
    requires step > 0
    ensures Strided(es + [x], from, step) == Strided(es, from, step) + if Meets(from, |es|, step) then [x] else []
    decreases if from <= |es| then |es| - from else 0
  {
    var n := |es|;
    if from < n {
      StridedAppend(es, x, from + step, step);
    } else if from == n {
      assert Strided(es + [x], n, step) == [x] + Strided(es + [x], n + step, step);
    }
  }

  lemma {:induction false} WorkLast<T>(workers: seq<seq<T>>, last: seq<T>)
    ensures Work(workers + [last]) == Work(workers) + multiset(last)
  {
    assert (workers + [last])[..|workers|] == workers;
  }

  /** The work of one worker more. */
  lemma {:induction false} SharesLast<T>(es: seq<Entry>, n: nat, step: nat, g: Entry -> seq<T>)
    requires step > 0
    ensures Work(Shares(es, n + 1, step, g)) == Work(Shares(es, n, step, g)) + multiset(Expand(Strided(es, n, step), g))
  {
    WorkLast(Shares(es, n, step, g), Expand(Strided(es, n, step), g));
  }

  lemma {:induction false} ShareAppend<T>(es: seq<Entry>, x: Entry, b: nat, step: nat, g: Entry -> seq<T>)
    requires b < step
    ensures multiset(Expand(Strided(es + [x], b, step), g)) ==
            multiset(Expand(Strided(es, b, step), g)) + if WorkerOf(|es|, step) == b then multiset(g(x)) else multiset{}
  {
    hide *;
    StridedAppend(es, x, b, step);
    OneWorker(|es|, b, step);
    if WorkerOf(|es|, step) == b {
      ExpandLast(Strided(es, b, step), x, g);
    } else {
      assert Strided(es + [x], b, step) == Strided(es, b, step);
    }
  }

  lemma {:induction false} SharesAppend<T>(es: seq<Entry>, x: Entry, n: nat, step: nat, g: Entry -> seq<T>)
    requires n <= step && step > 0
    ensures Work(Shares(es + [x], n, step, g)) ==
            Work(Shares(es, n, step, g)) + if WorkerOf(|es|, step) < n then multiset(g(x)) else multiset{}
  {
    hide *;
    if n == 0 {
      NoWorkers(es, step, g);
      NoWorkers(es + [x], step, g);
    } else {
      SharesAppend(es, x, n - 1, step, g);
      SharesLast(es + [x], n - 1, step, g);
      SharesLast(es, n - 1, step, g);
      ShareAppend(es, x, n - 1, step, g);
      var work, share := Work(Shares(es, n - 1, step, g)), multiset(Expand(Strided(es, n - 1, step), g));
      assert work + multiset(g(x)) + share == work + share + multiset(g(x)) == work + (share + multiset(g(x)));
    }
  }

  lemma {:induction false} NoWorkers<T>(es: seq<Entry>, step: nat, g: Entry -> seq<T>)
    requires step > 0
    ensures Work(Shares(es, 0, step, g)) == multiset{}
  {
  }

  lemma {:induction false} NoShares<T>(n: nat, step: nat, g: Entry -> seq<T>)
    requires step > 0
    ensures Work(Shares([], n, step, g)) == multiset{}
  {
    if n > 0 {
      NoShares(n - 1, step, g);
      WorkLast(Shares([], n - 1, step, g), Expand(Strided([], n - 1, step), g));
    }
  }

  /** Any number of strided workers share out a block exactly: every transaction,
      with all it gives rise to, is one worker's and only one's. */
  lemma {:induction false} SharesExact<T>(es: seq<Entry>, step: nat, g: Entry -> seq<T>)
    requires step > 0
    ensures Work(Shares(es, step, step, g)) == multiset(Expand(es, g))
  {
    if es == [] {
      NoShares(step, step, g);
    } else {
      var n := |es| - 1;
      SharesExact(es[..n], step, g);
      SharesAppend(es[..n], es[n], step, step, g);
      assert es == es[..n] + [es[n]];
    }
  }

  // ----------------------------------------------------- the order does not matter

  lemma {:induction false} SameShort<V(!new)>(a: seq<V>, b: seq<V>)
    requires |a| <= 1
    requires forall v :: multiset(a)[v] == multiset(b)[v]
    ensures a == b
  {
    assert multiset(a) == multiset(b);
    assert |a| == |multiset(a)| && |b| == |multiset(b)|;
    if a != [] {
      assert a[0] in multiset(b);
    }
  }

  /** Pushes under distinct keys give the same map in any order. */
  lemma {:induction false} AnyOrder<K(!new), V(!new)>(m: StackMap<K, V>, a: seq<Item<K, V>>, b: seq<Item<K, V>>)
    requires multiset(a) == multiset(b)
    requires forall k :: |ValuesOf(a, k)| <= 1
    ensures PushItems(m, a) == PushItems(m, b)
  {
    hide PushItems, ValuesOf, Stack;
    forall k ensures Stack(PushItems(m, a), k) == Stack(PushItems(m, b), k) {
      PushItemsStack(m, a, k);
      PushItemsStack(m, b, k);
      ValuesPermuted(a, b, k);
      SameShort(ValuesOf(a, k), ValuesOf(b, k));
    }
    Extensional(PushItems(m, a), PushItems(m, b));
  }

  // ----------------------------------------------------------------- the spend table

  lemma {:induction false} SpendOnce(es: seq<Entry>, fs: seq<Entry>, start: nat, p: Point)
    requires Consistent(es + fs)
    ensures |ValuesOf(Expand(fs, SpendsOf(start)), p)| <= 1
  {
    SpendScanConcat(es, fs, start);
    ValuesOfConcat(SpendScan(es, start), Expand(fs, SpendsOf(start)), p);
    if p in Marks(es + fs) {
      var k, i := SpenderOfMark(es + fs, p);
      ScanOfSpender(es + fs, start, k, i, p);
    } else {
      ScanOfUnspent(es + fs, start, p);
    }
  }

  // ----------------------------------------------------------- the transaction table

  predicate DistinctTxs(ops: seq<StoreOp>) {
    forall i, j :: 0 <= i < j < |ops| ==> ops[i].tx.hash != ops[j].tx.hash
  }

  /** A store changes the stack of its own hash only, as a function of it. */
  lemma {:induction false} StoredLocal(t: Slabs, u: Slabs, op: StoreOp, h: Hash)
    ensures h != op.tx.hash ==> Stack(Stored(t, op.tx, op.height, op.position), h) == Stack(t, h)
    ensures Stack(t, op.tx.hash) == Stack(u, op.tx.hash) ==>
              Stack(Stored(t, op.tx, op.height, op.position), op.tx.hash) ==
              Stack(Stored(u, op.tx, op.height, op.position), op.tx.hash)
  {
  }

  lemma {:induction false} StoreAllOther(t: Slabs, ops: seq<StoreOp>, h: Hash)
    requires forall i :: 0 <= i < |ops| ==> ops[i].tx.hash != h
    ensures Stack(StoreAll(t, ops), h) == Stack(t, h)
  {
    if ops != [] {
      var n := |ops| - 1;
      StoreAllOther(t, ops[..n], h);
      StoredLocal(StoreAll(t, ops[..n]), t, ops[n], h);
    }
  }

  lemma {:induction false} StoreAllOwn(t: Slabs, ops: seq<StoreOp>, i: nat)
    requires DistinctTxs(ops) && i < |ops|
    ensures var op := ops[i];
            Stack(StoreAll(t, ops), op.tx.hash) == Stack(Stored(t, op.tx, op.height, op.position), op.tx.hash)
  {
    hide Stored, Stack;
    var n := |ops| - 1;
    if i < n {
      StoreAllOwn(t, ops[..n], i);
      StoredLocal(StoreAll(t, ops[..n]), t, ops[n], ops[i].tx.hash);
    } else {
      StoreAllOther(t, ops[..n], ops[n].tx.hash);
      StoredLocal(StoreAll(t, ops[..n]), t, ops[n], ops[n].tx.hash);
    }
  }

  lemma {:induction false} PermutedDistinct(a: seq<StoreOp>, b: seq<StoreOp>)
    requires multiset(a) == multiset(b) && DistinctTxs(a)
    ensures DistinctTxs(b)
    ensures forall op :: op in a <==> op in b
  {
    forall op ensures op in a <==> op in b {
      assert op in multiset(a) <==> op in multiset(b);
    }
    if i, j :| 0 <= i < j < |b| && b[i].tx.hash == b[j].tx.hash {
      assert b[i] in a && b[j] in a;
      assert b[i] == b[j];
      CountTwice(b, i, j);
      CountOnce(a, b[i]);
      assert false;
    }
  }

  lemma {:induction false} CountTwice<T>(s: seq<T>, i: nat, j: nat)
    requires i < j < |s| && s[i] == s[j]
    ensures multiset(s)[s[i]] >= 2
  {
    assert s == s[..j] + [s[j]] + s[j + 1..];
    assert s[..j][i] in multiset(s[..j]);
  }

  lemma {:induction false} CountOnce(s: seq<StoreOp>, op: StoreOp)
    requires DistinctTxs(s)
    ensures multiset(s)[op] <= 1
  {
    if s != [] {
      var n := |s| - 1;
      assert s == s[..n] + [s[n]];
      CountOnce(s[..n], op);
    }
  }

  /** Stores of transactions with distinct hashes give the same table in any order. */
  lemma {:induction false} AnyStoreOrder(t: Slabs, a: seq<StoreOp>, b: seq<StoreOp>)
    requires multiset(a) == multiset(b) && DistinctTxs(a)
    ensures StoreAll(t, a) == StoreAll(t, b)
  {
    PermutedDistinct(a, b);
    hide StoreAll, Stack, Stored;
    forall h ensures Stack(StoreAll(t, a), h) == Stack(StoreAll(t, b), h) {
      if i :| 0 <= i < |a| && a[i].tx.hash == h {
        assert a[i] in b;
        var j :| 0 <= j < |b| && b[j] == a[i];
        StoreAllOwn(t, a, i);
        StoreAllOwn(t, b, j);
      } else {
        forall j | 0 <= j < |b| ensures b[j].tx.hash != h { assert b[j] in a; }
        StoreAllOther(t, a, h);
        StoreAllOther(t, b, h);
      }
    }
    Extensional(StoreAll(t, a), StoreAll(t, b));
  }

  // ------------------------------------------------------------- shares, in part

  lemma {:induction false} SharesAt<T>(es: seq<Entry>, n: nat, step: nat, g: Entry -> seq<T>)
    requires step > 0
    ensures |Shares(es, n, step, g)| == n
    ensures forall v :: 0 <= v < n ==> Shares(es, n, step, g)[v] == Expand(Strided(es, v, step), g)
  {
    if n > 0 {
      SharesAt(es, n - 1, step, g);
    }
  }

  lemma {:induction false} StridedFrom(es: seq<Entry>, from: nat, step: nat)
    requires step > 0
    ensures forall e :: e in Strided(es, from, step) ==> e in es
    decreases |es| - from
  {
    if from < |es| {
      StridedFrom(es, from + step, step);
    }
  }

  /** The part of what transactions give rise to is what their parts give rise to. */
  lemma {:induction false} SelectExpand<A, B>(es: seq<Entry>, g: Entry -> seq<A>, f: A -> Option<B>, h: Entry -> seq<B>)
    requires forall e :: e in es ==> Select(g(e), f) == h(e)
    ensures Select(Expand(es, g), f) == Expand(es, h)
  {
    if es != [] {
      var n := |es| - 1;
      SelectExpand(es[..n], g, f, h);
      SelectConcat(Expand(es[..n], g), g(es[n]), f);
      assert es[n] in es;
    }
  }

  /** In each part of the writes the workers interleave too, and do everything. */
  lemma {:induction false} PartOfMerge<A, B(!new)>(es: seq<Entry>, step: nat, g: Entry -> seq<A>, merged: seq<A>,
                                             f: A -> Option<B>, h: Entry -> seq<B>)
    requires step > 0 && Interleaves(Shares(es, step, step, g), merged)
    requires forall e :: e in es ==> Select(g(e), f) == h(e)
    ensures Interleaves(Shares(es, step, step, h), Select(merged, f))
    ensures multiset(Select(merged, f)) == multiset(Expand(es, h))
  {
    hide Interleaves, Shares, Expand, Select, Strided;
    SelectInterleaves(Shares(es, step, step, g), merged, f);
    SharesAt(es, step, step, g);
    SharesAt(es, step, step, h);
    var parts := SelectEach(Shares(es, step, step, g), f);
    forall v | 0 <= v < step ensures parts[v] == Shares(es, step, step, h)[v] {
      StridedFrom(es, v, step);
      SelectExpand(Strided(es, v, step), g, f, h);
    }
    assert parts == Shares(es, step, step, h);
    InterleavingWork(Shares(es, step, step, h), Select(merged, f));
    SharesExact(es, step, h);
  }

  /** The store one position of a block performs. */
  function StoreOf(txs: seq<Tx>): Entry -> seq<StoreOp> {
    (e: Entry) => if e.position < |txs| then [StoreOp(txs[e.position], e.height, e.position)] else []
  }

  function DropOf(): Entry -> seq<Hash> {
    (e: Entry) => [e.tx.hash]
  }

  /** The stores of a block in order. */
  function StoresOf(txs: seq<Tx>, height: nat): (r: seq<StoreOp>)
    ensures |r| == |txs| && forall i :: 0 <= i < |r| ==> r[i] == StoreOp(txs[i], height, i)
  {
    seq(|txs|, i requires 0 <= i < |txs| => StoreOp(txs[i], height, i))
  }

  lemma {:induction false} ExpandStores(txs: seq<Tx>, height: nat, fs: seq<Entry>)
    requires |fs| <= |txs| && forall k :: 0 <= k < |fs| ==> fs[k].position == k && fs[k].height == height
    ensures Expand(fs, StoreOf(txs)) == StoresOf(txs, height)[..|fs|]
    ensures Expand(fs, DropOf()) == HashesOf(fs)
  {
    if fs != [] {
      var n := |fs| - 1;
      ExpandStores(txs, height, fs[..n]);
      assert HashesOf(fs) == HashesOf(fs[..n]) + [fs[n].tx.hash];
    }
  }

  lemma {:induction false} BlockParts(b: Block, height: nat, start: nat)
    ensures forall e :: e in BlockEntries(CleanBlock(b), height) ==>
      && Select(WritesOf(b.txs, start)(e), AsStore) == StoreOf(b.txs)(e)
      && Select(WritesOf(b.txs, start)(e), AsDrop) == DropOf()(e)
      && Select(WritesOf(b.txs, start)(e), AsSpend) == SpendsOf(start)(e)
      && Select(WritesOf(b.txs, start)(e), AsRow) == HistoryOf(start)(e)
  {
    hide WritesOf, Select, SpendsOf, HistoryOf;
    forall e | e in BlockEntries(CleanBlock(b), height)
      ensures PartsOf(WritesOf(b.txs, start)(e)) ==
              Parts(StoreOf(b.txs)(e), DropOf()(e), SpendsOf(start)(e), HistoryOf(start)(e))
    {
      EntryParts(b.txs, start, e);
    }
  }

  /** What any interleaving of the workers' writes comes to, table by table. */
  lemma {:induction false} MergedParts(b: Block, height: nat, start: nat, buckets: nat, merged: seq<Write>)
    requires buckets > 0
    requires Interleaves(Shares(BlockEntries(CleanBlock(b), height), buckets, buckets, WritesOf(b.txs, start)), merged)
    ensures var fs, p := BlockEntries(CleanBlock(b), height), PartsOf(merged);
            && multiset(p.stores) == multiset(StoresOf(b.txs, height))
            && multiset(p.drops) == multiset(HashesOf(fs))
            && Interleaves(Shares(fs, buckets, buckets, SpendsOf(start)), p.spends)
            && Interleaves(Shares(fs, buckets, buckets, HistoryOf(start)), p.rows)
            && multiset(p.rows) == multiset(Expand(fs, HistoryOf(start)))
  {
    var fs, g := BlockEntries(CleanBlock(b), height), WritesOf(b.txs, start);
    BlockParts(b, height, start);
    ExpandStores(b.txs, height, fs);
    assert StoresOf(b.txs, height)[..|fs|] == StoresOf(b.txs, height);
    hide Interleaves, Shares, Expand, WritesOf, SpendsOf, HistoryOf, StoreOf, DropOf, Select;
    PartOfMerge(fs, buckets, g, merged, AsStore, StoreOf(b.txs));
    PartOfMerge(fs, buckets, g, merged, AsDrop, DropOf());
    PartOfMerge(fs, buckets, g, merged, AsSpend, SpendsOf(start));
    PartOfMerge(fs, buckets, g, merged, AsRow, HistoryOf(start));
  }

  // ------------------------------------------------------------------ in order

  /** One pass over the first k transactions of a block. */
  lemma {:induction false} ShowsInOrder(t: Slabs, pool: Pool, es: seq<Entry>, b: Block, height: nat, k: nat,
                                        marks: map<Point, nat>, pending: set<Point>, content: Hash -> Tx)
    requires k <= |b.txs| <= UNCONFIRMED
    requires Consistent(es + BlockEntries(CleanBlock(b), height))
    requires Shows(t, pool, Confirmed(es), marks, pending, height, content)
    requires forall i :: 0 <= i < |b.txs| ==> Clean(b.txs[i]) == content(b.txs[i].hash) && Arrives(b.txs[i], pending, height)
    ensures var fs := BlockEntries(CleanBlock(b), height);
            Shows(StoreAll(t, StoresOf(b.txs, height)[..k]), PopKeys(pool, HashesOf(fs)[..k]), Confirmed(es + fs[..k]),
                  marks, pending, height, content)
  {
    hide Shows, Consistent, Confirmed, Arrives, Stored, Pop, CleanOutputs, StoreAll, PopKeys;
    var fs, ops := BlockEntries(CleanBlock(b), height), StoresOf(b.txs, height);
    if k == 0 {
      assert es + fs[..0] == es && ops[..0] == [] && HashesOf(fs)[..0] == [];
      NothingStored(t, pool);
    } else {
      ShowsInOrder(t, pool, es, b, height, k - 1, marks, pending, content);
      FitsAt(es, fs, k - 1);
      assert ops[..k] == ops[..k - 1] + [ops[k - 1]];
      StoreLast(t, ops[..k - 1], ops[k - 1]);
      assert HashesOf(fs)[..k] == HashesOf(fs)[..k - 1] + [fs[k - 1].tx.hash];
      PopKeysLast(pool, HashesOf(fs)[..k - 1], fs[k - 1].tx.hash);
      ShowsPushed(StoreAll(t, ops[..k - 1]), PopKeys(pool, HashesOf(fs)[..k - 1]), es + fs[..k - 1], marks, pending,
                  height, content, b.txs[k - 1], k - 1);
    }
  }

  lemma {:induction false} NothingStored(t: Slabs, pool: Pool)
    ensures StoreAll(t, []) == t && PopKeys(pool, []) == pool
  {
  }

  // ------------------------------------------------------------------ any order

  lemma {:induction false} DistinctStores(es: seq<Entry>, b: Block, height: nat)
    requires Consistent(es + BlockEntries(CleanBlock(b), height))
    ensures DistinctTxs(StoresOf(b.txs, height))
  {
    hide Consistent;
    var fs, ops := BlockEntries(CleanBlock(b), height), StoresOf(b.txs, height);
    forall i, j | 0 <= i < j < |ops| ensures ops[i].tx.hash != ops[j].tx.hash {
      DistinctHashes(es, fs, i, j);
    }
  }

  /** Parallel push: from a store that shows a chain, for any number of workers and
      any interleaving of their writes, the transaction, pool and spend tables are
      those of one pass in order, and the histories gain the block's rows. */
  lemma {:induction false} PushedTables(s: TableState, es: seq<Entry>, b: Block, height: nat, start: nat, buckets: nat,
                                        merged: seq<Write>, marks: map<Point, nat>, pending: set<Point>, content: Hash -> Tx)
    requires buckets > 0 && |b.txs| <= UNCONFIRMED
    requires Consistent(es + BlockEntries(CleanBlock(b), height))
    requires Shows(s.slabs, s.pool, Confirmed(es), marks, pending, height, content)
    requires s.spends == SpendTable(es, start)
    requires forall i :: 0 <= i < |b.txs| ==> Clean(b.txs[i]) == content(b.txs[i].hash) && Arrives(b.txs[i], pending, height)
    requires Interleaves(Shares(BlockEntries(CleanBlock(b), height), buckets, buckets, WritesOf(b.txs, start)), merged)
    ensures var fs, s' := BlockEntries(CleanBlock(b), height), PerformAll(s, merged);
            && Shows(s'.slabs, s'.pool, Confirmed(es + fs), marks, pending, height, content)
            && s'.slabs == StoreAll(s.slabs, StoresOf(b.txs, height))
            && s'.pool == Unpooled(s.pool, fs)
            && s'.spends == SpendTable(es + fs, start)
            && s'.rows == PushItems(s.rows, PartsOf(merged).rows)
            && multiset(PartsOf(merged).rows) == multiset(Expand(fs, HistoryOf(start)))
  {
    hide *;
    var fs, ops, p := BlockEntries(CleanBlock(b), height), StoresOf(b.txs, height), PartsOf(merged);
    ShowsInOrder(s.slabs, s.pool, es, b, height, |b.txs|, marks, pending, content);
    WholeBlock(b, height);
    PerformParts(s, merged);
    MergedParts(b, height, start, buckets, merged);
    DistinctStores(es, b, height);
    AnyStoreOrder(s.slabs, ops, p.stores);
    AnyPopOrder(s.pool, HashesOf(fs), p.drops);
    ParallelSpends(es, fs, start, buckets, p.spends);
    PushedState(s, p, fs);
  }

  /** The stores of a block take its transactions out of the unconfirmed ones. */
  lemma {:induction false} ForksOfStores(t: Slabs, txs: seq<Tx>, height: nat, k: nat)
    requires k <= |txs| <= UNCONFIRMED
    ensures Forks(StoreAll(t, StoresOf(txs, height)[..k])) == Forks(t) - HashesIn(txs[..k])
    ensures StoresOf(txs, height)[..|txs|] == StoresOf(txs, height) && txs[..|txs|] == txs
  {
    hide Stored, Forks;
    var ops := StoresOf(txs, height);
    if k == 0 {
      NothingStored(t, map[]);
      assert ops[..0] == [] && HashesIn(txs[..0]) == {};
    } else {
      ForksOfStores(t, txs, height, k - 1);
      assert ops[..k] == ops[..k - 1] + [ops[k - 1]];
      StoreLast(t, ops[..k - 1], ops[k - 1]);
      ForksStored(StoreAll(t, ops[..k - 1]), txs[k - 1], height, k - 1);
      assert txs[..k] == txs[..k - 1] + [txs[k - 1]];
      OneHashMore(txs[..k - 1], txs[k - 1]);
    }
  }

  lemma {:induction false} OneHashMore(txs: seq<Tx>, tx: Tx)
    ensures HashesIn(txs + [tx]) == HashesIn(txs) + {tx.hash}
  {
    forall h ensures h in HashesIn(txs + [tx]) <==> h in HashesIn(txs) || h == tx.hash {
      if h in HashesIn(txs) {
        var i :| 0 <= i < |txs| && txs[i].hash == h;
        assert (txs + [tx])[i].hash == h;
      }
      assert (txs + [tx])[|txs|] == tx;
    }
  }

  lemma {:induction false} WholeBlock(b: Block, height: nat)
    ensures var fs, n := BlockEntries(CleanBlock(b), height), |b.txs|;
            && |fs| == n && fs[..n] == fs && HashesOf(fs)[..n] == HashesOf(fs)
            && StoresOf(b.txs, height)[..n] == StoresOf(b.txs, height)
  {
  }

  lemma {:induction false} PushedState(s: TableState, p: Parts, fs: seq<Entry>)
    ensures Apply(s, p).slabs == StoreAll(s.slabs, p.stores)
    ensures Apply(s, p).pool == PopKeys(s.pool, p.drops)
    ensures Apply(s, p).spends == PushItems(s.spends, p.spends)
    ensures Apply(s, p).rows == PushItems(s.rows, p.rows)
    ensures Unpooled(s.pool, fs) == PopKeys(s.pool, HashesOf(fs))
  {
  }

  lemma {:induction false} ParallelSpends(es: seq<Entry>, fs: seq<Entry>, start: nat, buckets: nat,
                                          merged: seq<Item<Point, Point>>)
    requires Consistent(es + fs) && buckets > 0
    requires Interleaves(Shares(fs, buckets, buckets, SpendsOf(start)), merged)
    ensures PushItems(SpendTable(es, start), merged) == SpendTable(es + fs, start)
  {
    var g := SpendsOf(start);
    hide Interleaves, Shares, Expand, PushItems, ValuesOf, Consistent, SpendScan, SpendsOf;
    InterleavingWork(Shares(fs, buckets, buckets, g), merged);
    SharesExact(fs, buckets, g);
    SpendScanConcat(es, fs, start);
    PushItemsConcat<Point, Point>(map[], SpendScan(es, start), Expand(fs, g));
    forall p ensures |ValuesOf(Expand(fs, g), p)| <= 1 {
      SpendOnce(es, fs, start, p);
    }
    AnyOrder(SpendTable(es, start), Expand(fs, g), merged);
  }
}
