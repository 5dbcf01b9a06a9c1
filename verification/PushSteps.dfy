/** What a well-formed block does to the tables of a store that holds a chain,
    whichever workers push it and however their writes interleave. */
module PushSteps {
  import opened Wrappers
  import opened StackMaps
  import opened ChainTypes
  import opened ChainModel
  import opened ChainState
  import opened TransactionTable
  import opened TransactionDatabases
  import opened Tables
  import opened Interleavings
  import opened TableWrites
  import opened ParallelPush
  import opened HistoryOrders
  import opened HistoryLogs
  import opened FreshWrites

  /** The writes of each worker. */
  function Programs(b: Block, height: nat, buckets: nat, start: nat): seq<seq<Write>>
    requires buckets > 0
  {
    Shares(BlockEntries(CleanBlock(b), height), buckets, buckets, WritesOf(b.txs, start))
  }

  /** The four tables hold a chain. */
  ghost predicate Holding(s: TableState, log: seq<Rows>, chain: seq<Block>, start: nat, content: Hash -> Tx) {
    && Shows(s.slabs, s.pool, Confirmed(Flat(chain)), Marks(Flat(chain)), {}, 0, content)
    && s.spends == SpendTable(Flat(chain), start)
    && Logged(s.rows, log, chain, start)
  }

  /** All transactions of a block are stored, none of what they spend is marked. */
  ghost predicate Arrived(s: TableState, log: seq<Rows>, chain: seq<Block>, b: Block, start: nat, content: Hash -> Tx) {
    var longer := chain + [CleanBlock(b)];
    && Shows(s.slabs, s.pool, Confirmed(Flat(longer)), Marks(Flat(chain)), Marks(Flat(longer)).Keys, |chain|, content)
    && s.spends == SpendTable(Flat(longer), start)
    && Logged(s.rows, log, longer, start)
  }

  /** The workers keep the order of the histories. */
  ghost predicate KeepsOrder(b: Block, height: nat, buckets: nat, start: nat) {
    buckets > 0 && OneWorkerEach(BlockEntries(CleanBlock(b), height), buckets, start)
  }

  lemma {:induction false} OneBucketKeepsOrder(b: Block, height: nat, start: nat)
    ensures KeepsOrder(b, height, 1, start)
  {
    var fs := BlockEntries(CleanBlock(b), height);
    forall i, j | 0 <= i < j < |fs| ensures WorkerOf(i, 1) == WorkerOf(j, 1) {
      assert WorkerOf(i, 1) < 1 && WorkerOf(j, 1) < 1;
    }
  }

  lemma {:induction false} SpendersArrive(chain: seq<Block>, b: Block, tx: Tx)
    requires forall j :: 0 <= j < |tx.outputs| ==> SpenderFits(chain, b, tx, j)
    ensures Arrives(tx, Marks(With(chain, b)).Keys, |chain|)
  {
    hide With, Marks;
    forall j | 0 <= j < |tx.outputs|
      ensures || tx.outputs[j].spender == NOT_SPENT
              || (Point(tx.hash, j) in Marks(With(chain, b)).Keys && tx.outputs[j].spender == |chain|)
    {
      assert SpenderFits(chain, b, tx, j);
    }
  }

  /** What a well-formed block provides to the steps of a push. */
  lemma {:induction false} PushReady(chain: seq<Block>, b: Block, content: Hash -> Tx)
    requires ValidChain(chain) && WellFormed(chain, b, content)
    requires VerifyCode(chain, b, |chain|) == Success
    ensures var es, fs := Flat(chain), BlockEntries(CleanBlock(b), |chain|);
            && b.txs != [] && |b.txs| <= UNCONFIRMED
            && Flat(chain + [CleanBlock(b)]) == es + fs
            && Consistent(es + fs)
            && (forall e :: e in es + fs ==> e.height <= |chain|)
            && forall i :: 0 <= i < |b.txs| ==>
                 Clean(b.txs[i]) == content(b.txs[i].hash) && Arrives(b.txs[i], Marks(es + fs).Keys, |chain|)
  {
    hide Flat, Consistent, Arrives, Marks, CleanBlock, SpenderFits, ValidChain;
    WithFlat(chain, b);
    FlatHeights(chain);
    forall i | 0 <= i < |b.txs| ensures Arrives(b.txs[i], Marks(With(chain, b)).Keys, |chain|) {
      SpendersArrive(chain, b, b.txs[i]);
    }
  }

  /** Storing all transactions of a block. */
  lemma {:induction false} BlockArrives(s: TableState, log: seq<Rows>, chain: seq<Block>, b: Block, start: nat,
                                        buckets: nat, merged: seq<Write>, content: Hash -> Tx)
    requires ValidChain(chain) && WellFormed(chain, b, content) && VerifyCode(chain, b, |chain|) == Success
    requires Holding(s, log, chain, start, content)
    requires buckets > 0 && Interleaves(Programs(b, |chain|, buckets, start), merged)
    ensures var s' := PerformAll(s, merged);
            && Arrived(s', log + [PartsOf(merged).rows], chain, b, start, content)
            && s'.pool == Unpooled(s.pool, BlockEntries(CleanBlock(b), |chain|))
            && Forks(s'.slabs) == Forks(s.slabs) - HashesIn(b.txs)
            && (InOrder(s.rows, chain, start) && KeepsOrder(b, |chain|, buckets, start) ==>
                  InOrder(s'.rows, chain + [CleanBlock(b)], start))
  {
    hide ValidChain, WellFormed, VerifyCode, Flat, Shows, Confirmed, Marks, Interleaves, Shares, WritesOf, PerformAll,
         PartsOf, Consistent, Arrives, Logged, InOrder, OneWorkerEach, Unpooled, SpendTable, Expand, Clean, CleanBlock;
    var es, fs := Flat(chain), BlockEntries(CleanBlock(b), |chain|);
    var pending := Marks(es + fs).Keys;
    PushReady(chain, b, content);
    ShowsPending(s.slabs, s.pool, Confirmed(es), Marks(es), pending, |chain|, content);
    PushedTables(s, es, b, |chain|, start, buckets, merged, Marks(es), pending, content);
    ForksOfStores(s.slabs, b.txs, |chain|, |b.txs|);
    LoggedPushed(s.rows, log, chain, start, CleanBlock(b), PartsOf(merged).rows);
    if InOrder(s.rows, chain, start) && KeepsOrder(b, |chain|, buckets, start) {
      MergedParts(b, |chain|, start, buckets, merged);
      forall a: Address
        ensures ValuesOf(PartsOf(merged).rows, a) == ValuesOf(RowsAt(CleanBlock(b), |chain|, start), a)
      {
        OrderKept(fs, start, buckets, PartsOf(merged).rows, a);
      }
      InOrderPushed(s.rows, chain, start, CleanBlock(b), PartsOf(merged).rows);
    }
  }

  /** The transactions of a block whose outputs are unspent are new to the table. */
  lemma {:induction false} BlockFresh(s: TableState, log: seq<Rows>, chain: seq<Block>, b: Block, start: nat,
                                      content: Hash -> Tx)
    requires ValidChain(chain) && WellFormed(chain, b, content) && VerifyCode(chain, b, |chain|) == Success
    requires Holding(s, log, chain, start, content)
    requires forall i :: 0 <= i < |b.txs| ==> Unspent(b.txs[i])
    ensures FreshAlong(s.slabs, b.txs, BlockEntries(CleanBlock(b), |chain|))
  {
    hide ValidChain, WellFormed, VerifyCode, Flat, Shows, Confirmed, Marks, Consistent, Arrives, Unspent, Fresh, Clean, Logged,
         SpendTable;
    var es, fs := Flat(chain), BlockEntries(CleanBlock(b), |chain|);
    PushReady(chain, b, content);
    forall k | 0 <= k < |fs| ensures fs[k].tx.hash == b.txs[k].hash && Fresh(b.txs[k], s.slabs, k) {
      FitsAt(es, fs, k);
      assert fs[k].tx.hash == b.txs[k].hash && fs[k].tx.coinbase == b.txs[k].coinbase by { CleanKeeps(b.txs[k]); }
      NewToTable(s.slabs, s.pool, es, fs[..k], b.txs[k], k, content);
    }
    forall j, k | 0 <= j < k < |fs| ensures fs[j].tx.hash != fs[k].tx.hash {
      DistinctHashes(es, fs, j, k);
    }
  }

  lemma {:induction false} CleanKeeps(tx: Tx)
    ensures Clean(tx).hash == tx.hash && Clean(tx).coinbase == tx.coinbase
  {
  }

  lemma {:induction false} NewToTable(t: Slabs, pool: Pool, es: seq<Entry>, before: seq<Entry>, tx: Tx, position: nat,
                                      content: Hash -> Tx)
    requires Shows(t, pool, Confirmed(es), Marks(es), {}, 0, content)
    requires Consistent(es + before) && tx.hash !in Confirmed(es + before)
    requires Clean(tx) == content(tx.hash) && Unspent(tx) && tx.coinbase == (position == 0)
    ensures Fresh(tx, t, position)
  {
    hide Mirrors, Marks, Consistent, Confirmed, Clean, Unspent;
    if tx.hash in Confirmed(es) {
      ConfirmedGrows(es, before, tx.hash);
    }
    if tx.hash in t {
      assert Seen(t[tx.hash][0], tx.hash, Confirmed(es), Marks(es), {}, 0, content);
    }
  }

  /** So are they wherever a merge stores them. */
  lemma {:induction false} MergeFresh(s: TableState, chain: seq<Block>, b: Block, start: nat, buckets: nat,
                                      merged: seq<Write>, k: nat)
    requires FreshAlong(s.slabs, b.txs, BlockEntries(CleanBlock(b), |chain|))
    requires buckets > 0 && Interleaves(Programs(b, |chain|, buckets, start), merged)
    requires k < |merged| && merged[k].StoreTx?
    ensures Fresh(merged[k].op.tx, PerformAll(s, merged[..k]).slabs, merged[k].op.position)
  {
    hide Interleaves, Shares, WritesOf, Select, Fresh, PerformAll, Expand;
    var fs, ops := BlockEntries(CleanBlock(b), |chain|), StoresOf(b.txs, |chain|);
    MergedParts(b, |chain|, start, buckets, merged);
    forall i, j | 0 <= i < j < |ops| ensures ops[i].tx.hash != ops[j].tx.hash {
      assert fs[i].tx.hash != fs[j].tx.hash;
    }
    PermutedDistinct(ops, Select(merged, AsStore));
    StoreInMerge(merged, k);
    var i :| 0 <= i < |ops| && ops[i] == merged[k].op;
    assert fs[i].position == i && Fresh(b.txs[fs[i].position], s.slabs, fs[i].position);
    FreshInMerge(s, merged, k);
  }

  lemma {:induction false} StoreInMerge(merged: seq<Write>, k: nat)
    requires k < |merged| && merged[k].StoreTx?
    ensures merged[k].op in Select(merged, AsStore)
  {
    assert merged == merged[..k] + merged[k..];
    SelectConcat(merged[..k], merged[k..], AsStore);
    SelectFirst(merged[k..], AsStore);
  }

  /** One worker's share is the block, and its own merge. */
  lemma {:induction false} OneProgram(b: Block, height: nat, start: nat)
    ensures var fs := BlockEntries(CleanBlock(b), height);
            Strided(fs, 0, 1) == fs && Interleaves(Programs(b, height, 1, start), Expand(fs, WritesOf(b.txs, start)))
  {
    hide Interleaves, Expand, WritesOf, Strided;
    var fs := BlockEntries(CleanBlock(b), height);
    StridedByOne(fs, 0);
    OneWorkerAlone(Expand(fs, WritesOf(b.txs, start)));
    SharesAt(fs, 1, 1, WritesOf(b.txs, start));
    assert Programs(b, height, 1, start) == [Expand(fs, WritesOf(b.txs, start))];
  }

  /** The code for a pool push: the newest slab of the hash must be fully spent. */
  function PooledCode(t: Slabs, h: Hash): Code {
    if h in t && !IsSpent(t[h][0], MAX_SIZE) then UnspentDuplicate else Success
  }

  /** Which code a pool push answers, by the newest slab of its hash: it is a duplicate
      while that is in no block or has an output that nothing spends. */
  ghost predicate AnswersPooled(code: Code, slab: Option<Slab>) {
    && (code == UnspentDuplicate <==>
          && slab.Some?
          && (slab.value.position == UNCONFIRMED ||
              exists i :: 0 <= i < |slab.value.tx.outputs| &&
                (slab.value.tx.outputs[i].spender == NOT_SPENT || slab.value.tx.outputs[i].spender > MAX_SIZE)))
    && (code == UnspentDuplicate || code == Success)
  }

  lemma {:induction false} PooledAnswers(t: Slabs, h: Hash)
    ensures AnswersPooled(PooledCode(t, h), Peek(t, h))
  {
  }

  /** A transaction that the chain has not confirmed is accepted unless it is pooled. */
  lemma {:induction false} PooledOnce(s: TableState, log: seq<Rows>, chain: seq<Block>, h: Hash, start: nat,
                                      content: Hash -> Tx)
    requires Holding(s, log, chain, start, content) && h !in Confirmed(Flat(chain))
    ensures PooledCode(s.slabs, h) == Success <==> h !in Forks(s.slabs)
  {
    hide Mirrors, Logged, SpendTable, Confirmed, Marks, Flat, Clean;
    if h in s.slabs {
      assert Seen(s.slabs[h][0], h, Confirmed(Flat(chain)), Marks(Flat(chain)), {}, 0, content);
    }
  }

  /** A new slab in front of those of its hash holds the transaction, in no block, with
      the forks under which it was validated; no other hash changes. */
  ghost predicate PooledInFront(t: Slabs, t': Slabs, tx: Tx, forks: nat) {
    && Stack(t', tx.hash) == [Slab(forks, UNCONFIRMED, tx.(pooled := false))] + Stack(t, tx.hash)
    && forall h :: h != tx.hash ==> Stack(t', h) == Stack(t, h)
  }

  lemma {:induction false} PooledSlab(t: Slabs, tx: Tx, forks: nat)
    ensures var t' := Stored(t, tx, forks, UNCONFIRMED);
            PooledInFront(t, t', tx, forks) && Forks(t') == Forks(t)[tx.hash := forks]
  {
    ForksStored(t, tx, forks, UNCONFIRMED);
  }

  /** An accepted pool push keeps the tables in step with the chain exactly when the
      chain has not confirmed its hash. */
  lemma {:induction false} PoolArrives(s: TableState, log: seq<Rows>, chain: seq<Block>, tx: Tx, forks: nat, start: nat,
                                       content: Hash -> Tx)
    requires Holding(s, log, chain, start, content)
    requires Clean(tx) == content(tx.hash) && Unspent(tx) && PooledCode(s.slabs, tx.hash) == Success
    ensures Holding(s.(slabs := Stored(s.slabs, tx, forks, UNCONFIRMED), pool := Push(s.pool, tx.hash, tx)),
                    log, chain, start, content)
            <==> tx.hash !in Confirmed(Flat(chain))
    ensures tx.hash !in Confirmed(Flat(chain)) ==> Fresh(tx, s.slabs, UNCONFIRMED)
  {
    hide Shows, Confirmed, Marks, Flat, Clean, Push, Stored, SpendTable, Logged;
    var confirmed, marks := Confirmed(Flat(chain)), Marks(Flat(chain));
    ShowsUnknown(s.slabs, s.pool, confirmed, marks, content, tx.hash);
    if tx.hash in confirmed {
      ShowsHidden(s.slabs, s.pool, confirmed, marks, content, tx, forks);
    } else {
      ShowsPooled(s.slabs, s.pool, confirmed, marks, content, tx, forks);
    }
  }
}
