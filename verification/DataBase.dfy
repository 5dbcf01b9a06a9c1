/** The store: five tables kept consistent while blocks are pushed and popped. */
module DataBases {
  import opened Wrappers
  import opened StackMaps
  import opened ChainTypes
  import opened ChainModel
  import opened ChainState
  import opened TransactionTable
  import opened Tables
  import opened Interleavings
  import opened TableWrites
  import opened ParallelPush
  import opened HistoryOrders
  import opened HistoryLogs
  import opened FreshWrites
  import opened PushSteps
  import opened PopSteps
  import opened Reorganizations
  import opened TransactionDatabases
  import opened UnspentOutputsCache
  import opened BlockDatabases
  import opened Indexes

  /** How the writes of a block's workers, each a call on a table, interleave. */
  type Schedule = seq<seq<Write>> -> seq<Write>

  ghost predicate Fair(schedule: Schedule) {
    forall workers: seq<seq<Write>> :: Interleaves(workers, schedule(workers))
  }

  /** The bucket counts and the hash functions of the tables. */
  datatype Layout = Layout(buckets: nat, ofHash: Hash -> nat, ofPoint: Point -> nat, ofAddress: Address -> nat)

  class DataBase {
    const blocks: BlockDatabase
    const transactions: TransactionDatabase
    const pool: UnconfirmedDatabase
    const spends: SpendDatabase
    const history: HistoryDatabase
    /** Spends and histories are kept from this height. */
    const start: nat
    /** The forks under which a popped transaction counts as validated. */
    const unverified: nat

    /** The one transaction behind each hash. */
    ghost const content: Hash -> Tx
    ghost var chain: seq<Block>
    /** The history rows of each block in the order they were written. */
    ghost var log: seq<Rows>

    ghost function TableParts(): set<object> {
      transactions.Repr() + pool.Repr() + spends.Repr() + history.Repr()
    }

    ghost function Parts(): set<object> {
      {this} + blocks.Repr() + TableParts()
    }

    /** The tables share nothing, and none is the store. */
    ghost predicate Separate() {
      && Apart(blocks, transactions, pool, spends, history)
      && this !in blocks.Repr() && this !in TableParts() && blocks.Repr() !! TableParts()
    }

    ghost predicate Ready()
      reads TableParts()
    {
      Separate() && transactions.Valid() && pool.Valid() && spends.Valid() && history.Valid()
    }

    /** What the four tables hold. */
    ghost function Now(): TableState
      reads transactions, pool, spends, history
    {
      TableState(transactions.lookup, pool.lookup, spends.lookup, history.rows)
    }

    ghost predicate Showing(confirmed: map<Hash, Entry>, marks: map<Point, nat>, pending: set<Point>, height: nat)
      reads transactions, pool
    {
      Shows(transactions.lookup, pool.lookup, confirmed, marks, pending, height, content)
    }

    /** The tables hold exactly the chain. */
    ghost predicate Valid()
      reads Parts()
    {
      && Ready() && blocks.Valid()
      && ValidChain(chain)
      && BlocksHold(blocks.View(), blocks.Newest(), blocks.count, chain)
      && Holding(Now(), log, chain, start, content)
    }

    lemma {:induction false} PartsInclude()
      ensures {transactions, pool, spends, history} <= TableParts() && blocks in blocks.Repr()
      ensures transactions.Repr() <= TableParts() && pool.Repr() <= TableParts()
      ensures Parts() == {this} + blocks.Repr() + TableParts()
      ensures Ready() ==> this !in TableParts() && this !in blocks.Repr() && blocks.Repr() !! TableParts()
    {
    }

    /** The histories are in the order of the chain, too. */
    ghost predicate Ordered()
      reads this, history
    {
      InOrder(history.rows, chain, start)
    }

    /** The pool, and the blocks that are found by their hash. */
    ghost function Beside(): Sides
      requires Valid()
      reads Parts()
    {
      Sides(pool.lookup, blocks.Newest(), Validated())
    }

    /** The forks of the pooled transactions. */
    ghost function Validated(): map<Hash, nat>
      reads transactions
    {
      Forks(transactions.lookup)
    }

    /** What the cache holds. */
    ghost function Cached(): map<Hash, Aged>
      reads transactions.cache
    {
      transactions.cache.left
    }

    /** Nothing of the store has changed. */
    twostate predicate Untouched()
      reads Parts()
    {
      unchanged(this, blocks, blocks.table, blocks.table.header, transactions, transactions.table,
                transactions.table.header, transactions.cache, pool, pool.table, pool.table.header, spends, spends.table,
                spends.table.header, history, history.multimap, history.multimap.table, history.multimap.table.header)
    }

    twostate lemma {:induction false} Unmoved()
      requires old(Valid()) && Valid() && Untouched()
      ensures chain == old(chain) && Beside() == old(Beside())
      ensures Ordered() == old(Ordered()) && transactions.Sound() == old(transactions.Sound())
    {
    }

    /** A store on empty tables. */
    constructor (blocks: BlockDatabase, transactions: TransactionDatabase, pool: UnconfirmedDatabase,
                 spends: SpendDatabase, history: HistoryDatabase, start: nat, unverified: nat, ghost content: Hash -> Tx)
      requires blocks.Valid() && blocks.View() == map[] && blocks.Newest() == map[] && blocks.count == 0
      requires transactions.Valid() && transactions.lookup == map[]
      requires pool.Valid() && pool.lookup == map[]
      requires spends.Valid() && spends.lookup == map[]
      requires history.Valid() && history.rows == map[]
      requires Apart(blocks, transactions, pool, spends, history)
      ensures Valid() && Ordered()
      ensures this.blocks == blocks && this.transactions == transactions && this.pool == pool
      ensures this.spends == spends && this.history == history
      ensures chain == [] && this.start == start && this.unverified == unverified && this.content == content
      ensures Beside() == Sides(map[], map[], map[])
    {
      hide Flat, Shows, BlocksHold, ValidChain, Confirmed, Marks, SpendTable, Logged, InOrder;
      hide BlockDatabase.Valid, BlockDatabase.View, BlockDatabase.Newest, TransactionDatabase.Valid;
      hide UnconfirmedDatabase.Valid, SpendDatabase.Valid, HistoryDatabase.Valid;
      this.blocks, this.transactions, this.pool, this.spends, this.history := blocks, transactions, pool, spends, history;
      this.start, this.unverified, this.content := start, unverified, content;
      chain, log := [], [];
      new;
      EmptyStore(content, start);
    }

    // --------------------------------------------------------------- verification

    method VerifyPush(b: Block, height: nat) returns (code: Code)
      requires Valid()
      ensures code == VerifyCode(chain, b, height) && AnswersPush(code, chain, b, height)
    {
      hide ValidChain, Holding, Ready, AnswersPush, BlockDatabase.Valid, BlockDatabase.View, BlockDatabase.Newest;
      VerifyAnswers(chain, b, height);
      if b.txs == [] {
        return EmptyBlock;
      }
      var top := blocks.Top();
      if (if top.None? then 0 else top.value + 1) != height {
        return InvalidHeight;
      }
      var previous := NULL_HASH;
      if height != 0 {
        previous := blocks.GetAt(height - 1).value.header.hash;
      }
      return if b.header.previous != previous then MissingParent else Success;
    }

    // ------------------------------------------------------------------- pushing

    /** A single write of some worker. */
    method Execute(w: Write)
      requires Ready()
      modifies TableParts()
      ensures Ready() && Now() == Perform(old(Now()), w)
      ensures old(transactions.Sound()) && (w.StoreTx? ==> Fresh(w.op.tx, old(transactions.lookup), w.op.position))
              ==> transactions.Sound()
    {
      hide TransactionDatabase.Valid, UnconfirmedDatabase.Valid, SpendDatabase.Valid, HistoryDatabase.Valid;
      hide TransactionDatabase.Sound, Fresh, Stored, StackMaps.Push, StackMaps.Pop;
      match w
      case StoreTx(op) => transactions.Store(op.tx, op.height, op.position);
      case DropPooled(hash) => var ok := pool.UnlinkIfExists(hash);
      case StoreSpend(spend) => spends.Store(spend.key, spend.value);
      case AddRow(Item(key, OutputRow(point, height, value))) => history.AddOutput(key, point, height, value);
      case AddRow(Item(key, SpendRow(point, height, previous))) => history.AddInput(key, point, height, previous);
    }

    method PushInputs(hash: Hash, height: nat, inputs: seq<Input>, ghost e: Entry)
      requires Ready() && e.height == height && e.tx.hash == hash && Spending(e) == inputs
      modifies spends.Repr() + history.Repr()
      ensures Ready() && Now() == PerformAll(old(Now()), InputWrites(e, |inputs|))
    {
      hide TransactionDatabase.Valid, UnconfirmedDatabase.Valid, SpendDatabase.Valid, HistoryDatabase.Valid;
      hide PerformAll, InputWrites, StackMaps.Push, Spending;
      NoWrites(Now(), e);
      for i := 0 to |inputs|
        invariant Ready() && Now() == PerformAll(old(Now()), InputWrites(e, i))
      {
        InputWritesStep(old(Now()), e, i);
        var point := Point(hash, i);
        spends.Store(inputs[i].prev, point);
        if inputs[i].address.Some? {
          history.AddInput(inputs[i].address.value, point, height, inputs[i].prev);
        }
      }
    }

    method PushOutputs(hash: Hash, height: nat, outputs: seq<Output>, ghost e: Entry)
      requires Ready() && e.height == height && e.tx.hash == hash && e.tx.outputs == CleanOutputs(outputs)
      modifies history.Repr()
      ensures Ready() && Now() == PerformAll(old(Now()), OutputWrites(e, |outputs|))
    {
      hide TransactionDatabase.Valid, UnconfirmedDatabase.Valid, SpendDatabase.Valid, HistoryDatabase.Valid;
      hide PerformAll, OutputWrites, StackMaps.Push, CleanOutputs;
      NoWrites(Now(), e);
      for i := 0 to |outputs|
        invariant Ready() && Now() == PerformAll(old(Now()), OutputWrites(e, i))
      {
        OutputWritesStep(old(Now()), e, i);
        if outputs[i].address.Some? {
          history.AddOutput(outputs[i].address.value, Point(hash, i), height, outputs[i].value);
        }
      }
    }

    /** One transaction of a block: stored, taken out of the pool, and indexed
        unless its height is below the first indexed one. */
    method PushTransaction(txs: seq<Tx>, height: nat, position: nat)
      requires Ready() && position < |txs|
      modifies TableParts()
      ensures Ready()
      ensures Now() == PerformAll(old(Now()), WritesOf(txs, start)(Entry(height, position, Clean(txs[position]))))
      ensures old(transactions.Sound()) && Fresh(txs[position], old(transactions.lookup), position) ==> transactions.Sound()
    {
      hide TransactionDatabase.Valid, UnconfirmedDatabase.Valid, SpendDatabase.Valid, HistoryDatabase.Valid;
      hide TransactionDatabase.Sound, Fresh, Stored, StackMaps.Pop, PerformAll, InputWrites, OutputWrites, WritesOf;
      var tx := txs[position];
      ghost var e := Entry(height, position, Clean(tx));
      WritesInOrder(Now(), txs, start, e);
      transactions.Store(tx, height, position);
      var unlinked := pool.UnlinkIfExists(tx.hash);
      if height < start {
        return;
      }
      NoWrites(Now(), e);
      if position != 0 {
        PushInputs(tx.hash, height, tx.inputs, e);
      }
      PushOutputs(tx.hash, height, tx.outputs, e);
    }

    /** One strided worker's share of a block; in order with bucket 0 of 1. */
    method PushTransactions(b: Block, height: nat, bucket: nat, buckets: nat)
      requires bucket < buckets && |b.txs| <= UNCONFIRMED
      requires Ready()
      modifies TableParts()
      ensures Ready()
      ensures Now() == PerformAll(old(Now()), Expand(Strided(BlockEntries(CleanBlock(b), height), bucket, buckets),
                                                     WritesOf(b.txs, start)))
      ensures var share := Strided(BlockEntries(CleanBlock(b), height), bucket, buckets);
              old(transactions.Sound()) && FreshAlong(old(transactions.lookup), b.txs, share) ==> transactions.Sound()
    {
      hide Ready, Strided, Expand, CeilingAdd, Clean, PerformAll, WritesOf, TransactionDatabase.Sound, FreshAlong,
           Fresh;
      ghost var all, g := BlockEntries(CleanBlock(b), height), WritesOf(b.txs, start);
      ghost var fs := Strided(all, bucket, buckets);
      ghost var sound := transactions.Sound() && FreshAlong(transactions.lookup, b.txs, fs);
      ghost var k := 0;
      var position := bucket;
      NothingExpanded(Now(), g);
      while position < |b.txs|
        invariant Ready()
        invariant 0 <= k <= |fs| && fs[k..] == Strided(all, position, buckets)
        invariant Now() == PerformAll(old(Now()), Expand(fs[..k], g))
        invariant sound ==> transactions.Sound()
        decreases |b.txs| - position
      {
        StridedNext(fs, k, all, position, buckets);
        ExpandLast(fs[..k], fs[k], g);
        PerformConcat(old(Now()), Expand(fs[..k], g), g(fs[k]));
        if sound { FreshAt(old(Now()), b.txs, start, fs, k); }
        PushTransaction(b.txs, height, position);
        k := k + 1;
        position := CeilingAdd(position, buckets);
      }
      StridedDone(fs, k, all, position, buckets);
    }

    /** Marks the outputs one transaction spends. */
    method SpendInputs(inputs: seq<Input>, height: nat, ghost es: seq<Entry>, ghost fs: seq<Entry>, ghost p: nat,
                       ghost pending: set<Point>)
      returns (ok: bool)
      requires Ready()
      requires p < |fs| && Spending(fs[p]) == inputs && fs[p].height == height
      requires Consistent(es + fs) && forall e :: e in es + fs ==> e.height <= height
      requires Showing(Confirmed(es + fs), Marks(es + fs[..p]), pending, height)
      modifies transactions.Repr()
      ensures Ready()
      ensures ok && Showing(Confirmed(es + fs), Marks(es + fs[..p + 1]), pending, height)
      ensures old(transactions.Sound()) ==> transactions.Sound()
      ensures Validated() == old(Validated())
    {
      hide Shows, Confirmed, Marks, MarkInputs, Consistent, Spendable, WithSpender, Spending, Fits;
      hide TransactionDatabase.Valid, TransactionDatabase.Sound;
      hide UnconfirmedDatabase.Valid, SpendDatabase.Valid, HistoryDatabase.Valid;
      ghost var marks := Marks(es + fs[..p]);
      NoMarks(marks, fs[p]);
      for i := 0 to |inputs|
        invariant Ready() && Validated() == old(Validated())
        invariant Showing(Confirmed(es + fs), MarkInputs(marks, fs[p], i), pending, height)
        invariant old(transactions.Sound()) ==> transactions.Sound()
      {
        ParentConfirmed(es, fs, p, i, height);
        MarkStep(marks, fs[p], i);
        ShowsMarked(transactions.lookup, pool.lookup, Confirmed(es + fs), MarkInputs(marks, fs[p], i), pending,
                    height, content, inputs[i].prev);
        SpentForks(transactions.lookup, inputs[i].prev, height);
        ok := transactions.Spend(inputs[i].prev, height);
        if !ok {
          return false;
        }
      }
      FitsAt(es, fs, p);
      Append(es + fs[..p], fs[p], 0);
      ok := true;
    }

    /** Marks what a block spends, once all of its transactions are stored. */
    method PushHeights(b: Block, height: nat, ghost es: seq<Entry>, ghost pending: set<Point>) returns (ok: bool)
      requires Ready() && b.txs != []
      requires var fs := BlockEntries(CleanBlock(b), height);
               && Consistent(es + fs)
               && (forall e :: e in es + fs ==> e.height <= height)
               && Showing(Confirmed(es + fs), Marks(es), pending, height)
      modifies transactions.Repr()
      ensures Ready()
      ensures var fs := BlockEntries(CleanBlock(b), height);
              ok && Showing(Confirmed(es + fs), Marks(es + fs), pending, height)
      ensures old(transactions.Sound()) ==> transactions.Sound()
      ensures Validated() == old(Validated())
    {
      hide Ready, Showing, Confirmed, Marks, Consistent, CleanOutputs, TransactionDatabase.Sound;
      ghost var fs := BlockEntries(CleanBlock(b), height);
      CoinbaseMarks(es, fs);
      for position := 1 to |b.txs|
        invariant Ready() && Validated() == old(Validated())
        invariant Showing(Confirmed(es + fs), Marks(es + fs[..position]), pending, height)
        invariant old(transactions.Sound()) ==> transactions.Sound()
      {
        ok := SpendInputs(b.txs[position].inputs, height, es, fs, position, pending);
        if !ok {
          return false;
        }
      }
      assert fs[..|b.txs|] == fs;
      ok := true;
    }

    /** Writes the block itself, which completes the longer chain. */
    method StoreBlock(b: Block, height: nat, ghost items: Rows)
      requires Ready() && blocks.Valid() && BlocksHold(blocks.View(), blocks.Newest(), blocks.count, chain)
      requires height == |chain|
      requires forall h :: 0 <= h < |chain| ==> chain[h].header.hash != b.header.hash
      requires var longer := chain + [CleanBlock(b)];
               ValidChain(longer) && Holding(Now(), log + [items], longer, start, content)
      modifies {this} + blocks.Repr()
      ensures Valid() && chain == old(chain) + [CleanBlock(b)] && log == old(log) + [items]
      ensures Now() == old(Now())
      ensures blocks.Newest() == old(blocks.Newest())[b.header.hash := SlabOf(b, height)]
    {
      hide Ready, Holding, ValidChain, BlocksHold, CleanBlock, SlabOf, Apart;
      hide BlockDatabase.Valid, BlockDatabase.View, BlockDatabase.Newest;
      PartsInclude();
      BlocksHoldPushed(blocks.View(), blocks.Newest(), blocks.count, chain, b);
      blocks.Store(b, height);
      chain, log := chain + [CleanBlock(b)], log + [items];
    }

    /** All transactions of the block are stored: its spends are marked and the
        block is written. */
    method FinishPush(b: Block, height: nat, ghost items: Rows) returns (ok: bool)
      requires Ready() && blocks.Valid() && BlocksHold(blocks.View(), blocks.Newest(), blocks.count, chain)
      requires ValidChain(chain) && WellFormed(chain, b, content)
      requires VerifyCode(chain, b, |chain|) == Success && height == |chain|
      requires Arrived(Now(), log + [items], chain, b, start, content)
      modifies {this} + blocks.Repr() + transactions.Repr()
      ensures ok && Valid() && chain == old(chain) + [CleanBlock(b)] && log == old(log) + [items]
      ensures old(transactions.Sound()) ==> transactions.Sound()
      ensures pool.lookup == old(pool.lookup) && history.rows == old(history.rows) && Validated() == old(Validated())
      ensures blocks.Newest() == old(blocks.Newest())[b.header.hash := SlabOf(b, height)]
    {
      hide Shows, Confirmed, Marks, Consistent, ValidChain, BlocksHold, Flat, CleanBlock, Logged, SpendTable, With,
           SpenderFits, Clean, Arrives, TransactionDatabase.Sound;
      hide BlockDatabase.Valid, BlockDatabase.View, BlockDatabase.Newest;
      hide TransactionDatabase.Valid, UnconfirmedDatabase.Valid, SpendDatabase.Valid, HistoryDatabase.Valid;
      ghost var es, fs := Flat(chain), BlockEntries(CleanBlock(b), height);
      PushReady(chain, b, content);
      ok := PushHeights(b, height, es, Marks(es + fs).Keys);
      if !ok {
        return false;
      }
      ShowsSettled(transactions.lookup, pool.lookup, Confirmed(es + fs), Marks(es + fs), height, content);
      ValidPushed(chain, b, content);
      StoreBlock(b, height, items);
    }

    /** Adds a block on top, one transaction after the other. Refused, it changes
        nothing; accepted, the tables hold the longer chain. */
    method Push(b: Block, height: nat) returns (code: Code)
      requires Valid()
      requires VerifyCode(chain, b, height) == Success ==> WellFormed(chain, b, content)
      modifies Parts()
      ensures Valid()
      ensures code == VerifyCode(old(chain), b, height) && AnswersPush(code, old(chain), b, height)
      ensures code == Success ==> chain == old(chain) + [CleanBlock(b)]
      ensures code == Success ==> Beside() == Pushed(old(Beside()), b, height)
      ensures old(Ordered()) ==> Ordered()
      ensures old(transactions.Sound()) && AllUnspent(b) ==> transactions.Sound()
      ensures code != Success ==> Untouched()
    {
      hide Holding, Ready, ValidChain, WellFormed, BlocksHold, CleanBlock, InOrder, Unpooled, VerifyCode, KeepsOrder,
           Unspent, BlockEntries, TransactionDatabase.Sound;
      hide BlockDatabase.Valid, BlockDatabase.View, BlockDatabase.Newest;
      code := VerifyPush(b, height);
      if code == Success {
        code := PushInOrder(b, height);
      }
    }

    method PushInOrder(b: Block, height: nat) returns (code: Code)
      requires Valid() && VerifyCode(chain, b, height) == Success && WellFormed(chain, b, content)
      modifies Parts()
      ensures Valid() && code == Success && chain == old(chain) + [CleanBlock(b)]
      ensures |log| > |old(log)| && log[..|old(log)|] == old(log)
      ensures Beside() == Pushed(old(Beside()), b, height)
      ensures old(Ordered()) ==> Ordered()
      ensures old(transactions.Sound()) && AllUnspent(b) ==> transactions.Sound()
    {
      hide Holding, Ready, ValidChain, WellFormed, BlocksHold, Flat, CleanBlock, InOrder, Unpooled, Interleaves, Arrived,
           PerformAll, PartsOf, Expand, Programs, WritesOf, FreshAlong, Strided, Confirmed, Marks, VerifyCode,
           KeepsOrder, Unspent, BlockEntries, TransactionDatabase.Sound;
      hide BlockDatabase.Valid, BlockDatabase.View, BlockDatabase.Newest;
      PartsInclude();
      ghost var merged := Expand(BlockEntries(CleanBlock(b), height), WritesOf(b.txs, start));
      VerifiedHeight(chain, b, height);
      PushReady(chain, b, content);
      OneProgram(b, height, start);
      OneBucketKeepsOrder(b, height, start);
      BlockArrives(Now(), log, chain, b, start, 1, merged, content);
      if AllUnspent(b) { BlockFresh(Now(), log, chain, b, start, content); }
      PushTransactions(b, height, 0, 1);
      var ok := FinishPush(b, height, PartsOf(merged).rows);
      code := if ok then Success else OperationFailed;
    }

    /** Adds a block on top with several workers, whose calls on the tables interleave
        as the schedule says. When the steps inside the calls interleave, too,
        `HistorySteps` and `ConcurrentUnlinks` say exactly when that comes to the same. */
    method DoPush(b: Block, height: nat, threads: nat, schedule: Schedule) returns (code: Code)
      requires Valid() && threads > 0 && Fair(schedule)
      requires VerifyCode(chain, b, height) == Success ==> WellFormed(chain, b, content)
      modifies Parts()
      ensures Valid()
      ensures code == VerifyCode(old(chain), b, height) && AnswersPush(code, old(chain), b, height)
      ensures code == Success ==> chain == old(chain) + [CleanBlock(b)]
      ensures code == Success ==> log == old(log) + [MergedRows(b, height, threads, schedule, start)]
      ensures code == Success ==>
                var workers := if threads < |b.txs| then threads else |b.txs|;
                log == old(log) + [PartsOf(schedule(Programs(b, height, workers, start))).rows]
      ensures code == Success ==> Beside() == Pushed(old(Beside()), b, height)
      ensures code == Success && old(Ordered()) && KeepsOrder(b, height, Buckets(threads, b), start) ==> Ordered()
      ensures old(transactions.Sound()) && AllUnspent(b) ==> transactions.Sound()
      ensures code != Success ==> Untouched()
    {
      hide Holding, Ready, ValidChain, WellFormed, BlocksHold, CleanBlock, InOrder, Unpooled, VerifyCode, KeepsOrder,
           Unspent, BlockEntries, TransactionDatabase.Sound, MergedRows, AnswersPush, PartsOf, Programs, Pushed, Fair;
      hide BlockDatabase.Valid, BlockDatabase.View, BlockDatabase.Newest;
      code := VerifyPush(b, height);
      if code == Success {
        VerifiedHeight(chain, b, height);
        WorkersRows(b, height, threads, schedule, start);
        code := PushMerged(b, height, threads, schedule);
      }
    }

    method PushMerged(b: Block, height: nat, threads: nat, schedule: Schedule) returns (code: Code)
      requires Valid() && threads > 0 && Fair(schedule)
      requires VerifyCode(chain, b, height) == Success && WellFormed(chain, b, content)
      modifies Parts()
      ensures Valid() && code == Success && chain == old(chain) + [CleanBlock(b)]
      ensures log == old(log) + [MergedRows(b, height, threads, schedule, start)]
      ensures Beside() == Pushed(old(Beside()), b, height)
      ensures old(Ordered()) && KeepsOrder(b, height, Buckets(threads, b), start) ==> Ordered()
      ensures old(transactions.Sound()) && AllUnspent(b) ==> transactions.Sound()
    {
      hide Holding, Ready, ValidChain, WellFormed, BlocksHold, Flat, CleanBlock, InOrder, Unpooled, Interleaves, Arrived,
           PerformAll, PartsOf, Programs, FreshAlong, Confirmed, Marks, VerifyCode, KeepsOrder, Unspent, BlockEntries,
           TransactionDatabase.Sound;
      hide BlockDatabase.Valid, BlockDatabase.View, BlockDatabase.Newest;
      PartsInclude();
      VerifiedHeight(chain, b, height);
      PushReady(chain, b, content);
      var buckets := Buckets(threads, b);
      var merged := schedule(Programs(b, height, buckets, start));
      BlockArrives(Now(), log, chain, b, start, buckets, merged, content);
      if AllUnspent(b) { BlockFresh(Now(), log, chain, b, start, content); }
      ExecuteAll(b, buckets, merged);
      var ok := FinishPush(b, height, PartsOf(merged).rows);
      code := if ok then Success else OperationFailed;
    }

    /** The writes of all workers, in the order in which they happen. */
    method ExecuteAll(b: Block, buckets: nat, merged: seq<Write>)
      requires Ready() && buckets > 0 && Interleaves(Programs(b, |chain|, buckets, start), merged)
      modifies TableParts()
      ensures Ready() && Now() == PerformAll(old(Now()), merged)
      ensures var fs := BlockEntries(CleanBlock(b), |chain|);
              old(transactions.Sound()) && FreshAlong(old(transactions.lookup), b.txs, fs) ==> transactions.Sound()
    {
      hide Ready, Interleaves, Shares, WritesOf, PerformAll, Perform, Programs, FreshAlong, Fresh,
           TransactionDatabase.Sound, BlockEntries, CleanBlock;
      ghost var sound := transactions.Sound() &&
        FreshAlong(transactions.lookup, b.txs, BlockEntries(CleanBlock(b), |chain|));
      NothingPerformed(Now());
      assert merged[..0] == [];
      for k := 0 to |merged|
        invariant Ready() && Now() == PerformAll(old(Now()), merged[..k])
        invariant sound ==> transactions.Sound()
      {
        assert merged[..k + 1] == merged[..k] + [merged[k]];
        PerformLast(old(Now()), merged[..k], merged[k]);
        if sound && merged[k].StoreTx? { MergeFresh(old(Now()), chain, b, start, buckets, merged, k); }
        Execute(merged[k]);
      }
      assert merged[..|merged|] == merged;
    }

    /** Adds a transaction to the pool. It is refused exactly when the newest
        slab of its hash is not fully spent; and accepting it keeps the store
        consistent exactly when its hash is not confirmed in the chain. */
    method PushPooled(tx: Tx, forks: nat) returns (code: Code)
      requires Valid()
      requires Clean(tx) == content(tx.hash) && Unspent(tx)
      modifies transactions.Repr() + pool.Repr()
      ensures chain == old(chain) && blocks.Valid() && blocks.Newest() == old(blocks.Newest())
      ensures code == PooledCode(old(transactions.lookup), tx.hash)
      ensures AnswersPooled(code, Peek(old(transactions.lookup), tx.hash))
      ensures code == Success ==>
                && PooledInFront(old(transactions.lookup), transactions.lookup, tx, forks)
                && Validated() == old(Validated())[tx.hash := forks]
      ensures tx.hash !in Confirmed(Flat(chain)) ==> (code == Success <==> tx.hash !in old(Validated()))
      ensures code != Success ==> Untouched()
      ensures Valid() <==> code != Success || tx.hash !in Confirmed(Flat(chain))
      ensures code == Success ==> pool.lookup == StackMaps.Push(old(pool.lookup), tx.hash, tx)
      ensures old(transactions.Sound()) && tx.hash !in Confirmed(Flat(chain)) ==> transactions.Sound()
      ensures old(Ordered()) ==> Ordered()
    {
      hide Holding, ValidChain, BlocksHold, StackMaps.Push, Stored, Confirmed, Flat, Clean, Unspent, IsSpent, InOrder,
           Fresh, AnswersPooled, Stack, Forks, PooledInFront;
      hide BlockDatabase.Valid, BlockDatabase.View, BlockDatabase.Newest, TransactionDatabase.Valid;
      hide UnconfirmedDatabase.Valid, SpendDatabase.Valid, HistoryDatabase.Valid, TransactionDatabase.Sound, Apart;
      PooledAnswers(transactions.lookup, tx.hash);
      if tx.hash !in Confirmed(Flat(chain)) { PooledOnce(Now(), log, chain, tx.hash, start, content); }
      var found := transactions.Find(tx.hash, MAX_SIZE, false);
      if found.Some? && !IsSpent(found.value, MAX_SIZE) {
        return UnspentDuplicate;
      }
      PoolArrives(Now(), log, chain, tx, forks, start, content);
      PartsInclude();
      StorePooled(tx, forks);
      code := Success;
    }

    method StorePooled(tx: Tx, forks: nat)
      requires Ready()
      modifies transactions.Repr() + pool.Repr()
      ensures Ready()
      ensures Now() == old(Now()).(slabs := Stored(old(transactions.lookup), tx, forks, UNCONFIRMED),
                                   pool := StackMaps.Push(old(pool.lookup), tx.hash, tx))
      ensures PooledInFront(old(transactions.lookup), transactions.lookup, tx, forks)
      ensures Validated() == old(Validated())[tx.hash := forks]
      ensures old(transactions.Sound()) && Fresh(tx, old(transactions.lookup), UNCONFIRMED) ==> transactions.Sound()
    {
      hide TransactionDatabase.Valid, UnconfirmedDatabase.Valid, SpendDatabase.Valid, HistoryDatabase.Valid;
      hide TransactionDatabase.Sound, Fresh, Stored, StackMaps.Push, SlabStored, PooledInFront, Forks;
      PooledSlab(transactions.lookup, tx, forks);
      transactions.Store(tx, forks, UNCONFIRMED);
      pool.Store(tx);
    }

    // ------------------------------------------------------------------- popping

    /** The transactions of popped blocks have newest slabs that are in no block, carry
        the forks of a pop, are unspent, and have the content that was returned. */
    ghost predicate AllTakenBack(out: seq<Block>)
      reads this, transactions
    {
      forall k, i :: 0 <= k < |out| && 0 <= i < |out[k].txs| ==>
        TakenBack(Peek(transactions.lookup, out[k].txs[i].hash), out[k].txs[i], unverified)
    }

    lemma {:induction false} PoppedTakenBack(sides: Sides, out: seq<Block>)
      requires Valid() && Beside() == AllPopped(sides, out, unverified)
      requires forall k, i :: 0 <= k < |out| && 0 <= i < |out[k].txs| ==>
                 Clean(out[k].txs[i]) == content(out[k].txs[i].hash)
      ensures AllTakenBack(out)
    {
      hide Holding, Ready, ValidChain, BlocksHold, AllPopped, TakenBack, Forks, Clean;
      hide BlockDatabase.Valid, BlockDatabase.View, BlockDatabase.Newest;
      forall k, i | 0 <= k < |out| && 0 <= i < |out[k].txs|
        ensures TakenBack(Peek(transactions.lookup, out[k].txs[i].hash), out[k].txs[i], unverified)
      {
        PoppedForks(sides, out, unverified, k, i);
        ForksTaken(Now(), log, chain, start, content, out[k].txs[i], unverified);
      }
    }

    method PopOutputs(outputs: seq<Output>, height: nat, ghost e: Entry) returns (ok: bool)
      requires Ready() && e.tx.outputs == CleanOutputs(outputs)
      modifies history.Repr()
      ensures ok && Ready()
      ensures history.rows == if height < start then old(history.rows)
                              else PopItems(old(history.rows), OutputRows(e, |outputs|))
    {
      hide TransactionDatabase.Valid, UnconfirmedDatabase.Valid, SpendDatabase.Valid, HistoryDatabase.Valid;
      hide PopItems, OutputRows, StackMaps.Pop, CleanOutputs;
      if height < start {
        return true;
      }
      var i := |outputs|;
      while i > 0
        invariant 0 <= i <= |outputs| && Ready()
        invariant PopItems(history.rows, OutputRows(e, i)) == PopItems(old(history.rows), OutputRows(e, |outputs|))
      {
        i := i - 1;
        OutputRowUnstep(history.rows, e, i);
        if outputs[i].address.Some? {
          var deleted := history.DeleteLastRow(outputs[i].address.value);
        }
      }
      NoRowsLeft(history.rows, e);
      ok := true;
    }

    /** The spend table while the last transaction still has k inputs in it. */
    ghost predicate PartlySpent(es: seq<Entry>, e: Entry, k: nat)
      requires k <= |Spending(e)|
      reads spends
    {
      spends.lookup == if e.height < start then SpendTable(es, start) else PushItems(SpendTable(es, start), SpendItems(e, k))
    }

    /** Takes one input back from three tables. */
    method PopInput(input: Input, height: nat) returns (ok: bool)
      requires Ready()
      modifies transactions.Repr() + spends.Repr() + history.Repr()
      ensures Ready() && ok == Spendable(old(transactions.lookup), input.prev, NOT_SPENT)
      ensures ok ==> Now() == InputTaken(old(Now()), input, height, start)
      ensures Cached() == old(Cached())
    {
      hide TransactionDatabase.Valid, UnconfirmedDatabase.Valid, SpendDatabase.Valid, HistoryDatabase.Valid;
      hide TransactionDatabase.Sound, StackMaps.Pop, WithSpender, Spendable;
      ok := transactions.Unspend(input.prev);
      if !ok {
        return false;
      }
      if height < start {
        return true;
      }
      var unlinked := spends.Unlink(input.prev);
      if input.address.Some? {
        var deleted := history.DeleteLastRow(input.address.value);
      }
    }

    method PopInputs(inputs: seq<Input>, height: nat, ghost es: seq<Entry>, ghost e: Entry) returns (ok: bool)
      requires Ready() && Spending(e) == inputs && e.height == height
      requires Consistent(es) && Fits(es, e) && forall f :: f in es ==> f.height <= NOT_SPENT
      requires Showing(Confirmed(es), MarkInputs(Marks(es), e, |inputs|), {}, 0)
      requires PartlySpent(es, e, |inputs|)
      modifies transactions.Repr() + spends.Repr() + history.Repr()
      ensures ok && Ready()
      ensures Showing(Confirmed(es), Marks(es), {}, 0) && spends.lookup == SpendTable(es, start)
      ensures history.rows == if height < start then old(history.rows)
                              else PopItems(old(history.rows), InputRows(e, |inputs|))
      ensures pool.lookup == old(pool.lookup) && Cached() == old(Cached()) && Validated() == old(Validated())
    {
      hide Ready, Shows, Confirmed, Marks, MarkInputs, Consistent, Spendable, WithSpender, Spending, Fits;
      hide PushItems, PopItems, StackMaps.Pop, SpendTable, SpendItems, InputRows;
      var i := |inputs|;
      while i > 0
        invariant 0 <= i <= |inputs| && Ready() && pool.lookup == old(pool.lookup)
        invariant Cached() == old(Cached()) && Validated() == old(Validated())
        invariant Showing(Confirmed(es), MarkInputs(Marks(es), e, i), {}, 0)
        invariant PartlySpent(es, e, i)
        invariant height < start ==> history.rows == old(history.rows)
        invariant height >= start ==>
          PopItems(history.rows, InputRows(e, i)) == PopItems(old(history.rows), InputRows(e, |inputs|))
      {
        i := i - 1;
        ParentAt(es, e, i);
        MarkStep(Marks(es), e, i);
        ShowsUnmarked(transactions.lookup, pool.lookup, Confirmed(es), MarkInputs(Marks(es), e, i), height, content,
                      inputs[i].prev);
        SpendUnstep(SpendTable(es, start), e, i);
        InputRowUnstep(history.rows, e, i);
        SpentForks(transactions.lookup, inputs[i].prev, NOT_SPENT);
        ok := PopInput(inputs[i], height);
        if !ok {
          return false;
        }
      }
      NoMarks(Marks(es), e);
      NoItems(SpendTable(es, start), history.rows, e);
      NoRowsLeft(history.rows, e);
      ok := true;
    }

    /** A confirmed transaction becomes a pooled one. */
    method UnplaceTransaction(tx: Tx) returns (ok: bool)
      requires Ready()
      modifies transactions.Repr() + pool.Repr()
      ensures Ready() && ok == (tx.hash in old(transactions.lookup)) && Cached() == old(Cached())
      ensures ok ==> Now() == old(Now()).(slabs := WithPlace(old(transactions.lookup), tx.hash, unverified, UNCONFIRMED),
                                          pool := StackMaps.Push(old(pool.lookup), tx.hash, tx))
    {
      hide TransactionDatabase.Valid, UnconfirmedDatabase.Valid, SpendDatabase.Valid, HistoryDatabase.Valid;
      hide WithPlace, StackMaps.Push;
      ok := transactions.Unconfirm(tx.hash, unverified);
      if !ok {
        return false;
      }
      pool.Store(tx);
    }

    /** Takes the newest transaction of the chain back into the pool. */
    method PopTransaction(tx: Tx, height: nat, ghost es: seq<Entry>, ghost e: Entry) returns (ok: bool)
      requires Ready() && tx.hash == e.tx.hash && Clean(tx) == e.tx && e.height == height
      requires Consistent(es + [e]) && forall f :: f in es ==> f.height <= NOT_SPENT
      requires Showing(Confirmed(es + [e]), Marks(es + [e]), {}, 0) && spends.lookup == SpendTable(es + [e], start)
      modifies TableParts()
      ensures ok && Ready() && Cached() == old(Cached())
      ensures Showing(Confirmed(es), Marks(es), {}, 0) && spends.lookup == SpendTable(es, start)
      ensures pool.lookup == StackMaps.Push(old(pool.lookup), tx.hash, tx)
      ensures Validated() == old(Validated())[tx.hash := unverified]
      ensures history.rows == PopItems(old(history.rows), HistoryOf(start)(e))
    {
      hide Shows, Confirmed, Marks, MarkInputs, Consistent, WithPlace, CleanOutputs;
      hide PushItems, PopItems, StackMaps.Push, SpendTable, SpendItems, InputRows, OutputRows,
           TransactionDatabase.Sound;
      hide TransactionDatabase.Valid, UnconfirmedDatabase.Valid, SpendDatabase.Valid, HistoryDatabase.Valid;
      Append(es, e, start);
      MarksFrom(es);
      MarkInputsFrom(es, e, |Spending(e)|);
      ShowsUnplaced(transactions.lookup, pool.lookup, es, e, Marks(es + [e]), content, unverified, tx);
      SpendTableStep(es, e, start);
      RowsBackwards(history.rows, e, start);
      ForksPlaced(transactions.lookup, tx.hash, unverified, UNCONFIRMED);
      ok := UnplaceTransaction(tx);
      if !ok {
        return false;
      }
      ok := PopOutputs(tx.outputs, height, e);
      if !ok {
        return false;
      }
      if !tx.coinbase {
        ok := PopInputs(tx.inputs, height, es, e);
      } else {
        NoMarks(Marks(es), e);
        NoItems(SpendTable(es, start), history.rows, e);
        NoRowsLeft(history.rows, e);
      }
    }

    /** Reads the transactions of the newest block. */
    method ReadTransactions(hashes: seq<Hash>, height: nat, ghost es: seq<Entry>, ghost fs: seq<Entry>)
      returns (ok: bool, txs: seq<Tx>)
      requires Ready() && Consistent(es + fs)
      requires Showing(Confirmed(es + fs), Marks(es + fs), {}, 0)
      requires |hashes| == |fs| && forall k :: 0 <= k < |fs| ==>
                 hashes[k] == fs[k].tx.hash && fs[k].height == height && fs[k].position == k
      ensures ok && |txs| == |fs|
      ensures forall k :: 0 <= k < |fs| ==>
                && txs[k].hash == fs[k].tx.hash
                && TxReread(txs[k], fs[k].tx, Marks(es + fs))
                && Clean(txs[k]) == fs[k].tx == content(txs[k].hash)
    {
      hide Consistent, Confirmed, Marks, Holds, Mirrors, Clean, Lookup, TransactionDatabase.Valid;
      hide UnconfirmedDatabase.Valid, SpendDatabase.Valid, HistoryDatabase.Valid;
      txs := [];
      for position := 0 to |hashes|
        invariant |txs| == position
        invariant forall k :: 0 <= k < position ==>
                    && txs[k].hash == fs[k].tx.hash
                    && TxReread(txs[k], fs[k].tx, Marks(es + fs))
                    && Clean(txs[k]) == fs[k].tx == content(txs[k].hash)
      {
        HoldsRead(transactions.lookup, es, fs, position, content, height);
        var tx := transactions.Find(hashes[position], height, true);
        if tx.None? || tx.value.height != height || tx.value.position != position {
          return false, [];
        }
        txs := txs + [tx.value.tx];
      }
      ok := true;
    }

    /** Takes the transactions of the newest block back, the last one first. The
        rows deleted from the histories are, backwards, those of the block. */
    method PopTransactions(txs: seq<Tx>, height: nat, ghost es: seq<Entry>, ghost fs: seq<Entry>) returns (ok: bool)
      requires Ready()
      requires Consistent(es + fs) && forall e :: e in es + fs ==> e.height < NOT_SPENT
      requires Showing(Confirmed(es + fs), Marks(es + fs), {}, 0) && spends.lookup == SpendTable(es + fs, start)
      requires |txs| == |fs| && forall k :: 0 <= k < |fs| ==>
                 txs[k].hash == fs[k].tx.hash && Clean(txs[k]) == fs[k].tx && fs[k].height == height
      modifies TableParts()
      ensures ok && Ready() && Cached() == old(Cached())
      ensures Showing(Confirmed(es), Marks(es), {}, 0) && spends.lookup == SpendTable(es, start)
      ensures pool.lookup == Repooled(old(pool.lookup), txs)
      ensures Validated() == Reforked(old(Validated()), HashesIn(txs), unverified)
      ensures history.rows == PopItems(old(history.rows), Expand(fs, HistoryOf(start)))
    {
      hide Ready, Showing, Consistent, Confirmed, Marks, Clean, StackMaps.Push, Fits, SpendTable, PopItems, Expand, HistoryOf,
           Repooled, Apart;
      ghost var rows, g := history.rows, HistoryOf(start);
      var i := |txs|;
      assert fs[..i] == fs && txs[i..] == [];
      NoneReforked(Validated(), unverified);
      NoneRepooled(pool.lookup);
      while i > 0
        invariant 0 <= i <= |txs| && Ready() && Cached() == old(Cached())
        invariant Showing(Confirmed(es + fs[..i]), Marks(es + fs[..i]), {}, 0)
        invariant spends.lookup == SpendTable(es + fs[..i], start)
        invariant pool.lookup == Repooled(old(pool.lookup), txs[i..])
        invariant Validated() == Reforked(old(Validated()), HashesIn(txs[i..]), unverified)
        invariant PopItems(history.rows, Expand(fs[..i], g)) == PopItems(rows, Expand(fs, g))
      {
        i := i - 1;
        NextPopped(history.rows, old(pool.lookup), es, fs, txs, i, start);
        ReforkedStep(old(Validated()), txs, i, unverified);
        ok := PopTransaction(txs[i], height, es + fs[..i], fs[i]);
        if !ok {
          return false;
        }
      }
      assert es + fs[..0] == es && txs[0..] == txs && fs[..0] == [];
      NothingLeft(history.rows, g);
      ok := true;
    }

    /** Drops the newest block from the index, which completes the shorter chain. */
    method UnlinkBlock(height: nat) returns (ok: bool)
      requires Ready() && blocks.Valid() && BlocksHold(blocks.View(), blocks.Newest(), blocks.count, chain)
      requires chain != [] && height == |chain| - 1 && |log| == |chain|
      requires ValidChain(chain[..height]) && Holding(Now(), log[..height], chain[..height], start, content)
      modifies {this} + blocks.Repr()
      ensures ok && Valid() && chain == old(chain)[..height] && log == old(log)[..height]
      ensures Now() == old(Now()) && blocks.Newest() == old(blocks.Newest())
    {
      hide Ready, Holding, ValidChain, BlocksHold, Apart;
      hide BlockDatabase.Valid, BlockDatabase.View, BlockDatabase.Newest;
      PartsInclude();
      TopBlock(blocks.View(), blocks.Newest(), blocks.count, chain);
      ghost var view := blocks.View();
      ok := blocks.Unlink(height);
      if !ok {
        return false;
      }
      BlocksHoldPopped(view, blocks.View(), blocks.Newest(), chain);
      assert Ready() && Now() == old(Now());
      chain, log := chain[..height], log[..height];
    }

    /** Removes the top block and returns it. It fails on an empty chain only: no
        check for corruption can fail while the tables hold the chain. */
    method Pop() returns (ok: bool, out: Block)
      requires Valid()
      modifies Parts()
      ensures Valid()
      ensures ok <==> old(chain) != []
      ensures !ok ==> Untouched()
      ensures ok ==> chain == old(chain)[..|old(chain)| - 1] && Returned(out, old(chain), content)
      ensures ok ==> |old(log)| == |old(chain)| && log == old(log)[..|old(chain)| - 1]
      ensures ok ==> Beside() == Popped(old(Beside()), out, unverified)
      ensures ok ==> AllTakenBack([out])
      ensures ok ==> Cached() == old(Cached())
      ensures ok && old(transactions.Sound()) ==>
                (transactions.Sound() <==> NoneHeld(old(Cached()), old(chain)[|old(chain)| - 1]))
      ensures old(Ordered()) ==> Ordered()
    {
      hide Holding, Ready, ValidChain, BlocksHold, Flat, Clean, Repooled, InOrder, IsReread;
      hide BlockDatabase.Valid, BlockDatabase.View, BlockDatabase.Newest;
      out := Block(Header(NULL_HASH, NULL_HASH), []);
      TopBlock(blocks.View(), blocks.Newest(), blocks.count, chain);
      var top := blocks.Top();
      if top.None? {
        return false, out;
      }
      var slab := blocks.GetAt(top.value);
      if slab.None? {
        return false, out;
      }
      ok, out := PopSlab(slab.value, top.value);
    }

    /** Takes the transactions of the top slab back and drops its height. */
    method PopSlab(slab: BlockSlab, height: nat) returns (ok: bool, out: Block)
      requires Valid() && chain != [] && height == |chain| - 1 && slab == SlabOf(chain[height], height)
      modifies Parts()
      ensures ok && Valid() && chain == old(chain)[..height] && Returned(out, old(chain), content)
      ensures |old(log)| == height + 1 && log == old(log)[..height]
      ensures Beside() == Popped(old(Beside()), out, unverified) && Cached() == old(Cached())
      ensures AllTakenBack([out])
      ensures old(transactions.Sound()) ==> (transactions.Sound() <==> NoneHeld(old(Cached()), old(chain)[height]))
      ensures old(Ordered()) ==> Ordered()
    {
      hide Holding, Ready, ValidChain, BlocksHold, Flat, Clean, Repooled, InOrder, Shows, Confirmed, Marks, SpendTable,
           Consistent, PopItems, Expand, HistoryOf, Returned, TxReread, Parts, NoneHeld, Reforked, CacheAgrees;
      hide BlockDatabase.Valid, BlockDatabase.View, BlockDatabase.Newest;
      PartsInclude();
      ghost var before := Now();
      ghost var es, fs := Flat(chain[..height]), BlockEntries(chain[height], height);
      BeforePop(before, log, chain, start, content);
      out := Block(Header(NULL_HASH, NULL_HASH), []);
      var txs;
      ok, txs := ReadTransactions(slab.txHashes, height, es, fs);
      if !ok {
        return false, out;
      }
      ok := PopTransactions(txs, height, es, fs);
      if !ok {
        return false, out;
      }
      AfterPop(before, Now(), log, chain, start, content);
      BlockReturned(chain, slab, txs, content);
      ok := UnlinkBlock(height);
      if !ok {
        return false, out;
      }
      out := Block(slab.header, txs);
      CacheAfterPop(Cached(), before, old(log), old(chain), Now(), log, out, start, content);
      OnePopped(old(Beside()), out, old(chain), content, unverified);
      PoppedTakenBack(old(Beside()), [out]);
    }

    // ---------------------------------------------------------- asynchronous writers

    /** Pushes blocks in order, each with its workers, up to the first that is
        refused. */
    method PushAll(incoming: seq<Block>, first: nat, threads: nat, schedule: Schedule)
      returns (code: Code, ghost pushed: nat)
      requires Valid() && threads > 0 && Fair(schedule)
      requires Admissible(chain, incoming, first, content)
      modifies Parts()
      ensures Valid()
      ensures Appended(old(chain), incoming, first, chain, code, pushed) && pushed <= |incoming|
      ensures Beside() == AllPushed(old(Beside()), incoming[..pushed], first)
      ensures pushed < |incoming| ==> AnswersPush(code, chain, incoming[pushed], first + pushed)
      ensures Pushable(old(chain), incoming, content) && first == |old(chain)| ==> code == Success
      ensures old(Ordered()) && AllKeepOrder(incoming[..pushed], first, threads, start) ==> Ordered()
      ensures old(transactions.Sound()) && NothingSpent(incoming) ==> transactions.Sound()
    {
      hide Valid, Ordered, VerifyCode, WellFormed, CleanBlock, Unpooled, AllKeepOrder, Fair, TransactionDatabase.Sound,
           Beside, Pushed, AllPushed, Pushable, AllUnspent, NothingSpent, Admissible, Accepted, Appended,
           MergedRows, KeepsOrder, Parts;
      ghost var whole := Pushable(chain, incoming, content) && first == |chain|;
      ghost var sound := transactions.Sound() && NothingSpent(incoming);
      ghost var was, sides, ordered := chain, Beside(), Ordered();
      pushed := 0;
      NothingPushed(was, incoming, sides, first);
      for index := 0 to |incoming|
        invariant Valid() && pushed == index
        invariant chain == was + CleanBlocks(incoming[..index]) && Accepted(was, incoming, first, index)
        invariant Beside() == AllPushed(sides, incoming[..index], first)
        invariant Admissible(chain, incoming[index..], first + index, content)
        invariant whole ==> Pushable(chain, incoming[index..], content) && |chain| == first + index
        invariant ordered && AllKeepOrder(incoming[..index], first, threads, start) ==> Ordered()
        invariant sound ==> transactions.Sound()
      {
        NextPushed(was, sides, incoming, index, first, content);
        OrderStep(incoming, index, first, threads, start);
        label before:
        code := DoPush(incoming[index], first + index, threads, schedule);
        VerifyAnswers(was + CleanBlocks(incoming[..index]), incoming[index], first + index);
        if code != Success {
          Unmoved@before();
          Refused(was, incoming, first, index);
          return;
        }
        pushed := pushed + 1;
      }
      AllAccepted(was, incoming, first);
      code := Success;
    }

    /** The height of the block that a lookup of a hash finds, be it on the chain or
        left behind by a pop. */
    ghost function Known(hash: Hash): Option<nat>
      requires Valid()
      reads Parts()
    {
      HeightOf(blocks.Newest(), hash)
    }

    lemma {:induction false} KnownBeside(hash: Hash)
      requires Valid()
      ensures Known(hash) == HeightOf(Beside().newest, hash)
    {
    }

    /** Pops every block above the height that the given hash was stored at, and
        returns them in ascending order, fit to be pushed again. The source does
        not ask whether the hash is on the chain: the top that is left has the
        hash if and only if it was. */
    method PopAbove(forkHash: Hash) returns (code: Code, out: seq<Block>)
      requires Valid()
      modifies Parts()
      ensures Valid()
      ensures code == PopCode(old(Known(forkHash)), old(chain))
      ensures code != Success ==> Untouched()
      ensures code == Success ==>
                && chain == UpTo(old(chain), old(Known(forkHash)))
                && CleanBlocks(out) == Above(old(chain), old(Known(forkHash)))
                && (TopHash(chain) == Some(forkHash) <==> OnChain(old(chain), forkHash))
      ensures AnswersPop(code, old(Beside()).newest, forkHash, old(chain), chain, CleanBlocks(out))
      ensures code == Success ==> Beside() == AllPopped(old(Beside()), out, unverified) && AllTakenBack(out)
      ensures forall f :: 0 <= f < |old(chain)| && old(chain)[f].header.hash == forkHash ==>
                code == Success && old(Known(forkHash)) == Some(f)
      ensures Pushable(chain, out, content)
      ensures old(Ordered()) ==> Ordered()
      ensures old(transactions.Sound()) ==>
                (transactions.Sound() <==>
                 forall k :: |chain| <= k < |old(chain)| ==> NoneHeld(old(Cached()), old(chain)[k]))
    {
      hide Holding, Ready, ValidChain, CleanBlock, Pushable, OnChain, InOrder, UpTo, Above, TopHash, AllPopped, CacheAgrees,
           NoneHeld, BlocksHold;
      hide BlockDatabase.Valid, BlockDatabase.View, BlockDatabase.Newest;
      out := [];
      NothingPushable(chain, content);
      ForkBlock(blocks.View(), blocks.Newest(), blocks.count, chain, forkHash);
      PopAnswers(blocks.Newest(), forkHash, chain);
      var result := blocks.GetByHash(forkHash);
      var top := blocks.Top();
      if result.None? || top.None? {
        return OperationFailed, out;
      }
      var fork := result.value.height;
      if fork > top.value {
        // The difference wraps, and no vector can reserve so much.
        return LengthError, out;
      }
      ghost var was := chain;
      var ok;
      ok, out := PopTo(fork, top.value);
      if !ok {
        return OperationFailed, out;
      }
      PoppedTo(was, fork, chain, CleanBlocks(out), forkHash);
      code := Success;
    }

    /** The loop of it: pops down to a height. */
    method PopTo(fork: nat, top: nat) returns (ok: bool, out: seq<Block>)
      requires Valid() && fork <= top == |chain| - 1
      modifies Parts()
      ensures ok && Valid()
      ensures chain == old(chain)[..fork + 1] && CleanBlocks(out) == old(chain)[fork + 1..]
      ensures Pushable(chain, out, content)
      ensures Beside() == AllPopped(old(Beside()), out, unverified) && AllTakenBack(out)
      ensures old(Ordered()) ==> Ordered()
      ensures old(transactions.Sound()) ==>
                (transactions.Sound() <==>
                 forall k :: fork < k < |old(chain)| ==> NoneHeld(old(Cached()), old(chain)[k]))
    {
      hide Valid, Ordered, ValidChain, Holding, CleanBlock, Pushable, Returned, Popped, AllPopped, CacheAgrees, NoneHeld,
           Beside, Parts, TakenBack;
      ghost var was, sides, before, log0 := chain, Beside(), Now(), log;
      HoldsChain();
      out := [];
      NothingPushable(chain, content);
      NothingPopped(sides, unverified);
      assert chain[..|chain|] == chain;
      var height := top;
      while height > fork
        invariant fork <= height == |chain| - 1 < |was|
        invariant Valid() && chain == was[..height + 1]
        invariant CleanBlocks(out) == was[height + 1..]
        invariant Beside() == AllPopped(sides, out, unverified) && Cached() == old(Cached())
        invariant Pushable(chain, out, content)
        invariant old(Ordered()) ==> Ordered()
      {
        ghost var longer := chain;
        HoldsChain();
        var next;
        ok, next := Pop();
        if !ok {
          return false, out;
        }
        PushableAgain(was, height, longer, next, out, content);
        AllPoppedStep(sides, next, out, unverified);
        out := [next] + out;
        height := height - 1;
      }
      HoldsChain();
      PushableContent(chain, out, content);
      PoppedTakenBack(sides, out);
      CacheAfterAll(Cached(), before, log0, was, Now(), log, height + 1, sides, out, unverified, start, content);
      ok := true;
    }

    lemma {:induction false} HoldsChain()
      requires Valid()
      ensures ValidChain(chain) && Holding(Now(), log, chain, start, content)
      ensures Beside().pool == Now().pool
    {
    }

    /** Replaces everything above the fork point by the incoming blocks. */
    method Reorganize(forkHash: Hash, forkHeight: nat, incoming: seq<Block>, threads: nat, schedule: Schedule)
      returns (code: Code, outgoing: seq<Block>, ghost pushed: nat)
      requires Valid() && threads > 0 && Fair(schedule)
      requires PopCode(Known(forkHash), chain) == Success ==>
                 Admissible(UpTo(chain, Known(forkHash)), incoming, forkHeight + 1, content)
      modifies Parts()
      ensures Valid()
      ensures PopCode(old(Known(forkHash)), old(chain)) != Success ==>
                code == PopCode(old(Known(forkHash)), old(chain)) && Untouched()
      ensures PopCode(old(Known(forkHash)), old(chain)) == Success ==>
                && CleanBlocks(outgoing) == Above(old(chain), old(Known(forkHash)))
                && Appended(UpTo(old(chain), old(Known(forkHash))), incoming, forkHeight + 1, chain, code, pushed)
                && pushed <= |incoming|
                && Beside() == AllPushed(AllPopped(old(Beside()), outgoing, unverified), incoming[..pushed], forkHeight + 1)
                && (old(Ordered()) && AllKeepOrder(incoming[..pushed], forkHeight + 1, threads, start) ==> Ordered())
                && (old(transactions.Sound()) && NothingSpent(incoming) &&
                    (forall k :: |UpTo(old(chain), old(Known(forkHash)))| <= k < |old(chain)| ==>
                       NoneHeld(old(Cached()), old(chain)[k]))
                    ==> transactions.Sound())
    {
      hide Valid, InOrder, VerifyCode, WellFormed, CleanBlock, Admissible, Pushable, OnChain, Fair, Known, AllKeepOrder, UpTo,
           Above, PopCode, TopHash, Beside, AllPushed, AllPopped, NoneHeld, Appended;
      pushed := 0;
      code, outgoing := PopAbove(forkHash);
      if code != Success {
        return;
      }
      code, pushed := PushAll(incoming, forkHeight + 1, threads, schedule);
    }

    // -------------------------------------------------------------- there and back

    /** Popping a block that was just pushed, by however many workers, restores
        every view but the pool's, which gains exactly the block's transactions. */
    method PushThenPop(b: Block, height: nat, threads: nat, schedule: Schedule) returns (out: Block)
      requires Valid() && threads > 0 && Fair(schedule)
      requires VerifyCode(chain, b, height) == Success && WellFormed(chain, b, content)
      modifies Parts()
      ensures Valid() && chain == old(chain)
      ensures CleanBlock(out) == CleanBlock(b)
      ensures SameViews(old(Now()), Now()) && history.rows == old(history.rows)
      ensures forall h :: (forall i :: 0 <= i < |out.txs| ==> out.txs[i].hash != h) ==>
                Stack(pool.lookup, h) == old(Stack(pool.lookup, h))
      ensures forall i :: 0 <= i < |out.txs| ==> Stack(pool.lookup, out.txs[i].hash) == [out.txs[i]]
      ensures AllTakenBack([out])
    {
      hide Holding, Ready, BlocksHold, InOrder, ValidChain, VerifyCode, WellFormed, CleanBlock, Unpooled, Repooled,
           Returned, SameViews, Stack, Fair, KeepsOrder, BlockEntries;
      hide BlockDatabase.Valid, BlockDatabase.View, BlockDatabase.Newest, TransactionDatabase.Sound;
      ghost var before, was, log0 := Now(), chain, log;
      LogLength(before, log, chain, start, content);
      VerifiedHeight(chain, b, height);
      var code := DoPush(b, height, threads, schedule);
      assert chain[..|chain| - 1] == was;
      ghost var longer := chain;
      var ok;
      ok, out := Pop();
      SameHolding(before, log0, Now(), log, was, start, content);
      BackAgain(before, log0, was, b, out, start, content);
    }

    /** Popping to a fork on the chain and pushing the returned blocks again, with
        any workers, restores the chain, the confirmed slabs, the spends and, up to
        the order within a block, the histories; and their order too if it was the
        chain's and the workers keep it. */
    method AwayAndBack(forkHash: Hash, threads: nat, schedule: Schedule)
      requires Valid() && OnChain(chain, forkHash) && threads > 0 && Fair(schedule)
      modifies Parts()
      ensures Valid() && chain == old(chain)
      ensures SameViews(old(Now()), Now())
      ensures old(Ordered()) && AllKeepOrder(old(chain), 0, threads, start) ==> history.rows == old(history.rows)
    {
      hide Ready, Holding, BlocksHold, ValidChain, VerifyCode, WellFormed, CleanBlock, Pushable, Admissible, AllKeepOrder,
           SameViews, Fair, Flat, InOrder, Known, PopCode, Parts, Beside, NoneHeld, AllPopped, AllPushed, NothingSpent;
      hide BlockDatabase.Valid, BlockDatabase.View, BlockDatabase.Newest, TransactionDatabase.Sound;
      ghost var before, was, log0 := Now(), chain, log;
      ghost var f :| 0 <= f < |chain| && chain[f].header.hash == forkHash;
      var code, out := PopAbove(forkHash);
      PushableAdmissible(chain, out, content);
      ForkBlock(blocks.View(), blocks.Newest(), blocks.count, chain, forkHash);
      OrderAgain(was, f, out, threads, start);
      ghost var pushed;
      code, pushed := PushAll(out, blocks.count, threads, schedule);
      assert out[..|out|] == out;
      assert was[..f + 1] + was[f + 1..] == was;
      SameHolding(before, log0, Now(), log, was, start, content);
    }
  }

  /** Tables that share nothing. */
  ghost predicate Apart(blocks: BlockDatabase, transactions: TransactionDatabase, pool: UnconfirmedDatabase,
                        spends: SpendDatabase, history: HistoryDatabase)
  {
    && blocks.Repr() !! transactions.Repr() + pool.Repr() + spends.Repr() + history.Repr()
    && transactions.Repr() !! pool.Repr() + spends.Repr() + history.Repr()
    && pool.Repr() !! spends.Repr() + history.Repr()
    && spends.Repr() !! history.Repr()
  }

  method NewIndexes(layout: Layout)
    returns (pool: UnconfirmedDatabase, spends: SpendDatabase, history: HistoryDatabase)
    requires layout.buckets > 0
    ensures fresh(pool.Repr()) && fresh(spends.Repr()) && fresh(history.Repr())
    ensures pool.Repr() !! spends.Repr() + history.Repr() && spends.Repr() !! history.Repr()
    ensures pool.Valid() && pool.lookup == map[] && spends.Valid() && spends.lookup == map[]
    ensures history.Valid() && history.rows == map[]
  {
    hide UnconfirmedDatabase.Valid, SpendDatabase.Valid, HistoryDatabase.Valid;
    pool := new UnconfirmedDatabase(layout.buckets, layout.ofHash);
    spends := new SpendDatabase(layout.buckets, layout.ofPoint);
    history := new HistoryDatabase(layout.buckets, layout.ofAddress);
  }

  /** New tables. */
  method NewTables(capacity: nat, layout: Layout)
    returns (blocks: BlockDatabase, transactions: TransactionDatabase, pool: UnconfirmedDatabase, spends: SpendDatabase,
             history: HistoryDatabase)
    requires layout.buckets > 0
    ensures fresh(blocks.Repr()) && fresh(transactions.Repr()) && fresh(pool.Repr()) && fresh(spends.Repr())
    ensures fresh(history.Repr()) && Apart(blocks, transactions, pool, spends, history)
    ensures blocks.Valid() && blocks.View() == map[] && blocks.Newest() == map[] && blocks.count == 0
    ensures transactions.Valid() && transactions.Sound() && transactions.lookup == map[]
    ensures pool.Valid() && pool.lookup == map[] && spends.Valid() && spends.lookup == map[]
    ensures history.Valid() && history.rows == map[]
  {
    hide BlockDatabase.Valid, BlockDatabase.View, BlockDatabase.Newest, TransactionDatabase.Valid;
    hide UnconfirmedDatabase.Valid, SpendDatabase.Valid, HistoryDatabase.Valid, TransactionDatabase.Sound;
    blocks := new BlockDatabase(layout.buckets, layout.ofHash);
    transactions := new TransactionDatabase(capacity, layout.buckets, layout.ofHash);
    pool, spends, history := NewIndexes(layout);
  }

  /** An empty store. */
  method NewStore(start: nat, unverified: nat, capacity: nat, layout: Layout, ghost content: Hash -> Tx)
    returns (db: DataBase)
    requires layout.buckets > 0
    ensures fresh(db) && fresh(db.Parts()) && db.Valid() && db.Ordered() && db.transactions.Sound()
    ensures db.chain == [] && db.start == start && db.unverified == unverified && db.content == content
    ensures db.Beside() == Sides(map[], map[], map[])
  {
    hide DataBase.Ordered, TransactionDatabase.Sound, DataBase.Ready, Holding, ValidChain, BlocksHold, Apart;
    hide BlockDatabase.Valid, BlockDatabase.View, BlockDatabase.Newest, TransactionDatabase.Valid;
    hide UnconfirmedDatabase.Valid, SpendDatabase.Valid, HistoryDatabase.Valid;
    var blocks, transactions, pool, spends, history := NewTables(capacity, layout);
    db := new DataBase(blocks, transactions, pool, spends, history, start, unverified, content);
  }

  /** One input taken back: its output is unspent again, and if its height is indexed
      its spend and its address's last row are gone. */
  function InputTaken(s: TableState, input: Input, height: nat, start: nat): TableState
    requires Spendable(s.slabs, input.prev, NOT_SPENT)
  {
    var unspent := s.(slabs := WithSpender(s.slabs, input.prev, NOT_SPENT));
    if height < start then unspent
    else
      unspent.(spends := StackMaps.Pop(s.spends, input.prev),
               rows := if input.address.None? then s.rows else StackMaps.Pop(s.rows, input.address.value))
  }

  /** The rows that the workers of a block write, in the order of the schedule. */
  function MergedRows(b: Block, height: nat, threads: nat, schedule: Schedule, start: nat): Rows {
    if Buckets(threads, b) == 0 then [] else PartsOf(schedule(Programs(b, height, Buckets(threads, b), start))).rows
  }

  /** The rows are those of one worker for each thread, but of no more workers than
      transactions. */
  lemma {:induction false} WorkersRows(b: Block, height: nat, threads: nat, schedule: Schedule, start: nat)
    requires threads > 0 && |b.txs| > 0
    ensures var workers := if threads < |b.txs| then threads else |b.txs|;
            MergedRows(b, height, threads, schedule, start) == PartsOf(schedule(Programs(b, height, workers, start))).rows
  {
    FewestWorkers(threads, b);
  }

  lemma {:induction false} VerifiedHeight(chain: seq<Block>, b: Block, height: nat)
    requires VerifyCode(chain, b, height) == Success
    ensures height == |chain| && |b.txs| > 0
  {
  }

  lemma {:induction false} NothingPerformed(s: TableState)
    ensures PerformAll(s, []) == s
  {
  }

  lemma {:induction false} NothingExpanded(s: TableState, g: Entry -> seq<Write>)
    ensures PerformAll(s, Expand([], g)) == s
  {
  }

  lemma {:induction false} EmptyStore(content: Hash -> Tx, start: nat)
    ensures Flat([]) == []
    ensures Shows(map[], map[], Confirmed([]), Marks([]), {}, 0, content)
    ensures map[] == SpendTable([], start)
    ensures Logged(map[], [], [], start) && InOrder(map[], [], start)
    ensures BlocksHold(map[], map[], 0, [])
    ensures ValidChain([])
  {
    LoggedNothing(start);
  }
}
