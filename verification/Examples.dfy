/** A small chain that meets every assumption made about blocks, with an output
    that is created and spent in the same block. */
module Examples {
  import opened Wrappers
  import opened ChainTypes
  import opened ChainModel
  import opened ChainState
  import opened StackMaps
  import opened TransactionTable
  import opened Tables
  import opened Interleavings
  import opened TableWrites
  import opened ParallelPush
  import opened HistoryOrders
  import opened HistoryLogs
  import HashTables
  import opened TransactionDatabases
  import opened UnspentOutputsCache
  import opened BlockDatabases
  import opened PushSteps
  import opened PopSteps
  import opened Reorganizations
  import opened DataBases
  import opened Runs

  function Out(address: Address): Output {
    Output(NOT_SPENT, 50, Some(address))
  }

  function Coinbase(hash: Hash): Tx {
    Tx(hash, true, [], [Out(7)], false)
  }

  function Spender(hash: Hash, prev: Hash): Tx {
    Tx(hash, false, [Input(Point(prev, 0), Some(7))], [Out(8)], false)
  }

  const FIRST: Block := Block(Header(1, NULL_HASH), [Coinbase(10)])
  /** Its third transaction spends its second. */
  const SECOND: Block := Block(Header(2, 1), [Coinbase(11), Spender(12, 10), Spender(13, 12)])

  function Content(h: Hash): Tx {
    if h == 12 then Spender(12, 10) else if h == 13 then Spender(13, 12) else Coinbase(h)
  }

  lemma {:induction false} CleanAlready(tx: Tx)
    requires !tx.pooled && forall i :: 0 <= i < |tx.outputs| ==> tx.outputs[i].spender == NOT_SPENT
    ensures Clean(tx) == tx
  {
    assert CleanOutputs(tx.outputs) == tx.outputs;
  }

  lemma {:induction false} CleanBlockAlready(b: Block)
    requires forall i :: 0 <= i < |b.txs| ==> Clean(b.txs[i]) == b.txs[i]
    ensures CleanBlock(b) == b
  {
    assert CleanBlock(b).txs == b.txs;
  }

  lemma {:induction false} ExampleClean()
    ensures CleanBlock(FIRST) == FIRST && CleanBlock(SECOND) == SECOND
  {
    CleanAlready(Coinbase(10));
    CleanAlready(Coinbase(11));
    CleanAlready(Spender(12, 10));
    CleanAlready(Spender(13, 12));
    CleanBlockAlready(FIRST);
    CleanBlockAlready(SECOND);
  }

  /** The four transactions in order. */
  function Entries(): seq<Entry> {
    [Entry(0, 0, Coinbase(10)), Entry(1, 0, Coinbase(11)), Entry(1, 1, Spender(12, 10)), Entry(1, 2, Spender(13, 12))]
  }

  lemma {:induction false} AddCoinbase(es: seq<Entry>, height: nat, hash: Hash)
    requires Consistent(es) && hash !in Confirmed(es)
    ensures var e := Entry(height, 0, Coinbase(hash));
            && Consistent(es + [e]) && Marks(es + [e]) == Marks(es)
            && Confirmed(es + [e]) == Confirmed(es)[hash := e]
  {
    var e := Entry(height, 0, Coinbase(hash));
    CleanAlready(e.tx);
    Append(es, e, 0);
    NoMarks(Marks(es), e);
  }

  lemma {:induction false} AddSpender(es: seq<Entry>, position: nat, hash: Hash, prev: Hash)
    requires Consistent(es) && position > 0 && hash !in Confirmed(es)
    requires prev in Confirmed(es) && Confirmed(es)[prev].tx.outputs != [] && Point(prev, 0) !in Marks(es)
    ensures var e := Entry(1, position, Spender(hash, prev));
            && Consistent(es + [e]) && Marks(es + [e]) == Marks(es)[Point(prev, 0) := 1]
            && Confirmed(es + [e]) == Confirmed(es)[hash := e]
  {
    var e := Entry(1, position, Spender(hash, prev));
    CleanAlready(e.tx);
    Append(es, e, 0);
    NoMarks(Marks(es), e);
    MarkStep(Marks(es), e, 0);
    assert SpendFits(es, e, 0);
  }

  lemma {:induction false} ExampleConsistent()
    ensures Consistent(Entries())
    ensures Marks(Entries()) == map[Point(10, 0) := 1, Point(12, 0) := 1]
  {
    var es := Entries();
    assert Confirmed([]) == map[] && Marks([]) == map[] && Consistent([]);
    hide Confirmed, Marks, Consistent;
    AddCoinbase([], 0, 10);
    assert [] + [es[0]] == [es[0]];
    AddCoinbase([es[0]], 1, 11);
    assert [es[0]] + [es[1]] == [es[0], es[1]];
    AddSpender([es[0], es[1]], 1, 12, 10);
    assert [es[0], es[1]] + [es[2]] == [es[0], es[1], es[2]];
    AddSpender([es[0], es[1], es[2]], 2, 13, 12);
    assert [es[0], es[1], es[2]] + [es[3]] == es;
  }

  /** The second block as the store returns it: the output that is spent inside
      the block carries the block's height. */
  const RETURNED: Block :=
    Block(SECOND.header, [Coinbase(11), Spender(12, 10).(outputs := [Out(8).(spender := 1)]), Spender(13, 12)])

  lemma {:induction false} ReturnedClean()
    ensures CleanBlock(RETURNED) == SECOND
  {
    ExampleClean();
    assert Clean(RETURNED.txs[1]) == Spender(12, 10) by {
      assert CleanOutputs(RETURNED.txs[1].outputs) == [Out(8)];
    }
    CleanAlready(Coinbase(11));
    CleanAlready(Spender(13, 12));
    assert CleanBlock(RETURNED).txs == SECOND.txs;
  }

  lemma {:induction false} ExampleFlat()
    ensures Flat([FIRST]) == Entries()[..1] && Flat([FIRST, SECOND]) == Entries()
  {
    FlatAppend([], FIRST);
    FlatAppend([FIRST], SECOND);
    assert [] + [FIRST] == [FIRST] && [FIRST] + [SECOND] == [FIRST, SECOND];
    assert Flat([FIRST]) == Entries()[..1];
    assert BlockEntries(SECOND, 1) == Entries()[1..];
  }

  lemma {:induction false} ExampleWellFormed()
    ensures WellFormed([], FIRST, Content)
    ensures WellFormed([FIRST], SECOND, Content)
    ensures WellFormed([FIRST], RETURNED, Content)
  {
    ExampleClean();
    ReturnedClean();
    ExampleFlat();
    ExampleConsistent();
    WithFlat([], FIRST);
    WithFlat([FIRST], SECOND);
    assert [] + [FIRST] == [FIRST] && [FIRST] + [SECOND] == [FIRST, SECOND];
    assert With([FIRST], RETURNED) == With([FIRST], SECOND) == Entries();
    ConsistentPrefix(Entries(), 1);
    assert CleanBlock(FIRST).txs[0] == Clean(Coinbase(10));
    forall i | 0 <= i < 3
      ensures Clean(SECOND.txs[i]) == Content(SECOND.txs[i].hash) == Clean(RETURNED.txs[i])
    {
      assert CleanBlock(SECOND).txs[i] == Clean(SECOND.txs[i]);
      assert CleanBlock(RETURNED).txs[i] == Clean(RETURNED.txs[i]);
    }
    assert Point(12, 0) in Marks(With([FIRST], RETURNED));
  }

  const THERE_AND_BACK: seq<Operation> :=
    [PushBlock(FIRST, 0), PushBlock(SECOND, 1), PopBlock, PushBlock(RETURNED, 1)]

  /** The chains that these operations lead through. */
  lemma {:induction false} ExampleSteps()
    ensures var none := Ledger([], map[], map[], 0);
            && AfterAll(none, THERE_AND_BACK[..0]).chain == []
            && AfterAll(none, THERE_AND_BACK[..1]).chain == [FIRST]
            && AfterAll(none, THERE_AND_BACK[..2]).chain == [FIRST, SECOND]
            && AfterAll(none, THERE_AND_BACK[..3]).chain == [FIRST]
            && AfterAll(none, THERE_AND_BACK).chain == [FIRST, SECOND]
  {
    var ops, none := THERE_AND_BACK, Ledger([], map[], map[], 0);
    ExampleClean();
    ReturnedClean();
    hide CleanBlock, After;
    assert ops[..0] == [] && ops[..1][..0] == [] && ops[..2][..1] == ops[..1];
    assert ops[..3][..2] == ops[..2] && ops[..4] == ops && ops[..4][..3] == ops[..3];
    assert AfterAll(none, ops[..0]) == none;
    var m1 := After(none, ops[0]);
    PushedLedger(none, FIRST, 0);
    assert AfterAll(none, ops[..1]) == m1 && m1.chain == [FIRST];
    var m2 := After(m1, ops[1]);
    PushedLedger(m1, SECOND, 1);
    assert AfterAll(none, ops[..2]) == m2 && m2.chain == [FIRST, SECOND];
    var m3 := After(m2, ops[2]);
    PoppedLedger(m2);
    assert AfterAll(none, ops[..3]) == m3 && m3.chain == [FIRST];
    PushedLedger(m3, RETURNED, 1);
    assert AfterAll(none, ops[..4]) == After(m3, ops[3]);
  }

  /** The assumptions about runs are met by pushing both blocks, popping the
      second and pushing what came back. */
  lemma {:induction false} ExampleAllowed()
    ensures AllAllowed(Ledger([], map[], map[], 0), THERE_AND_BACK, Content)
    ensures AfterAll(Ledger([], map[], map[], 0), THERE_AND_BACK).chain == [FIRST, SECOND]
    ensures forall i :: 0 <= i < |THERE_AND_BACK| ==> Orderly(THERE_AND_BACK[i], 0)
  {
    ExampleWellFormed();
    ExampleSteps();
    hide WellFormed, CleanBlock, AfterAll, Runs.Accepted;
    var ops, none := THERE_AND_BACK, Ledger([], map[], map[], 0);
    forall i | 0 <= i < |ops| ensures Allowed(AfterAll(none, ops[..i]), ops[i], Content) {
      assert i == 0 || i == 1 || i == 2 || i == 3;
    }
  }

  lemma {:induction false} PushedLedger(m: Ledger, b: Block, height: nat)
    requires VerifyCode(m.chain, b, height) == Success
    ensures After(m, PushBlock(b, height)).chain == m.chain + [CleanBlock(b)]
  {
  }

  lemma {:induction false} PoppedLedger(m: Ledger)
    requires m.chain != []
    ensures After(m, PopBlock).chain == m.chain[..|m.chain| - 1]
  {
  }

  const LAYOUT: Layout := Layout(7, h => h, (p: Point) => p.hash + p.index, a => a)

  /** A new store that has gone through this run. */
  method ExampleStore() returns (db: DataBase)
    ensures fresh(db) && fresh(db.Parts()) && db.Valid() && db.Ordered()
    ensures db.chain == [FIRST, SECOND] && db.start == 0 && db.content == Content
  {
    hide AllAllowed, AfterAll, DataBase.Valid, DataBase.Ordered, TransactionDatabase.Sound, Orderly, Answered, Onward;
    ExampleAllowed();
    db := NewStore(0, 0, 10, LAYOUT, Content);
    var done := Run(db, THERE_AND_BACK);
  }

  /** All workers one after the other, the last of them first. */
  function LastFirst(workers: seq<seq<Write>>): seq<Write> {
    InTurn(workers, |workers|)
  }

  lemma {:induction false} LastFirstFair()
    ensures Fair(LastFirst)
  {
    forall workers: seq<seq<Write>> ensures Interleaves(workers, LastFirst(workers)) {
      InTurnInterleaves(workers, |workers|);
    }
  }

  /** ... and that goes to the first block and back with two workers. */
  method ExampleThereAndBack() returns (db: DataBase)
    ensures db.Valid() && db.chain == [FIRST, SECOND]
  {
    hide DataBase.Valid, DataBase.Ordered, AllKeepOrder, SameViews, Fair;
    db := ExampleStore();
    assert db.chain[0].header.hash == 1;
    LastFirstFair();
    db.AwayAndBack(1, 2, LastFirst);
  }

  // ------------------------------------------------- a fork hash that is off the chain

  /** The hash of the second block is known at its height. */
  lemma {:induction false} SecondKnown(db: DataBase)
    requires db.Valid() && db.chain == [FIRST, SECOND]
    ensures HeightOf(db.Beside().newest, 2) == Some(1)
  {
    hide DataBase.Ready, Holding, ValidChain, BlocksHold, BlockDatabase.Valid, BlockDatabase.View, BlockDatabase.Newest;
    ForkBlock(db.blocks.View(), db.blocks.Newest(), db.blocks.count, db.chain, 2);
    assert db.chain[1].header.hash == 2;
  }

  /** A popped block is still found by its hash. */
  method PoppedStore() returns (db: DataBase)
    ensures fresh(db) && fresh(db.Parts()) && db.Valid() && db.chain == [FIRST] && db.content == Content
    ensures db.Known(2) == Some(1)
  {
    hide DataBase.Valid, DataBase.Ordered, DataBase.Beside, Returned, NoneHeld, Repooled, HeightOf,
         TransactionDatabase.Sound, DataBase.Parts;
    db := ExampleStore();
    SecondKnown(db);
    var ok, popped := db.Pop();
    assert db.chain == [FIRST];
    db.KnownBeside(2);
  }

  /** Its height is above the top. */
  method ForkAboveTop() returns (db: DataBase, code: Code)
    ensures db.Valid() && db.chain == [FIRST] && code == LengthError
  {
    hide DataBase.Valid, DataBase.Ordered, DataBase.Beside, DataBase.Known, NoneHeld, Pushable, DataBase.Parts,
         TransactionDatabase.Sound, OnChain, CleanBlocks, AllPopped;
    db := PoppedStore();
    var out;
    label before:
    code, out := db.PopAbove(2);
    db.Unmoved@before();
  }

  /** Another block at the height of the second. */
  const THIRD: Block := Block(Header(3, 1), [Coinbase(21)])

  lemma {:induction false} ThirdFits()
    ensures VerifyCode([FIRST], THIRD, 1) == Success && WellFormed([FIRST], THIRD, Content)
    ensures CleanBlock(THIRD) == THIRD
  {
    CleanAlready(Coinbase(10));
    CleanAlready(Coinbase(21));
    CleanBlockAlready(FIRST);
    CleanBlockAlready(THIRD);
    ExampleFlat();
    ExampleConsistent();
    ConsistentPrefix(Entries(), 1);
    AddCoinbase(Entries()[..1], 1, 21);
    assert Entries()[..1][..0] == [];
    assert BlockEntries(THIRD, 1) == [Entry(1, 0, Coinbase(21))];
    assert CleanBlock(THIRD).txs[0] == Clean(THIRD.txs[0]);
  }

  method ReplacedStore() returns (db: DataBase)
    ensures fresh(db) && fresh(db.Parts()) && db.Valid() && db.chain == [FIRST, THIRD]
    ensures db.Known(2) == Some(1)
  {
    hide DataBase.Valid, DataBase.Ordered, DataBase.Beside, DataBase.Known, Unpooled, SlabOf, Found, DataBase.Parts,
         WellFormed, VerifyCode, CleanBlock, TransactionDatabase.Sound, AllUnspent;
    db := PoppedStore();
    ThirdFits();
    db.KnownBeside(2);
    FoundOther(db.Beside().newest, THIRD, 1, 2);
    var code := db.Push(THIRD, 1);
    assert db.chain == [FIRST, THIRD];
    db.KnownBeside(2);
  }

  lemma {:induction false} FoundOther(newest: map<Hash, BlockSlab>, b: Block, height: nat, hash: Hash)
    requires b.header.hash != hash
    ensures HeightOf(Found(newest, b, height), hash) == HeightOf(newest, hash)
  {
  }

  /** ... or the height of another block: nothing is popped, and the top that is left
      has another hash. */
  method ForkReplaced() returns (db: DataBase, code: Code, out: seq<Block>)
    ensures db.Valid() && db.chain == [FIRST, THIRD]
    ensures code == Success && out == [] && TopHash(db.chain) == Some(3)
  {
    hide DataBase.Valid, DataBase.Ordered, DataBase.Beside, DataBase.Known, NoneHeld, Pushable, DataBase.Parts,
         TransactionDatabase.Sound, OnChain, AllPopped;
    db := ReplacedStore();
    code, out := db.PopAbove(2);
  }

  // ------------------------------------------------------ a hash that is confirmed

  lemma {:induction false} FirstConfirmed()
    ensures 10 in Confirmed(Flat([FIRST, SECOND]))
    ensures Clean(Coinbase(10)) == Content(10) && Unspent(Coinbase(10))
    ensures Mark(Marks(Flat([FIRST, SECOND])), Point(10, 0)) == 1
  {
    ExampleFlat();
    ExampleConsistent();
    CleanAlready(Coinbase(10));
    assert [] + Entries() == Entries();
    ConfirmedAt([], Entries(), 0);
  }

  /** The only output of the first coinbase is spent, so a pool push of its hash is
      accepted; but the chain has confirmed it, and the store no longer holds the
      chain. */
  method AcceptedAndBroken() returns (db: DataBase, code: Code)
    ensures code == Success && db.chain == [FIRST, SECOND] && !db.Valid()
  {
    hide Confirmed, Flat, Marks, Clean, DataBase.Ready, ValidChain, BlocksHold, Logged, SpendTable;
    hide BlockDatabase.Valid, BlockDatabase.View, BlockDatabase.Newest, TransactionDatabase.Sound;
    db := ExampleStore();
    FirstConfirmed();
    FirstSpent(db);
    code := db.PushPooled(Coinbase(10), 0);
  }

  /** The slab of the first coinbase in a store that holds both blocks. */
  lemma {:induction false} FirstSpent(db: DataBase)
    requires db.Valid() && db.chain == [FIRST, SECOND] && db.content == Content
    ensures PooledCode(db.transactions.lookup, 10) == Success
  {
    FirstConfirmed();
    hide Confirmed, Flat, Marks, DataBase.Ready, ValidChain, BlocksHold, Logged, SpendTable, Mirrors;
    hide BlockDatabase.Valid, BlockDatabase.View, BlockDatabase.Newest;
    var confirmed, marks, t := Confirmed(Flat(db.chain)), Marks(Flat(db.chain)), db.transactions.lookup;
    assert Seen(t[10][0], 10, confirmed, marks, {}, 0, Content);
    CleanSameOutputs(t[10][0].tx, Coinbase(10));
  }

  // ---------------------------------------------------- a confirmed entry of the cache

  /** A transaction is confirmed and taken back: the cache still says that it is
      confirmed. */
  method CachedAndTakenBack() returns (transactions: TransactionDatabase)
    ensures transactions.Valid() && !transactions.Sound()
    ensures transactions.cache.Find(Point(10, 0), 0, true).Some?
    ensures OutputIn(transactions.lookup, Point(10, 0), 0, true).None?
  {
    hide HashTables.HashTable.Valid, HashTables.HashTable.View, CacheAgrees, Paired, UnspentOutputs.Valid;
    transactions := new TransactionDatabase(10, 7, h => h);
    transactions.Store(Coinbase(10), 0, 0);
    var ok := transactions.Unconfirm(10, 0);
  }

  // --------------------------------------------------------- two workers, one address

  /** With two workers the last two transactions of the second block, which both
      involve address 7, are with different workers. */
  lemma {:induction false} SecondDisorderly()
    ensures !KeepsOrder(SECOND, 1, 2, 0)
  {
    ExampleClean();
    var fs := BlockEntries(CleanBlock(SECOND), 1);
    assert Spending(fs[1])[0].address == Some(7) && Involves(fs[1], 7);
    assert Spending(fs[2])[0].address == Some(7) && Involves(fs[2], 7);
    assert WorkerOf(1, 2) == 1 && WorkerOf(2, 2) == WorkerOf(0, 2) == 0;
  }

  /** ... so some interleaving of their writes leaves the rows of an address in
      another order than the chain's. */
  lemma {:induction false} HistoryReordered() returns (merged: seq<Item<Address, HistoryRow>>)
    ensures Interleaves(Shares(BlockEntries(SECOND, 1), 2, 2, HistoryOf(0)), merged)
    ensures PushItems(HistoryTable(Flat([FIRST]), 0), merged) != HistoryTable(Flat([FIRST, SECOND]), 0)
  {
    hide HistoryTable, PushItems, Interleaves, Shares, HistoryOf, Involves, WorkerOf;
    ExampleClean();
    SecondDisorderly();
    var es, fs := Flat([FIRST]), BlockEntries(SECOND, 1);
    FlatAppend([FIRST], SECOND);
    assert [FIRST] + [SECOND] == [FIRST, SECOND];
    HistoryOrder(es, fs, 0, 2);
    merged :| Interleaves(Shares(fs, 2, 2, HistoryOf(0)), merged) &&
      PushItems(HistoryTable(es, 0), merged) != HistoryTable(es + fs, 0);
  }

  /** Pushing the last worker's writes first begins with the transaction in the
      middle. */
  lemma {:induction false} LastFirstRows()
    ensures var values := ValuesOf(MergedRows(SECOND, 1, 2, LastFirst, 0), 7);
            values != [] && values[0].point.hash == 12
  {
    var fs := BlockEntries(SECOND, 1);
    assert WorkerOf(0, 2) == 0 && WorkerOf(1, 2) == 1 && WorkerOf(2, 2) == WorkerOf(0, 2) == 0;
    assert Spending(fs[1])[0].address == Some(7) && Involves(fs[1], 7);
    hide *;
    SecondMerged();
    var k := OwnFirst(fs, 0, 2, 1, 7, MergedRows(SECOND, 1, 2, LastFirst, 0));
    assert k == 1;
  }

  lemma {:induction false} SecondMerged()
    ensures Expand(Strided(BlockEntries(SECOND, 1), 1, 2), HistoryOf(0)) <= MergedRows(SECOND, 1, 2, LastFirst, 0)
  {
    ExampleClean();
    var fs, g := BlockEntries(SECOND, 1), WritesOf(SECOND.txs, 0);
    hide Shares, WritesOf, Select, Strided, Expand, HistoryOf, CleanBlock;
    var programs := Programs(SECOND, 1, 2, 0);
    SharesAt(fs, 2, 2, g);
    StridedFrom(fs, 1, 2);
    BlockParts(SECOND, 1, 0);
    SelectExpand(Strided(fs, 1, 2), g, AsRow, HistoryOf(0));
    SelectConcat(programs[1], InTurn(programs, 1), AsRow);
    assert LastFirst(programs) == programs[1] + InTurn(programs, 1);
  }

  /** In the order of the block the first transaction comes first. */
  lemma {:induction false} InOrderRows()
    ensures var values := ValuesOf(RowsAt(SECOND, 1, 0), 7);
            values != [] && values[0].point.hash == 11
  {
    var fs, g := BlockEntries(SECOND, 1), HistoryOf(0);
    assert fs[0].tx.outputs[0].address == Some(7) && Involves(fs[0], 7);
    hide ValuesOf, HistoryOf, Involves;
    ExpandFew(fs[0], fs[1], fs[2], g);
    assert fs == [fs[0], fs[1], fs[2]];
    InvolvedRows(fs[0], 0, 7);
    ValuesOfConcat(g(fs[0]), g(fs[1]), 7);
    ValuesOfConcat(g(fs[0]) + g(fs[1]), g(fs[2]), 7);
  }

  lemma {:induction false} ExpandFew<T>(x: Entry, y: Entry, z: Entry, g: Entry -> seq<T>)
    ensures Expand([x, y, z], g) == g(x) + g(y) + g(z)
  {
    assert [x][..0] == [] && [x, y][..1] == [x] && [x, y, z][..2] == [x, y];
    assert Expand([x], g) == [] + g(x);
  }

  /** A block pushed by two workers in this way leaves a valid store whose histories
      are not in the order of the chain. */
  method DisorderedStore() returns (db: DataBase)
    ensures db.Valid() && db.chain == [FIRST, SECOND] && !db.Ordered()
  {
    hide Holding, DataBase.Ready, ValidChain, BlocksHold, VerifyCode, WellFormed, CleanBlock, Unpooled, KeepsOrder, Fair,
         InOrder, MergedRows, AnswersPush, HashesIn, PartsOf, Programs;
    hide BlockDatabase.Valid, BlockDatabase.View, BlockDatabase.Newest, TransactionDatabase.Sound;
    ExampleVerified();
    ExampleClean();
    ExampleWellFormed();
    LastFirstFair();
    db := NewStore(0, 0, 10, LAYOUT, Content);
    var code := db.Push(FIRST, 0);
    ghost var before, log := db.Now(), db.log;
    assert db.chain == [FIRST] && InOrder(before.rows, [FIRST], 0);
    assert Holding(before, log, [FIRST], 0, Content);
    code := db.DoPush(SECOND, 1, 2, LastFirst);
    assert db.chain == [FIRST, SECOND];
    Disordered(before, log, db.Now(), MergedRows(SECOND, 1, 2, LastFirst, 0));
  }

  lemma {:induction false} ExampleVerified()
    ensures VerifyCode([], FIRST, 0) == Success && VerifyCode([FIRST], SECOND, 1) == Success
  {
  }

  lemma {:induction false} Disordered(s: TableState, log: seq<Rows>, s': TableState, items: Rows)
    requires Holding(s, log, [FIRST], 0, Content) && InOrder(s.rows, [FIRST], 0)
    requires Holding(s', log + [items], [FIRST, SECOND], 0, Content)
    requires items == MergedRows(SECOND, 1, 2, LastFirst, 0)
    ensures !InOrder(s'.rows, [FIRST, SECOND], 0)
  {
    LoggedOnTop(s.rows, log, s'.rows, items);
    LastFirstRows();
    InOrderRows();
    hide *;
    SecondOnTop();
    SequentialHistory(Flat([FIRST]), BlockEntries(SECOND, 1), 0);
    if InOrder(s'.rows, [FIRST, SECOND], 0) {
      InOrderTables(s.rows, s'.rows);
      SameValues(s.rows, items, RowsAt(SECOND, 1, 0), 7);
    }
  }

  lemma {:induction false} SecondOnTop()
    ensures Flat([FIRST, SECOND]) == Flat([FIRST]) + BlockEntries(SECOND, 1)
    ensures RowsAt(SECOND, 1, 0) == Expand(BlockEntries(SECOND, 1), HistoryOf(0))
  {
    FlatAppend([FIRST], SECOND);
    assert [FIRST] + [SECOND] == [FIRST, SECOND];
  }

  lemma {:induction false} InOrderTables(rows: Histories, rows': Histories)
    requires InOrder(rows, [FIRST], 0) && InOrder(rows', [FIRST, SECOND], 0)
    ensures rows == HistoryTable(Flat([FIRST]), 0) && rows' == HistoryTable(Flat([FIRST, SECOND]), 0)
  {
  }

  lemma {:induction false} LoggedOnTop(rows: Histories, log: seq<Rows>, rows': Histories, items: Rows)
    requires Logged(rows, log, [FIRST], 0) && Logged(rows', log + [items], [FIRST, SECOND], 0)
    ensures rows' == PushItems(rows, items)
  {
    assert (log + [items])[..|log|] == log;
    PushItemsConcat<Address, HistoryRow>(map[], Joined(log), items);
  }
}
