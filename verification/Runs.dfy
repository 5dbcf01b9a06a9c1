/** Whole runs of the store, from any consistent state: the tables follow the
    chain that the operations describe, whatever their order and whoever writes. */
module Runs {
  import opened Wrappers
  import opened StackMaps
  import opened ChainTypes
  import opened ChainModel
  import opened ChainState
  import opened TransactionTable
  import opened TransactionDatabases
  import opened Tables
  import opened ChainProperties
  import opened HistoryLogs
  import opened PushSteps
  import opened PopSteps
  import opened BlockDatabases
  import opened Indexes
  import opened Reorganizations
  import opened DataBases

  datatype Operation =
    | PushBlock(block: Block, height: nat)
    | PushShared(block: Block, height: nat, threads: nat, schedule: Schedule)
    | PopBlock
    | Replace(forkHash: Hash, forkHeight: nat, incoming: seq<Block>, threads: nat, schedule: Schedule)
    | PoolTransaction(tx: Tx, forks: nat)

  predicate IsPush(op: Operation) {
    op.PushBlock? || op.PushShared?
  }

  /** The chain, the last block stored under each hash, and the pooled transactions with
      the forks under which each was validated; those that a pop takes back are
      unverified. */
  datatype Ledger = Ledger(chain: seq<Block>, newest: map<Hash, BlockSlab>, forks: map<Hash, nat>, unverified: nat)

  ghost function LedgerOf(db: DataBase): Ledger
    requires db.Valid()
    reads db.Parts()
  {
    Ledger(db.chain, db.Beside().newest, db.Beside().forks, db.unverified)
  }

  /** What a reorganization keeps of the chain, and how many blocks it pushes on it. */
  function Kept(m: Ledger, op: Operation): seq<Block>
    requires op.Replace?
  {
    UpTo(m.chain, HeightOf(m.newest, op.forkHash))
  }

  function PushedOn(m: Ledger, op: Operation): (n: nat)
    requires op.Replace?
  {
    Fitting(Kept(m, op), op.incoming, op.forkHeight + 1, 0)
  }

  predicate Reaches(m: Ledger, op: Operation)
    requires op.Replace?
  {
    PopCode(HeightOf(m.newest, op.forkHash), m.chain) == Success
  }

  /** Whether an operation is carried out, and to its end. */
  function Accepted(m: Ledger, op: Operation): bool {
    if IsPush(op) then VerifyCode(m.chain, op.block, op.height) == Success
    else if op.PopBlock? then m.chain != []
    else if op.Replace? then Reaches(m, op) && PushedOn(m, op) == |op.incoming|
    else op.tx.hash !in m.forks
  }

  /** What an operation does to the ledger. */
  function After(m: Ledger, op: Operation): Ledger {
    if IsPush(op) then
      if !Accepted(m, op) then m
      else m.(chain := m.chain + [CleanBlock(op.block)], newest := Found(m.newest, op.block, op.height),
              forks := m.forks - HashesIn(op.block.txs))
    else if op.PopBlock? then
      if m.chain == [] then m
      else
        var n := |m.chain| - 1;
        m.(chain := m.chain[..n], forks := Reforked(m.forks, HashesIn(m.chain[n].txs), m.unverified))
    else if op.Replace? then
      if !Reaches(m, op) then m
      else
        var fitting := op.incoming[..PushedOn(m, op)];
        var above := m.chain[|Kept(m, op)|..];
        m.(chain := Kept(m, op) + CleanBlocks(fitting), newest := AllFound(m.newest, fitting, op.forkHeight + 1),
           forks := AllConfirmed(AllReforked(m.forks, above, m.unverified), fitting))
    else if !Accepted(m, op) then m
    else m.(forks := m.forks[op.tx.hash := op.forks])
  }

  function AfterAll(m: Ledger, ops: seq<Operation>): Ledger {
    if |ops| == 0 then m else After(AfterAll(m, ops[..|ops| - 1]), ops[|ops| - 1])
  }

  /** What validation grants about an operation: blocks that are accepted are
      well formed, and the pool gets clean transactions that the chain has not
      confirmed. Workers may interleave in any way. */
  ghost predicate Allowed(m: Ledger, op: Operation, content: Hash -> Tx) {
    && (IsPush(op) && Accepted(m, op) ==> WellFormed(m.chain, op.block, content))
    && (op.PushShared? || op.Replace? ==> op.threads > 0 && Fair(op.schedule))
    && (op.Replace? && Reaches(m, op) ==> Admissible(Kept(m, op), op.incoming, op.forkHeight + 1, content))
    && (op.PoolTransaction? ==>
          Clean(op.tx) == content(op.tx.hash) && Unspent(op.tx) && op.tx.hash !in Confirmed(Flat(m.chain)))
  }

  ghost predicate AllAllowed(m: Ledger, ops: seq<Operation>, content: Hash -> Tx) {
    forall i :: 0 <= i < |ops| ==> Allowed(AfterAll(m, ops[..i]), ops[i], content)
  }

  /** The operation keeps the order of the histories. */
  ghost predicate Orderly(op: Operation, start: nat) {
    && (op.PushShared? ==> KeepsOrder(op.block, op.height, Buckets(op.threads, op.block), start))
    && (op.Replace? ==> AllKeepOrder(op.incoming, op.forkHeight + 1, op.threads, start))
  }

  /** The operation keeps the cache sound: it takes nothing back. */
  predicate Onward(op: Operation) {
    !op.PopBlock? && !op.Replace? && (IsPush(op) ==> AllUnspent(op.block))
  }

  lemma {:induction false} AfterStep(m: Ledger, ops: seq<Operation>, i: nat, content: Hash -> Tx)
    requires i < |ops| && AllAllowed(m, ops, content)
    ensures Allowed(AfterAll(m, ops[..i]), ops[i], content)
    ensures AfterAll(m, ops[..i + 1]) == After(AfterAll(m, ops[..i]), ops[i])
  {
    hide Allowed, After;
    assert ops[..i + 1][..i] == ops[..i];
  }

  /** Each operation was carried out or not as the ledger alone says. */
  ghost predicate Answered(m: Ledger, ops: seq<Operation>, done: seq<bool>) {
    && |done| <= |ops|
    && forall i :: 0 <= i < |done| ==> done[i] == Accepted(AfterAll(m, ops[..i]), ops[i])
  }

  lemma {:induction false} NothingDone(m: Ledger, ops: seq<Operation>)
    ensures AfterAll(m, ops[..0]) == m && Answered(m, ops, [])
  {
  }

  lemma {:induction false} AnsweredStep(m: Ledger, ops: seq<Operation>, done: seq<bool>, ok: bool)
    requires Answered(m, ops, done) && |done| < |ops|
    requires ok == Accepted(AfterAll(m, ops[..|done|]), ops[|done|])
    ensures Answered(m, ops, done + [ok])
  {
    hide Accepted, AfterAll;
  }

  /** Every run keeps the tables in step with the ledger, and each operation is
      carried out exactly when the ledger alone says so: no table is ever found
      corrupt. The histories keep the order of the chain if each operation does,
      and without pops a sound cache stays sound. */
  method Run(db: DataBase, ops: seq<Operation>) returns (done: seq<bool>)
    requires db.Valid() && AllAllowed(LedgerOf(db), ops, db.content)
    modifies db.Parts()
    ensures db.Valid() && LedgerOf(db) == AfterAll(old(LedgerOf(db)), ops)
    ensures |done| == |ops| && Answered(old(LedgerOf(db)), ops, done)
    ensures old(db.Ordered()) && (forall i :: 0 <= i < |ops| ==> Orderly(ops[i], db.start)) ==> db.Ordered()
    ensures old(db.transactions.Sound()) && (forall i :: 0 <= i < |ops| ==> Onward(ops[i])) ==> db.transactions.Sound()
  {
    hide DataBase.Valid, DataBase.Ordered, Allowed, AllAllowed, After, Accepted, Orderly, Onward, TransactionDatabase.Sound,
         Answered, AfterAll, DataBase.Parts, LedgerOf;
    done := [];
    ghost var was := LedgerOf(db);
    ghost var ordered := db.Ordered() && forall i :: 0 <= i < |ops| ==> Orderly(ops[i], db.start);
    ghost var sound := db.transactions.Sound() && forall i :: 0 <= i < |ops| ==> Onward(ops[i]);
    NothingDone(was, ops);
    for i := 0 to |ops|
      invariant db.Valid() && LedgerOf(db) == AfterAll(was, ops[..i])
      invariant |done| == i && Answered(was, ops, done)
      invariant ordered ==> db.Ordered()
      invariant sound ==> db.transactions.Sound()
    {
      AfterStep(was, ops, i, db.content);
      var ok := Step(db, ops[i]);
      AnsweredStep(was, ops, done, ok);
      done := done + [ok];
    }
    assert ops[..|ops|] == ops;
  }

  method Step(db: DataBase, op: Operation) returns (ok: bool)
    requires db.Valid() && Allowed(LedgerOf(db), op, db.content)
    modifies db.Parts()
    ensures db.Valid() && LedgerOf(db) == After(old(LedgerOf(db)), op)
    ensures ok == Accepted(old(LedgerOf(db)), op)
    ensures old(db.Ordered()) && Orderly(op, db.start) ==> db.Ordered()
    ensures old(db.transactions.Sound()) && Onward(op) ==> db.transactions.Sound()
  {
    hide DataBase.Valid, DataBase.Ordered, WellFormed, VerifyCode, CleanBlock, Confirmed, Flat, Clean, Unspent, Pushed,
         Popped, Found, Returned, KeepsOrder, Fair, NoneHeld, TransactionDatabase.Sound, DataBase.Beside, DataBase.Parts;
    match op
    case PushBlock(_, _) => ok := PushStep(db, op);
    case PushShared(_, _, _, _) => ok := PushStep(db, op);
    case Replace(_, _, _, _, _) => ok := ReplaceStep(db, op);
    case PopBlock => ok := PopStep(db);
    case PoolTransaction(_, _) => ok := PoolStep(db, op);
  }

  method PoolStep(db: DataBase, op: Operation) returns (ok: bool)
    requires db.Valid() && op.PoolTransaction? && Allowed(LedgerOf(db), op, db.content)
    modifies db.Parts()
    ensures db.Valid() && LedgerOf(db) == After(old(LedgerOf(db)), op)
    ensures ok == Accepted(old(LedgerOf(db)), op)
    ensures old(db.Ordered()) ==> db.Ordered()
    ensures old(db.transactions.Sound()) ==> db.transactions.Sound()
  {
    hide DataBase.Valid, DataBase.Ordered, Confirmed, Flat, Clean, Unspent, TransactionDatabase.Sound, PooledCode,
         AnswersPooled, DataBase.Validated;
    label before:
    var code := db.PushPooled(op.tx, op.forks);
    ok := code == Success;
    if !ok {
      db.Unmoved@before();
    }
  }

  method PopStep(db: DataBase) returns (ok: bool)
    requires db.Valid()
    modifies db.Parts()
    ensures db.Valid() && LedgerOf(db) == After(old(LedgerOf(db)), PopBlock)
    ensures ok == Accepted(old(LedgerOf(db)), PopBlock)
    ensures old(db.Ordered()) ==> db.Ordered()
  {
    hide DataBase.Valid, DataBase.Ordered, Returned, NoneHeld, TransactionDatabase.Sound, DataBase.Parts, Repooled,
         DataBase.Beside, Reforked, HashesIn, DataBase.AllTakenBack;
    ghost var was := db.chain;
    var out;
    label before:
    ok, out := db.Pop();
    if ok {
      ReturnedHashes(out, was, db.content);
    } else {
      db.Unmoved@before();
    }
  }

  method PushStep(db: DataBase, op: Operation) returns (ok: bool)
    requires db.Valid() && IsPush(op) && Allowed(LedgerOf(db), op, db.content)
    modifies db.Parts()
    ensures db.Valid() && LedgerOf(db) == After(old(LedgerOf(db)), op)
    ensures ok == Accepted(old(LedgerOf(db)), op)
    ensures old(db.Ordered()) && Orderly(op, db.start) ==> db.Ordered()
    ensures old(db.transactions.Sound()) && Onward(op) ==> db.transactions.Sound()
  {
    hide DataBase.Valid, DataBase.Ordered, WellFormed, VerifyCode, CleanBlock, Unpooled, Found, KeepsOrder, Fair,
         AllUnspent, TransactionDatabase.Sound, DataBase.Beside, DataBase.Parts;
    var code;
    label before:
    match op {
      case PushBlock(b, height) => code := db.Push(b, height);
      case PushShared(b, height, threads, schedule) => code := db.DoPush(b, height, threads, schedule);
    }
    ok := code == Success;
    if !ok {
      db.Unmoved@before();
    }
  }

  method ReplaceStep(db: DataBase, op: Operation) returns (ok: bool)
    requires db.Valid() && op.Replace? && Allowed(LedgerOf(db), op, db.content)
    modifies db.Parts()
    ensures db.Valid() && LedgerOf(db) == After(old(LedgerOf(db)), op)
    ensures ok == Accepted(old(LedgerOf(db)), op)
    ensures old(db.Ordered()) && Orderly(op, db.start) ==> db.Ordered()
  {
    hide DataBase.Valid, DataBase.Ordered, Admissible, UpTo, PopCode, AllKeepOrder, Fair, NoneHeld, AllFound, AllPushed,
         AllPopped, TransactionDatabase.Sound, DataBase.Beside, DataBase.Parts, Fitting, Reorganizations.Accepted, Appended,
         CleanBlocks;
    ghost var m, sides := LedgerOf(db), db.Beside();
    db.KnownBeside(op.forkHash);
    label before:
    var code, outgoing;
    ghost var pushed;
    code, outgoing, pushed := db.Reorganize(op.forkHash, op.forkHeight, op.incoming, op.threads, op.schedule);
    ok := code == Success;
    if !Reaches(m, op) {
      db.Unmoved@before();
    } else {
      Replaced(m, op, db.chain, code, sides, outgoing, pushed);
      if AllKeepOrder(op.incoming, op.forkHeight + 1, op.threads, db.start) {
        OrderOfFirst(op.incoming, pushed, op.forkHeight + 1, op.threads, db.start);
      }
    }
  }

  /** What the checks say about the incoming blocks decides what the ledger becomes. */
  lemma {:induction false} Replaced(m: Ledger, op: Operation, chain: seq<Block>, code: Code, sides: Sides,
                                    out: seq<Block>, pushed: nat)
    requires op.Replace? && Reaches(m, op) && sides.newest == m.newest && sides.forks == m.forks
    requires CleanBlocks(out) == m.chain[|Kept(m, op)|..]
    requires Appended(Kept(m, op), op.incoming, op.forkHeight + 1, chain, code, pushed)
    ensures pushed <= |op.incoming|
    ensures (code == Success) == Accepted(m, op)
    ensures After(m, op) ==
            var after := AllPushed(AllPopped(sides, out, m.unverified), op.incoming[..pushed], op.forkHeight + 1);
            m.(chain := chain, newest := after.newest, forks := after.forks)
  {
    hide PopCode, UpTo, Reorganizations.Accepted, Fitting, AllPushed, AllPopped, AllFound, CleanBlocks, VerifyCode;
    FittingPushed(Kept(m, op), op.incoming, op.forkHeight + 1, chain, code, pushed, 0);
    PoppedKeys(sides, out, m.unverified);
    PoppedReforked(sides, out, m.unverified);
    PushedFound(AllPopped(sides, out, m.unverified), op.incoming[..pushed], op.forkHeight + 1);
  }

  /** The chain decides what can be looked up, whichever runs led to it. */
  lemma {:induction false} ChainDecides(a: DataBase, b: DataBase)
    requires a.Valid() && b.Valid() && a.chain == b.chain && a.start == b.start && a.content == b.content
    ensures SameViews(a.Now(), b.Now())
    ensures a.Ordered() && b.Ordered() ==> a.history.rows == b.history.rows
  {
    hide DataBase.Ready, Holding, ValidChain, BlocksHold, Flat, SameViews, InOrder;
    hide BlockDatabase.Valid, BlockDatabase.View, BlockDatabase.Newest;
    SameHolding(a.Now(), a.log, b.Now(), b.log, a.chain, a.start, a.content);
  }

  /** The pool table holds a hash once if its newest slab is unconfirmed, and not
      at all otherwise. */
  lemma {:induction false} PoolMirrors(db: DataBase, h: Hash)
    requires db.Valid()
    ensures |Stack(db.pool.lookup, h)| == if IsPooled(db.transactions.lookup, h) then 1 else 0
  {
    hide DataBase.Ready, Holds, Logged, SpendTable, ValidChain, BlocksHold, Flat;
    hide BlockDatabase.Valid, BlockDatabase.View, BlockDatabase.Newest;
  }

  /** In every state of a run, spender heights and spend table agree with the
      chain. */
  lemma {:induction false} SpendsAgree(db: DataBase, p: Point)
    requires db.Valid()
    requires p.hash in Confirmed(Flat(db.chain)) && p.index < |Confirmed(Flat(db.chain))[p.hash].tx.outputs|
    ensures Agreement(db.transactions.lookup, db.spends.lookup, Flat(db.chain), db.start, p)
  {
    hide DataBase.Ready, Shows, Logged, ValidChain, BlocksHold, Flat, Confirmed, Marks, SpendsAt, Peek, IsConfirmed,
         SpendTable;
    hide BlockDatabase.Valid, BlockDatabase.View, BlockDatabase.Newest;
    SpendAgreement(db.transactions.lookup, db.pool.lookup, db.spends.lookup, db.chain, db.start, db.content, p);
  }

  /** In every state of a run, a history holds what a scan of the chain gives the
      address, and a query returns its newest part; the order is the reversed
      scan's if the store is ordered. */
  method QueryHistory(db: DataBase, a: Address, limit: nat, from: nat) returns (rows: seq<HistoryRow>)
    requires db.Valid()
    ensures var all := Stack(db.history.rows, a);
            && multiset(all) == multiset(ValuesOf(HistoryScan(Flat(db.chain), db.start), a))
            && (db.Ordered() ==> all == Reversed(ValuesOf(HistoryScan(Flat(db.chain), db.start), a)))
            && rows <= all
            && (forall i :: 0 <= i < |rows| ==> rows[i].height >= from)
            && (|rows| < |all| ==> |rows| == limit > 0 || all[|rows|].height < from)
  {
    hide Shows, SpendTable, ValidChain, BlocksHold, Flat, HistoryScan, ValuesOf, Reversed, GivenRow, Stack, Logged,
         InOrder;
    hide BlockDatabase.Valid, BlockDatabase.View, BlockDatabase.Newest, TransactionDatabase.Valid;
    HistoryAgreement(db.history.rows, db.log, db.chain, db.start, a);
    if db.Ordered() { HistoryInOrder(db.history.rows, db.chain, db.start, a); }
    ghost var n := HistoryQuery(Stack(db.history.rows, a), limit, from);
    rows := db.history.Get(a, limit, from);
  }
}
