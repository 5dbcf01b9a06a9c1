# Verified model of the blockchain store

The store keeps a blockchain in memory-mapped files: hash tables with a fixed
number of buckets whose chained rows live in files that only grow, a multimap on
top of them, an index of blocks by height, a cache of unspent outputs, and a
state machine that pushes, pops and reorganizes blocks over five tables at once.
This project models those layers in Dafny and proves what each promises to the
next one.

## What is proved

**The chain.** `DataBase.Valid` says that every table holds exactly what the
chain says: the newest slab of each confirmed transaction with a spender height
per output, the spends, the address histories, the block index and the pool.
A push of a well-formed block keeps it, by one worker in order or by any number
of workers whose calls on the tables interleave in any way; so do a pop, a pool
push and a reorganization. When the single steps inside those calls interleave,
too, it holds under the exact condition given below. From it follow: a pop fails on an empty chain only, so none of
its exits for a corrupt store can be taken; a pop undoes a push; going to a fork
and back restores every view; whole runs follow the plain list of blocks; stored
spender heights and the spend table agree with the unique spender on the chain;
a history is a scan of the chain, newest block first; the pool table mirrors the
unconfirmed slabs.

**The tables.** Each chained table is a map from keys to stacks: a store pushes,
a search peeks, an unlink pops, and no other key is touched. This is proved for
rows addressed by position (`HashTables`), for the multimap on top, and for any
interleaving of the single steps of concurrent writers and lock-free readers
(`ConcurrentTables`), where a search answers what a search in one step would
have answered when it began. The five tables of `DataBase` are objects of these classes.
`SlabTables` proves the same of the bytes of a file, which it also closes and
opens again.

**The bytes.** Transaction and block slabs, bucket arrays, size words, slabs and
records are modelled to the byte; spending an output changes exactly its four
bytes, and what happens to the bytes is what happens to the slab of the table.

**What a block is assumed to be.** `ChainState.WellFormed` holds what validation
establishes before a block reaches the store: its hash and its transactions'
hashes are new to the chain (the assumption stated at
src/databases/transaction_database.cpp:119-125), exactly position 0 is a coinbase, each input
spends an existing, unspent output of an earlier transaction, and an output is
unspent or carries the height of this very block, in which it is spent, as
blocks that were read back do. `content`, the transaction behind each hash,
stands for the absence of hash collisions. `Examples.ExampleAllowed` exhibits a
run that meets all assumptions, with an output created and spent in one block.

**What does not hold, and exactly when it does.**
- Several workers, call by call: the histories end in the order of the chain
  under every interleaving if and only if no two workers have indexed transactions
  of one address (`HistoryOrders.HistoryOrder`). `Examples.DisorderedStore` pushes
  a well-formed block with two workers and ends valid but out of order. Heights
  still never rise from the newest row down, and a pop still restores every
  history.
- Several workers, step by step: `add_row` reads the start of a list and writes it
  in separate critical sections, so two workers can build on the same start, and a
  row is lost (include/bitcoin/database/impl/record_multimap.ipp:52-94). The steps
  come to a merge of whole calls under every schedule if and only if no two workers
  add under one key (`ConcurrentMultimaps.WholeCalls`); a pushed block leaves tables
  of the longer chain under every schedule if and only if each address has its
  indexed transactions with one worker (`HistorySteps.BlockBySteps`). Otherwise some
  schedule loses a row of the address, and a pop then deletes a row of an earlier
  block: `StepExamples.SecondLosesRow` is such a run of two workers.
- `unlink` writes a link that it has read before, in no critical section
  (include/bitcoin/database/impl/slab_hash_table.ipp:141-182). Several workers that
  take transactions out of one bucket of the pool leave exactly the other rows linked
  under every schedule if and only if no two workers unlink neighbours in its chain
  (`ConcurrentUnlinks.WholeUnlinks`); otherwise some row stays
  (`StepExamples.RowStays`).
- So with more than one worker the results on histories and pool in `DoPush`,
  `PushAll`, `Reorganize`, `PushThenPop`, `AwayAndBack`, `ExecuteAll`,
  `BlockArrives`, `PushedTables` and `Run` are about calls that happen one after the
  other, in any order. The source grants that under the two conditions above, and
  always for one worker.
- A pool push is accepted when the newest slab of its hash is fully spent; the
  store stays consistent if and only if that hash is not confirmed in the chain
  (`DataBase.PushPooled`, broken by `Examples.AcceptedAndBroken`).
- `unconfirm` does not tell the cache, which stays sound if and only if it does
  not hold the transaction as confirmed (`TransactionDatabase.Unconfirm`, broken
  by `Examples.CachedAndTakenBack`); after a pop a sound cache is sound if and only
  if it holds no transaction of the popped blocks as confirmed (`DataBase.Pop`,
  `DataBase.PopAbove`). Runs without pops keep it sound.
- `pop_above` pops to the height that the fork hash was stored at; the top that
  is left has that hash if and only if the hash was on the chain
  (`DataBase.PopAbove`). After a pop the hash of the popped block is still found: it
  is then above the top (`Examples.ForkAboveTop`), or at the height of a block with
  another hash (`Examples.ForkReplaced`).
- The top of the block table need not exist. After a truncation it does if and only
  if the height below the first dropped one existed; after a store it does if the
  block went to the top or beyond the end, and below that as before
  (`BlockDatabase.Unlink`, `BlockDatabase.Store`, broken by
  `BlockDatabases.MissingTop`). The chain state machine leaves no gaps, so its top
  always exists.
- A record file passes its check on opening if and only if the count on file
  fits the size asked for last (`RecordManagers.Restart`). Giving records back
  without a sync breaks that for a manager on its own
  (`RecordManagers.UnsyncedRestartFails`); the store does not get there, since a
  pop synchronizes after it unlinks (src/data_base.cpp:631-635).

**Where the source disagrees with its comments or with itself.** src/databases/block_database.cpp:42
gives the transaction count one to eight bytes; the size prefix it writes has one,
three, five or nine. include/bitcoin/database/primitives/slab_manager.hpp:30-33
reserves eight bytes for the bucket count, of which the header uses four. The
model follows the code.

## How to read it

| files | hold |
|---|---|
| `StackMaps`, `ChainTypes`, `ChainModel`, `ChainState` | the abstract values: maps of stacks, blocks, the scan of a chain, valid chains and well-formed blocks |
| `TransactionTable`, `Tables`, `ChainProperties`, `HistoryLog` | what tables hold for a chain, step by step, and what follows from it |
| `Interleaving`, `TableWrites`, `ParallelPush`, `HistoryOrder`, `FreshWrites` | several workers on one block |
| `PushSteps`, `PopSteps`, `Reorganization` | what pushes and pops do to the tables of a chain, to the pool, to lookups by hash and to the cache |
| `ConcurrentMultimap`, `ConcurrentUnlink`, `HistorySteps`, `StepExamples` | the single steps of calls that race |
| `TransactionDatabase`, `UnspentOutputs`, `BlockDatabase`, `Indexes`, `DataBase`, `Runs`, `Examples` | the mutable store, its runs, and concrete chains |
| `HashTable`, `RecordMultimap`, `ConcurrentTable` | linked rows |
| `LittleEndian`, `Regions`, `MemoryMap`, `HashTableHeader`, `SlabManager`, `RecordManager`, `SlabTable`, `TransactionSlab`, `BlockSlab` | bytes and files |

Lemmas carry `{:induction false}`: each induction is written out.
`dafny verify dfyconfig.toml` checks everything.

## Model

| member | source | states |
|---|---|---|
| DataBases.DataBase.Push | src/data_base.cpp:416-442 | in order, one worker: a refused block changes nothing and gets the code of the first failing check; an accepted well-formed block leaves tables that hold exactly the longer chain, the pool loses exactly its transactions, its hash is found at its height, the order of the histories is kept, and so is a sound cache if the block arrives unspent; it is refused for having no transactions, else for a height other than the next one, else for a parent other than the top, and for nothing else; the forks of all other pooled transactions stay |
| DataBases.DataBase.DoPush | src/data_base.cpp:741-800 | with any number of workers, as many as threads but no more than transactions, whose calls on the tables interleave in any way: as a push in order, refusal codes included, except that the histories keep the order of the chain when each address has its rows from one worker |
| DataBases.DataBase.Pop | src/data_base.cpp:586-640 | fails on the empty chain only, so no corruption exit is reachable; otherwise the tables hold the chain without its top block, whichever workers pushed it; the block is returned with the spender heights it was read with, its transactions return to the pool, lookups by hash do not change; a sound cache stays sound if and only if it holds no transaction of the block as confirmed; each transaction's newest slab is then in no block, carries the forks that compel a new validation, is unspent and has the content that was returned, and the forks of all others stay |
| DataBases.DataBase.PushThenPop | src/data_base.cpp:586-640 | for any number of workers and any interleaving of their calls, push then pop restores chain, confirmed slabs with all spender heights, spends and histories, returns the block, and the pool gains exactly its transactions |
| DataBases.DataBase.AwayAndBack | src/data_base.cpp:706-739 | popping to a fork on the chain and pushing what came back, with any workers, restores chain, confirmed slabs, spends and, up to the order within a block, histories; their order too if it was the chain's and the workers keep it |
| DataBases.DataBase.Reorganize | src/data_base.cpp:865-907 | with any workers: returns what was above the height found for the fork hash, in ascending order; the chain becomes the part up to there plus the incoming blocks up to the first that the checks refuse, all of them exactly on success; the pool gains the popped and loses the pushed transactions; the order of the histories is kept if each pushed block keeps it, a sound cache if it holds no popped transaction as confirmed and the blocks arrive unspent |
| DataBases.DataBase.PopAbove | src/data_base.cpp:804-862 | for every hash: fails exactly when the hash is unknown or the chain empty, throws exactly when its height is above the top; otherwise removes and returns everything above that height, fit to be pushed again, and the pool gains its transactions; the top that is left has the hash if and only if the hash was on the chain; a sound cache stays sound if and only if it holds no popped transaction as confirmed; so it is with the slabs of the popped transactions as after a pop |
| DataBases.DataBase.PopTo | src/data_base.cpp:837-859 | the loop of it: pops from the top down to a height, block by block |
| DataBases.DataBase.PushAll | src/data_base.cpp:706-739 | pushes blocks with their workers up to the first refused one, whose code it returns; the pool and the lookups by hash change by exactly the pushed blocks; it never stops on blocks that fit one after the other; the code says which check refused it |
| DataBases.DataBase.PushPooled | src/data_base.cpp:385-412 | refused exactly when the newest slab of the hash is in no block or has an output that nothing spends, and then nothing changes; accepted, a new slab in front holds the transaction with the given forks, no other hash changes, and the store stays consistent if and only if the hash is not confirmed |
| DataBases.DataBase.VerifyPush | src/data_base.cpp:327-340 | answers from the block table what the chain determines: empty without transactions, else invalid height unless it is the next one, else missing parent unless the block names the top, else success |
| DataBases.DataBase.PushTransactions | src/data_base.cpp:445-472 | a strided worker performs exactly the writes of its share, in stride order |
| DataBases.DataBase.PushTransaction | src/data_base.cpp:452-469 | performs the writes of one position: store, drop from the pool, then spends and rows unless the height is below the first indexed one; a coinbase stores no spends |
| DataBases.DataBase.PushHeights | src/data_base.cpp:474-489 | after all transactions of a block are stored, by whomever, every output it spends is found confirmed and gets the block's height |
| DataBases.DataBase.SpendInputs | src/data_base.cpp:479-486 | marking the inputs of one transaction never fails and yields the marks of the scan one entry further |
| DataBases.DataBase.PushInputs | src/data_base.cpp:491-514 | performs one spend per input and one history row per input with an address, in input order |
| DataBases.DataBase.PushOutputs | src/data_base.cpp:516-540 | performs one history row per output with an address, in output order |
| DataBases.DataBase.ExecuteAll | src/data_base.cpp:757-772 | performing the interleaved calls one by one performs them all, and keeps a sound cache sound if the transactions are new |
| DataBases.DataBase.Execute | src/data_base.cpp:452-469 | one write of one worker changes one table, as the write says |
| DataBases.DataBase.FinishPush | src/data_base.cpp:774-800 | once all transactions are stored, marking never fails and the tables hold the longer chain, and the forks of pooled transactions stay |
| DataBases.DataBase.ReadTransactions | src/data_base.cpp:602-614 | every transaction of the top block is found at its height and position |
| DataBases.DataBase.PopTransactions | src/data_base.cpp:616-632 | backwards through the block every transaction becomes unconfirmed; the transaction and spend tables hold what was before the block, and the rows deleted from the histories are, backwards, the rows of the block; all of them get the forks that compel a new validation |
| DataBases.DataBase.PopTransaction | src/data_base.cpp:616-632 | taking back the newest transaction leaves the transaction and spend tables of the chain before it, deletes its rows backwards and puts it in the pool; its slab gets the forks that compel a new validation, and no other pooled one changes its forks |
| DataBases.DataBase.PopInputs | src/data_base.cpp:643-672 | each parent is still confirmed when its output is unspent; the spends of the inputs are gone, and one row per address of an input was deleted, backwards |
| DataBases.DataBase.PopInput | src/data_base.cpp:646-669 | one input: succeeds exactly when the parent is confirmed and has the output; unspends it and, from the first indexed height on, drops its spend and its address's last row |
| DataBases.DataBase.PopOutputs | src/data_base.cpp:675-699 | deletes one row per address of an output, backwards |
| DataBases.NewStore | src/data_base.cpp:88-109 | a store on new tables holds the empty chain, in order, with a sound cache |
| PushSteps.BlockArrives | src/data_base.cpp:741-772 | from a store that holds a chain, for any number of workers and any interleaving of their calls, all transactions of a well-formed block are shown, its spends are the spend table's, the pool has lost its transactions and the histories have gained its rows |
| PushSteps.PoolArrives | src/data_base.cpp:385-412 | an accepted pool push keeps the tables in step with the chain if and only if the chain has not confirmed its hash |
| PushSteps.PooledOnce | src/data_base.cpp:342-347 | a transaction that the chain has not confirmed is accepted if and only if it is not pooled yet |
| PushSteps.BlockFresh | src/databases/transaction_database.cpp:200-250 | the transactions of a well-formed block that arrives unspent are new to the table |
| PushSteps.MergeFresh | src/databases/transaction_database.cpp:200-250 | ... and still are at the moment any interleaving stores them |
| PopSteps.AfterPop | src/data_base.cpp:616-632 | deleting backwards the rows of the top block leaves the histories of the shorter chain, in whatever order they had been written |
| PopSteps.ParentAt | src/data_base.cpp:643-672 | the output an input spends is confirmed before its spender, and no earlier input of the same transaction spends it |
| PopSteps.ForksTaken | src/databases/transaction_database.cpp:317-323 | in tables of a chain, a pooled slab is in no block, unspent and of the content its hash stands for |
| PopSteps.SameHolding | src/data_base.cpp:416-489 | tables that hold the same chain show the same confirmed slabs and spends and, up to the order within a block, the same histories |
| PopSteps.BackAgain | src/data_base.cpp:617-638 | a block popped right after its push comes back as it was, and the pool holds its transactions |
| Reorganizations.CacheAfterPops | src/databases/transaction_database.cpp:317-323 | a cache that was sound and is not told is sound after blocks were popped if and only if it holds none of their transactions as confirmed |
| Reorganizations.UnspentBefore | src/databases/transaction_database.cpp:252-291 | an output that is unspent on a chain is unspent on what the chain began with |
| Reorganizations.FittingPushed | src/data_base.cpp:706-739 | how many blocks are pushed is decided by the checks alone |
| Reorganizations.PopAnswers | src/data_base.cpp:814-836 | for every chain and lookup: when popping above a hash fails, when it throws, and where it parts the chain otherwise |
| Reorganizations.FewestWorkers | src/data_base.cpp:741-772 | there are as many workers as threads or as transactions, whichever is less |
| ChainState.RereadWellFormed | src/data_base.cpp:599-632 | a block read back by a pop is well formed where it was, in-block spender heights included |
| ChainState.ValidPushed | src/data_base.cpp:327-340 | a block that passes the checks and is well formed extends a valid, linked, gap-free chain to another |
| ChainState.VerifyAnswers | src/data_base.cpp:327-340 | for every chain, block and height: which of the four codes is answered, and for nothing else |
| ChainState.BlocksHoldPushed | src/databases/block_database.cpp:167-193 | storing at the next height makes the block table hold the longer chain, each block under its own height and hash |
| ChainState.BlocksHoldPopped | src/databases/block_database.cpp:206-215 | truncating by one height makes it hold the shorter chain |
| Runs.Run | src/data_base.cpp:385-907 | over any sequence of allowed block pushes, in order or by any interleaving workers, pops, reorganizations and pool pushes the tables follow a plain ledger, the list of blocks, the last block stored under each hash and the forks of each pooled transaction, and each operation succeeds exactly when the ledger says so; histories stay in order if each operation keeps it, and without pops a sound cache stays sound |
| Runs.ChainDecides | src/data_base.cpp:416-489 | two stores with the same chain agree on confirmed slabs, spends and, up to the order within a block, histories, whatever runs and workers led to them |
| Runs.PoolMirrors | src/databases/transaction_unconfirmed_database.cpp:135-174 | the pool holds a hash exactly once if its newest slab is unconfirmed, and not at all otherwise |
| Runs.SpendsAgree | src/data_base.cpp:474-514 | in every state of a run: a confirmed output's stored spender height and its spend table entry are those of the one input on the chain that spends it, or say that none does |
| Runs.QueryHistory | src/databases/history_database.cpp:177-228 | in every state of a run: a history holds what a scan of the chain gives the address, reversed if the store is in order; a query returns its first rows, stopping at the limit or below the height only |
| ChainProperties.SpendAgreement | src/databases/transaction_database.cpp:252-291 | a confirmed output's spender height is the height of the block that spends it or says that none does, is never below the output's own height, and the spend table returns exactly the spending input |
| ChainProperties.SpenderUnique | src/data_base.cpp:474-489 | on a consistent chain no two inputs spend the same output |
| ChainProperties.SpenderOfMark | src/data_base.cpp:474-489 | every marked output has a spending input at the marked height |
| ChainProperties.MarkOfSpender | src/data_base.cpp:474-489 | every spending input marks its output with its height |
| ChainProperties.SpenderAbove | src/databases/transaction_database.cpp:259-263 | an output's spender is at or above the output's own height |
| ChainProperties.ChainSpends | src/databases/spend_database.cpp:108-148 | marks and spend table tell the same spends, from the first indexed height on |
| ChainProperties.HistoryExact | src/data_base.cpp:491-540 | the scan gives an address a row if and only if some input or output of an indexed transaction does |
| HistoryLogs.HistoryAgreement | src/data_base.cpp:491-540 | whoever wrote them, a history holds what a scan of the chain by transaction, inputs before outputs, gives the address, each row as often; heights never rise from the newest down; it holds exactly the rows that indexed blocks give |
| HistoryLogs.HistoryInOrder | src/data_base.cpp:491-540 | in the order of the chain a history is the reversed scan |
| HistoryLogs.LoggedPushed | src/data_base.cpp:491-540 | a block's rows in any order extend the histories of a chain to the next |
| HistoryLogs.LoggedPopped | src/data_base.cpp:643-699 | walking backwards through the block deletes exactly what its workers wrote, in whatever order |
| HistoryLogs.InOrderPushed | src/data_base.cpp:491-540 | rows that come to each address in the order of the block keep the order of the chain |
| HistoryLogs.InOrderPopped | src/data_base.cpp:643-699 | a pop keeps the order of the chain |
| HistoryOrders.HistoryOrder | src/data_base.cpp:757-764 | the histories end in the order of the chain under every interleaving of the workers if and only if no two workers have indexed transactions of one address |
| HistoryOrders.OrderKept | src/data_base.cpp:757-764 | with one worker for each address, every interleaving gives each address its rows in the order of the block |
| HistoryOrders.OrderLost | src/data_base.cpp:757-764 | if two workers have rows of an address, two interleavings order them differently |
| HistoryOrders.InvolvedRows | src/data_base.cpp:491-540 | a transaction gives an address rows if and only if it is indexed and pays the address or spends from it, and each row names the transaction |
| ChainProperties.HistoryQuery | src/databases/history_database.cpp:177-228 | a query returns the first rows of such a history, all high enough, and stops only at the limit or at the first row that is too low |
| ChainProperties.AtLeastPrefix | src/databases/history_database.cpp:206-225 | on a history the height filter keeps a first part |
| ChainModel.ParentConfirmed | src/data_base.cpp:474-489 | the output that an entry spends is confirmed at or below the entry's height in the whole list |
| ChainModel.FitsAt | src/databases/transaction_database.cpp:119-125 | each entry of a consistent list fits what comes before it |
| ChainModel.DistinctHashes | src/databases/transaction_database.cpp:119-125 | transaction hashes of a consistent list are distinct |
| Tables.ShowsPushed | src/data_base.cpp:455-457 | storing a transaction and dropping it from the pool shows the longer list, in place for a pooled one and with a new slab otherwise |
| Tables.ShowsMarked | src/databases/transaction_database.cpp:252-291 | spending a confirmed output succeeds and adds its mark |
| Tables.ShowsUnmarked | src/databases/transaction_database.cpp:293-296 | unspending succeeds while the parent is confirmed and removes exactly the mark of that output |
| Tables.ShowsUnplaced | src/databases/transaction_database.cpp:317-323 | unconfirming the newest transaction, none of whose outputs is spent, leaves its slab pooled and clean |
| Tables.ShowsHidden | src/data_base.cpp:342-347 | a pool slab on top of a confirmed one hides it, and the table no longer shows the chain |
| Tables.SameTables | src/data_base.cpp:416-489 | tables that show the same list agree on every confirmed slab |
| Tables.PoolThereAndBack | src/data_base.cpp:617-622 | after a push and a pop of a block the pool holds exactly its transactions on top of what it held |
| TransactionTable.HoldsStored | src/databases/transaction_database.cpp:200-250 | a stored transaction is the newest slab of its hash, and the table holds one entry more |
| TransactionTable.HoldsRead | src/databases/transaction_database.cpp:144-153 | a confirmed transaction is found at its height and position, with the spender heights of the chain |
| TransactionDatabases.TransactionDatabase.Find | src/databases/transaction_database.cpp:114-138 | the newest slab of the hash, whatever its height; asked for a confirmed one, that slab if and only if it is in a block at or below the fork height |
| TransactionDatabases.TransactionDatabase.GetOutput | src/databases/transaction_database.cpp:155-175 | a miss of the cache answers if and only if the newest slab exists and, asked for a confirmed one, is in a block at or below the fork height: with its height, whether it is a coinbase, and its output of the index, or beyond its outputs the value that stands for not found; with a sound cache a query for confirmed outputs answers so in any case, every hit is an output of the newest slab, unspent there, and an answer for a transaction held as confirmed has the height and place of its slab |
| TransactionDatabases.TransactionDatabase.Store | src/databases/transaction_database.cpp:200-250 | the newest slab of the hash has the given height and position; a pooled block transaction keeps its slab, any other gets a new one in front, and no other hash changes; the cache gains the transaction, and a fresh one keeps it sound |
| TransactionDatabases.TransactionDatabase.Spend | src/databases/transaction_database.cpp:252-291 | succeeds if and only if the newest slab is in a block at or below the spender height and has the output, and then sets that spender height and changes nothing else; the cache forgets exactly that output, whether it succeeds or not, and stays sound |
| TransactionDatabases.TransactionDatabase.Unspend | src/databases/transaction_database.cpp:293-296 | succeeds if and only if the newest slab is in a block and has the output, resets its spender height and changes nothing else, the cache included |
| TransactionDatabases.TransactionDatabase.Confirm | src/databases/transaction_database.cpp:298-315 | sets height and position of the newest slab if there is one, and fails if there is none |
| TransactionDatabases.TransactionDatabase.Unconfirm | src/databases/transaction_database.cpp:317-323 | marks the newest slab unconfirmed; the cache stays sound if and only if it does not hold the transaction as confirmed; no other hash changes |
| UnspentOutputsCache.UnspentOutputs.Add | src/unspent_outputs.cpp:66-90 | nothing without capacity or outputs; otherwise room is made, the counter advances and wraps at 32 bits, and an unknown transaction enters with the new age, its place and all of its outputs, a known one stays as it was; nothing else comes in |
| UnspentOutputsCache.UnspentOutputs.MakeRoom | src/unspent_outputs.cpp:66-90 | at the wrap the cache is emptied, a full cache loses exactly its entry of lowest age, and there is room for one more |
| UnspentOutputsCache.UnspentOutputs.Room | src/unspent_outputs.cpp:66-90 | what is kept when room is made: fewer entries than the capacity, and nothing older than what went |
| UnspentOutputsCache.UnspentOutputs.RemoveTransaction | src/unspent_outputs.cpp:94-121 | forgets exactly one transaction |
| UnspentOutputsCache.UnspentOutputs.RemoveOutput | src/unspent_outputs.cpp:123-157 | forgets exactly one output, and its transaction with the last one; the age stays |
| UnspentOutputsCache.UnspentOutputs.Get | src/unspent_outputs.cpp:159-201 | answers if and only if there is capacity, the hash is cached, held as confirmed if that is asked for, has the output, and its height is at most the fork height: with that output, the height and whether it is a coinbase; counts queries and hits |
| BlockDatabases.BlockDatabase.Store | src/databases/block_database.cpp:167-193 | at any height: that height and that hash now show the block, every other height is as before, and skipped heights do not exist; afterwards the top exists if and only if the block is the top or the top existed before; a shown block has its own header, height and transaction hashes |
| BlockDatabases.BlockDatabase.WritePosition | src/databases/block_database.cpp:229-259 | a height beyond the end extends the index, and stale records below it are erased |
| BlockDatabases.BlockDatabase.Zeroize | src/databases/block_database.cpp:218-226 | erases exactly the given records |
| BlockDatabases.BlockDatabase.Unlink | src/databases/block_database.cpp:206-215 | drops exactly the heights from the given one on, if there are any; lookups by hash do not change; afterwards the top exists if and only if the height below the given one did |
| BlockDatabases.BlockDatabase.Gaps | src/databases/block_database.cpp:195-204 | lists exactly the missing heights below the end, in ascending order |
| BlockDatabases.BlockDatabase.Exists | src/databases/block_database.cpp:137-140 | a height exists if and only if a block is shown at it |
| BlockDatabases.BlockDatabase.GetAt | src/databases/block_database.cpp:142-158 | recovers the block stored at a height, its hash read from the key in front of the value, and it records that height |
| BlockDatabases.BlockDatabase.GetByHash | src/databases/block_database.cpp:160-164 | recovers the newest block stored under a hash |
| BlockDatabases.BlockDatabase.Top | src/databases/block_database.cpp:269-279 | none exactly without records, and then nothing exists; otherwise no existing height is above it |
| BlockDatabases.MissingTop | src/databases/block_database.cpp:269-279 | after stores at 0 and 5 and a truncation at 3 the top is height 2, which does not exist |
| BlockDatabases.StoredView | src/databases/block_database.cpp:229-259 | a new row, indexed by its offset at its height, changes what is shown at that height alone, given that rows stand |
| Indexes.HistoryDatabase.Get | src/databases/history_database.cpp:177-228 | iterating over the multimap: the rows of a key from the newest on, at or above a height, as many as the limit allows, where zero is no limit |
| Indexes.AtLeastExact | src/databases/history_database.cpp:206-225 | the height filter keeps every row that is high enough, as often as it occurs, and no other |
| Indexes.HistoryDatabase.AddOutput | src/databases/history_database.cpp:138-152 | on the multimap: the key's history gains the output row on top, and no other history changes |
| Indexes.HistoryDatabase.AddInput | src/databases/history_database.cpp:154-169 | on the multimap: the key's history gains the spend row on top, and no other history changes |
| Indexes.HistoryDatabase.DeleteLastRow | src/databases/history_database.cpp:172-175 | on the multimap: the key loses its newest row, and no other history changes; fails exactly when the key has none |
| Indexes.SpendDatabase.Store | src/databases/spend_database.cpp:124-136 | on the hash table: the output gains a spender, and no other output changes |
| Indexes.SpendDatabase.Unlink | src/databases/spend_database.cpp:138-148 | on the hash table: an output loses its newest spender, and no other output changes; fails exactly when it has none, without reading an empty bucket |
| Indexes.UnconfirmedDatabase.Store | src/databases/transaction_unconfirmed_database.cpp:135-155 | on the hash table: the hash gains a pool transaction, and no other hash changes |
| Indexes.UnconfirmedDatabase.UnlinkIfExists | src/databases/transaction_unconfirmed_database.cpp:166-174 | on the hash table: a hash loses its pool transaction, and no other hash changes; fails exactly when it has none, without reading an empty bucket |
| ParallelPush.SharesExact | src/data_base.cpp:757-764 | for any number of workers the strides share out a block exactly: all that each transaction gives rise to is done by one worker, once |
| Interleavings.InterleavingWork | src/data_base.cpp:757-764 | any interleaving of the workers does all of their work once |
| Interleavings.SelectInterleaves | src/data_base.cpp:757-764 | what reaches one table is an interleaving of what each worker writes to it |
| Interleavings.FirstGoes | src/data_base.cpp:757-764 | some interleaving begins with all that one worker does |
| Interleavings.OwnersOrder | src/data_base.cpp:757-764 | a key under which one worker alone stores gets that worker's order |
| ParallelPush.PushedTables | src/data_base.cpp:445-472 | for any number of workers and any interleaving, the transaction, pool and spend tables are those of one pass in order, and the histories gain the rows of the block |
| ParallelPush.AnyStoreOrder | src/data_base.cpp:456 | stores of transactions with distinct hashes give the same table in any order |
| ParallelPush.ForksOfStores | src/databases/transaction_database.cpp:200-250 | storing a block's transactions confirms exactly them: every other pooled slab keeps its forks |
| TableWrites.PerformParts | src/data_base.cpp:452-469 | each table sees its own writes only, in their order |
| TableWrites.EntryParts | src/data_base.cpp:452-469 | what one position writes to each of the four tables |
| ParallelPush.ParallelSpends | src/data_base.cpp:445-472 | any interleaving of any number of workers leaves the spend table of one pass in order |
| Examples.HistoryReordered | src/data_base.cpp:757-764 | with two workers, some interleaving of a well-formed block's writes leaves an address's rows in another order than the chain's |
| Examples.ExampleAllowed | src/data_base.cpp:599-632 | pushing two blocks, popping the second and pushing what came back meets every assumption on runs, with an output created and spent in one block |
| Examples.ExampleStore | src/data_base.cpp:586-640 | a new store goes through that run and holds both blocks |
| Examples.ExampleThereAndBack | src/data_base.cpp:804-862 | ... and then to the first block and back with two workers |
| Examples.DisorderedStore | src/data_base.cpp:741-772 | a store pushes the first block, and two workers push the second in a way that leaves it valid but its histories out of order |
| Examples.SecondDisorderly | src/data_base.cpp:757-764 | with two workers the second block has two transactions of one address with different workers |
| Examples.AcceptedAndBroken | src/data_base.cpp:385-412 | a pool push of the first coinbase, whose only output is spent, is accepted, and the store no longer holds its chain |
| Examples.CachedAndTakenBack | src/databases/transaction_database.cpp:317-323 | a confirmed transaction is cached and taken back: the cache still answers a query for confirmed outputs that the slabs refuse |
| Examples.ForkAboveTop | src/data_base.cpp:814-827 | after a pop, popping above the popped hash throws: its height is above the top |
| Examples.ForkReplaced | src/data_base.cpp:814-827 | after a pop and a push of another block, popping above the popped hash succeeds and leaves a top of another hash |
| StackMaps.PopAfterPush | include/bitcoin/database/impl/record_hash_table.ipp:100-141 | popping a key undoes pushing it, for the whole map |
| StackMaps.PopsUndoPushes | include/bitcoin/database/impl/record_multimap.ipp:97-132 | walking backwards over items and popping their keys undoes pushing them, in whatever order they were pushed |
| StackMaps.PushItemsStack | include/bitcoin/database/impl/record_hash_table.ipp:41-67 | a key's stack is what was pushed for it, reversed, on its old stack |
| HashTables.HashTable.Store | include/bitcoin/database/impl/slab_hash_table.ipp:41-74 | the table as a map of stacks gains the value on its key's stack and changes nowhere else, other keys of the bucket included; the new row has the key and the value, and all other rows stand |
| HashTables.HashTable.Find | include/bitcoin/database/impl/slab_hash_table.ipp:111-138 | finds the newest row of a key, and none exactly when the key is absent; the walk ends |
| HashTables.HashTable.Unlink | include/bitcoin/database/impl/slab_hash_table.ipp:141-182 | on a non-empty bucket pops exactly the newest value of the key, and reports exactly whether it was there; all rows keep key and value |
| HashTables.HashTable.ForEach | include/bitcoin/database/impl/slab_hash_table.ipp:226-259 | visits a first part of all linked rows, each of them once and all of them unless the callback stops it |
| HashTables.HashTable.Write | include/bitcoin/database/impl/record_multimap.ipp:68-94 | writing through a found row replaces the newest value of its key alone |
| HashTables.TableStored | include/bitcoin/database/impl/record_hash_table.ipp:41-67 | linking a fresh row at the head of its bucket keeps chains acyclic and disjoint and pushes its value |
| HashTables.TableCut | include/bitcoin/database/impl/record_hash_table.ipp:100-141 | bridging over the newest row of a key, at the head or further on, keeps all chains and pops its stack |
| HashTables.TablePatched | include/bitcoin/database/impl/record_multimap.ipp:68-94 | overwriting the value of the newest row of a key patches its stack alone |
| HashTables.FlattenDistinct | include/bitcoin/database/impl/slab_hash_table.ipp:226-259 | no row is linked twice, in one bucket or in two |
| RecordMultimaps.RecordMultimap.AddRow | include/bitcoin/database/impl/record_multimap.ipp:52-66 | pushes a row for its key alone |
| RecordMultimaps.RecordMultimap.CreateNew | include/bitcoin/database/impl/record_multimap.ipp:134-154 | a first row makes the key appear |
| RecordMultimaps.RecordMultimap.AddToList | include/bitcoin/database/impl/record_multimap.ipp:68-94 | a further row goes in front of the key's others |
| RecordMultimaps.RecordMultimap.DeleteLastRow | include/bitcoin/database/impl/record_multimap.ipp:97-132 | pops a key's newest row, and the key with its last one; fails exactly when the key has none |
| RecordMultimaps.RecordMultimap.AddThenDelete | include/bitcoin/database/impl/record_multimap.ipp:97-132 | deleting after adding restores the rows of every key |
| RecordMultimaps.RecordMultimap.Lookup | include/bitcoin/database/impl/record_multimap.ipp:35-50 | the start of the key's list, or the sentinel when it has no rows |
| RecordMultimaps.RecordMultimap.Iterate | src/primitives/record_list.cpp:56-63 | following links from a lookup yields the key's rows, newest first, and ends |
| RecordMultimaps.RowInserted | src/primitives/record_list.cpp:44-54 | a row inserted before a list is the list with one row in front |
| RecordMultimaps.RowDeleted | include/bitcoin/database/impl/record_multimap.ipp:97-132 | moving a head to the next row, or dropping it with the last one, pops the key's rows |
| ConcurrentTables.StepInv | include/bitcoin/database/impl/record_hash_table.ipp:41-67 | every single step of every writer and reader keeps chains acyclic, rows linked once, and readers on their chains; only the head write is visible |
| ConcurrentTables.EveryRun | include/bitcoin/database/impl/slab_hash_table.ipp:41-74 | over any interleaving the table is at any time the sequential result of the stores linked so far, and linked rows stay where they are |
| ConcurrentTables.EverySearch | include/bitcoin/database/impl/slab_hash_table.ipp:111-138 | a search answers what a search in one step would have answered when it began: the newest row that its key had then, or none; it ends within twice the chain it found plus one steps of its own, whatever others do |
| ConcurrentTables.NewestPeek | include/bitcoin/database/impl/slab_hash_table.ipp:111-138 | the newest linked row of a key holds what a lookup in the map of stacks returns |
| ConcurrentTables.SearchProgress | include/bitcoin/database/impl/record_hash_table.ipp:70-97 | an unfinished search can always take its next step |
| ConcurrentTables.InitInv | include/bitcoin/database/impl/hash_table_header.ipp:52-76 | an empty table with all threads at rest meets the invariant |
| ConcurrentMultimaps.WholeCalls | include/bitcoin/database/impl/record_multimap.ipp:52-94 | with every access a step of its own, several workers that add rows leave what some merge of whole calls leaves, under every schedule, if and only if no two workers add under one key |
| ConcurrentMultimaps.EveryRun | include/bitcoin/database/impl/record_multimap.ipp:52-94 | without a common key the multimap is at any time the result of the rows linked so far, in the order of their linking steps |
| ConcurrentMultimaps.StepSteady | include/bitcoin/database/impl/record_multimap.ipp:68-94 | without a common key no step of another worker makes what a worker has found or read obsolete |
| ConcurrentMultimaps.LostRow | include/bitcoin/database/impl/record_multimap.ipp:68-94 | with a common key some run ends with one row less under it than any merge of whole calls, in front of all older rows |
| ConcurrentMultimaps.Race | include/bitcoin/database/impl/record_multimap.ipp:68-94 | two workers that read before either writes leave only the row of the second to write in front of what both had read |
| HistorySteps.BlockBySteps | src/data_base.cpp:757-764 | a block that several workers push leaves tables of the longer chain under every schedule of the steps of `add_row` if and only if each address has its indexed transactions with one worker |
| HistorySteps.HistoryBySteps | src/data_base.cpp:757-764 | the steps leave the histories that one pass in order leaves, under every schedule, under the same condition and no weaker one |
| HistorySteps.OwnAddresses | src/data_base.cpp:757-764 | the workers of a block add rows under keys of their own if and only if each address has its indexed transactions with one worker |
| HistorySteps.RowLost | src/data_base.cpp:757-764 | otherwise some run loses a row of an address, and deleting what the block gives it also deletes its newest older row |
| StepExamples.SecondLosesRow | src/data_base.cpp:757-764 | two workers push the second example block on the first: a row of address 7 is lost, and popping the block leaves the address without the row that the first block gave it |
| ConcurrentUnlinks.WholeUnlinks | include/bitcoin/database/impl/slab_hash_table.ipp:141-182 | with every access a step of its own, several workers that unlink rows of one bucket leave exactly the other rows linked, under every schedule, if and only if no two workers unlink neighbours in the chain |
| ConcurrentUnlinks.StepInv | include/bitcoin/database/impl/slab_hash_table.ipp:141-182 | without such neighbours every step keeps the chain one of exactly the rows that are still due, and each worker in front of a row that stays until its own is gone |
| ConcurrentUnlinks.StillLinked | include/bitcoin/database/impl/slab_hash_table.ipp:141-182 | with such neighbours some run leaves the second of them linked |
| StepExamples.RowStays | src/databases/transaction_unconfirmed_database.cpp:166-174 | two workers unlink the two rows of a bucket, and one row stays |
| TransactionSlabs.Spend | src/databases/transaction_database.cpp:269-291 | for any outputs and scripts: fails exactly beyond the last output, and otherwise changes exactly the four bytes of that output's spender height, so the slab reads as the transaction with that one field changed |
| TransactionSlabs.SpendThenUnspend | src/databases/transaction_database.cpp:293-296 | unspending after spending restores the bytes of a slab whose output was unspent |
| TransactionSlabs.IsSpent | src/result/transaction_result.cpp:85-119 | holds if and only if the transaction is confirmed and every output's spender height is set and at most the fork height |
| TransactionSlabs.OutputOf | src/result/transaction_result.cpp:122-147 | reads the output of an index, and none beyond the last |
| TransactionSlabs.Place | src/databases/transaction_database.cpp:298-315 | writing height and position changes those two fields alone |
| TransactionSlabs.Seek | src/databases/transaction_database.cpp:272-286 | the walk ends where the output of the index starts |
| TransactionSlabs.ReadOutput | src/result/transaction_result.cpp:122-147 | every word of every output reads back as what was written, at its computed offset |
| TransactionSlabs.ReadHead | src/databases/transaction_database.cpp:226-233 | height, position and output count read back as written |
| TransactionSlabs.SizeRoundTrip | src/databases/transaction_database.cpp:273-286 | a size prefix is read back, and its width recognised, whatever surrounds it |
| TransactionSlabs.SpentBytes | src/databases/transaction_database.cpp:288-290 | overwriting the first word of an output re-encodes the transaction with that output changed |
| TransactionSlabs.SpendSlab | src/databases/transaction_database.cpp:269-291 | bytes that hold a slab of the transaction table hold, after a spend, the slab that the table has after it |
| TransactionSlabs.PlaceSlab | src/databases/transaction_database.cpp:298-315 | ... and so after a confirmation or its undoing |
| TransactionSlabs.IsSpentSlab | src/result/transaction_result.cpp:85-119 | the walk over the bytes answers what the table answers |
| TransactionSlabs.OutputOfSlab | src/result/transaction_result.cpp:122-147 | the output read from the bytes is the slab's, with the address of its script |
| BlockSlabs.BlockRoundTrip | src/result/block_result.cpp:90-136 | height, transaction count and every transaction hash read back as stored, and the slab has the size allocated for it |
| BlockSlabs.JoinedAt | src/result/block_result.cpp:126-136 | hash number i of a block is i hash sizes behind the first |
| MemoryMaps.Resized | src/memory/memory_map.cpp:339-379 | a file never shrinks on a request, grows exactly when the request exceeds it, then to the request and the given percentage of it more, rounded down, keeps its bytes and gains zeros |
| MemoryMaps.MemoryMap.Grow | src/memory/memory_map.cpp:339-379 | fails exactly on a closed file, and otherwise records the size asked for and makes the file long enough |
| MemoryMaps.MemoryMap.Close | src/memory/memory_map.cpp:248-291 | cuts the file to the size asked for last, once |
| HashTableHeaders.HashTableHeader.Create | include/bitcoin/database/impl/hash_table_header.ipp:52-76 | fails exactly without buckets or on a closed file; otherwise the count is written and every bucket holds the sentinel |
| HashTableHeaders.HashTableHeader.Start | include/bitcoin/database/impl/hash_table_header.ipp:80-97 | passes exactly when the file holds the bucket array and, unless none is expected, the expected count |
| HashTableHeaders.HashTableHeader.Read | include/bitcoin/database/impl/hash_table_header.ipp:100-114 | reads the position in a bucket, inside the file |
| HashTableHeaders.HashTableHeader.Write | include/bitcoin/database/impl/hash_table_header.ipp:117-133 | changes one bucket, no other bucket and no other byte |
| HashTableHeaders.EmptyLargest | include/bitcoin/database/impl/hash_table_header.ipp:30-37 | the sentinel is the largest number of its width |
| HashTableHeaders.FilledEmpty | include/bitcoin/database/impl/hash_table_header.ipp:67-70 | bytes of ones read as the sentinel |
| HashTableHeaders.HeaderPlaced | include/bitcoin/database/impl/hash_table_header.ipp:142-146 | the count and the buckets follow each other without overlap |
| Regions.PlacedApart | src/primitives/slab_manager.cpp:109-124 | of regions placed one after the other no two overlap |
| SlabManagers.SlabManager.Create | src/primitives/slab_manager.cpp:54-70 | refused exactly when the manager already holds slabs; otherwise the size word is written and the header's bytes are kept |
| SlabManagers.SlabManager.Start | src/primitives/slab_manager.cpp:72-84 | takes the payload size on file and passes exactly when the file is that long |
| SlabManagers.SlabManager.Sync | src/primitives/slab_manager.cpp:86-94 | the size on file is the manager's, and every slab keeps its bytes |
| SlabManagers.SlabManager.NewSlab | src/primitives/slab_manager.cpp:109-124 | a slab behind all others, inside the logical file, with all bytes of the file kept; fails exactly on a closed file |
| SlabManagers.SlabFileLayout | src/primitives/slab_manager.cpp:28-40 | count, buckets, size word and slabs are pairwise disjoint and inside the logical file |
| SlabManagers.SlabPositions | src/primitives/slab_manager.cpp:107-124 | no slab is at position 0, at the sentinel of an empty bucket, or where another one is |
| SlabManagers.Restart | src/memory/memory_map.cpp:248-291 | after sync and close, opening passes both checks with the same buckets, the same slabs and the same bytes in them |
| RecordManagers.RecordManager.Create | src/primitives/record_manager.cpp:56-72 | refused exactly when the manager already holds records; otherwise the count word is written |
| RecordManagers.RecordManager.Start | src/primitives/record_manager.cpp:74-86 | takes the count on file and passes exactly when the file has room for so many records |
| RecordManagers.RecordManager.Sync | src/primitives/record_manager.cpp:88-96 | the count on file is the manager's, and every record keeps its bytes |
| RecordManagers.RecordManager.SetCount | src/primitives/record_manager.cpp:108-118 | gives back the last records, and the file still has room for the others |
| RecordManagers.RecordManager.NewRecords | src/primitives/record_manager.cpp:122-138 | the next numbers after the count, whatever was given back, with room in the logical file and all bytes kept |
| RecordManagers.RecordManager.RecordPosition | src/primitives/record_manager.cpp:176-184 | record numbers and positions determine each other |
| RecordManagers.RecordFileLayout | src/primitives/record_manager.cpp:28-40 | count, buckets, count word and records are pairwise disjoint and inside the logical file, and record numbers stay below the sentinel |
| RecordManagers.Restart | src/primitives/record_manager.cpp:74-96 | opening as the file stands passes if and only if the count on file fits the size asked for last |
| RecordManagers.RestartTable | src/primitives/record_manager.cpp:74-96 | after sync and close, opening a table of records passes both checks with the same buckets, the same count and the same bytes in every record |
| RecordManagers.UnsyncedRestartFails | src/primitives/record_manager.cpp:108-138 | in a file of one byte, as the store makes it: three synced records, all given back and one handed out again without a sync: the file does not pass |
| SlabTables.SlabTable.Store | include/bitcoin/database/impl/slab_hash_table.ipp:41-74 | on the bytes of the file: the table that they read as gains the value on its key's stack and nothing else; at the returned offset the value starts, behind its key, and all other rows stand |
| SlabTables.SlabTable.Find | include/bitcoin/database/impl/slab_hash_table.ipp:111-138 | on the bytes: finds the newest row of a key, and none exactly when the key is absent |
| SlabTables.SlabTable.Unlink | include/bitcoin/database/impl/slab_hash_table.ipp:141-182 | on the bytes: pops exactly the newest value of the key, and reports exactly whether it was there; all rows keep key and value |
| SlabTables.SlabTable.Release | include/bitcoin/database/impl/slab_hash_table.ipp:207-214 | on the bytes: bridging over a key's newest row pops its stack |
| SlabTables.SlabTable.Reopen | src/databases/transaction_database.cpp:84-104 | a table that was synced, closed and opened again is the same map of stacks, with the same rows at the same positions |
| SlabTables.SlabTable.KeyBefore | src/databases/block_database.cpp:147-157 | backing up from a value reads the key that was stored in front of it |
| SlabTables.CreateTable | src/databases/transaction_database.cpp:63-80 | a new file passes its own checks, exactly when it is not empty and there are buckets, and reads as the empty table |
| SlabTables.SlabTable.Create | include/bitcoin/database/impl/slab_row.ipp:87-107 | a new slab adds one row with that key and value, and changes no other row and no bucket |
| SlabTables.SlabTable.SetNext | include/bitcoin/database/impl/slab_row.ipp:167-177 | writing a link changes the link of one row, no other row and no bucket |
| SlabTables.SlabTable.SetHead | include/bitcoin/database/impl/slab_hash_table.ipp:202-205 | writing a bucket changes that bucket and no row |
| SlabTables.SlabTable.Compare | include/bitcoin/database/impl/slab_row.ipp:128-132 | whether a row has a key |
| SlabTables.SlabTable.NextPosition | include/bitcoin/database/impl/slab_row.ipp:154-164 | the link of a row |
| SlabTables.RowsLinked | include/bitcoin/database/impl/slab_row.ipp:110-125 | eight bytes written at a row's link change that row's link in the map of all rows |
| SlabTables.RowsCreated | include/bitcoin/database/impl/slab_row.ipp:87-107 | key and value written into the newest slab of a grown file add one row to the map of all rows |

## Left out

- Memory mapping calls, page sizes, remap locks and accessors: operating system matters; only the size arithmetic is kept, with the expansion as an integer percentage and without the 64-bit overflow that the source leaves as a TODO.
- Flush lock, interprocess lock and sequential lock, `begin_write` and `end_write`: their code is not part of this repository; `handle_push` also releases the write mutex before `end_write`.
- Asynchronous dispatch: callbacks are modelled as loops and calls in their order.
- DataBases.DataBase.DoPush: the workers interleave by whole calls on the tables, in any order that keeps each worker's own. Their single steps are those of `ConcurrentTables` for stores and searches, `ConcurrentMultimaps` for `add_row` and `ConcurrentUnlinks` for `unlink`, with the exact conditions under which they come to whole calls.
- `delete_last_row` step by step: only a pop calls it, and a pop has one worker.
- Steps of different tables in one state machine: the tables share no word, so each has its own.
- DataBases.DataBase.Push: assumes a well-formed block when the three checks pass, since validation happens before the store is called; the same holds for `DoPush`, `PushAll` and `Reorganize`.
- DataBases.DataBase.PushPooled: the transaction arrives with unspent outputs and the content its hash stands for.
- Allocation beyond the sentinel, 2^32 - 1 records or 2^64 bytes: a precondition of the allocating operations. The tables inside `DataBase` start their positions above a sentinel of zero, so they are never full.
- The tables inside `DataBase` consist of rows, not of bytes; `SlabTables` is a second refinement of the same maps of stacks.
- HashTables.HashTable.Unlink: an empty bucket is a precondition violation, since the source reads its first row unconditionally.
- BlockDatabases.BlockDatabase.GetAt: reading a height in a gap is a precondition violation; the source reads the slab at position 0.
- SlabTables: the byte layout is proved for tables of slabs; tables of records differ in the width of links and in row numbers instead of positions, and only their files are modelled (`RecordManagers.RestartTable`).
- Indexes.HistoryDatabase.AddInput: the row keeps the previous point itself, while the source stores an eight-byte checksum of it; collisions of that checksum are not modelled.
- What the cache holds after a push or a pop of a block: stated where it changes, at `TransactionDatabase.Store` and `Spend`; the store states its soundness, and that a pop leaves it alone.
- Cache agreement across reorganizations: the source does not keep it, see `TransactionDatabase.Unconfirm`; the chain theorems read the slabs.
- `insert` of blocks out of order into the chain: the block table is modelled with gaps, the chain runs without.
- Stealth rows: append-only and never undone.
- Scripts, addresses, hashing and serialization of headers and inputs: uninterpreted; an output or input carries the address that would be extracted, a header its hash and its predecessor, and slabs carry these parts as opaque bytes of arbitrary length.
- Header fields version, time and bits of a stored block: plain reads inside the opaque header.
- `get_output_is_confirmed`, the cache's hit rate, statistics, settings, logging, tools: easy members or floating point.
- `slab_hash_table::update`: no caller in this repository.
- Debug assertions: the branch for a pooled transaction that is not found falls through to a new slab, as in a release build.
