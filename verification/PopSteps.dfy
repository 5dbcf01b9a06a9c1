/** What popping the top block does to the tables of a store that holds a chain. */
module PopSteps {
  import opened Wrappers
  import opened StackMaps
  import opened ChainTypes
  import opened ChainModel
  import opened ChainState
  import opened BlockDatabases
  import opened TransactionTable
  import opened Tables
  import opened TableWrites
  import opened HistoryLogs
  import opened PushSteps

  /** A block that was read back from the top of a chain. */
  ghost predicate Returned(out: Block, chain: seq<Block>, content: Hash -> Tx) {
    && chain != []
    && IsReread(out, chain[|chain| - 1], Marks(Flat(chain)))
    && forall i :: 0 <= i < |out.txs| ==> Clean(out.txs[i]) == content(out.txs[i].hash)
  }

  // ---------------------------------------------------------------------- histories

  lemma {:induction false} NoRowsLeft(rows: Histories, e: Entry)
    ensures PopItems(rows, OutputRows(e, 0)) == rows && PopItems(rows, InputRows(e, 0)) == rows
  {
  }

  lemma {:induction false} NothingLeft(rows: Histories, g: Entry -> seq<Item<Address, HistoryRow>>)
    ensures PopItems(rows, Expand([], g)) == rows
  {
  }

  lemma {:induction false} NoneRepooled(pool: Pool)
    ensures Repooled(pool, []) == pool
  {
  }

  /** Backwards the rows of the outputs come first. */
  lemma {:induction false} RowsBackwards(rows: Histories, e: Entry, start: nat)
    ensures PopItems(rows, HistoryOf(start)(e)) ==
            if e.height < start then rows
            else PopItems(PopItems(rows, OutputRows(e, |e.tx.outputs|)), InputRows(e, |Spending(e)|))
  {
    PopItemsConcat(rows, InputRows(e, |Spending(e)|), OutputRows(e, |e.tx.outputs|));
  }

  // --------------------------------------------------------------------- the parent

  /** The output that input i spends is confirmed below it, and no other input up to
      then spends it. */
  lemma {:induction false} ParentAt(es: seq<Entry>, e: Entry, i: nat)
    requires Fits(es, e) && i < |Spending(e)| && forall f :: f in es ==> f.height <= NOT_SPENT
    ensures var p := Spending(e)[i].prev;
            && p.hash in Confirmed(es) && p.index < |Confirmed(es)[p.hash].tx.outputs|
            && Confirmed(es)[p.hash].height <= NOT_SPENT && p !in MarkInputs(Marks(es), e, i)
  {
    hide Confirmed, Marks, MarkInputs;
    assert SpendFits(es, e, i);
    ConfirmedFrom(es, Spending(e)[i].prev.hash);
  }

  /** The transaction that is popped next. */
  lemma {:induction false} NextPopped(rows: Histories, pool: Pool, es: seq<Entry>, fs: seq<Entry>, txs: seq<Tx>, i: nat,
                                      start: nat)
    requires Consistent(es + fs) && i < |fs| == |txs|
    ensures es + fs[..i + 1] == (es + fs[..i]) + [fs[i]] && Consistent((es + fs[..i]) + [fs[i]])
    ensures forall e :: e in es + fs[..i] ==> e in es + fs
    ensures PopItems(rows, Expand(fs[..i + 1], HistoryOf(start))) ==
            PopItems(PopItems(rows, HistoryOf(start)(fs[i])), Expand(fs[..i], HistoryOf(start)))
    ensures Repooled(pool, txs[i..]) == Push(Repooled(pool, txs[i + 1..]), txs[i].hash, txs[i])
  {
    hide Consistent, PopItems, Expand, HistoryOf, Repooled, Push;
    ConsistentPrefix(es + fs, |es| + i + 1);
    assert (es + fs)[..|es| + i + 1] == es + fs[..i + 1] == (es + fs[..i]) + [fs[i]];
    assert fs[..i + 1] == fs[..i] + [fs[i]];
    ExpandLast(fs[..i], fs[i], HistoryOf(start));
    PopItemsConcat(rows, Expand(fs[..i], HistoryOf(start)), HistoryOf(start)(fs[i]));
    RepooledStep(pool, txs, i);
  }

  lemma {:induction false} ReforkedStep(forks: map<Hash, nat>, txs: seq<Tx>, i: nat, unverified: nat)
    requires i < |txs|
    ensures Reforked(forks, HashesIn(txs[i..]), unverified) ==
            Reforked(forks, HashesIn(txs[i + 1..]), unverified)[txs[i].hash := unverified]
  {
    var some, more := txs[i + 1..], txs[i..];
    forall h ensures h in HashesIn(more) <==> h in HashesIn(some) || h == txs[i].hash {
      if h in HashesIn(some) {
        var k :| 0 <= k < |some| && some[k].hash == h;
        assert more[k + 1].hash == h;
      }
      if k :| 0 <= k < |more| && more[k].hash == h {
        assert k > 0 ==> some[k - 1].hash == h;
      }
      assert more[0] == txs[i];
    }
  }

  lemma {:induction false} NoneReforked(forks: map<Hash, nat>, unverified: nat)
    ensures Reforked(forks, HashesIn([]), unverified) == forks
  {
  }

  lemma {:induction false} SpentForks(t: Slabs, p: Point, height: nat)
    ensures Spendable(t, p, height) ==>
              p.hash in t && p.index < |t[p.hash][0].tx.outputs| && Forks(WithSpender(t, p, height)) == Forks(t)
  {
    if Spendable(t, p, height) {
      ForksSpent(t, p, height);
    }
  }

  /** The newest slab of a transaction that a pop took back: it is in no block, compels
      a new validation, and nothing spends it. */
  ghost predicate TakenBack(slab: Option<Slab>, tx: Tx, unverified: nat) {
    && slab.Some? && slab.value.position == UNCONFIRMED && slab.value.height == unverified
    && Clean(slab.value.tx) == Clean(tx)
    && forall j :: 0 <= j < |slab.value.tx.outputs| ==> slab.value.tx.outputs[j].spender == NOT_SPENT
  }

  lemma {:induction false} ForksTaken(s: TableState, log: seq<Rows>, chain: seq<Block>, start: nat, content: Hash -> Tx,
                                      tx: Tx, unverified: nat)
    requires Holding(s, log, chain, start, content)
    requires tx.hash in Forks(s.slabs) && Forks(s.slabs)[tx.hash] == unverified && Clean(tx) == content(tx.hash)
    ensures TakenBack(Peek(s.slabs, tx.hash), tx, unverified)
  {
    hide Mirrors, Logged, SpendTable, Confirmed, Marks, Flat, Clean;
    var confirmed := Confirmed(Flat(chain));
    assert Seen(s.slabs[tx.hash][0], tx.hash, confirmed, Marks(Flat(chain)), {}, 0, content);
  }

  // ---------------------------------------------------------------------- the block

  /** The top block of a chain that the tables hold. */
  lemma {:induction false} BeforePop(s: TableState, log: seq<Rows>, chain: seq<Block>, start: nat, content: Hash -> Tx)
    requires ValidChain(chain) && chain != [] && Holding(s, log, chain, start, content)
    ensures var n := |chain| - 1;
            var es, fs := Flat(chain[..n]), BlockEntries(chain[n], n);
            && Flat(chain) == es + fs && Consistent(es + fs)
            && |log| == |chain| && TxHashes(chain[n].txs) == HashesOf(fs)
            && (forall e :: e in es + fs ==> e.height < NOT_SPENT)
            && Shows(s.slabs, s.pool, Confirmed(es + fs), Marks(es + fs), {}, 0, content)
            && s.spends == SpendTable(es + fs, start)
  {
    hide Shows, Confirmed, Marks, Consistent, SpendTable, Linked;
    LastEntries(chain);
  }

  /** What is left once its transactions are taken back. */
  lemma {:induction false} AfterPop(s: TableState, s': TableState, log: seq<Rows>, chain: seq<Block>, start: nat,
                                    content: Hash -> Tx)
    requires ValidChain(chain) && chain != [] && Holding(s, log, chain, start, content)
    requires var n := |chain| - 1;
             var es, fs := Flat(chain[..n]), BlockEntries(chain[n], n);
             && Shows(s'.slabs, s'.pool, Confirmed(es), Marks(es), {}, 0, content)
             && s'.spends == SpendTable(es, start)
             && s'.rows == PopItems(s.rows, Expand(fs, HistoryOf(start)))
    ensures var n := |chain| - 1;
            && ValidChain(chain[..n]) && |log| == |chain|
            && Holding(s', log[..n], chain[..n], start, content)
            && (InOrder(s.rows, chain, start) ==> InOrder(s'.rows, chain[..n], start))
  {
    hide ValidChain, Shows, Flat, Confirmed, Marks, SpendTable, PopItems, Expand, InOrder;
    ValidPopped(chain);
    LoggedPopped(s.rows, log, chain, start);
    if InOrder(s.rows, chain, start) {
      InOrderPopped(s.rows, chain, start);
    }
  }

  /** The block as it is returned. */
  lemma {:induction false} BlockReturned(chain: seq<Block>, slab: BlockSlab, txs: seq<Tx>, content: Hash -> Tx)
    requires chain != [] && slab == SlabOf(chain[|chain| - 1], |chain| - 1)
    requires |txs| == |chain[|chain| - 1].txs|
    requires forall k :: 0 <= k < |txs| ==>
               && TxReread(txs[k], chain[|chain| - 1].txs[k], Marks(Flat(chain)))
               && Clean(txs[k]) == content(txs[k].hash)
    ensures Returned(Block(slab.header, txs), chain, content)
  {
  }

  // ----------------------------------------------------------------- there and back

  /** Two states show the same confirmed slabs with all spender heights, the same
      spends and, up to the order of rows, the same histories. */
  ghost predicate SameViews(s: TableState, s': TableState) {
    && s'.spends == s.spends
    && (forall h :: IsConfirmed(s'.slabs, h) <==> IsConfirmed(s.slabs, h))
    && (forall h :: IsConfirmed(s'.slabs, h) ==> Peek(s'.slabs, h) == Peek(s.slabs, h))
    && (forall a: Address :: multiset(Stack(s'.rows, a)) == multiset(Stack(s.rows, a)))
  }

  /** The chain decides what is seen, whichever runs and workers led to it. */
  lemma {:induction false} SameHolding(s: TableState, log: seq<Rows>, s': TableState, log': seq<Rows>,
                                       chain: seq<Block>,
                                       start: nat, content: Hash -> Tx)
    requires Holding(s, log, chain, start, content) && Holding(s', log', chain, start, content)
    ensures SameViews(s, s')
    ensures InOrder(s.rows, chain, start) && InOrder(s'.rows, chain, start) ==> s'.rows == s.rows
    ensures log == log' ==> s'.rows == s.rows
  {
    hide Shows, Confirmed, Marks, Flat, SpendTable, HistoryTable, HistoryScan, ValuesOf, Logged, Stack, Peek,
         IsConfirmed;
    SameLog(s.rows, log, s'.rows, log', chain, start);
    SameTables(s.slabs, s.pool, s'.slabs, s'.pool, Flat(chain), content);
    forall a: Address ensures multiset(Stack(s'.rows, a)) == multiset(Stack(s.rows, a)) {
      HistoryAgreement(s.rows, log, chain, start, a);
      HistoryAgreement(s'.rows, log', chain, start, a);
    }
  }

  lemma {:induction false} SameLog(rows: Histories, log: seq<Rows>, rows': Histories, log': seq<Rows>,
                                   chain: seq<Block>,
                                   start: nat)
    requires Logged(rows, log, chain, start) && Logged(rows', log', chain, start)
    ensures |log| == |log'| == |chain|
    ensures log == log' ==> rows == rows'
  {
  }

  lemma {:induction false} LogLength(s: TableState, log: seq<Rows>, chain: seq<Block>, start: nat, content: Hash -> Tx)
    requires Holding(s, log, chain, start, content)
    ensures |log| == |chain|
  {
  }

  /** The block comes back as it was, and the pool holds its transactions. */
  lemma {:induction false} BackAgain(s: TableState, log: seq<Rows>, chain: seq<Block>, b: Block, out: Block, start: nat,
                                     content: Hash -> Tx)
    requires Holding(s, log, chain, start, content)
    requires ValidChain(chain + [CleanBlock(b)]) && Returned(out, chain + [CleanBlock(b)], content)
    ensures CleanBlock(out) == CleanBlock(b)
    ensures var pool := Repooled(Unpooled(s.pool, BlockEntries(CleanBlock(b), |chain|)), out.txs);
            && (forall i :: 0 <= i < |out.txs| ==> Stack(pool, out.txs[i].hash) == [out.txs[i]])
            && forall h :: (forall i :: 0 <= i < |out.txs| ==> out.txs[i].hash != h) ==> Stack(pool, h) == Stack(s.pool, h)
  {
    hide Holds, Linked, Logged, SpendTable, Confirmed, Marks, Consistent, Clean, IsReread, Stack, Unpooled, Repooled,
         Flat;
    var longer := chain + [CleanBlock(b)];
    assert longer[|longer| - 1] == CleanBlock(b);
    RereadWellFormed(chain, CleanBlock(b), out, content);
    FlatAppend(chain, CleanBlock(b));
    SameHashes(out, b, |chain|);
    PoolThereAndBack(s.pool, s.slabs, Flat(chain), BlockEntries(CleanBlock(b), |chain|), out.txs);
  }

  lemma {:induction false} SameHashes(out: Block, b: Block, height: nat)
    requires CleanBlock(out) == CleanBlock(b)
    ensures var fs := BlockEntries(CleanBlock(b), height);
            |out.txs| == |fs| && forall i :: 0 <= i < |out.txs| ==> out.txs[i].hash == fs[i].tx.hash
  {
    forall i | 0 <= i < |out.txs| ensures out.txs[i].hash == CleanBlock(b).txs[i].hash {
      assert CleanBlock(out).txs[i].hash == out.txs[i].hash;
    }
  }
}
