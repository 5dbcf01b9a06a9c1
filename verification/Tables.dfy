/** How each write of the store moves its tables along the chain. The steps are
    told on values; the store's methods perform them in place. */
module Tables {
  import opened Wrappers
  import opened StackMaps
  import opened ChainTypes
  import opened ChainModel
  import opened TransactionTable

  type Pool = StackMap<Hash, Tx>
  type Spends = StackMap<Point, Point>
  type Histories = StackMap<Address, HistoryRow>

  /** The transaction and pool tables for a set of confirmed transactions. */
  ghost predicate Shows(t: Slabs, pool: Pool, confirmed: map<Hash, Entry>, marks: map<Point, nat>,
                        pending: set<Point>, height: nat, content: Hash -> Tx)
  {
    Holds(t, confirmed, marks, pending, height, content) && Mirrors(pool, t)
  }

  // -------------------------------------------------------------------- pushing

  /** An output may be stored as spent only if this block is about to mark it. */
  predicate Arrives(tx: Tx, pending: set<Point>, height: nat) {
    forall j :: 0 <= j < |tx.outputs| ==>
      || tx.outputs[j].spender == NOT_SPENT
      || (Point(tx.hash, j) in pending && tx.outputs[j].spender == height)
  }

  lemma {:induction false} ShowsPushed(t: Slabs, pool: Pool, es: seq<Entry>, marks: map<Point, nat>,
                                       pending: set<Point>,
                    height: nat, content: Hash -> Tx, tx: Tx, position: nat)
    requires Shows(t, pool, Confirmed(es), marks, pending, height, content)
    requires tx.hash !in Confirmed(es) && Clean(tx) == content(tx.hash) && position != UNCONFIRMED
    requires Arrives(tx, pending, height)
    ensures Shows(Stored(t, tx, height, position), Pop(pool, tx.hash),
                  Confirmed(es + [Entry(height, position, Clean(tx))]), marks, pending, height, content)
  {
    hide Holds, Mirrors, Stored, Pop;
    Append(es, Entry(height, position, Clean(tx)), 0);
    HoldsStored(t, Confirmed(es), marks, pending, height, content, tx, position);
    MirrorsStored(pool, t, tx, height, position);
  }

  /** Marking input i of a chain transaction: its output is there, and the mark
      takes the table one step along. */
  lemma {:induction false} ShowsMarked(t: Slabs, pool: Pool, confirmed: map<Hash, Entry>, marks: map<Point, nat>,
                                       pending: set<Point>,
                    height: nat, content: Hash -> Tx, p: Point)
    requires Shows(t, pool, confirmed, marks, pending, height, content)
    requires p.hash in confirmed && p.index < |confirmed[p.hash].tx.outputs|
    requires confirmed[p.hash].height <= height
    ensures Spendable(t, p, height)
    ensures Shows(WithSpender(t, p, height), pool, confirmed, marks[p := height], pending, height, content)
  {
    hide Holds, Mirrors, WithSpender;
    HoldsSpendable(t, confirmed, marks, pending, height, content, p, height);
    HoldsMarked(t, confirmed, marks, pending, height, content, p, height, marks[p := height]);
    MirrorsMarked(pool, t, p, height);
  }

  lemma {:induction false} ShowsSettled(t: Slabs, pool: Pool, confirmed: map<Hash, Entry>, marks: map<Point, nat>,
                     height: nat, content: Hash -> Tx)
    requires Shows(t, pool, confirmed, marks, marks.Keys, height, content)
    ensures Shows(t, pool, confirmed, marks, {}, 0, content)
  {
    HoldsSettled(t, confirmed, marks, marks.Keys, height, content);
  }

  lemma {:induction false} ShowsPending(t: Slabs, pool: Pool, confirmed: map<Hash, Entry>, marks: map<Point, nat>,
                     pending: set<Point>, height: nat, content: Hash -> Tx)
    requires Shows(t, pool, confirmed, marks, {}, 0, content)
    ensures Shows(t, pool, confirmed, marks, pending, height, content)
  {
    HoldsPending(t, confirmed, marks, pending, height, content);
  }

  // -------------------------------------------------------------------- popping

  /** Unmarking: the reverse of a mark, possible while the parent is confirmed. */
  lemma {:induction false} ShowsUnmarked(t: Slabs, pool: Pool, confirmed: map<Hash, Entry>, marks: map<Point, nat>,
                      height: nat, content: Hash -> Tx, p: Point)
    requires p !in marks
    requires Shows(t, pool, confirmed, marks[p := height], {}, 0, content)
    requires p.hash in confirmed && p.index < |confirmed[p.hash].tx.outputs|
    requires confirmed[p.hash].height <= NOT_SPENT
    ensures Spendable(t, p, NOT_SPENT)
    ensures Shows(WithSpender(t, p, NOT_SPENT), pool, confirmed, marks, {}, 0, content)
  {
    hide Holds, Mirrors, WithSpender;
    var before := marks[p := height];
    assert before.Keys - {p} == marks.Keys - {p};
    HoldsSpendable(t, confirmed, before, {}, 0, content, p, NOT_SPENT);
    HoldsMarked(t, confirmed, before, {}, 0, content, p, NOT_SPENT, marks);
    MirrorsMarked(pool, t, p, NOT_SPENT);
  }

  /** Unconfirming the newest transaction and pooling what was read of it. */
  lemma {:induction false} ShowsUnplaced(t: Slabs, pool: Pool, es: seq<Entry>, e: Entry, marks: map<Point, nat>,
                      content: Hash -> Tx, forks: nat, tx: Tx)
    requires Shows(t, pool, Confirmed(es + [e]), marks, {}, 0, content)
    requires e.tx.hash !in Confirmed(es)
    requires forall p :: p in marks ==> p.hash in Confirmed(es)
    requires tx.hash == e.tx.hash && Clean(tx) == e.tx
    ensures tx.hash in t
    ensures Shows(WithPlace(t, tx.hash, forks, UNCONFIRMED), Push(pool, tx.hash, tx), Confirmed(es), marks, {}, 0, content)
  {
    Append(es, e, 0);
    assert Confirmed(es + [e])[tx.hash] == e;
    assert RowAgrees(t[tx.hash][0], e, marks, {}, 0);
    hide Mirrors, WithPlace, Push;
    HoldsUnplaced(t, Confirmed(es), marks, content, e, forks);
    MirrorsUnplaced(pool, t, tx, forks);
  }

  lemma {:induction false} SpendUnstep(m: Spends, e: Entry, k: nat)
    requires k < |Spending(e)|
    ensures Pop(PushItems(m, SpendItems(e, k + 1)), Spending(e)[k].prev) == PushItems(m, SpendItems(e, k))
  {
    hide PushItems, Push, Pop, SpendItems;
    SpendStep(m, e, k);
    PopAfterPush(PushItems(m, SpendItems(e, k)), Spending(e)[k].prev, Point(e.tx.hash, k));
  }

  lemma {:induction false} InputRowUnstep(m: Histories, e: Entry, k: nat)
    requires k < |Spending(e)|
    ensures PopItems(m, InputRows(e, 0)) == m
    ensures PopItems(m, InputRows(e, k + 1)) ==
            PopItems(if Spending(e)[k].address.None? then m else Pop(m, Spending(e)[k].address.value), InputRows(e, k))
  {
    hide Pop, Spending;
    var i := Spending(e)[k];
    if i.address.None? {
      assert InputRows(e, k + 1) == InputRows(e, k);
    } else {
      PopItemsLast(m, InputRows(e, k), Item(i.address.value, SpendRow(Point(e.tx.hash, k), e.height, i.prev)));
    }
  }

  lemma {:induction false} OutputRowUnstep(m: Histories, e: Entry, k: nat)
    requires k < |e.tx.outputs|
    ensures PopItems(m, OutputRows(e, k + 1)) ==
            PopItems(if e.tx.outputs[k].address.None? then m else Pop(m, e.tx.outputs[k].address.value), OutputRows(e, k))
  {
    hide Pop;
    var o := e.tx.outputs[k];
    if o.address.None? {
      assert OutputRows(e, k + 1) == OutputRows(e, k);
    } else {
      PopItemsLast(m, OutputRows(e, k), Item(o.address.value, OutputRow(Point(e.tx.hash, k), e.height, o.value)));
    }
  }

  /** One pooled transaction, whose hash is neither pooled nor in the chain. */
  lemma {:induction false} ShowsPooled(t: Slabs, pool: Pool, confirmed: map<Hash, Entry>, marks: map<Point, nat>,
                    content: Hash -> Tx, tx: Tx, forks: nat)
    requires Shows(t, pool, confirmed, marks, {}, 0, content)
    requires Clean(tx) == content(tx.hash) && Unspent(tx)
    requires tx.hash !in confirmed && tx.hash !in t
    ensures Shows(Stored(t, tx, forks, UNCONFIRMED), Push(pool, tx.hash, tx), confirmed, marks, {}, 0, content)
  {
    assert Clean(tx.(pooled := false)) == Clean(tx);
    HoldsPooled(t, confirmed, marks, content, tx, forks);
    MirrorsPooled(pool, t, tx, forks);
  }

  /** A pooled transaction under the hash of a confirmed one hides it. */
  lemma {:induction false} ShowsHidden(t: Slabs, pool: Pool, confirmed: map<Hash, Entry>, marks: map<Point, nat>,
                    content: Hash -> Tx, tx: Tx, forks: nat)
    requires tx.hash in confirmed
    ensures !Shows(Stored(t, tx, forks, UNCONFIRMED), Push(pool, tx.hash, tx), confirmed, marks, {}, 0, content)
  {
    var t' := Stored(t, tx, forks, UNCONFIRMED);
    assert !RowAgrees(t'[tx.hash][0], confirmed[tx.hash], marks, {}, 0);
  }

  /** What is known of the slab under a hash that is not in the chain. */
  lemma {:induction false} ShowsUnknown(t: Slabs, pool: Pool, confirmed: map<Hash, Entry>, marks: map<Point, nat>,
                     content: Hash -> Tx, h: Hash)
    requires Shows(t, pool, confirmed, marks, {}, 0, content)
    ensures h in confirmed <==> IsConfirmed(t, h)
  {
    if h in confirmed {
      assert RowAgrees(t[h][0], confirmed[h], marks, {}, 0);
    }
  }

  /** Tables that hold the same chain agree on all but the pool. */
  lemma {:induction false} SameTables(t: Slabs, pool: Pool, t': Slabs, pool': Pool, es: seq<Entry>, content: Hash -> Tx)
    requires Shows(t, pool, Confirmed(es), Marks(es), {}, 0, content)
    requires Shows(t', pool', Confirmed(es), Marks(es), {}, 0, content)
    ensures forall h :: IsConfirmed(t', h) <==> IsConfirmed(t, h)
    ensures forall h :: IsConfirmed(t', h) ==> Peek(t', h) == Peek(t, h)
  {
    hide Holds, Mirrors, Confirmed, Marks;
    forall h ensures IsConfirmed(t', h) <==> IsConfirmed(t, h)
             ensures IsConfirmed(t', h) ==> Peek(t', h) == Peek(t, h)
    {
      SameConfirmed(t', t, Confirmed(es), Marks(es), content, h);
    }
  }

  // -------------------------------------------------------- the pool, there and back

  function HashesOf(fs: seq<Entry>): (r: seq<Hash>)
    ensures |r| == |fs| && forall i :: 0 <= i < |r| ==> r[i] == fs[i].tx.hash
  {
    seq(|fs|, i requires 0 <= i < |fs| => fs[i].tx.hash)
  }

  /** The pool once the transactions of some entries have left it. */
  function Unpooled(pool: Pool, fs: seq<Entry>): Pool {
    PopKeys(pool, HashesOf(fs))
  }

  /** The pool after a block's transactions came back, the last one first. */
  function Repooled(pool: Pool, txs: seq<Tx>): Pool {
    if txs == [] then pool else Push(Repooled(pool, txs[1..]), txs[0].hash, txs[0])
  }

  lemma {:induction false} RepooledStep(pool: Pool, txs: seq<Tx>, i: nat)
    requires i < |txs|
    ensures Repooled(pool, txs[i..]) == Push(Repooled(pool, txs[i + 1..]), txs[i].hash, txs[i])
    ensures Repooled(pool, txs[|txs|..]) == pool
  {
    assert txs[i..][0] == txs[i] && txs[i..][1..] == txs[i + 1..];
  }

  lemma {:induction false} UnpooledStack(pool: Pool, fs: seq<Entry>, h: Hash)
    requires |Stack(pool, h)| <= 1
    ensures Stack(Unpooled(pool, fs), h) ==
            if exists k :: 0 <= k < |fs| && fs[k].tx.hash == h then [] else Stack(pool, h)
  {
    hide Stack;
    PopKeysStack(pool, HashesOf(fs), h);
    if k :| 0 <= k < |fs| && fs[k].tx.hash == h {
      assert HashesOf(fs)[k] in multiset(HashesOf(fs));
    } else {
      assert h !in HashesOf(fs);
    }
  }

  lemma {:induction false} RepooledOther(pool: Pool, txs: seq<Tx>, h: Hash)
    requires forall i :: 0 <= i < |txs| ==> txs[i].hash != h
    ensures Stack(Repooled(pool, txs), h) == Stack(pool, h)
  {
    if txs != [] {
      RepooledOther(pool, txs[1..], h);
    }
  }

  lemma {:induction false} RepooledOwn(pool: Pool, txs: seq<Tx>, i: nat)
    requires i < |txs|
    requires forall j, k :: 0 <= j < k < |txs| ==> txs[j].hash != txs[k].hash
    ensures Stack(Repooled(pool, txs), txs[i].hash) == [txs[i]] + Stack(pool, txs[i].hash)
  {
    if i == 0 {
      RepooledOther(pool, txs[1..], txs[0].hash);
    } else {
      RepooledOwn(pool, txs[1..], i - 1);
    }
  }

  /** A block's transactions leave the pool and come back: each is there once, as
      it was read, and every other hash is as before. */
  lemma {:induction false} PoolThereAndBack(pool: Pool, t: Slabs, es: seq<Entry>, fs: seq<Entry>, txs: seq<Tx>)
    requires Mirrors(pool, t) && Consistent(es + fs)
    requires |txs| == |fs| && forall i :: 0 <= i < |txs| ==> txs[i].hash == fs[i].tx.hash
    ensures forall i :: 0 <= i < |txs| ==> Stack(Repooled(Unpooled(pool, fs), txs), txs[i].hash) == [txs[i]]
    ensures forall h :: (forall i :: 0 <= i < |txs| ==> txs[i].hash != h) ==>
              Stack(Repooled(Unpooled(pool, fs), txs), h) == Stack(pool, h)
  {
    hide Consistent, Repooled, Unpooled;
    var left := Unpooled(pool, fs);
    forall j, k | 0 <= j < k < |txs| ensures txs[j].hash != txs[k].hash {
      DistinctHashes(es, fs, j, k);
    }
    forall i | 0 <= i < |txs| ensures Stack(Repooled(left, txs), txs[i].hash) == [txs[i]] {
      RepooledOwn(left, txs, i);
      UnpooledStack(pool, fs, txs[i].hash);
      assert fs[i].tx.hash == txs[i].hash;
    }
    forall h | forall i :: 0 <= i < |txs| ==> txs[i].hash != h ensures Stack(Repooled(left, txs), h) == Stack(pool, h) {
      RepooledOther(left, txs, h);
      UnpooledStack(pool, fs, h);
    }
  }
}
