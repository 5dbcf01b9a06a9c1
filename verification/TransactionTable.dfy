/** The transaction table as a value: a stack of slabs per hash, of which only
    the newest is ever seen, and what it means for it to hold a chain. */
module TransactionTable {
  import opened Wrappers
  import opened StackMaps
  import opened ChainTypes
  import opened ChainModel

  /** Height and position are patched in place; the transaction carries the
      spender height of each output. An unconfirmed slab has the validation
      forks in place of a height. */
  datatype Slab = Slab(height: nat, position: nat, tx: Tx)

  type Slabs = StackMap<Hash, Slab>

  predicate IsConfirmed(t: Slabs, h: Hash) {
    Peek(t, h).Some? && Peek(t, h).value.position != UNCONFIRMED
  }

  predicate IsPooled(t: Slabs, h: Hash) {
    Peek(t, h).Some? && Peek(t, h).value.position == UNCONFIRMED
  }

  /** What a fork-limited lookup returns. */
  function Lookup(t: Slabs, h: Hash, fork: nat, requireConfirmed: bool): Option<Slab> {
    var slab := Peek(t, h);
    if slab.None? || !requireConfirmed then slab
    else if slab.value.height > fork || slab.value.position == UNCONFIRMED then None
    else slab
  }

  /** Whether every output is spent at or below a height; never while pooled. */
  predicate IsSpent(slab: Slab, fork: nat) {
    && slab.position != UNCONFIRMED
    && forall i :: 0 <= i < |slab.tx.outputs| ==>
         slab.tx.outputs[i].spender != NOT_SPENT && slab.tx.outputs[i].spender <= fork
  }

  function SetSpender(tx: Tx, index: nat, height: nat): Tx
    requires index < |tx.outputs|
  {
    tx.(outputs := tx.outputs[index := tx.outputs[index].(spender := height)])
  }

  predicate Spendable(t: Slabs, p: Point, height: nat) {
    var slab := Lookup(t, p.hash, height, true);
    slab.Some? && p.index < |slab.value.tx.outputs|
  }

  function WithSpender(t: Slabs, p: Point, height: nat): Slabs
    requires p.hash in t && p.index < |t[p.hash][0].tx.outputs|
  {
    var slab := t[p.hash][0];
    Patch(t, p.hash, slab.(tx := SetSpender(slab.tx, p.index, height)))
  }

  function WithPlace(t: Slabs, h: Hash, height: nat, position: nat): Slabs
    requires h in t
  {
    Patch(t, h, t[h][0].(height := height, position := position))
  }

  /** Storing: a block's pooled transaction only gets its new place, anything else
      gets a new slab in front of the old ones. */
  function Stored(t: Slabs, tx: Tx, height: nat, position: nat): Slabs {
    if position != UNCONFIRMED && position != 0 && tx.pooled && tx.hash in t
    then WithPlace(t, tx.hash, height, position)
    else Push(t, tx.hash, Slab(height, position, tx.(pooled := false)))
  }

  /** The forks under which each pooled transaction counts as validated. */
  function Forks(t: Slabs): map<Hash, nat> {
    map h | h in t && t[h][0].position == UNCONFIRMED :: t[h][0].height
  }

  lemma {:induction false} ForksStored(t: Slabs, tx: Tx, height: nat, position: nat)
    ensures Forks(Stored(t, tx, height, position)) ==
            if position == UNCONFIRMED then Forks(t)[tx.hash := height] else Forks(t) - {tx.hash}
  {
  }

  lemma {:induction false} ForksPlaced(t: Slabs, h: Hash, height: nat, position: nat)
    requires h in t
    ensures Forks(WithPlace(t, h, height, position)) ==
            if position == UNCONFIRMED then Forks(t)[h := height] else Forks(t) - {h}
  {
  }

  lemma {:induction false} ForksSpent(t: Slabs, p: Point, height: nat)
    requires p.hash in t && p.index < |t[p.hash][0].tx.outputs|
    ensures Forks(WithSpender(t, p, height)) == Forks(t)
  {
  }

  /** Some hashes get the same forks. */
  function Reforked(forks: map<Hash, nat>, hashes: set<Hash>, unverified: nat): map<Hash, nat> {
    forks + map h | h in hashes :: unverified
  }

  // ----------------------------------------------------------- representation

  /** The newest slab of a confirmed transaction: its place, its content and a
      spender height per output. Outputs in `pending` may already carry `height`
      before they are marked, as a re-pushed block's own spends do. */
  predicate RowAgrees(slab: Slab, e: Entry, marks: map<Point, nat>, pending: set<Point>, height: nat) {
    && slab.height == e.height
    && slab.position == e.position != UNCONFIRMED
    && Clean(slab.tx) == e.tx
    && forall i :: 0 <= i < |slab.tx.outputs| ==>
         var p := Point(e.tx.hash, i);
         || slab.tx.outputs[i].spender == Mark(marks, p)
         || (p in pending && p !in marks && slab.tx.outputs[i].spender == height)
  }

  predicate Unspent(tx: Tx) {
    forall i :: 0 <= i < |tx.outputs| ==> tx.outputs[i].spender == NOT_SPENT
  }

  /** The newest slab of a hash: content is right, and the slab is a confirmed
      transaction's, or else pooled with clean outputs. */
  ghost predicate Seen(slab: Slab, h: Hash, confirmed: map<Hash, Entry>, marks: map<Point, nat>,
                       pending: set<Point>, height: nat, content: Hash -> Tx)
  {
    && slab.tx.hash == h && !slab.tx.pooled
    && Clean(slab.tx) == content(h)
    && if h in confirmed then confirmed[h].tx.hash == h && RowAgrees(slab, confirmed[h], marks, pending, height)
       else slab.position == UNCONFIRMED && Unspent(slab.tx)
  }

  /** The table shows exactly the confirmed transactions and their spends; every
      other hash is unknown or pooled. `content` is the one transaction behind
      each hash. */
  ghost predicate Holds(t: Slabs, confirmed: map<Hash, Entry>, marks: map<Point, nat>,
                        pending: set<Point>, height: nat, content: Hash -> Tx)
  {
    && confirmed.Keys <= t.Keys
    && (forall h :: h in t ==> Seen(t[h][0], h, confirmed, marks, pending, height, content))
    && (forall p :: p in marks ==> p.hash in confirmed)
  }

  lemma {:induction false} CleanSetSpender(tx: Tx, index: nat, height: nat)
    requires index < |tx.outputs|
    ensures Clean(SetSpender(tx, index, height)) == Clean(tx)
  {
    assert CleanOutputs(SetSpender(tx, index, height).outputs) == CleanOutputs(tx.outputs);
  }

  /** Marking one output of a confirmed transaction. */
  lemma {:induction false} HoldsMarked(t: Slabs, confirmed: map<Hash, Entry>, marks: map<Point, nat>,
                                       pending: set<Point>,
                    height: nat, content: Hash -> Tx, p: Point, spender: nat, after: map<Point, nat>)
    requires Holds(t, confirmed, marks, pending, height, content)
    requires p.hash in confirmed && p.index < |confirmed[p.hash].tx.outputs|
    requires after.Keys - {p} == marks.Keys - {p}
    requires forall q :: q in marks && q != p ==> q in after && after[q] == marks[q]
    requires spender == Mark(after, p)
    ensures p.index < |t[p.hash][0].tx.outputs|
    ensures Holds(WithSpender(t, p, spender), confirmed, after, pending, height, content)
  {
    var slab := t[p.hash][0];
    assert Seen(slab, p.hash, confirmed, marks, pending, height, content);
    CleanSetSpender(slab.tx, p.index, spender);
    var t' := WithSpender(t, p, spender);
    forall q | q != p ensures q in after <==> q in marks {
      assert q in after.Keys - {p} <==> q in marks.Keys - {p};
    }
    forall h | h in t' ensures Seen(t'[h][0], h, confirmed, after, pending, height, content) {
      assert Seen(t[h][0], h, confirmed, marks, pending, height, content);
      if h in confirmed {
        RowMarked(t[h][0], t'[h][0], confirmed[h], marks, after, pending, height, p, spender);
      }
    }
  }

  lemma {:induction false} RowMarked(slab: Slab, slab': Slab, e: Entry, marks: map<Point, nat>,
                                     after: map<Point, nat>,
                                     pending: set<Point>, height: nat, p: Point, spender: nat)
    requires RowAgrees(slab, e, marks, pending, height)
    requires forall q :: q != p ==> (q in after <==> q in marks) && Mark(after, q) == Mark(marks, q)
    requires spender == Mark(after, p)
    requires slab' == slab || (e.tx.hash == p.hash && p.index < |slab.tx.outputs| &&
                               slab' == slab.(tx := SetSpender(slab.tx, p.index, spender)))
    requires e.tx.hash == p.hash && p.index < |slab.tx.outputs| ==> slab' != slab || slab.tx.outputs[p.index].spender == spender
    ensures RowAgrees(slab', e, after, pending, height)
  {
    if slab' != slab {
      CleanSetSpender(slab.tx, p.index, spender);
    }
  }

  /** Placing a fresh transaction, as a new slab or over its pooled one. */
  lemma {:induction false} HoldsPlaced(t: Slabs, confirmed: map<Hash, Entry>, marks: map<Point, nat>,
                                       pending: set<Point>,
                    height: nat, content: Hash -> Tx, e: Entry, t': Slabs)
    requires Holds(t, confirmed, marks, pending, height, content)
    requires e.tx.hash !in confirmed
    requires e.tx == content(e.tx.hash)
    requires forall h :: h != e.tx.hash ==> Stack(t', h) == Stack(t, h)
    requires e.tx.hash in t' && t'[e.tx.hash][0].tx.hash == e.tx.hash && !t'[e.tx.hash][0].tx.pooled
    requires RowAgrees(t'[e.tx.hash][0], e, map[], pending, height)
    ensures Holds(t', confirmed[e.tx.hash := e], marks, pending, height, content)
  {
    RowUnmarked(t'[e.tx.hash][0], e, marks, pending, height);
    hide RowAgrees, Clean, Unspent;
    var c := confirmed[e.tx.hash := e];
    forall h | h in c ensures h in t' {
      assert h != e.tx.hash ==> Stack(t', h) == Stack(t, h);
    }
    forall h | h in t' ensures Seen(t'[h][0], h, c, marks, pending, height, content) {
      if h != e.tx.hash {
        assert Stack(t', h) == Stack(t, h);
        assert Seen(t[h][0], h, confirmed, marks, pending, height, content);
      }
    }
  }

  /** A transaction of which nothing is spent yet. */
  lemma {:induction false} RowUnmarked(slab: Slab, e: Entry, marks: map<Point, nat>, pending: set<Point>, height: nat)
    requires RowAgrees(slab, e, map[], pending, height)
    requires forall p :: p in marks ==> p.hash != e.tx.hash
    ensures RowAgrees(slab, e, marks, pending, height)
    ensures Clean(slab.tx) == e.tx
  {
  }

  /** Taking the last confirmed transaction out of the chain again. */
  lemma {:induction false} HoldsUnplaced(t: Slabs, confirmed: map<Hash, Entry>, marks: map<Point, nat>,
                      content: Hash -> Tx, e: Entry, forks: nat)
    requires Holds(t, confirmed[e.tx.hash := e], marks, {}, 0, content)
    requires e.tx.hash !in confirmed
    requires forall p :: p in marks ==> p.hash in confirmed
    ensures Holds(WithPlace(t, e.tx.hash, forks, UNCONFIRMED), confirmed, marks, {}, 0, content)
  {
    var c := confirmed[e.tx.hash := e];
    var t' := WithPlace(t, e.tx.hash, forks, UNCONFIRMED);
    assert Seen(t[e.tx.hash][0], e.tx.hash, c, marks, {}, 0, content);
    RowClean(t[e.tx.hash][0], e, marks);
    hide RowAgrees, Clean, Unspent;
    forall h | h in t' ensures Seen(t'[h][0], h, confirmed, marks, {}, 0, content) {
      assert Seen(t[h][0], h, c, marks, {}, 0, content);
    }
  }

  /** None of its outputs is marked, so none is spent. */
  lemma {:induction false} RowClean(slab: Slab, e: Entry, marks: map<Point, nat>)
    requires RowAgrees(slab, e, marks, {}, 0)
    requires forall p :: p in marks ==> p.hash != e.tx.hash
    ensures Unspent(slab.tx) && Clean(slab.tx) == e.tx
  {
  }

  /** Once every pending output is marked the table is exact. */
  lemma {:induction false} HoldsSettled(t: Slabs, confirmed: map<Hash, Entry>, marks: map<Point, nat>,
                                        pending: set<Point>,
                     height: nat, content: Hash -> Tx)
    requires Holds(t, confirmed, marks, pending, height, content)
    requires forall p :: p in pending ==> p in marks
    ensures Holds(t, confirmed, marks, {}, 0, content)
  {
    forall h | h in t ensures Seen(t[h][0], h, confirmed, marks, {}, 0, content) {
      assert Seen(t[h][0], h, confirmed, marks, pending, height, content);
    }
  }

  lemma {:induction false} HoldsPending(t: Slabs, confirmed: map<Hash, Entry>, marks: map<Point, nat>,
                                        pending: set<Point>,
                     height: nat, content: Hash -> Tx)
    requires Holds(t, confirmed, marks, {}, 0, content)
    ensures Holds(t, confirmed, marks, pending, height, content)
  {
    forall h | h in t ensures Seen(t[h][0], h, confirmed, marks, pending, height, content) {
      assert Seen(t[h][0], h, confirmed, marks, {}, 0, content);
    }
  }

  /** Storing a transaction that is not in the chain puts it there. */
  lemma {:induction false} HoldsStored(t: Slabs, confirmed: map<Hash, Entry>, marks: map<Point, nat>,
                                       pending: set<Point>,
                    height: nat, content: Hash -> Tx, tx: Tx, position: nat)
    requires Holds(t, confirmed, marks, pending, height, content)
    requires tx.hash !in confirmed && Clean(tx) == content(tx.hash) && position != UNCONFIRMED
    requires forall i :: 0 <= i < |tx.outputs| ==>
               || tx.outputs[i].spender == NOT_SPENT
               || (Point(tx.hash, i) in pending && tx.outputs[i].spender == height)
    ensures var e := Entry(height, position, Clean(tx));
            Holds(Stored(t, tx, height, position), confirmed[tx.hash := e], marks, pending, height, content)
  {
    var t' := Stored(t, tx, height, position);
    assert Clean(tx.(pooled := false)) == Clean(tx);
    HoldsPlaced(t, confirmed, marks, pending, height, content, Entry(height, position, Clean(tx)), t');
  }

  /** The output a chain transaction spends is always there to be marked. */
  lemma {:induction false} HoldsSpendable(t: Slabs, confirmed: map<Hash, Entry>, marks: map<Point, nat>,
                                          pending: set<Point>,
                       height: nat, content: Hash -> Tx, p: Point, limit: nat)
    requires Holds(t, confirmed, marks, pending, height, content)
    requires p.hash in confirmed && p.index < |confirmed[p.hash].tx.outputs|
    requires confirmed[p.hash].height <= limit
    ensures Spendable(t, p, limit)
  {
    assert RowAgrees(t[p.hash][0], confirmed[p.hash], marks, pending, height);
  }

  // ------------------------------------------------------------------- the pool

  /** The pool table holds a hash exactly once if its newest slab is unconfirmed,
      and otherwise not at all. */
  ghost predicate Mirrors(pool: StackMap<Hash, Tx>, t: Slabs) {
    && (forall h :: h in pool <==> IsPooled(t, h))
    && (forall h :: h in pool ==> |pool[h]| == 1 && Clean(pool[h][0]) == Clean(t[h][0].tx))
  }

  /** A patch that keeps the content and the confirmation of a slab. */
  lemma {:induction false} MirrorsMarked(pool: StackMap<Hash, Tx>, t: Slabs, p: Point, spender: nat)
    requires Mirrors(pool, t) && p.hash in t && p.index < |t[p.hash][0].tx.outputs|
    ensures Mirrors(pool, WithSpender(t, p, spender))
  {
    CleanSetSpender(t[p.hash][0].tx, p.index, spender);
    var t' := WithSpender(t, p, spender);
    assert forall h :: IsPooled(t', h) == IsPooled(t, h);
  }

  lemma {:induction false} MirrorsStored(pool: StackMap<Hash, Tx>, t: Slabs, tx: Tx, height: nat, position: nat)
    requires Mirrors(pool, t) && position != UNCONFIRMED
    ensures Mirrors(Pop(pool, tx.hash), Stored(t, tx, height, position))
  {
    var t' := Stored(t, tx, height, position);
    assert forall h :: h != tx.hash ==> IsPooled(t', h) == IsPooled(t, h);
  }

  lemma {:induction false} MirrorsUnplaced(pool: StackMap<Hash, Tx>, t: Slabs, tx: Tx, forks: nat)
    requires Mirrors(pool, t) && IsConfirmed(t, tx.hash)
    requires Clean(tx) == Clean(t[tx.hash][0].tx)
    ensures Mirrors(Push(pool, tx.hash, tx), WithPlace(t, tx.hash, forks, UNCONFIRMED))
  {
    var t' := WithPlace(t, tx.hash, forks, UNCONFIRMED);
    assert forall h :: h != tx.hash ==> IsPooled(t', h) == IsPooled(t, h);
  }

  lemma {:induction false} HoldsPooled(t: Slabs, confirmed: map<Hash, Entry>, marks: map<Point, nat>,
                    content: Hash -> Tx, tx: Tx, forks: nat)
    requires Holds(t, confirmed, marks, {}, 0, content)
    requires tx.hash !in confirmed && Clean(tx.(pooled := false)) == content(tx.hash) && Unspent(tx)
    ensures Holds(Push(t, tx.hash, Slab(forks, UNCONFIRMED, tx.(pooled := false))), confirmed, marks, {}, 0, content)
  {
  }

  lemma {:induction false} MirrorsPooled(pool: StackMap<Hash, Tx>, t: Slabs, tx: Tx, forks: nat)
    requires Mirrors(pool, t) && tx.hash !in t
    requires Clean(tx.(pooled := false)) == Clean(tx)
    ensures Mirrors(Push(pool, tx.hash, tx), Push(t, tx.hash, Slab(forks, UNCONFIRMED, tx.(pooled := false))))
  {
    var t' := Push(t, tx.hash, Slab(forks, UNCONFIRMED, tx.(pooled := false)));
    assert forall h :: h != tx.hash ==> IsPooled(t', h) == IsPooled(t, h);
  }

  // ---------------------------------------------------------- what the chain fixes

  /** Two tables that hold the same chain show the same confirmed slabs. */
  lemma {:induction false} SameConfirmed(t: Slabs, u: Slabs, confirmed: map<Hash, Entry>, marks: map<Point, nat>,
                      content: Hash -> Tx, h: Hash)
    requires Holds(t, confirmed, marks, {}, 0, content) && Holds(u, confirmed, marks, {}, 0, content)
    ensures IsConfirmed(t, h) <==> IsConfirmed(u, h)
    ensures IsConfirmed(t, h) ==> Peek(t, h) == Peek(u, h)
  {
    if h in confirmed {
      var a, b := t[h][0], u[h][0];
      assert RowAgrees(a, confirmed[h], marks, {}, 0) && RowAgrees(b, confirmed[h], marks, {}, 0);
      CleanSameOutputs(a.tx, b.tx);
      assert a.tx.outputs == b.tx.outputs by {
        forall i | 0 <= i < |a.tx.outputs| ensures a.tx.outputs[i] == b.tx.outputs[i] {
          assert a.tx.outputs[i].(spender := NOT_SPENT) == b.tx.outputs[i].(spender := NOT_SPENT);
        }
      }
    }
  }

  /** Reading a chain transaction back: its place, its content, its marks. */
  lemma {:induction false} HoldsRead(t: Slabs, es: seq<Entry>, fs: seq<Entry>, k: nat, content: Hash -> Tx,
                                     limit: nat)
    requires Consistent(es + fs) && k < |fs| && fs[k].height <= limit
    requires Holds(t, Confirmed(es + fs), Marks(es + fs), {}, 0, content)
    ensures var e, slab := fs[k], Lookup(t, fs[k].tx.hash, limit, true);
            && slab.Some?
            && slab.value.height == e.height && slab.value.position == e.position
            && slab.value.tx.hash == e.tx.hash && !slab.value.tx.pooled
            && Clean(slab.value.tx) == e.tx == content(e.tx.hash)
            && forall j :: 0 <= j < |slab.value.tx.outputs| ==>
                 slab.value.tx.outputs[j].spender == Mark(Marks(es + fs), Point(e.tx.hash, j))
  {
    hide Consistent, Confirmed, Marks, Clean;
    ConfirmedAt(es, fs, k);
    var e := fs[k];
    assert RowAgrees(t[e.tx.hash][0], e, Marks(es + fs), {}, 0);
  }
}
