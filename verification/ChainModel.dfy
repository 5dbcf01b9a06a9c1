/** The chain as a mathematical object: what every table must hold, told as a
    scan of the confirmed transactions in block and position order. */
module ChainModel {
  import opened Wrappers
  import opened StackMaps
  import opened ChainTypes

  datatype Entry = Entry(height: nat, position: nat, tx: Tx)

  /** The first transaction of a block is its coinbase and spends nothing. */
  function Spending(e: Entry): seq<Input> {
    if e.position == 0 then [] else e.tx.inputs
  }

  // ---------------------------------------------------- the confirmed outputs

  /** Where each confirmed transaction is. */
  function Confirmed(es: seq<Entry>): map<Hash, Entry> {
    if es == [] then map[]
    else Confirmed(es[..|es| - 1])[es[|es| - 1].tx.hash := es[|es| - 1]]
  }

  function MarkInputs(marks: map<Point, nat>, e: Entry, k: nat): map<Point, nat>
    requires k <= |Spending(e)|
  {
    if k == 0 then marks else MarkInputs(marks, e, k - 1)[Spending(e)[k - 1].prev := e.height]
  }

  /** The spender height of every spent output. */
  function Marks(es: seq<Entry>): map<Point, nat> {
    if es == [] then map[]
    else
      var e := es[|es| - 1];
      MarkInputs(Marks(es[..|es| - 1]), e, |Spending(e)|)
  }

  function Mark(marks: map<Point, nat>, p: Point): nat {
    if p in marks then marks[p] else NOT_SPENT
  }

  // --------------------------------------------- the spend and history tables

  /** The first k spends of a transaction, as the spend table stores them. */
  function SpendItems(e: Entry, k: nat): seq<Item<Point, Point>>
    requires k <= |Spending(e)|
  {
    if k == 0 then []
    else SpendItems(e, k - 1) + [Item(Spending(e)[k - 1].prev, Point(e.tx.hash, k - 1))]
  }

  function InputRows(e: Entry, k: nat): seq<Item<Address, HistoryRow>>
    requires k <= |Spending(e)|
  {
    if k == 0 then []
    else
      var i := Spending(e)[k - 1];
      InputRows(e, k - 1) +
      (if i.address.None? then []
       else [Item(i.address.value, SpendRow(Point(e.tx.hash, k - 1), e.height, i.prev))])
  }

  function OutputRows(e: Entry, k: nat): seq<Item<Address, HistoryRow>>
    requires k <= |e.tx.outputs|
  {
    if k == 0 then []
    else
      var o := e.tx.outputs[k - 1];
      OutputRows(e, k - 1) +
      (if o.address.None? then []
       else [Item(o.address.value, OutputRow(Point(e.tx.hash, k - 1), e.height, o.value))])
  }

  /** The scan of all spends at or above the first indexed height. */
  function SpendScan(es: seq<Entry>, start: nat): seq<Item<Point, Point>> {
    if es == [] then []
    else
      var e := es[|es| - 1];
      SpendScan(es[..|es| - 1], start) +
      (if e.height < start then [] else SpendItems(e, |Spending(e)|))
  }

  /** The scan of all history rows: by transaction, inputs before outputs. */
  function HistoryScan(es: seq<Entry>, start: nat): seq<Item<Address, HistoryRow>> {
    if es == [] then []
    else
      var e := es[|es| - 1];
      HistoryScan(es[..|es| - 1], start) +
      (if e.height < start then []
       else InputRows(e, |Spending(e)|) + OutputRows(e, |e.tx.outputs|))
  }

  function SpendTable(es: seq<Entry>, start: nat): StackMap<Point, Point> {
    PushItems(map[], SpendScan(es, start))
  }

  function HistoryTable(es: seq<Entry>, start: nat): StackMap<Address, HistoryRow> {
    PushItems(map[], HistoryScan(es, start))
  }

  // ------------------------------------------------- what transactions give rise to

  /** What a list of transactions gives rise to, in order. */
  function Expand<T>(es: seq<Entry>, g: Entry -> seq<T>): seq<T> {
    if es == [] then [] else Expand(es[..|es| - 1], g) + g(es[|es| - 1])
  }

  /** The spends one transaction stores. */
  function SpendsOf(start: nat): Entry -> seq<Item<Point, Point>> {
    (e: Entry) => if e.height < start then [] else SpendItems(e, |Spending(e)|)
  }

  /** The history rows one transaction stores. */
  function HistoryOf(start: nat): Entry -> seq<Item<Address, HistoryRow>> {
    (e: Entry) => if e.height < start then [] else InputRows(e, |Spending(e)|) + OutputRows(e, |e.tx.outputs|)
  }

  lemma {:induction false} ExpandLast<T>(es: seq<Entry>, x: Entry, g: Entry -> seq<T>)
    ensures Expand(es + [x], g) == Expand(es, g) + g(x)
  {
    assert (es + [x])[..|es|] == es;
  }

  lemma {:induction false} SpendScanConcat(es: seq<Entry>, fs: seq<Entry>, start: nat)
    ensures SpendScan(es + fs, start) == SpendScan(es, start) + Expand(fs, SpendsOf(start))
  {
    if fs == [] {
      assert es + fs == es;
    } else {
      hide SpendItems;
      var n := |fs| - 1;
      assert (es + fs)[..|es + fs| - 1] == es + fs[..n];
      SpendScanConcat(es, fs[..n], start);
    }
  }

  lemma {:induction false} HistoryScanConcat(es: seq<Entry>, fs: seq<Entry>, start: nat)
    ensures HistoryScan(es + fs, start) == HistoryScan(es, start) + Expand(fs, HistoryOf(start))
  {
    hide InputRows, OutputRows;
    if fs == [] {
      assert es + fs == es;
    } else {
      hide HistoryScan, Expand;
      var n := |fs| - 1;
      assert es + fs == (es + fs[..n]) + [fs[n]] && fs == fs[..n] + [fs[n]];
      HistoryScanConcat(es, fs[..n], start);
      Append(es + fs[..n], fs[n], start);
      ExpandLast(fs[..n], fs[n], HistoryOf(start));
    }
  }

  // ------------------------------------------------------------ consensus rules

  /** Input i of a transaction spends an output that exists and is unspent, also
      by the earlier inputs of the same transaction. */
  predicate SpendFits(es: seq<Entry>, e: Entry, i: nat)
    requires i < |Spending(e)|
  {
    var prev := Spending(e)[i].prev;
    && prev.hash in Confirmed(es)
    && prev.index < |Confirmed(es)[prev.hash].tx.outputs|
    && prev !in MarkInputs(Marks(es), e, i)
  }

  /** What validation grants about the next transaction of the chain. */
  predicate Fits(es: seq<Entry>, e: Entry) {
    && e.tx.hash !in Confirmed(es)
    && Clean(e.tx) == e.tx
    && e.tx.coinbase == (e.position == 0)
    && forall i :: 0 <= i < |Spending(e)| ==> SpendFits(es, e, i)
  }

  predicate Consistent(es: seq<Entry>) {
    es == [] || (Consistent(es[..|es| - 1]) && Fits(es[..|es| - 1], es[|es| - 1]))
  }

  // -------------------------------------------------------------------- blocks

  function BlockEntries(b: Block, height: nat): (r: seq<Entry>)
    ensures |r| == |b.txs|
    ensures forall i :: 0 <= i < |r| ==> r[i] == Entry(height, i, b.txs[i])
  {
    seq(|b.txs|, i requires 0 <= i < |b.txs| => Entry(height, i, b.txs[i]))
  }

  /** All confirmed transactions of a chain whose first block has height 0. */
  function Flat(chain: seq<Block>): seq<Entry> {
    if chain == [] then []
    else Flat(chain[..|chain| - 1]) + BlockEntries(chain[|chain| - 1], |chain| - 1)
  }

  // ---------------------------------------------------------------- unrollings

  lemma {:induction false} Append(es: seq<Entry>, e: Entry, start: nat)
    ensures Confirmed(es + [e]) == Confirmed(es)[e.tx.hash := e]
    ensures Marks(es + [e]) == MarkInputs(Marks(es), e, |Spending(e)|)
    ensures SpendScan(es + [e], start) ==
            SpendScan(es, start) + (if e.height < start then [] else SpendItems(e, |Spending(e)|))
    ensures HistoryScan(es + [e], start) ==
            HistoryScan(es, start) +
            (if e.height < start then [] else InputRows(e, |Spending(e)|) + OutputRows(e, |e.tx.outputs|))
    ensures Consistent(es + [e]) <==> Consistent(es) && Fits(es, e)
  {
    assert (es + [e])[..|es|] == es;
  }

  lemma {:induction false} FlatAppend(chain: seq<Block>, b: Block)
    ensures Flat(chain + [b]) == Flat(chain) + BlockEntries(b, |chain|)
  {
    assert (chain + [b])[..|chain|] == chain;
  }

  lemma {:induction false} ConsistentPrefix(es: seq<Entry>, k: nat)
    requires Consistent(es) && k <= |es|
    ensures Consistent(es[..k])
  {
    if k < |es| {
      assert es[..|es| - 1][..k] == es[..k];
      ConsistentPrefix(es[..|es| - 1], k);
    } else {
      assert es[..k] == es;
    }
  }

  /** Confirmed transactions come from the list. */
  lemma {:induction false} ConfirmedFrom(es: seq<Entry>, h: Hash)
    requires h in Confirmed(es)
    ensures Confirmed(es)[h] in es && Confirmed(es)[h].tx.hash == h
  {
    var n := |es| - 1;
    if es[n].tx.hash != h {
      ConfirmedFrom(es[..n], h);
    }
  }

  /** A confirmed transaction stays where it is as the chain grows. */
  lemma {:induction false} ConfirmedGrows(es: seq<Entry>, fs: seq<Entry>, h: Hash)
    requires Consistent(es + fs) && h in Confirmed(es)
    ensures h in Confirmed(es + fs) && Confirmed(es + fs)[h] == Confirmed(es)[h]
  {
    if fs == [] {
      assert es + fs == es;
    } else {
      var n := |fs| - 1;
      assert (es + fs)[..|es + fs| - 1] == es + fs[..n];
      ConfirmedGrows(es, fs[..n], h);
    }
  }

  lemma {:induction false} MarkInputsFrom(es: seq<Entry>, e: Entry, k: nat)
    requires k <= |Spending(e)|
    requires forall p :: p in Marks(es) ==> p.hash in Confirmed(es)
    requires forall i :: 0 <= i < k ==> SpendFits(es, e, i)
    ensures forall p :: p in MarkInputs(Marks(es), e, k) ==> p.hash in Confirmed(es)
  {
    if k > 0 {
      MarkInputsFrom(es, e, k - 1);
      assert SpendFits(es, e, k - 1);
    }
  }

  /** Only outputs of confirmed transactions are marked as spent. */
  lemma {:induction false} MarksFrom(es: seq<Entry>)
    requires Consistent(es)
    ensures forall p :: p in Marks(es) ==> p.hash in Confirmed(es)
  {
    if es != [] {
      var n := |es| - 1;
      MarksFrom(es[..n]);
      MarkInputsFrom(es[..n], es[n], |Spending(es[n])|);
    }
  }

  // ------------------------------------------------- the tables, step by step

  lemma {:induction false} NoItems(m: StackMap<Point, Point>, n: StackMap<Address, HistoryRow>, e: Entry)
    ensures PushItems(m, SpendItems(e, 0)) == m
    ensures PushItems(n, InputRows(e, 0)) == n
    ensures PushItems(n, OutputRows(e, 0)) == n
  {
  }

  lemma {:induction false} SpendStep(m: StackMap<Point, Point>, e: Entry, k: nat)
    requires k < |Spending(e)|
    ensures PushItems(m, SpendItems(e, k + 1)) ==
            Push(PushItems(m, SpendItems(e, k)), Spending(e)[k].prev, Point(e.tx.hash, k))
  {
    PushItemsLast(m, SpendItems(e, k), Item(Spending(e)[k].prev, Point(e.tx.hash, k)));
  }

  lemma {:induction false} SpendTableStep(es: seq<Entry>, e: Entry, start: nat)
    ensures SpendTable(es + [e], start) ==
            if e.height < start then SpendTable(es, start)
            else PushItems(SpendTable(es, start), SpendItems(e, |Spending(e)|))
  {
    Append(es, e, start);
    if e.height < start {
      assert SpendScan(es + [e], start) == SpendScan(es, start);
    } else {
      PushItemsConcat<Point, Point>(map[], SpendScan(es, start), SpendItems(e, |Spending(e)|));
    }
  }

  // --------------------------------------------------- along a consistent chain

  /** The next entry of a consistent list fits what comes before it. */
  lemma {:induction false} FitsAt(es: seq<Entry>, fs: seq<Entry>, k: nat)
    requires Consistent(es + fs) && k < |fs|
    ensures Consistent(es + fs[..k]) && Fits(es + fs[..k], fs[k])
    ensures es + fs[..k + 1] == (es + fs[..k]) + [fs[k]]
  {
    hide Confirmed, Marks, SpendScan, HistoryScan, Fits, Consistent;
    var n := |es| + k;
    ConsistentPrefix(es + fs, n + 1);
    assert (es + fs)[..n + 1] == (es + fs[..k]) + [fs[k]];
    Append(es + fs[..k], fs[k], 0);
  }

  /** Where an entry of a consistent list is confirmed. */
  lemma {:induction false} ConfirmedAt(es: seq<Entry>, fs: seq<Entry>, k: nat)
    requires Consistent(es + fs) && k < |fs|
    ensures fs[k].tx.hash in Confirmed(es + fs)
    ensures Confirmed(es + fs)[fs[k].tx.hash] == fs[k]
  {
    hide *;
    FitsAt(es, fs, k);
    Append(es + fs[..k], fs[k], 0);
    assert es + fs == (es + fs[..k + 1]) + fs[k + 1..];
    ConfirmedGrows(es + fs[..k + 1], fs[k + 1..], fs[k].tx.hash);
  }

  /** The output an entry spends is confirmed below it, and in the whole list. */
  lemma {:induction false} ParentConfirmed(es: seq<Entry>, fs: seq<Entry>, k: nat, i: nat, limit: nat)
    requires Consistent(es + fs) && k < |fs| && i < |Spending(fs[k])|
    requires forall e :: e in es + fs ==> e.height <= limit
    ensures var p, c := Spending(fs[k])[i].prev, Confirmed(es + fs);
            p.hash in c && p.index < |c[p.hash].tx.outputs| && c[p.hash].height <= limit
  {
    FitsAt(es, fs, k);
    assert SpendFits(es + fs[..k], fs[k], i);
    var p := Spending(fs[k])[i].prev;
    assert es + fs == (es + fs[..k]) + fs[k..];
    ConfirmedGrows(es + fs[..k], fs[k..], p.hash);
    ConfirmedFrom(es + fs, p.hash);
  }

  /** Transaction hashes of a consistent list are distinct. */
  lemma {:induction false} DistinctHashes(es: seq<Entry>, fs: seq<Entry>, j: nat, k: nat)
    requires Consistent(es + fs) && j < k < |fs|
    ensures fs[j].tx.hash != fs[k].tx.hash
  {
    FitsAt(es, fs, k);
    assert es + fs[..k] == (es + fs[..k]) && fs[..k][j] == fs[j];
    ConfirmedAt(es, fs[..k], j);
  }

  lemma {:induction false} MarkInputsAdds(marks: map<Point, nat>, e: Entry, k: nat, p: Point)
    requires k <= |Spending(e)| && p in MarkInputs(marks, e, k)
    ensures (p in marks && MarkInputs(marks, e, k)[p] == marks[p]) || MarkInputs(marks, e, k)[p] == e.height
  {
    if k > 0 && Spending(e)[k - 1].prev != p {
      MarkInputsAdds(marks, e, k - 1, p);
    }
  }

  /** An output that was not spent before these entries is spent at their height. */
  lemma {:induction false} MarksAdded(es: seq<Entry>, fs: seq<Entry>, height: nat, p: Point)
    requires forall k :: 0 <= k < |fs| ==> fs[k].height == height
    requires p in Marks(es + fs)
    ensures (p in Marks(es) && Marks(es + fs)[p] == Marks(es)[p]) || Marks(es + fs)[p] == height
  {
    if fs == [] {
      assert es + fs == es;
    } else {
      var n := |fs| - 1;
      assert es + fs == (es + fs[..n]) + [fs[n]];
      Append(es + fs[..n], fs[n], 0);
      MarkInputsAdds(Marks(es + fs[..n]), fs[n], |Spending(fs[n])|, p);
      if p in Marks(es + fs[..n]) {
        MarksAdded(es, fs[..n], height, p);
      }
    }
  }

  lemma {:induction false} NoMarks(marks: map<Point, nat>, e: Entry)
    ensures MarkInputs(marks, e, 0) == marks
  {
  }

  lemma {:induction false} MarkStep(marks: map<Point, nat>, e: Entry, k: nat)
    requires k < |Spending(e)|
    ensures MarkInputs(marks, e, k + 1) == MarkInputs(marks, e, k)[Spending(e)[k].prev := e.height]
  {
  }

  /** A coinbase marks nothing. */
  lemma {:induction false} CoinbaseMarks(es: seq<Entry>, fs: seq<Entry>)
    requires fs != [] && fs[0].position == 0
    ensures Marks(es + fs[..1]) == Marks(es)
  {
    assert es + fs[..1] == es + [fs[0]];
    Append(es, fs[0], 0);
  }
}
