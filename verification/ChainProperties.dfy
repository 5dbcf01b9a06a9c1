/** What the tables of a valid store say about its chain, in the chain's own
    terms: who spends what, and which rows an address has. */
module ChainProperties {
  import opened Wrappers
  import opened StackMaps
  import opened ChainTypes
  import opened ChainModel
  import opened ChainState
  import opened TransactionTable
  import opened Tables
  import opened Indexes

  /** Input i of the k-th confirmed transaction spends the output p. */
  predicate SpendsAt(es: seq<Entry>, k: nat, i: nat, p: Point) {
    k < |es| && i < |Spending(es[k])| && Spending(es[k])[i].prev == p
  }

  // ----------------------------------------------------------------- spender heights

  lemma {:induction false} MarkInputsExact(marks: map<Point, nat>, e: Entry, k: nat, p: Point)
    requires k <= |Spending(e)|
    ensures (exists i :: 0 <= i < k && Spending(e)[i].prev == p) ==>
              p in MarkInputs(marks, e, k) && MarkInputs(marks, e, k)[p] == e.height
    ensures !(exists i :: 0 <= i < k && Spending(e)[i].prev == p) ==>
              (p in MarkInputs(marks, e, k) <==> p in marks) &&
              (p in marks ==> MarkInputs(marks, e, k)[p] == marks[p])
  {
    if k > 0 {
      MarkInputsExact(marks, e, k - 1, p);
      assert (exists i :: 0 <= i < k && Spending(e)[i].prev == p) <==>
             (Spending(e)[k - 1].prev == p || exists i :: 0 <= i < k - 1 && Spending(e)[i].prev == p);
    }
  }

  /** A marked output has a confirmed spender. */
  lemma {:induction false} SpenderOfMark(es: seq<Entry>, p: Point) returns (k: nat, i: nat)
    requires p in Marks(es)
    ensures SpendsAt(es, k, i, p)
  {
    var n := |es| - 1;
    MarkInputsExact(Marks(es[..n]), es[n], |Spending(es[n])|, p);
    if j :| 0 <= j < |Spending(es[n])| && Spending(es[n])[j].prev == p {
      k, i := n, j;
    } else {
      k, i := SpenderOfMark(es[..n], p);
    }
  }

  /** What is already marked the next transaction cannot spend. */
  lemma {:induction false} SpentOnce(es: seq<Entry>, e: Entry, p: Point)
    requires Fits(es, e) && p in Marks(es)
    ensures forall i :: 0 <= i < |Spending(e)| ==> Spending(e)[i].prev != p
  {
    forall i | 0 <= i < |Spending(e)| ensures Spending(e)[i].prev != p {
      assert SpendFits(es, e, i);
      MarkInputsExact(Marks(es), e, i, p);
    }
  }

  /** A spent output is marked with the height of its spender's block. */
  lemma {:induction false} MarkOfSpender(es: seq<Entry>, k: nat, i: nat, p: Point)
    requires Consistent(es) && SpendsAt(es, k, i, p)
    ensures p in Marks(es) && Marks(es)[p] == es[k].height
  {
    var n := |es| - 1;
    MarkInputsExact(Marks(es[..n]), es[n], |Spending(es[n])|, p);
    if k < n {
      MarkOfSpender(es[..n], k, i, p);
      SpentOnce(es[..n], es[n], p);
    }
  }

  lemma {:induction false} DistinctInputs(es: seq<Entry>, e: Entry)
    requires Fits(es, e)
    ensures forall i, j :: 0 <= i < j < |Spending(e)| ==> Spending(e)[i].prev != Spending(e)[j].prev
  {
    forall i, j | 0 <= i < j < |Spending(e)| ensures Spending(e)[i].prev != Spending(e)[j].prev {
      assert SpendFits(es, e, j);
      MarkInputsExact(Marks(es), e, j, Spending(e)[i].prev);
    }
  }

  /** An output has at most one confirmed spender. */
  lemma {:induction false} SpenderUnique(es: seq<Entry>, k: nat, i: nat, l: nat, j: nat, p: Point)
    requires Consistent(es) && SpendsAt(es, k, i, p) && SpendsAt(es, l, j, p)
    ensures k == l && i == j
  {
    var n := |es| - 1;
    DistinctInputs(es[..n], es[n]);
    if k < n {
      MarkOfSpender(es[..n], k, i, p);
      SpentOnce(es[..n], es[n], p);
    }
    if l < n {
      MarkOfSpender(es[..n], l, j, p);
      SpentOnce(es[..n], es[n], p);
    }
    if k < n && l < n {
      SpenderUnique(es[..n], k, i, l, j, p);
    }
  }

  // --------------------------------------------------------------------- spend table

  lemma {:induction false} SpendItemsNone(e: Entry, k: nat, p: Point)
    requires k <= |Spending(e)|
    requires forall i :: 0 <= i < k ==> Spending(e)[i].prev != p
    ensures ValuesOf(SpendItems(e, k), p) == []
  {
    if k > 0 {
      SpendItemsNone(e, k - 1, p);
      assert SpendItems(e, k)[..k - 1] == SpendItems(e, k - 1) by { SpendItemsLength(e, k - 1); }
      SpendItemsLength(e, k);
    }
  }

  lemma {:induction false} SpendItemsLength(e: Entry, k: nat)
    requires k <= |Spending(e)|
    ensures |SpendItems(e, k)| == k
  {
    if k > 0 {
      SpendItemsLength(e, k - 1);
    }
  }

  lemma {:induction false} SpendItemsOne(e: Entry, k: nat, i: nat)
    requires i < k <= |Spending(e)|
    requires forall i, j :: 0 <= i < j < |Spending(e)| ==> Spending(e)[i].prev != Spending(e)[j].prev
    ensures ValuesOf(SpendItems(e, k), Spending(e)[i].prev) == [Point(e.tx.hash, i)]
  {
    SpendItemsLength(e, k);
    SpendItemsLength(e, k - 1);
    assert SpendItems(e, k)[..k - 1] == SpendItems(e, k - 1);
    if i < k - 1 {
      SpendItemsOne(e, k - 1, i);
    } else {
      SpendItemsNone(e, k - 1, Spending(e)[i].prev);
    }
  }

  lemma {:induction false} ScanStep(es: seq<Entry>, start: nat, p: Point)
    requires es != []
    ensures var front, e := es[..|es| - 1], es[|es| - 1];
            ValuesOf(SpendScan(es, start), p) ==
            ValuesOf(SpendScan(front, start), p) +
            if e.height < start then [] else ValuesOf(SpendItems(e, |Spending(e)|), p)
  {
    hide ValuesOf, SpendItems;
    var front, e := es[..|es| - 1], es[|es| - 1];
    if e.height < start {
      assert SpendScan(es, start) == SpendScan(front, start);
    } else {
      ValuesOfConcat(SpendScan(front, start), SpendItems(e, |Spending(e)|), p);
    }
  }

  /** An unspent output is not in the scan. */
  lemma {:induction false} ScanOfUnspent(es: seq<Entry>, start: nat, p: Point)
    requires p !in Marks(es)
    ensures ValuesOf(SpendScan(es, start), p) == []
  {
    if es != [] {
      var n := |es| - 1;
      ScanStep(es, start, p);
      MarkInputsExact(Marks(es[..n]), es[n], |Spending(es[n])|, p);
      ScanOfUnspent(es[..n], start, p);
      SpendItemsNone(es[n], |Spending(es[n])|, p);
    }
  }

  /** A spent output is in the scan once, if its spender is high enough. */
  lemma {:induction false} ScanOfSpender(es: seq<Entry>, start: nat, k: nat, i: nat, p: Point)
    requires Consistent(es) && SpendsAt(es, k, i, p)
    ensures ValuesOf(SpendScan(es, start), p) == if es[k].height < start then [] else [Point(es[k].tx.hash, i)]
  {
    var n := |es| - 1;
    var front, e := es[..n], es[n];
    assert Consistent(front) && Fits(front, e);
    hide ValuesOf, SpendScan, SpendItems, Marks, Consistent, Fits, Spending;
    ScanStep(es, start, p);
    if k < n {
      ScanOfSpender(front, start, k, i, p);
      MarkOfSpender(front, k, i, p);
      SpentOnce(front, e, p);
      SpendItemsNone(e, |Spending(e)|, p);
    } else {
      DistinctInputs(front, e);
      SpendItemsOne(e, |Spending(e)|, i);
      if p in Marks(front) {
        SpentOnce(front, e, p);
      }
      ScanOfUnspent(front, start, p);
    }
  }

  // ------------------------------------------------------------------------- heights

  /** Heights never decrease along the list. */
  predicate Ascending(es: seq<Entry>) {
    forall j, k :: 0 <= j < k < |es| ==> es[j].height <= es[k].height
  }

  lemma {:induction false} FlatAscending(chain: seq<Block>)
    ensures Ascending(Flat(chain))
  {
    if chain != [] {
      var front := chain[..|chain| - 1];
      FlatAscending(front);
      FlatHeights(front);
      var es, fs := Flat(front), BlockEntries(chain[|chain| - 1], |chain| - 1);
      var all: seq<Entry> := es + fs;
      forall j, k | 0 <= j < k < |all| ensures all[j].height <= all[k].height {
        assert j < |es| ==> es[j] in es;
      }
    }
  }

  /** A spender is never below the transaction it spends. */
  lemma {:induction false} SpenderAbove(es: seq<Entry>, k: nat, i: nat, p: Point)
    requires Consistent(es) && Ascending(es) && SpendsAt(es, k, i, p)
    ensures p.hash in Confirmed(es) && p.index < |Confirmed(es)[p.hash].tx.outputs|
    ensures Confirmed(es)[p.hash].height <= es[k].height
  {
    hide Consistent, Confirmed, Spending;
    var front := es[..k];
    ParentOf(es, k, i, p);
    ConfirmedFrom(front, p.hash);
    var parent := Confirmed(front)[p.hash];
    assert parent in front ==> parent.height <= es[k].height by {
      assert forall j :: 0 <= j < k ==> front[j] == es[j];
    }
    assert front + es[k..] == es;
    ConfirmedGrows(front, es[k..], p.hash);
  }

  lemma {:induction false} ParentOf(es: seq<Entry>, k: nat, i: nat, p: Point)
    requires Consistent(es) && SpendsAt(es, k, i, p)
    ensures p.hash in Confirmed(es[..k]) && p.index < |Confirmed(es[..k])[p.hash].tx.outputs|
  {
    hide Consistent, Confirmed, Marks;
    assert [] + es == es && [] + es[..k] == es[..k];
    FitsAt([], es, k);
    assert SpendFits(es[..k], es[k], i);
  }

  // ----------------------------------------------------------------- the stored views

  /** The spends of a chain, by the marks and by the spend table. */
  lemma {:induction false} ChainSpends(chain: seq<Block>, start: nat, p: Point)
    requires ValidChain(chain)
    ensures var es := Flat(chain);
            && (p in Marks(es) <==> exists k: nat, i: nat :: SpendsAt(es, k, i, p))
            && (forall k: nat, i: nat :: SpendsAt(es, k, i, p) ==>
                  && p.hash in Confirmed(es) && p in Marks(es)
                  && Confirmed(es)[p.hash].height <= es[k].height == Marks(es)[p] < NOT_SPENT
                  && Peek(SpendTable(es, start), p) ==
                     if es[k].height < start then None else Some(Point(es[k].tx.hash, i)))
            && (p !in Marks(es) ==> Peek(SpendTable(es, start), p) == None)
  {
    hide Consistent, Confirmed, Marks, SpendScan, Linked, Flat, Peek, ValuesOf, Spending;
    var es := Flat(chain);
    FlatHeights(chain);
    FlatAscending(chain);
    PushItemsStack<Point, Point>(map[], SpendScan(es, start), p);
    PeekOfStack(SpendTable(es, start), p);
    forall k: nat, i: nat | SpendsAt(es, k, i, p)
      ensures && p.hash in Confirmed(es) && p in Marks(es)
              && Confirmed(es)[p.hash].height <= es[k].height == Marks(es)[p] < NOT_SPENT
              && Stack(SpendTable(es, start), p) == if es[k].height < start then [] else [Point(es[k].tx.hash, i)]
    {
      MarkOfSpender(es, k, i, p);
      SpenderAbove(es, k, i, p);
      ScanOfSpender(es, start, k, i, p);
      assert es[k] in es;
    }
    if p in Marks(es) {
      var k, i := SpenderOfMark(es, p);
      assert SpendsAt(es, k, i, p);
    } else {
      ScanOfUnspent(es, start, p);
    }
  }

  lemma {:induction false} StoredSpender(t: Slabs, confirmed: map<Hash, Entry>, marks: map<Point, nat>,
                                         content: Hash -> Tx, p: Point)
    requires Holds(t, confirmed, marks, {}, 0, content)
    requires p.hash in confirmed && p.index < |confirmed[p.hash].tx.outputs|
    ensures IsConfirmed(t, p.hash) && t[p.hash][0].height == confirmed[p.hash].height
    ensures p.index < |t[p.hash][0].tx.outputs|
    ensures t[p.hash][0].tx.outputs[p.index].spender == Mark(marks, p)
  {
    assert Seen(t[p.hash][0], p.hash, confirmed, marks, {}, 0, content);
  }

  /** Spend agreement: the stored spender height of a confirmed output is the
      height of the one block that spends it, or says that none does; it is never
      below the output's own height; and the spend table, where it is kept,
      returns the spending input. */
  ghost predicate Agreement(t: Slabs, spends: Spends, es: seq<Entry>, start: nat, p: Point) {
    && IsConfirmed(t, p.hash) && p.index < |t[p.hash][0].tx.outputs|
    && var spender := t[p.hash][0].tx.outputs[p.index].spender;
    && (spender == NOT_SPENT <==> !exists k: nat, i: nat :: SpendsAt(es, k, i, p))
    && (forall k: nat, i: nat :: SpendsAt(es, k, i, p) ==>
          && spender == es[k].height >= t[p.hash][0].height
          && Peek(spends, p) == if es[k].height < start then None else Some(Point(es[k].tx.hash, i)))
    && (spender == NOT_SPENT ==> Peek(spends, p) == None)
  }

  /** It holds of tables that hold a chain. */
  lemma {:induction false} SpendAgreement(t: Slabs, pool: Pool, spends: Spends,
                                          chain: seq<Block>, start: nat, content: Hash -> Tx, p: Point)
    requires ValidChain(chain)
    requires Shows(t, pool, Confirmed(Flat(chain)), Marks(Flat(chain)), {}, 0, content)
    requires spends == SpendTable(Flat(chain), start)
    requires p.hash in Confirmed(Flat(chain)) && p.index < |Confirmed(Flat(chain))[p.hash].tx.outputs|
    ensures Agreement(t, spends, Flat(chain), start, p)
  {
    hide Holds, Mirrors, ValidChain, Confirmed, Marks, SpendTable, HistoryTable, Flat, Peek, IsConfirmed;
    StoredSpender(t, Confirmed(Flat(chain)), Marks(Flat(chain)), content, p);
    ChainSpends(chain, start, p);
  }

  lemma {:induction false} PeekOfStack<K, V>(m: StackMap<K, V>, k: K)
    ensures Peek(m, k) == if Stack(m, k) == [] then None else Some(Stack(m, k)[0])
  {
  }

  // ------------------------------------------------------------------------- history

  predicate GivesInput(e: Entry, i: nat, a: Address, r: HistoryRow) {
    && i < |Spending(e)| && Spending(e)[i].address == Some(a)
    && r == SpendRow(Point(e.tx.hash, i), e.height, Spending(e)[i].prev)
  }

  predicate GivesOutput(e: Entry, j: nat, a: Address, r: HistoryRow) {
    && j < |e.tx.outputs| && e.tx.outputs[j].address == Some(a)
    && r == OutputRow(Point(e.tx.hash, j), e.height, e.tx.outputs[j].value)
  }

  /** A confirmed transaction gives an address this row. */
  predicate Gives(e: Entry, a: Address, r: HistoryRow) {
    || (exists i: nat :: i < |Spending(e)| && GivesInput(e, i, a, r))
    || (exists j: nat :: j < |e.tx.outputs| && GivesOutput(e, j, a, r))
  }

  lemma {:induction false} NoRows(e: Entry, a: Address)
    ensures ValuesOf(InputRows(e, 0), a) == [] && ValuesOf(OutputRows(e, 0), a) == []
  {
  }

  lemma {:induction false} InputRowsExact(e: Entry, k: nat, a: Address, r: HistoryRow)
    requires k <= |Spending(e)|
    ensures r in ValuesOf(InputRows(e, k), a) <==> exists i: nat :: i < k && GivesInput(e, i, a, r)
  {
    hide *;
    NoRows(e, a);
    if k > 0 {
      InputRowsExact(e, k - 1, a, r);
      InputRowsLast(e, k - 1, a, r);
      if i: nat :| i < k && GivesInput(e, i, a, r) {
        assert i == k - 1 || i < k - 1;
      }
    }
  }

  lemma {:induction false} InputRowsLast(e: Entry, k: nat, a: Address, r: HistoryRow)
    requires k < |Spending(e)|
    ensures r in ValuesOf(InputRows(e, k + 1), a) <==> r in ValuesOf(InputRows(e, k), a) || GivesInput(e, k, a, r)
  {
    hide ValuesOf, Spending;
    var i := Spending(e)[k];
    if i.address.Some? {
      ValuesOfLast(InputRows(e, k), Item(i.address.value, SpendRow(Point(e.tx.hash, k), e.height, i.prev)), a);
    } else {
      assert InputRows(e, k + 1) == InputRows(e, k);
    }
  }

  lemma {:induction false} OutputRowsExact(e: Entry, k: nat, a: Address, r: HistoryRow)
    requires k <= |e.tx.outputs|
    ensures r in ValuesOf(OutputRows(e, k), a) <==> exists j: nat :: j < k && GivesOutput(e, j, a, r)
  {
    hide *;
    NoRows(e, a);
    if k > 0 {
      OutputRowsExact(e, k - 1, a, r);
      OutputRowsLast(e, k - 1, a, r);
      if j: nat :| j < k && GivesOutput(e, j, a, r) {
        assert j == k - 1 || j < k - 1;
      }
    }
  }

  lemma {:induction false} OutputRowsLast(e: Entry, k: nat, a: Address, r: HistoryRow)
    requires k < |e.tx.outputs|
    ensures r in ValuesOf(OutputRows(e, k + 1), a) <==> r in ValuesOf(OutputRows(e, k), a) || GivesOutput(e, k, a, r)
  {
    hide ValuesOf;
    var o := e.tx.outputs[k];
    if o.address.Some? {
      ValuesOfLast(OutputRows(e, k), Item(o.address.value, OutputRow(Point(e.tx.hash, k), e.height, o.value)), a);
    } else {
      assert OutputRows(e, k + 1) == OutputRows(e, k);
    }
  }

  lemma {:induction false} ValuesOfLast<K, V>(items: seq<Item<K, V>>, last: Item<K, V>, k: K)
    ensures ValuesOf(items + [last], k) == ValuesOf(items, k) + if last.key == k then [last.value] else []
  {
    assert (items + [last])[..|items|] == items;
  }

  /** The rows one transaction adds for an address, in scan order. */
  function RowsOf(e: Entry, a: Address): seq<HistoryRow> {
    ValuesOf(InputRows(e, |Spending(e)|), a) + ValuesOf(OutputRows(e, |e.tx.outputs|), a)
  }

  lemma {:induction false} HistoryStep(es: seq<Entry>, start: nat, a: Address)
    requires es != []
    ensures var front, e := es[..|es| - 1], es[|es| - 1];
            ValuesOf(HistoryScan(es, start), a) ==
            ValuesOf(HistoryScan(front, start), a) + if e.height < start then [] else RowsOf(e, a)
  {
    hide ValuesOf, InputRows, OutputRows;
    var front, e := es[..|es| - 1], es[|es| - 1];
    if e.height < start {
      assert HistoryScan(es, start) == HistoryScan(front, start);
    } else {
      var ins, outs := InputRows(e, |Spending(e)|), OutputRows(e, |e.tx.outputs|);
      ValuesOfConcat(HistoryScan(front, start), ins + outs, a);
      ValuesOfConcat(ins, outs, a);
    }
  }

  /** Every row of a transaction is at its height. */
  lemma {:induction false} RowsOfExact(e: Entry, a: Address, r: HistoryRow)
    ensures r in RowsOf(e, a) <==> Gives(e, a, r)
    ensures r in RowsOf(e, a) ==> r.height == e.height
  {
    InputRowsExact(e, |Spending(e)|, a, r);
    OutputRowsExact(e, |e.tx.outputs|, a, r);
  }

  /** The exact rows that the indexed blocks of a chain give an address. */
  ghost predicate GivenRow(es: seq<Entry>, start: nat, a: Address, r: HistoryRow) {
    exists k :: 0 <= k < |es| && es[k].height >= start && Gives(es[k], a, r)
  }

  lemma {:induction false} GivenRowStep(es: seq<Entry>, start: nat, a: Address, r: HistoryRow)
    requires es != []
    ensures var front, e := es[..|es| - 1], es[|es| - 1];
            GivenRow(es, start, a, r) <==> GivenRow(front, start, a, r) || (e.height >= start && Gives(e, a, r))
  {
    hide Gives;
    var front, e := es[..|es| - 1], es[|es| - 1];
    if GivenRow(front, start, a, r) {
      var k :| 0 <= k < |front| && front[k].height >= start && Gives(front[k], a, r);
      assert Gives(es[k], a, r);
    }
    if GivenRow(es, start, a, r) && !(e.height >= start && Gives(e, a, r)) {
      var k :| 0 <= k < |es| && es[k].height >= start && Gives(es[k], a, r);
      assert Gives(front[k], a, r);
    }
  }

  /** The scan holds exactly the given rows. */
  lemma {:induction false} HistoryExact(es: seq<Entry>, start: nat, a: Address, r: HistoryRow)
    ensures r in ValuesOf(HistoryScan(es, start), a) <==> GivenRow(es, start, a, r)
  {
    if es != [] {
      hide RowsOf, Gives, ValuesOf, HistoryScan, GivenRow;
      var n := |es| - 1;
      HistoryStep(es, start, a);
      HistoryExact(es[..n], start, a, r);
      RowsOfExact(es[n], a, r);
      GivenRowStep(es, start, a, r);
    }
  }

  predicate RowsAscending(rows: seq<HistoryRow>) {
    forall i, j :: 0 <= i < j < |rows| ==> rows[i].height <= rows[j].height
  }

  predicate RowsDescending(rows: seq<HistoryRow>) {
    forall i, j :: 0 <= i < j < |rows| ==> rows[i].height >= rows[j].height
  }

  /** On rows from the newest down, the height filter keeps a first part. */
  lemma {:induction false} AtLeastPrefix(rows: seq<HistoryRow>, from: nat)
    requires RowsDescending(rows)
    ensures |AtLeast(rows, from)| <= |rows|
    ensures AtLeast(rows, from) == rows[..|AtLeast(rows, from)|]
    ensures forall i :: |AtLeast(rows, from)| <= i < |rows| ==> rows[i].height < from
  {
    if rows != [] {
      var n := |rows| - 1;
      AtLeastPrefix(rows[..n], from);
      var kept := AtLeast(rows[..n], from);
      assert forall i :: |kept| <= i < n ==> rows[i] == rows[..n][i];
      if rows[n].height >= from {
        assert forall i :: 0 <= i < n ==> rows[i].height >= rows[n].height;
        assert |kept| == n;
      }
    }
  }

  lemma {:induction false} ReversedRows(scan: seq<HistoryRow>)
    requires RowsAscending(scan)
    ensures RowsDescending(Reversed(scan))
    ensures forall r :: r in Reversed(scan) <==> r in scan
  {
    var all := Reversed(scan);
    assert forall i :: 0 <= i < |scan| ==> scan[i] == all[|scan| - 1 - i];
  }

  /** A query by height and limit returns a first part of such a history: rows
      that are high enough, as many as asked for or until one is too low. */
  lemma {:induction false} HistoryQuery(all: seq<HistoryRow>, limit: nat, from: nat) returns (n: nat)
    requires RowsDescending(all)
    ensures n <= |all| && Limited(AtLeast(all, from), limit) == all[..n]
    ensures forall i :: 0 <= i < n ==> all[i].height >= from
    ensures n < |all| ==> n == limit > 0 || all[n].height < from
  {
    hide AtLeast;
    AtLeastPrefix(all, from);
    AtLeastHigh(all, from);
    var kept := AtLeast(all, from);
    n := |Limited(kept, limit)|;
    assert Limited(kept, limit) == kept[..n] == all[..n];
    assert forall i :: 0 <= i < n ==> all[i] == kept[i];
  }

  lemma {:induction false} AtLeastHigh(rows: seq<HistoryRow>, from: nat)
    ensures |AtLeast(rows, from)| <= |rows|
    ensures forall i :: 0 <= i < |AtLeast(rows, from)| ==> AtLeast(rows, from)[i].height >= from
  {
    if rows != [] {
      AtLeastHigh(rows[..|rows| - 1], from);
    }
  }
}
