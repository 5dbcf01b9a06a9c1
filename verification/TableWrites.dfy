/** The single writes by which a block's transactions reach four tables. Each is
    one call on one table; workers interleave them. */
module TableWrites {
  import opened Wrappers
  import opened StackMaps
  import opened ChainTypes
  import opened ChainModel
  import opened TransactionTable
  import opened Tables
  import opened Interleavings

  datatype TableState = TableState(slabs: Slabs, pool: Pool, spends: Spends, rows: Histories)

  datatype StoreOp = StoreOp(tx: Tx, height: nat, position: nat)

  datatype Write =
    | StoreTx(op: StoreOp)
    | DropPooled(hash: Hash)
    | StoreSpend(spend: Item<Point, Point>)
    | AddRow(row: Item<Address, HistoryRow>)

  function Perform(s: TableState, w: Write): TableState {
    match w
    case StoreTx(op) => s.(slabs := Stored(s.slabs, op.tx, op.height, op.position))
    case DropPooled(hash) => s.(pool := Pop(s.pool, hash))
    case StoreSpend(spend) => s.(spends := Push(s.spends, spend.key, spend.value))
    case AddRow(row) => s.(rows := Push(s.rows, row.key, row.value))
  }

  function PerformAll(s: TableState, ws: seq<Write>): TableState {
    if ws == [] then s else Perform(PerformAll(s, ws[..|ws| - 1]), ws[|ws| - 1])
  }

  lemma {:induction false} PerformLast(s: TableState, ws: seq<Write>, w: Write)
    ensures PerformAll(s, ws + [w]) == Perform(PerformAll(s, ws), w)
  {
    assert (ws + [w])[..|ws|] == ws;
  }

  lemma {:induction false} PerformConcat(s: TableState, a: seq<Write>, b: seq<Write>)
    ensures PerformAll(s, a + b) == PerformAll(PerformAll(s, a), b)
  {
    if b == [] {
      assert a + b == a;
    } else {
      var n := |b| - 1;
      assert (a + b)[..|a + b| - 1] == a + b[..n];
      PerformConcat(s, a, b[..n]);
    }
  }

  // ------------------------------------------------------- the writes of a transaction

  /** The first k inputs: the spend, then the row of its address. */
  function InputWrites(e: Entry, k: nat): seq<Write>
    requires k <= |Spending(e)|
  {
    if k == 0 then []
    else
      var i := Spending(e)[k - 1];
      InputWrites(e, k - 1) + [StoreSpend(Item(i.prev, Point(e.tx.hash, k - 1)))] +
      (if i.address.None? then []
       else [AddRow(Item(i.address.value, SpendRow(Point(e.tx.hash, k - 1), e.height, i.prev)))])
  }

  function OutputWrites(e: Entry, k: nat): seq<Write>
    requires k <= |e.tx.outputs|
  {
    if k == 0 then []
    else
      var o := e.tx.outputs[k - 1];
      OutputWrites(e, k - 1) +
      (if o.address.None? then []
       else [AddRow(Item(o.address.value, OutputRow(Point(e.tx.hash, k - 1), e.height, o.value)))])
  }

  /** All writes of one position of a block, in the order of its worker. The
      stored transaction is the one that arrived, `txs[e.position]`. */
  function WritesOf(txs: seq<Tx>, start: nat): Entry -> seq<Write> {
    (e: Entry) =>
      (if e.position < |txs| then [StoreTx(StoreOp(txs[e.position], e.height, e.position))] else []) +
      [DropPooled(e.tx.hash)] +
      (if e.height < start then [] else InputWrites(e, |Spending(e)|) + OutputWrites(e, |e.tx.outputs|))
  }

  lemma {:induction false} NoWrites(s: TableState, e: Entry)
    ensures PerformAll(s, InputWrites(e, 0)) == s && PerformAll(s, OutputWrites(e, 0)) == s
    ensures PerformAll(s, []) == s
  {
  }

  lemma {:induction false} InputWritesStep(s: TableState, e: Entry, k: nat)
    requires k < |Spending(e)|
    ensures var i, before := Spending(e)[k], PerformAll(s, InputWrites(e, k));
            var spent := Perform(before, StoreSpend(Item(i.prev, Point(e.tx.hash, k))));
            PerformAll(s, InputWrites(e, k + 1)) ==
            if i.address.None? then spent
            else Perform(spent, AddRow(Item(i.address.value, SpendRow(Point(e.tx.hash, k), e.height, i.prev))))
  {
    hide Perform, Spending;
    var i := Spending(e)[k];
    var spend := StoreSpend(Item(i.prev, Point(e.tx.hash, k)));
    PerformLast(s, InputWrites(e, k), spend);
    if i.address.None? {
      assert InputWrites(e, k + 1) == InputWrites(e, k) + [spend];
    } else {
      PerformLast(s, InputWrites(e, k) + [spend],
                  AddRow(Item(i.address.value, SpendRow(Point(e.tx.hash, k), e.height, i.prev))));
    }
  }

  lemma {:induction false} OutputWritesStep(s: TableState, e: Entry, k: nat)
    requires k < |e.tx.outputs|
    ensures var o, before := e.tx.outputs[k], PerformAll(s, OutputWrites(e, k));
            PerformAll(s, OutputWrites(e, k + 1)) ==
            if o.address.None? then before
            else Perform(before, AddRow(Item(o.address.value, OutputRow(Point(e.tx.hash, k), e.height, o.value))))
  {
    hide Perform;
    var o := e.tx.outputs[k];
    if o.address.None? {
      assert OutputWrites(e, k + 1) == OutputWrites(e, k);
    } else {
      PerformLast(s, OutputWrites(e, k), AddRow(Item(o.address.value, OutputRow(Point(e.tx.hash, k), e.height, o.value))));
    }
  }

  /** One position's writes, one table call after the other. */
  lemma {:induction false} WritesInOrder(s: TableState, txs: seq<Tx>, start: nat, e: Entry)
    requires e.position < |txs|
    ensures var stored := Perform(s, StoreTx(StoreOp(txs[e.position], e.height, e.position)));
            var dropped := Perform(stored, DropPooled(e.tx.hash));
            PerformAll(s, WritesOf(txs, start)(e)) ==
            if e.height < start then dropped
            else PerformAll(PerformAll(dropped, InputWrites(e, |Spending(e)|)), OutputWrites(e, |e.tx.outputs|))
  {
    hide Perform, InputWrites, OutputWrites;
    var store, drop := StoreTx(StoreOp(txs[e.position], e.height, e.position)), DropPooled(e.tx.hash);
    PerformLast(s, [], store);
    PerformLast(s, [store], drop);
    NoWrites(s, e);
    var rest := if e.height < start then [] else InputWrites(e, |Spending(e)|) + OutputWrites(e, |e.tx.outputs|);
    assert [] + [store] == [store];
    assert WritesOf(txs, start)(e) == ([store] + [drop]) + rest;
    PerformConcat(s, [store] + [drop], rest);
    NoWrites(PerformAll(s, [store] + [drop]), e);
    PerformConcat(PerformAll(s, [store] + [drop]), InputWrites(e, |Spending(e)|), OutputWrites(e, |e.tx.outputs|));
  }

  // ---------------------------------------------------------------- table by table

  function AsStore(w: Write): Option<StoreOp> { if w.StoreTx? then Some(w.op) else None }

  function AsDrop(w: Write): Option<Hash> { if w.DropPooled? then Some(w.hash) else None }

  function AsSpend(w: Write): Option<Item<Point, Point>> { if w.StoreSpend? then Some(w.spend) else None }

  function AsRow(w: Write): Option<Item<Address, HistoryRow>> { if w.AddRow? then Some(w.row) else None }

  function StoreAll(t: Slabs, ops: seq<StoreOp>): Slabs {
    if ops == [] then t
    else
      var op := ops[|ops| - 1];
      Stored(StoreAll(t, ops[..|ops| - 1]), op.tx, op.height, op.position)
  }

  lemma {:induction false} StoreLast(t: Slabs, ops: seq<StoreOp>, op: StoreOp)
    ensures StoreAll(t, ops + [op]) == Stored(StoreAll(t, ops), op.tx, op.height, op.position)
  {
    assert (ops + [op])[..|ops|] == ops;
  }

  lemma {:induction false} PopKeysLast<K, V>(m: StackMap<K, V>, keys: seq<K>, key: K)
    ensures PopKeys(m, keys + [key]) == Pop(PopKeys(m, keys), key)
  {
    assert (keys + [key])[..|keys|] == keys;
  }

  /** The writes of each table, in their order. */
  datatype Parts = Parts(stores: seq<StoreOp>, drops: seq<Hash>, spends: seq<Item<Point, Point>>,
                         rows: seq<Item<Address, HistoryRow>>) {
    function Plus(other: Parts): Parts {
      Parts(stores + other.stores, drops + other.drops, spends + other.spends, rows + other.rows)
    }
  }

  function PartsOf(ws: seq<Write>): Parts {
    Parts(Select(ws, AsStore), Select(ws, AsDrop), Select(ws, AsSpend), Select(ws, AsRow))
  }

  function Apply(s: TableState, p: Parts): TableState {
    TableState(StoreAll(s.slabs, p.stores), PopKeys(s.pool, p.drops), PushItems(s.spends, p.spends), PushItems(s.rows, p.rows))
  }

  lemma {:induction false} PartsConcat(a: seq<Write>, b: seq<Write>)
    ensures PartsOf(a + b) == PartsOf(a).Plus(PartsOf(b))
  {
    SelectConcat(a, b, AsStore);
    SelectConcat(a, b, AsDrop);
    SelectConcat(a, b, AsSpend);
    SelectConcat(a, b, AsRow);
  }

  function PartOf(w: Write): Parts {
    match w
    case StoreTx(op) => Parts([op], [], [], [])
    case DropPooled(hash) => Parts([], [hash], [], [])
    case StoreSpend(spend) => Parts([], [], [spend], [])
    case AddRow(row) => Parts([], [], [], [row])
  }

  lemma {:induction false} PartsOfOne(w: Write)
    ensures PartsOf([w]) == PartOf(w)
  {
    SelectOne(w, AsStore);
    SelectOne(w, AsDrop);
    SelectOne(w, AsSpend);
    SelectOne(w, AsRow);
  }

  lemma {:induction false} ApplyOne(s: TableState, p: Parts, w: Write)
    ensures Apply(s, p.Plus(PartOf(w))) == Perform(Apply(s, p), w)
  {
    hide StoreAll, PopKeys, PushItems, Stored, Push, Pop;
    assert p.stores + [] == p.stores && p.drops + [] == p.drops && p.spends + [] == p.spends && p.rows + [] == p.rows;
    match w
    case StoreTx(op) => StoreLast(s.slabs, p.stores, op);
    case DropPooled(hash) => PopKeysLast(s.pool, p.drops, hash);
    case StoreSpend(spend) => PushItemsLast(s.spends, p.spends, spend);
    case AddRow(row) => PushItemsLast(s.rows, p.rows, row);
  }

  /** Each table sees its own writes only, in their order. */
  lemma {:induction false} PerformParts(s: TableState, ws: seq<Write>)
    ensures PerformAll(s, ws) == Apply(s, PartsOf(ws))
  {
    if ws != [] {
      var n := |ws| - 1;
      PerformParts(s, ws[..n]);
      hide PartsOf, Apply, Perform, PartOf;
      assert ws == ws[..n] + [ws[n]];
      PartsConcat(ws[..n], [ws[n]]);
      PartsOfOne(ws[n]);
      ApplyOne(s, PartsOf(ws[..n]), ws[n]);
    }
  }

  lemma {:induction false} InputParts(e: Entry, k: nat)
    requires k <= |Spending(e)|
    ensures PartsOf(InputWrites(e, k)) == Parts([], [], SpendItems(e, k), InputRows(e, k))
  {
    if k > 0 {
      var i := Spending(e)[k - 1];
      var spend := StoreSpend(Item(i.prev, Point(e.tx.hash, k - 1)));
      InputParts(e, k - 1);
      PartsConcat(InputWrites(e, k - 1), [spend]);
      PartsOfOne(spend);
      hide PartsOf, Spending;
      if i.address.None? {
        assert InputWrites(e, k) == InputWrites(e, k - 1) + [spend];
      } else {
        var row := AddRow(Item(i.address.value, SpendRow(Point(e.tx.hash, k - 1), e.height, i.prev)));
        PartsConcat(InputWrites(e, k - 1) + [spend], [row]);
        PartsOfOne(row);
      }
    }
  }

  lemma {:induction false} OutputParts(e: Entry, k: nat)
    requires k <= |e.tx.outputs|
    ensures PartsOf(OutputWrites(e, k)) == Parts([], [], [], OutputRows(e, k))
  {
    if k > 0 {
      var o := e.tx.outputs[k - 1];
      OutputParts(e, k - 1);
      hide PartsOf;
      if o.address.None? {
        assert OutputWrites(e, k) == OutputWrites(e, k - 1);
      } else {
        var row := AddRow(Item(o.address.value, OutputRow(Point(e.tx.hash, k - 1), e.height, o.value)));
        PartsConcat(OutputWrites(e, k - 1), [row]);
        PartsOfOne(row);
      }
    }
  }

  /** What one position writes to each table. */
  lemma {:induction false} EntryParts(txs: seq<Tx>, start: nat, e: Entry)
    requires e.position < |txs|
    ensures PartsOf(WritesOf(txs, start)(e)) ==
            Parts([StoreOp(txs[e.position], e.height, e.position)], [e.tx.hash], SpendsOf(start)(e), HistoryOf(start)(e))
  {
    var op := StoreTx(StoreOp(txs[e.position], e.height, e.position));
    var ins, outs := InputWrites(e, |Spending(e)|), OutputWrites(e, |e.tx.outputs|);
    PartsOfOne(op);
    PartsOfOne(DropPooled(e.tx.hash));
    PartsConcat([op], [DropPooled(e.tx.hash)]);
    InputParts(e, |Spending(e)|);
    OutputParts(e, |e.tx.outputs|);
    PartsConcat(ins, outs);
    PartsConcat([op] + [DropPooled(e.tx.hash)], if e.height < start then [] else ins + outs);
    assert PartsOf([]) == Parts([], [], [], []);
    hide PartsOf, InputWrites, OutputWrites, SpendItems, InputRows, OutputRows;
  }
}
