/** Blocks, transactions and points as the store sees them. Hashing, script
    parsing and address extraction belong to the core library, so a digest is
    an opaque number, and an output or input carries the address that would be
    extracted from its script. */
module ChainTypes {
  import opened Wrappers

  type Hash = nat
  type Address = nat

  const NULL_HASH: Hash := 0
  const MAX_UINT32: nat := 0xffff_ffff
  /** An output's spender height while nothing confirmed spends it. */
  const NOT_SPENT: nat := MAX_UINT32
  /** The position of a transaction that is in no block. */
  const UNCONFIRMED: nat := MAX_UINT32

  datatype Point = Point(hash: Hash, index: nat)

  datatype Output = Output(spender: nat, value: nat, address: Option<Address>)

  datatype Input = Input(prev: Point, address: Option<Address>)

  /** `pooled` is the validation flag of the caller; it is never serialized. */
  datatype Tx = Tx(hash: Hash, coinbase: bool, inputs: seq<Input>, outputs: seq<Output>, pooled: bool)

  datatype Header = Header(hash: Hash, previous: Hash)

  datatype Block = Block(header: Header, txs: seq<Tx>)

  /** A row of an address's history. */
  datatype HistoryRow =
    | OutputRow(point: Point, height: nat, value: nat)
    | SpendRow(point: Point, height: nat, previous: Point)

  // The transaction itself, without the metadata a store attaches to it.

  function CleanOutputs(outputs: seq<Output>): (r: seq<Output>)
    ensures |r| == |outputs|
    ensures forall i :: 0 <= i < |r| ==> r[i] == outputs[i].(spender := NOT_SPENT)
  {
    seq(|outputs|, i requires 0 <= i < |outputs| => outputs[i].(spender := NOT_SPENT))
  }

  function Clean(tx: Tx): Tx {
    tx.(outputs := CleanOutputs(tx.outputs), pooled := false)
  }

  function CleanBlock(b: Block): Block {
    Block(b.header, seq(|b.txs|, i requires 0 <= i < |b.txs| => Clean(b.txs[i])))
  }

  function HashesIn(txs: seq<Tx>): set<Hash> {
    set i | 0 <= i < |txs| :: txs[i].hash
  }

  lemma {:induction false} CleanBlockTwice(b: Block)
    ensures CleanBlock(CleanBlock(b)) == CleanBlock(b)
  {
    forall i | 0 <= i < |b.txs| ensures Clean(Clean(b.txs[i])) == Clean(b.txs[i]) {
      assert CleanOutputs(CleanOutputs(b.txs[i].outputs)) == CleanOutputs(b.txs[i].outputs);
    }
    assert CleanBlock(CleanBlock(b)).txs == CleanBlock(b).txs;
  }

  lemma {:induction false} CleanSameOutputs(a: Tx, b: Tx)
    requires Clean(a) == Clean(b)
    ensures |a.outputs| == |b.outputs|
    ensures forall i :: 0 <= i < |a.outputs| ==> a.outputs[i].(spender := NOT_SPENT) == b.outputs[i].(spender := NOT_SPENT)
  {
    forall i | 0 <= i < |a.outputs|
      ensures a.outputs[i].(spender := NOT_SPENT) == b.outputs[i].(spender := NOT_SPENT)
    {
      assert CleanOutputs(a.outputs)[i] == CleanOutputs(b.outputs)[i];
    }
  }
}
