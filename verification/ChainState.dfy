/** What a valid chain is, what validation grants about the next block, and what
    the block database holds for a chain. */
module ChainState {
  import opened Wrappers
  import opened StackMaps
  import opened ChainTypes
  import opened ChainModel
  import opened BlockDatabases

  datatype Code =
    | Success
    | OperationFailed
    | EmptyBlock
    | InvalidHeight
    | MissingParent
    | UnspentDuplicate
    | LengthError   // the exception of a reservation that is too long

  function PreviousHash(chain: seq<Block>, height: nat): Hash
    requires height <= |chain|
  {
    if height == 0 then NULL_HASH else chain[height - 1].header.hash
  }

  /** The code the store answers before it writes anything. */
  function VerifyCode(chain: seq<Block>, b: Block, height: nat): Code {
    if b.txs == [] then EmptyBlock
    else if |chain| != height then InvalidHeight
    else if b.header.previous != PreviousHash(chain, height) then MissingParent
    else Success
  }

  /** Which code a push of a block on top of a chain answers. */
  ghost predicate AnswersPush(code: Code, chain: seq<Block>, b: Block, height: nat) {
    && (code == EmptyBlock <==> |b.txs| == 0)
    && (code == InvalidHeight <==> |b.txs| > 0 && height != |chain|)
    && (code == MissingParent <==>
          && |b.txs| > 0 && height == |chain|
          && b.header.previous != if height == 0 then NULL_HASH else chain[height - 1].header.hash)
    && (code == Success <==>
          && |b.txs| > 0 && height == |chain|
          && b.header.previous == if height == 0 then NULL_HASH else chain[height - 1].header.hash)
  }

  lemma {:induction false} VerifyAnswers(chain: seq<Block>, b: Block, height: nat)
    ensures AnswersPush(VerifyCode(chain, b, height), chain, b, height)
  {
  }

  /** No gaps, each block names its predecessor, and no hash repeats. */
  predicate Linked(chain: seq<Block>) {
    && (forall h :: 0 <= h < |chain| ==> chain[h].header.previous == PreviousHash(chain, h))
    && (forall g, h :: 0 <= g < h < |chain| ==> chain[g].header.hash != chain[h].header.hash)
  }

  predicate ValidChain(chain: seq<Block>) {
    && |chain| <= MAX_UINT32
    && Linked(chain)
    && Consistent(Flat(chain))
    && forall h :: 0 <= h < |chain| ==> 0 < |chain[h].txs| <= UNCONFIRMED
  }

  /** The whole list of confirmed transactions once the block is on top. */
  function With(chain: seq<Block>, b: Block): seq<Entry> {
    Flat(chain) + BlockEntries(CleanBlock(b), |chain|)
  }

  /** What validation has established about a block before it reaches the store:
      its hash is new, its transactions fit the chain, no two transactions share
      a hash, and an output either is unspent or carries the height of this very
      block, in which it is spent (as blocks read back from the store do). */
  ghost predicate WellFormed(chain: seq<Block>, b: Block, content: Hash -> Tx) {
    && |chain| < MAX_UINT32
    && |b.txs| <= UNCONFIRMED
    && (forall h :: 0 <= h < |chain| ==> chain[h].header.hash != b.header.hash)
    && Consistent(With(chain, b))
    && (forall i :: 0 <= i < |b.txs| ==> Clean(b.txs[i]) == content(b.txs[i].hash))
    && (forall i, j :: 0 <= i < |b.txs| && 0 <= j < |b.txs[i].outputs| ==>
          SpenderFits(chain, b, b.txs[i], j))
  }

  predicate SpenderFits(chain: seq<Block>, b: Block, tx: Tx, j: nat)
    requires j < |tx.outputs|
  {
    || tx.outputs[j].spender == NOT_SPENT
    || (tx.outputs[j].spender == |chain| && Point(tx.hash, j) in Marks(With(chain, b)))
  }

  /** The block database holds the chain: every height exists, and looking up the
      hash of a chain block finds that block. */
  ghost predicate BlocksHold(view: map<nat, BlockSlab>, newest: map<Hash, BlockSlab>, count: nat, chain: seq<Block>) {
    && count == |chain|
    && (forall h: nat :: h in view <==> h < |chain|)
    && forall h :: 0 <= h < |chain| ==>
         && view[h] == SlabOf(chain[h], h)
         && chain[h].header.hash in newest
         && newest[chain[h].header.hash] == SlabOf(chain[h], h)
  }

  lemma {:induction false} WithFlat(chain: seq<Block>, b: Block)
    ensures With(chain, b) == Flat(chain + [CleanBlock(b)])
  {
    FlatAppend(chain, CleanBlock(b));
  }

  lemma {:induction false} BlocksHoldPushed(view: map<nat, BlockSlab>, newest: map<Hash, BlockSlab>, count: nat,
                         chain: seq<Block>, b: Block)
    requires BlocksHold(view, newest, count, chain)
    requires forall h :: 0 <= h < |chain| ==> chain[h].header.hash != b.header.hash
    ensures count == |chain|
    ensures var slab := SlabOf(b, |chain|);
            BlocksHold(view[|chain| := slab], newest[b.header.hash := slab], |chain| + 1, chain + [CleanBlock(b)])
  {
    assert TxHashes(b.txs) == TxHashes(CleanBlock(b).txs);
  }

  lemma {:induction false} LinkedPushed(chain: seq<Block>, b: Block)
    requires Linked(chain)
    requires b.header.previous == PreviousHash(chain, |chain|)
    requires forall h :: 0 <= h < |chain| ==> chain[h].header.hash != b.header.hash
    ensures Linked(chain + [b])
  {
    var longer := chain + [b];
    assert forall h :: 0 <= h < |chain| ==> longer[h] == chain[h];
    forall h | 0 <= h < |longer| ensures longer[h].header.previous == PreviousHash(longer, h) {
      assert PreviousHash(longer, h) == PreviousHash(chain, h);
    }
    forall g, h | 0 <= g < h < |longer| ensures longer[g].header.hash != longer[h].header.hash {
      if h < |chain| {
        assert chain[g].header.hash != chain[h].header.hash;
      }
    }
  }

  lemma {:induction false} ValidPushed(chain: seq<Block>, b: Block, content: Hash -> Tx)
    requires ValidChain(chain) && WellFormed(chain, b, content)
    requires VerifyCode(chain, b, |chain|) == Success
    ensures ValidChain(chain + [CleanBlock(b)])
  {
    WithFlat(chain, b);
    LinkedPushed(chain, CleanBlock(b));
    var chain' := chain + [CleanBlock(b)];
    forall h | 0 <= h < |chain'| ensures 0 < |chain'[h].txs| <= UNCONFIRMED {
      assert h < |chain| ==> chain'[h] == chain[h];
    }
  }

  lemma {:induction false} LinkedPrefix(chain: seq<Block>, n: nat)
    requires Linked(chain) && n <= |chain|
    ensures Linked(chain[..n])
  {
    var shorter := chain[..n];
    assert forall h :: 0 <= h < n ==> shorter[h] == chain[h];
    forall h | 0 <= h < n ensures shorter[h].header.previous == PreviousHash(shorter, h) {
      assert PreviousHash(shorter, h) == PreviousHash(chain, h);
    }
  }

  lemma {:induction false} ConsistentPopped(chain: seq<Block>)
    requires chain != [] && Consistent(Flat(chain))
    ensures Consistent(Flat(chain[..|chain| - 1]))
  {
    hide Consistent;
    var front := Flat(chain[..|chain| - 1]);
    ConsistentPrefix(Flat(chain), |front|);
    assert Flat(chain)[..|front|] == front;
  }

  lemma {:induction false} ValidPopped(chain: seq<Block>)
    requires ValidChain(chain) && chain != []
    ensures ValidChain(chain[..|chain| - 1])
  {
    hide Consistent, Flat, Linked;
    LinkedPrefix(chain, |chain| - 1);
    ConsistentPopped(chain);
  }

  /** Every confirmed transaction is below the next height. */
  lemma {:induction false} FlatHeights(chain: seq<Block>)
    ensures forall e :: e in Flat(chain) ==> e.height < |chain|
  {
    if chain != [] {
      FlatHeights(chain[..|chain| - 1]);
    }
  }

  lemma {:induction false} BlocksHoldPopped(view: map<nat, BlockSlab>, view': map<nat, BlockSlab>,
                                            newest: map<Hash, BlockSlab>,
                         chain: seq<Block>)
    requires chain != [] && BlocksHold(view, newest, |chain|, chain)
    requires view' == map h | h in view && h < |chain| - 1 :: view[h]
    ensures BlocksHold(view', newest, |chain| - 1, chain[..|chain| - 1])
  {
  }

  /** A block as the store reads it back: its outputs carry the spender heights
      they had when its transactions were read. */
  ghost predicate IsReread(out: Block, b: Block, marks: map<Point, nat>) {
    && out.header == b.header
    && |out.txs| == |b.txs|
    && forall i :: 0 <= i < |out.txs| ==> TxReread(out.txs[i], b.txs[i], marks)
  }

  ghost predicate TxReread(out: Tx, tx: Tx, marks: map<Point, nat>) {
    && Clean(out) == tx
    && !out.pooled
    && forall j :: 0 <= j < |out.outputs| ==> out.outputs[j].spender == Mark(marks, Point(tx.hash, j))
  }

  /** A popped block can be pushed again where it was, although outputs spent
      inside the block still carry its height. */
  lemma {:induction false} RereadWellFormed(chain: seq<Block>, b: Block, out: Block, content: Hash -> Tx)
    requires ValidChain(chain + [b])
    requires IsReread(out, b, Marks(Flat(chain + [b])))
    requires forall i :: 0 <= i < |out.txs| ==> Clean(out.txs[i]) == content(out.txs[i].hash)
    ensures CleanBlock(out) == b
    ensures WellFormed(chain, out, content)
    ensures VerifyCode(chain, out, |chain|) == Success
  {
    var whole := chain + [b];
    assert b == whole[|chain|];
    assert CleanBlock(out) == b by {
      forall i | 0 <= i < |b.txs| ensures CleanBlock(out).txs[i] == b.txs[i] {
        assert TxReread(out.txs[i], b.txs[i], Marks(Flat(whole)));
      }
      assert CleanBlock(out).txs == b.txs;
    }
    WithFlat(chain, out);
    RereadSpenders(chain, b, out);
    forall h | 0 <= h < |chain| ensures chain[h].header.hash != out.header.hash {
      assert whole[h] == chain[h];
    }
    assert PreviousHash(whole, |chain|) == PreviousHash(chain, |chain|);
  }

  lemma {:induction false} RereadSpenders(chain: seq<Block>, b: Block, out: Block)
    requires ValidChain(chain + [b])
    requires IsReread(out, b, Marks(Flat(chain + [b])))
    requires CleanBlock(out) == b
    ensures forall i, j :: 0 <= i < |out.txs| && 0 <= j < |out.txs[i].outputs| ==>
              SpenderFits(chain, out, out.txs[i], j)
  {
    hide Marks, Consistent, Flat, CleanOutputs;
    var es, fs := Flat(chain), BlockEntries(b, |chain|);
    WithFlat(chain, out);
    FlatAppend(chain, b);
    forall i, j | 0 <= i < |out.txs| && 0 <= j < |out.txs[i].outputs|
      ensures SpenderFits(chain, out, out.txs[i], j)
    {
      var p := Point(b.txs[i].hash, j);
      assert TxReread(out.txs[i], b.txs[i], Marks(es + fs));
      if p in Marks(es + fs) {
        MarksAdded(es, fs, |chain|, p);
        NotMarkedBefore(es, fs, i, p);
      }
    }
  }

  lemma {:induction false} NotMarkedBefore(es: seq<Entry>, fs: seq<Entry>, i: nat, p: Point)
    requires Consistent(es + fs) && i < |fs| && p.hash == fs[i].tx.hash
    ensures p !in Marks(es)
  {
    FitsAt(es, fs, i);
    FitsAt(es, fs, 0);
    assert es + fs[..0] == es;
    MarksFrom(es);
    if p in Marks(es) {
      ConfirmedGrows(es, fs[..i], p.hash);
    }
  }

  lemma {:induction false} TopBlock(view: map<nat, BlockSlab>, newest: map<Hash, BlockSlab>, count: nat,
                                    chain: seq<Block>)
    requires BlocksHold(view, newest, count, chain)
    ensures count == |chain|
    ensures chain != [] ==> count - 1 in view && view[count - 1] == SlabOf(chain[count - 1], count - 1)
  {
  }

  /** The entries of the newest block, and what its slab says of them. */
  lemma {:induction false} LastEntries(chain: seq<Block>)
    requires ValidChain(chain) && chain != []
    ensures var n := |chain| - 1;
            var es, fs := Flat(chain[..n]), BlockEntries(chain[n], n);
            && Flat(chain) == es + fs && Consistent(es + fs)
            && TxHashes(chain[n].txs) == seq(|fs|, k requires 0 <= k < |fs| => fs[k].tx.hash)
            && (forall e :: e in es + fs ==> e.height < NOT_SPENT)
  {
    hide Linked, Consistent;
    FlatHeights(chain);
  }

  function CleanBlocks(blocks: seq<Block>): (r: seq<Block>)
    ensures |r| == |blocks|
    ensures forall i :: 0 <= i < |r| ==> r[i] == CleanBlock(blocks[i])
  {
    seq(|blocks|, i requires 0 <= i < |blocks| => CleanBlock(blocks[i]))
  }

  /** Blocks of which each, if the store accepts it, is well formed where it lands. */
  ghost predicate Admissible(chain: seq<Block>, blocks: seq<Block>, first: nat, content: Hash -> Tx)
    decreases |blocks|
  {
    blocks == [] ||
    (VerifyCode(chain, blocks[0], first) == Success ==>
       && WellFormed(chain, blocks[0], content)
       && Admissible(chain + [CleanBlock(blocks[0])], blocks[1..], first + 1, content))
  }

  /** Blocks that can all be pushed on a chain, one after the other. */
  ghost predicate Pushable(chain: seq<Block>, blocks: seq<Block>, content: Hash -> Tx)
    decreases |blocks|
  {
    blocks == [] ||
    (&& VerifyCode(chain, blocks[0], |chain|) == Success
     && WellFormed(chain, blocks[0], content)
     && Pushable(chain + [CleanBlock(blocks[0])], blocks[1..], content))
  }

  lemma {:induction false} PushableAdmissible(chain: seq<Block>, blocks: seq<Block>, content: Hash -> Tx)
    requires Pushable(chain, blocks, content)
    ensures Admissible(chain, blocks, |chain|, content)
    decreases |blocks|
  {
    if blocks != [] {
      hide WellFormed, VerifyCode, CleanBlock;
      PushableAdmissible(chain + [CleanBlock(blocks[0])], blocks[1..], content);
    }
  }

  lemma {:induction false} NothingPushable(chain: seq<Block>, content: Hash -> Tx)
    ensures Pushable(chain, [], content)
  {
  }

  lemma {:induction false} PushableFront(chain: seq<Block>, b: Block, out: Block, rest: seq<Block>,
                                         content: Hash -> Tx)
    requires ValidChain(chain + [b])
    requires IsReread(out, b, Marks(Flat(chain + [b])))
    requires forall i :: 0 <= i < |out.txs| ==> Clean(out.txs[i]) == content(out.txs[i].hash)
    requires Pushable(chain + [b], rest, content)
    ensures CleanBlock(out) == b
    ensures Pushable(chain, [out] + rest, content)
  {
    RereadWellFormed(chain, b, out, content);
    hide WellFormed, VerifyCode, CleanBlock, IsReread;
    assert ([out] + rest)[1..] == rest;
  }

  ghost predicate OnChain(chain: seq<Block>, hash: Hash) {
    exists f :: 0 <= f < |chain| && chain[f].header.hash == hash
  }

  lemma {:induction false} CleanBlocksStep(blocks: seq<Block>, k: nat)
    requires k < |blocks|
    ensures CleanBlocks(blocks[..k + 1]) == CleanBlocks(blocks[..k]) + [CleanBlock(blocks[k])]
    ensures blocks[k..][0] == blocks[k] && blocks[k..][1..] == blocks[k + 1..]
  {
  }
}
