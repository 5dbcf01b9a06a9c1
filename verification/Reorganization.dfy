/** What pushing and popping several blocks does: to the chain, to the pool, to the
    lookup of blocks by hash, and to the cache. */
module Reorganizations {
  import opened Wrappers
  import opened StackMaps
  import opened ChainTypes
  import opened ChainModel
  import opened ChainProperties
  import opened ChainState
  import opened TransactionTable
  import opened Tables
  import opened TableWrites
  import opened HistoryOrders
  import opened HistoryLogs
  import opened PushSteps
  import opened PopSteps
  import opened TransactionDatabases
  import opened UnspentOutputsCache
  import opened BlockDatabases

  // --------------------------------------------------------------------- the chain

  /** What popping to the height of a hash answers. */
  function PopCode(known: Option<nat>, chain: seq<Block>): Code {
    if known.None? || chain == [] then OperationFailed
    else if known.value >= |chain| then LengthError
    else Success
  }

  /** The height that a lookup finds for a hash, be its block on the chain or left
      behind by a pop. */
  function HeightOf(newest: map<Hash, BlockSlab>, hash: Hash): Option<nat> {
    if hash in newest then Some(newest[hash].height) else None
  }

  /** The chain up to a height that a lookup found, and what is above it. */
  function UpTo(chain: seq<Block>, known: Option<nat>): seq<Block> {
    if known.Some? && known.value < |chain| then chain[..known.value + 1] else chain
  }

  function Above(chain: seq<Block>, known: Option<nat>): seq<Block> {
    chain[|UpTo(chain, known)|..]
  }

  /** Each of the first n blocks passes the checks on top of those before it. */
  ghost predicate Accepted(base: seq<Block>, incoming: seq<Block>, first: nat, n: nat)
    requires n <= |incoming|
  {
    forall k :: 0 <= k < n ==> VerifyCode(base + CleanBlocks(incoming[..k]), incoming[k], first + k) == Success
  }

  /** The first blocks of a list were pushed on a chain: all of them, or all up to
      the first that the checks refuse. */
  ghost predicate Appended(base: seq<Block>, incoming: seq<Block>, first: nat, chain: seq<Block>, code: Code,
                           pushed: nat) {
    && pushed <= |incoming| && chain == base + CleanBlocks(incoming[..pushed])
    && Accepted(base, incoming, first, pushed)
    && code == (if pushed == |incoming| then Success else VerifyCode(chain, incoming[pushed], first + pushed))
    && (code == Success <==> pushed == |incoming|)
  }

  function TopHash(chain: seq<Block>): Option<Hash> {
    if chain == [] then None else Some(chain[|chain| - 1].header.hash)
  }

  /** What popping above a hash answers and leaves: it fails if the hash is unknown or
      the chain is empty, throws if the height of the hash is above the top, and
      otherwise parts the chain behind that height. */
  ghost predicate AnswersPop(code: Code, newest: map<Hash, BlockSlab>, hash: Hash, was: seq<Block>, chain: seq<Block>,
                             above: seq<Block>) {
    && (code == OperationFailed <==> hash !in newest || |was| == 0)
    && (code == LengthError <==> hash in newest && 0 < |was| <= newest[hash].height)
    && (code == Success <==> hash in newest && newest[hash].height < |was|)
    && (code == Success ==> chain == was[..newest[hash].height + 1] && above == was[newest[hash].height + 1..])
  }

  lemma {:induction false} PopAnswers(newest: map<Hash, BlockSlab>, hash: Hash, was: seq<Block>)
    ensures var known := HeightOf(newest, hash);
            AnswersPop(PopCode(known, was), newest, hash, was, UpTo(was, known), Above(was, known))
  {
  }

  /** The number of workers: one for each thread, but no more than transactions. */
  lemma {:induction false} FewestWorkers(threads: nat, b: Block)
    ensures Buckets(threads, b) <= threads && Buckets(threads, b) <= |b.txs|
    ensures Buckets(threads, b) == threads || Buckets(threads, b) == |b.txs|
  {
  }

  /** Looking up the hash of a chain block finds its height. */
  lemma {:induction false} ForkBlock(view: map<nat, BlockSlab>, newest: map<Hash, BlockSlab>, count: nat,
                                     chain: seq<Block>, hash: Hash)
    requires BlocksHold(view, newest, count, chain)
    ensures count == |chain|
    ensures forall f :: 0 <= f < |chain| && chain[f].header.hash == hash ==> HeightOf(newest, hash) == Some(f)
  {
  }

  /** What is left once everything above a height is popped. */
  lemma {:induction false} PoppedTo(was: seq<Block>, fork: nat, chain: seq<Block>, above: seq<Block>, hash: Hash)
    requires fork < |was| && forall f :: 0 <= f < |was| && was[f].header.hash == hash ==> fork == f
    requires chain == was[..fork + 1] && above == was[fork + 1..]
    ensures chain == UpTo(was, Some(fork)) && above == Above(was, Some(fork)) && PopCode(Some(fork), was) == Success
    ensures TopHash(chain) == Some(hash) <==> OnChain(was, hash)
  {
  }

  /** The block that was popped goes in front of those popped before. */
  lemma {:induction false} PushableAgain(was: seq<Block>, height: nat, longer: seq<Block>, next: Block, out: seq<Block>,
                                         content: Hash -> Tx)
    requires 0 < height < |was| && longer == was[..height + 1] && ValidChain(longer)
    requires Returned(next, longer, content)
    requires CleanBlocks(out) == was[height + 1..] && Pushable(longer, out, content)
    ensures longer[..|longer| - 1] == was[..height]
    ensures CleanBlocks([next] + out) == was[height..]
    ensures Pushable(was[..height], [next] + out, content)
  {
    hide ValidChain, IsReread, Clean, CleanBlock, Pushable, Flat, Marks;
    var b := was[height];
    assert longer == was[..height] + [b];
    PushableFront(was[..height], b, next, out, content);
    assert CleanBlocks([next] + out) == [b] + CleanBlocks(out) == was[height..];
  }

  // ---------------------------------------------------------- the order of histories

  /** How many workers push a block. */
  function Buckets(threads: nat, b: Block): nat {
    if threads <= |b.txs| then threads else |b.txs|
  }

  /** Each of the blocks keeps the order of the histories. */
  ghost predicate AllKeepOrder(incoming: seq<Block>, first: nat, threads: nat, start: nat) {
    forall k :: 0 <= k < |incoming| ==> KeepsOrder(incoming[k], first + k, Buckets(threads, incoming[k]), start)
  }

  lemma {:induction false} OrderStep(incoming: seq<Block>, k: nat, first: nat, threads: nat, start: nat)
    requires k < |incoming|
    ensures AllKeepOrder(incoming[..k + 1], first, threads, start) ==>
              && AllKeepOrder(incoming[..k], first, threads, start)
              && KeepsOrder(incoming[k], first + k, Buckets(threads, incoming[k]), start)
  {
    hide KeepsOrder;
    if AllKeepOrder(incoming[..k + 1], first, threads, start) {
      assert incoming[..k + 1][k] == incoming[k];
      assert forall j :: 0 <= j < k ==> incoming[..k][j] == incoming[..k + 1][j];
    }
  }

  lemma {:induction false} OrderOfFirst(incoming: seq<Block>, n: nat, first: nat, threads: nat, start: nat)
    requires n <= |incoming| && AllKeepOrder(incoming, first, threads, start)
    ensures AllKeepOrder(incoming[..n], first, threads, start)
  {
    hide KeepsOrder;
    assert forall k :: 0 <= k < n ==> incoming[..n][k] == incoming[k];
  }

  /** Popped blocks that are pushed again keep the order that they kept before. */
  lemma {:induction false} OrderAgain(was: seq<Block>, f: nat, out: seq<Block>, threads: nat, start: nat)
    requires f < |was| && CleanBlocks(out) == was[f + 1..]
    ensures AllKeepOrder(was, 0, threads, start) ==> AllKeepOrder(out, f + 1, threads, start)
  {
    hide OneWorkerEach;
    if AllKeepOrder(was, 0, threads, start) {
      forall k | 0 <= k < |out| ensures KeepsOrder(out[k], f + 1 + k, Buckets(threads, out[k]), start) {
        assert was[f + 1 + k] == was[f + 1..][k] == CleanBlocks(out)[k] == CleanBlock(out[k]);
        CleanBlockTwice(out[k]);
        assert KeepsOrder(was[f + 1 + k], 0 + (f + 1 + k), Buckets(threads, was[f + 1 + k]), start);
      }
    }
  }

  // ------------------------------------------------- the pool and the lookup by hash

  /** What the store keeps of transactions and blocks that need not be on the chain. */
  datatype Sides = Sides(pool: Pool, newest: map<Hash, BlockSlab>, forks: map<Hash, nat>)

  /** Nothing spends the block's outputs yet. */
  predicate AllUnspent(b: Block) {
    forall i :: 0 <= i < |b.txs| ==> Unspent(b.txs[i])
  }

  predicate NothingSpent(blocks: seq<Block>) {
    forall k :: 0 <= k < |blocks| ==> AllUnspent(blocks[k])
  }

  function Found(newest: map<Hash, BlockSlab>, b: Block, height: nat): map<Hash, BlockSlab> {
    newest[b.header.hash := SlabOf(b, height)]
  }

  function AllFound(newest: map<Hash, BlockSlab>, blocks: seq<Block>, first: nat): map<Hash, BlockSlab> {
    if blocks == [] then newest
    else
      var n := |blocks| - 1;
      Found(AllFound(newest, blocks[..n], first), blocks[n], first + n)
  }

  /** A block takes its transactions out of the pool, and is found by its hash. */
  function Pushed(s: Sides, b: Block, height: nat): Sides {
    Sides(Unpooled(s.pool, BlockEntries(CleanBlock(b), height)), Found(s.newest, b, height),
          s.forks - HashesIn(b.txs))
  }

  function AllPushed(s: Sides, blocks: seq<Block>, first: nat): Sides {
    if blocks == [] then s
    else
      var n := |blocks| - 1;
      Pushed(AllPushed(s, blocks[..n], first), blocks[n], first + n)
  }

  /** A block's transactions go back to the pool, unverified; it is still found by its
      hash. */
  function Popped(s: Sides, out: Block, unverified: nat): Sides {
    s.(pool := Repooled(s.pool, out.txs), forks := Reforked(s.forks, HashesIn(out.txs), unverified))
  }

  /** The last block is popped first. */
  function AllPopped(s: Sides, out: seq<Block>, unverified: nat): Sides {
    if out == [] then s else Popped(AllPopped(s, out[1..], unverified), out[0], unverified)
  }

  lemma {:induction false} NothingPushed(base: seq<Block>, blocks: seq<Block>, s: Sides, first: nat)
    ensures blocks[0..] == blocks && base + CleanBlocks(blocks[..0]) == base && Accepted(base, blocks, first, 0)
    ensures AllPushed(s, blocks[..0], first) == s
  {
  }

  lemma {:induction false} Refused(base: seq<Block>, blocks: seq<Block>, first: nat, k: nat)
    requires k < |blocks| && Accepted(base, blocks, first, k)
    ensures var chain := base + CleanBlocks(blocks[..k]);
            var code := VerifyCode(chain, blocks[k], first + k);
            code != Success ==> Appended(base, blocks, first, chain, code, k)
  {
    hide VerifyCode;
  }

  /** How many of the blocks from k on pass the checks one after the other. */
  function Fitting(base: seq<Block>, blocks: seq<Block>, first: nat, k: nat): (n: nat)
    requires k <= |blocks|
    ensures n <= |blocks|
    decreases |blocks| - k
  {
    if k == |blocks| || VerifyCode(base + CleanBlocks(blocks[..k]), blocks[k], first + k) != Success then k
    else Fitting(base, blocks, first, k + 1)
  }

  /** How many blocks are pushed is decided by the checks. */
  lemma {:induction false} FittingPushed(base: seq<Block>, blocks: seq<Block>, first: nat, chain: seq<Block>, code: Code,
                                         pushed: nat, k: nat)
    requires Appended(base, blocks, first, chain, code, pushed) && k <= pushed
    ensures Fitting(base, blocks, first, k) == pushed
    decreases pushed - k
  {
    hide VerifyCode;
    if k < pushed {
      FittingPushed(base, blocks, first, chain, code, pushed, k + 1);
    }
  }

  lemma {:induction false} AllAccepted(base: seq<Block>, blocks: seq<Block>, first: nat)
    ensures blocks[..|blocks|] == blocks
    ensures Accepted(base, blocks, first, |blocks|) ==>
              Appended(base, blocks, first, base + CleanBlocks(blocks), Success, |blocks|)
  {
    hide VerifyCode;
    assert blocks[..|blocks|] == blocks;
  }

  /** The forks of the pooled transactions once these blocks were pushed, or popped. */
  function AllConfirmed(forks: map<Hash, nat>, blocks: seq<Block>): map<Hash, nat> {
    if blocks == [] then forks
    else AllConfirmed(forks, blocks[..|blocks| - 1]) - HashesIn(blocks[|blocks| - 1].txs)
  }

  function AllReforked(forks: map<Hash, nat>, blocks: seq<Block>, unverified: nat): map<Hash, nat> {
    if blocks == [] then forks
    else Reforked(AllReforked(forks, blocks[1..], unverified), HashesIn(blocks[0].txs), unverified)
  }

  lemma {:induction false} CleanHashes(b: Block)
    ensures HashesIn(CleanBlock(b).txs) == HashesIn(b.txs)
  {
    forall i | 0 <= i < |b.txs| ensures CleanBlock(b).txs[i].hash == b.txs[i].hash {
      CleanKeeps(b.txs[i]);
    }
    forall h ensures h in HashesIn(CleanBlock(b).txs) <==> h in HashesIn(b.txs) {
      if i :| 0 <= i < |b.txs| && b.txs[i].hash == h {
        assert CleanBlock(b).txs[i].hash == h;
      }
    }
  }

  lemma {:induction false} PoppedReforked(s: Sides, out: seq<Block>, unverified: nat)
    ensures AllPopped(s, out, unverified).forks == AllReforked(s.forks, CleanBlocks(out), unverified)
  {
    if out != [] {
      hide Reforked, HashesIn, CleanBlock;
      PoppedReforked(s, out[1..], unverified);
      CleanHashes(out[0]);
      assert CleanBlocks(out)[1..] == CleanBlocks(out[1..]);
    }
  }

  lemma {:induction false} ReturnedHashes(out: Block, chain: seq<Block>, content: Hash -> Tx)
    requires Returned(out, chain, content)
    ensures HashesIn(out.txs) == HashesIn(chain[|chain| - 1].txs)
  {
    hide Flat, Marks;
    var b := chain[|chain| - 1];
    forall i | 0 <= i < |b.txs| ensures out.txs[i].hash == b.txs[i].hash {
      assert TxReread(out.txs[i], b.txs[i], Marks(Flat(chain)));
      CleanKeeps(out.txs[i]);
    }
    forall h ensures h in HashesIn(out.txs) <==> h in HashesIn(b.txs) {
      if i :| 0 <= i < |b.txs| && b.txs[i].hash == h {
        assert out.txs[i].hash == h;
      }
    }
  }

  lemma {:induction false} PushedFound(s: Sides, blocks: seq<Block>, first: nat)
    ensures AllPushed(s, blocks, first).newest == AllFound(s.newest, blocks, first)
    ensures AllPushed(s, blocks, first).forks == AllConfirmed(s.forks, blocks)
  {
    if blocks != [] {
      PushedFound(s, blocks[..|blocks| - 1], first);
    }
  }

  lemma {:induction false} NothingPopped(s: Sides, unverified: nat)
    ensures AllPopped(s, [], unverified) == s
  {
  }

  /** One block more of those that are pushed. */
  lemma {:induction false} NextPushed(base: seq<Block>, s: Sides, blocks: seq<Block>, k: nat, first: nat,
                                      content: Hash -> Tx)
    requires k < |blocks|
    ensures CleanBlocks(blocks[..k + 1]) == CleanBlocks(blocks[..k]) + [CleanBlock(blocks[k])]
    ensures base + CleanBlocks(blocks[..k]) + [CleanBlock(blocks[k])] == base + CleanBlocks(blocks[..k + 1])
    ensures AllPushed(s, blocks[..k + 1], first) == Pushed(AllPushed(s, blocks[..k], first), blocks[k], first + k)
    ensures var chain := base + CleanBlocks(blocks[..k]);
            && (Admissible(chain, blocks[k..], first + k, content) &&
                VerifyCode(chain, blocks[k], first + k) == Success ==>
                  && WellFormed(chain, blocks[k], content)
                  && Admissible(chain + [CleanBlock(blocks[k])], blocks[k + 1..], first + k + 1, content))
            && (Pushable(chain, blocks[k..], content) ==>
                  && VerifyCode(chain, blocks[k], |chain|) == Success
                  && Pushable(chain + [CleanBlock(blocks[k])], blocks[k + 1..], content))
    ensures NothingSpent(blocks) ==> AllUnspent(blocks[k])
    ensures Accepted(base, blocks, first, k) &&
            VerifyCode(base + CleanBlocks(blocks[..k]), blocks[k], first + k) == Success ==>
              Accepted(base, blocks, first, k + 1)
  {
    hide VerifyCode, WellFormed, CleanBlock, Pushed;
    CleanBlocksStep(blocks, k);
    assert blocks[..k + 1][..k] == blocks[..k];
  }

  lemma {:induction false} AllPoppedStep(s: Sides, next: Block, out: seq<Block>, unverified: nat)
    ensures AllPopped(s, [next] + out, unverified) == Popped(AllPopped(s, out, unverified), next, unverified)
  {
    assert ([next] + out)[1..] == out;
  }

  /** All of these transactions are pooled, besides what was. */
  ghost predicate PooledAgain(pool: Pool, pool': Pool, blocks: seq<Block>) {
    && pool.Keys <= pool'.Keys
    && forall k, i :: 0 <= k < |blocks| && 0 <= i < |blocks[k].txs| ==> blocks[k].txs[i].hash in pool'
  }

  lemma {:induction false} RepooledKeys(pool: Pool, txs: seq<Tx>)
    ensures pool.Keys <= Repooled(pool, txs).Keys
    ensures forall i :: 0 <= i < |txs| ==> txs[i].hash in Repooled(pool, txs)
  {
    if txs != [] {
      RepooledKeys(pool, txs[1..]);
    }
  }

  /** A pop forgets nothing of either. */
  lemma {:induction false} PoppedKeys(s: Sides, out: seq<Block>, unverified: nat)
    ensures PooledAgain(s.pool, AllPopped(s, out, unverified).pool, CleanBlocks(out))
    ensures AllPopped(s, out, unverified).newest == s.newest
  {
    if out != [] {
      PoppedKeys(s, out[1..], unverified);
      RepooledKeys(AllPopped(s, out[1..], unverified).pool, out[0].txs);
      var pool := AllPopped(s, out, unverified).pool;
      forall k, i | 0 <= k < |out| && 0 <= i < |CleanBlocks(out)[k].txs| ensures CleanBlocks(out)[k].txs[i].hash in pool {
        CleanKeeps(out[k].txs[i]);
        if k > 0 {
          assert CleanBlocks(out)[k] == CleanBlocks(out[1..])[k - 1];
        }
      }
    }
  }

  /** The transactions of all popped blocks have the forks of a pop. */
  lemma {:induction false} PoppedForks(s: Sides, out: seq<Block>, unverified: nat, k: nat, i: nat)
    requires k < |out| && i < |out[k].txs|
    ensures var forks := AllPopped(s, out, unverified).forks;
            out[k].txs[i].hash in forks && forks[out[k].txs[i].hash] == unverified
  {
    assert out[k].txs[i].hash in HashesIn(out[k].txs);
    if k > 0 {
      PoppedForks(s, out[1..], unverified, k - 1, i);
    }
  }

  lemma {:induction false} OnePopped(s: Sides, out: Block, was: seq<Block>, content: Hash -> Tx, unverified: nat)
    ensures AllPopped(s, [out], unverified) == Popped(s, out, unverified)
    ensures Returned(out, was, content) ==>
              forall k, i :: 0 <= k < |[out]| && 0 <= i < |[out][k].txs| ==>
                Clean([out][k].txs[i]) == content([out][k].txs[i].hash)
  {
    hide IsReread, Clean;
    AllPoppedStep(s, out, [], unverified);
    NothingPopped(s, unverified);
    assert [out] + [] == [out];
  }

  lemma {:induction false} PushableContent(chain: seq<Block>, blocks: seq<Block>, content: Hash -> Tx)
    requires Pushable(chain, blocks, content)
    ensures forall k, i :: 0 <= k < |blocks| && 0 <= i < |blocks[k].txs| ==>
              Clean(blocks[k].txs[i]) == content(blocks[k].txs[i].hash)
    decreases |blocks|
  {
    if blocks != [] {
      hide VerifyCode, CleanBlock, Clean, SpenderFits, Consistent;
      var rest := blocks[1..];
      PushableContent(chain + [CleanBlock(blocks[0])], rest, content);
      forall k, i | 0 <= k < |blocks| && 0 <= i < |blocks[k].txs|
        ensures Clean(blocks[k].txs[i]) == content(blocks[k].txs[i].hash)
      {
        assert k > 0 ==> blocks[k] == rest[k - 1];
      }
    }
  }

  // --------------------------------------------------------------------- the cache

  /** The cache holds no transaction of the block as confirmed. */
  ghost predicate NoneHeld(left: map<Hash, Aged>, b: Block) {
    forall i :: 0 <= i < |b.txs| ==> !HeldConfirmed(left, b.txs[i].hash)
  }

  /** An output that is unspent on a chain is unspent on what the chain began with. */
  lemma {:induction false} UnspentBefore(es: seq<Entry>, rest: seq<Entry>, p: Point)
    requires Consistent(es + rest) && Mark(Marks(es + rest), p) == NOT_SPENT
    ensures Mark(Marks(es), p) == NOT_SPENT
  {
    hide Marks, Consistent;
    if p in Marks(es) {
      ConsistentPrefix(es + rest, |es|);
      assert (es + rest)[..|es|] == es;
      var k, i := SpenderOfMark(es, p);
      MarkOfSpender(es, k, i, p);
      assert SpendsAt(es + rest, k, i, p);
      MarkOfSpender(es + rest, k, i, p);
    }
  }

  /** A slab that the cache agrees with, and one of the same content whose cached
      outputs are unspent. */
  lemma {:induction false} SameContent(c: Cached, t: Slabs, t': Slabs, h: Hash)
    requires EntryAgrees(c, t, h) && h in t' && Clean(t'[h][0].tx) == Clean(t[h][0].tx)
    requires forall i :: i in c.outputs && i < |t'[h][0].tx.outputs| ==> t'[h][0].tx.outputs[i].spender == NOT_SPENT
    requires IsConfirmed(t', h) ==>
               t[h][0].height == t'[h][0].height && t[h][0].position == t'[h][0].position
    ensures EntryAgrees(c, t', h) <==> (c.confirmed ==> IsConfirmed(t', h))
  {
    var before, after := t[h][0].tx, t'[h][0].tx;
    CleanSameOutputs(before, after);
    forall i | i in c.outputs ensures i < |after.outputs| && c.outputs[i] == after.outputs[i] {
      assert before.outputs[i].(spender := NOT_SPENT) == after.outputs[i].(spender := NOT_SPENT);
    }
  }

  /** One entry of the cache, when the rest of a chain is taken back. */
  lemma {:induction false} EntryAfterPops(c: Cached, h: Hash, t: Slabs, pool: Pool, t': Slabs, pool': Pool,
                                          es: seq<Entry>, rest: seq<Entry>, content: Hash -> Tx)
    requires EntryAgrees(c, t, h) && Consistent(es + rest)
    requires pool.Keys <= pool'.Keys && forall i :: 0 <= i < |rest| ==> rest[i].tx.hash in pool'
    requires Shows(t, pool, Confirmed(es + rest), Marks(es + rest), {}, 0, content)
    requires Shows(t', pool', Confirmed(es), Marks(es), {}, 0, content)
    ensures EntryAgrees(c, t', h) <==> !c.confirmed || h in Confirmed(es)
  {
    hide Confirmed, Marks, Consistent, Clean, Mark;
    var before, after := Confirmed(es + rest), Confirmed(es);
    assert Seen(t[h][0], h, before, Marks(es + rest), {}, 0, content);
    ShowsUnknown(t', pool', after, Marks(es), content, h);
    if h in after {
      ConfirmedGrows(es, rest, h);
    }
    assert h in t' by {
      if h in before {
        ConfirmedIn(es, rest, h);
      } else {
        assert h in pool;
      }
      assert h in after ==> h in after.Keys;
    }
    assert Seen(t'[h][0], h, after, Marks(es), {}, 0, content);
    forall i | i in c.outputs && i < |t'[h][0].tx.outputs| ensures t'[h][0].tx.outputs[i].spender == NOT_SPENT {
      if h in after {
        UnspentBefore(es, rest, Point(h, i));
      }
    }
    SameContent(c, t, t', h);
  }

  /** The transactions of a chain from a height on. */
  function FlatFrom(chain: seq<Block>, n: nat): seq<Entry>
    requires n <= |chain|
  {
    if n == |chain| then []
    else FlatFrom(chain[..|chain| - 1], n) + BlockEntries(chain[|chain| - 1], |chain| - 1)
  }

  lemma {:induction false} FlatSplit(chain: seq<Block>, n: nat)
    requires n <= |chain|
    ensures Flat(chain) == Flat(chain[..n]) + FlatFrom(chain, n)
  {
    if n == |chain| {
      assert chain[..n] == chain;
    } else {
      hide BlockEntries;
      var m := |chain| - 1;
      FlatSplit(chain[..m], n);
      assert chain[..m][..n] == chain[..n];
      assert FlatFrom(chain, n) == FlatFrom(chain[..m], n) + BlockEntries(chain[m], m);
    }
  }

  /** They are those of its blocks. */
  lemma {:induction false} FlatFromExact(chain: seq<Block>, n: nat, e: Entry)
    requires n <= |chain|
    ensures e in FlatFrom(chain, n) <==>
            n <= e.height < |chain| && e.position < |chain[e.height].txs| && e.tx == chain[e.height].txs[e.position]
  {
    if n < |chain| {
      var m := |chain| - 1;
      FlatFromExact(chain[..m], n, e);
      assert e in BlockEntries(chain[m], m) <==>
             e.height == m && e.position < |chain[m].txs| && e == BlockEntries(chain[m], m)[e.position];
    }
  }

  lemma {:induction false} NoneHeldFrom(left: map<Hash, Aged>, chain: seq<Block>, n: nat)
    requires n <= |chain|
    ensures (forall e :: e in FlatFrom(chain, n) ==> !HeldConfirmed(left, e.tx.hash)) <==>
            forall k :: n <= k < |chain| ==> NoneHeld(left, chain[k])
  {
    hide HeldConfirmed, FlatFrom;
    forall e ensures e in FlatFrom(chain, n) <==>
      n <= e.height < |chain| && e.position < |chain[e.height].txs| && e.tx == chain[e.height].txs[e.position]
    {
      FlatFromExact(chain, n, e);
    }
    if forall e :: e in FlatFrom(chain, n) ==> !HeldConfirmed(left, e.tx.hash) {
      forall k, i | n <= k < |chain| && 0 <= i < |chain[k].txs| ensures !HeldConfirmed(left, chain[k].txs[i].hash) {
        assert Entry(k, i, chain[k].txs[i]) in FlatFrom(chain, n);
      }
    }
  }

  /** A cache that was sound and was not told is sound after blocks were popped if and
      only if it holds none of their transactions as confirmed. */
  lemma {:induction false} CacheAfterPops(left: map<Hash, Aged>, s: TableState, log: seq<Rows>, chain: seq<Block>,
                                          s': TableState, log': seq<Rows>, n: nat, start: nat, content: Hash -> Tx)
    requires ValidChain(chain) && n <= |chain| && PooledAgain(s.pool, s'.pool, chain[n..])
    requires Holding(s, log, chain, start, content) && Holding(s', log', chain[..n], start, content)
    requires CacheAgrees(left, s.slabs)
    ensures CacheAgrees(left, s'.slabs) <==> forall k :: n <= k < |chain| ==> NoneHeld(left, chain[k])
  {
    hide Shows, Confirmed, Marks, Consistent, Flat, FlatFrom, Logged, SpendTable, EntryAgrees, NoneHeld, Linked;
    var es := Flat(chain[..n]);
    var rest := FlatFrom(chain, n);
    FlatSplit(chain, n);
    NoneHeldFrom(left, chain, n);
    forall i | 0 <= i < |rest| ensures rest[i].tx.hash in s'.pool {
      var e := rest[i];
      FlatFromExact(chain, n, e);
      assert chain[n..][e.height - n] == chain[e.height];
    }
    forall h | h in left
      ensures EntryAgrees(left[h].cached, s'.slabs, h) <==> !left[h].cached.confirmed || h in Confirmed(es)
      ensures left[h].cached.confirmed ==> h in Confirmed(es + rest)
    {
      EntryAfterPops(left[h].cached, h, s.slabs, s.pool, s'.slabs, s'.pool, es, rest, content);
      CachedOnChain(left[h].cached, h, s.slabs, s.pool, es + rest, content);
    }
    if forall e :: e in rest ==> !HeldConfirmed(left, e.tx.hash) {
      forall h | h in left ensures EntryAgrees(left[h].cached, s'.slabs, h) {
        if left[h].cached.confirmed {
          ConfirmedIn(es, rest, h);
        }
      }
    } else {
      var i :| 0 <= i < |rest| && HeldConfirmed(left, rest[i].tx.hash);
      NotBelow(es, rest, i);
    }
  }

  lemma {:induction false} CachedOnChain(c: Cached, h: Hash, t: Slabs, pool: Pool, es: seq<Entry>, content: Hash -> Tx)
    requires EntryAgrees(c, t, h) && Shows(t, pool, Confirmed(es), Marks(es), {}, 0, content)
    ensures c.confirmed ==> h in Confirmed(es)
  {
    hide Shows, Confirmed, Marks;
    ShowsUnknown(t, pool, Confirmed(es), Marks(es), content, h);
  }

  lemma {:induction false} ConfirmedIn(es: seq<Entry>, rest: seq<Entry>, h: Hash)
    requires h in Confirmed(es + rest)
    ensures h in Confirmed(es) || exists i :: 0 <= i < |rest| && rest[i].tx.hash == h
  {
    if rest == [] {
      assert es + rest == es;
    } else {
      var n := |rest| - 1;
      assert es + rest == (es + rest[..n]) + [rest[n]];
      Append(es + rest[..n], rest[n], 0);
      if rest[n].tx.hash != h {
        ConfirmedIn(es, rest[..n], h);
      }
    }
  }

  /** The hash of a later transaction is new. */
  lemma {:induction false} NotBelow(es: seq<Entry>, rest: seq<Entry>, i: nat)
    requires Consistent(es + rest) && i < |rest|
    ensures rest[i].tx.hash !in Confirmed(es)
  {
    hide Confirmed, Marks, Consistent;
    FitsAt(es, rest, i);
    if rest[i].tx.hash in Confirmed(es) {
      ConfirmedGrows(es, rest[..i], rest[i].tx.hash);
    }
  }

  /** ... and so after one block was popped. */
  lemma {:induction false} CacheAfterPop(left: map<Hash, Aged>, s: TableState, log: seq<Rows>, chain: seq<Block>,
                                         s': TableState, log': seq<Rows>, out: Block, start: nat, content: Hash -> Tx)
    requires ValidChain(chain) && Returned(out, chain, content) && s'.pool == Repooled(s.pool, out.txs)
    requires Holding(s, log, chain, start, content) && Holding(s', log', chain[..|chain| - 1], start, content)
    ensures CacheAgrees(left, s.slabs) ==>
              (CacheAgrees(left, s'.slabs) <==> NoneHeld(left, chain[|chain| - 1]))
  {
    hide ValidChain, Holding, CacheAgrees, NoneHeld, Flat, Marks;
    var n := |chain| - 1;
    RepooledKeys(s.pool, out.txs);
    forall k, i | 0 <= k < |chain[n..]| && 0 <= i < |chain[n..][k].txs| ensures chain[n..][k].txs[i].hash in s'.pool {
      assert TxReread(out.txs[i], chain[n].txs[i], Marks(Flat(chain)));
    }
    if CacheAgrees(left, s.slabs) {
      CacheAfterPops(left, s, log, chain, s', log', n, start, content);
    }
  }

  lemma {:induction false} CacheAfterAll(left: map<Hash, Aged>, s: TableState, log: seq<Rows>, chain: seq<Block>,
                                         s': TableState, log': seq<Rows>, n: nat, sides: Sides, out: seq<Block>,
                                         unverified: nat, start: nat, content: Hash -> Tx)
    requires ValidChain(chain) && n <= |chain| && CleanBlocks(out) == chain[n..]
    requires sides.pool == s.pool && s'.pool == AllPopped(sides, out, unverified).pool
    requires Holding(s, log, chain, start, content) && Holding(s', log', chain[..n], start, content)
    ensures CacheAgrees(left, s.slabs) ==>
              (CacheAgrees(left, s'.slabs) <==> forall k :: n <= k < |chain| ==> NoneHeld(left, chain[k]))
  {
    hide ValidChain, Holding, CacheAgrees, NoneHeld, AllPopped, CleanBlock, PooledAgain;
    PoppedKeys(sides, out, unverified);
    if CacheAgrees(left, s.slabs) {
      CacheAfterPops(left, s, log, chain, s', log', n, start, content);
    }
  }
}
