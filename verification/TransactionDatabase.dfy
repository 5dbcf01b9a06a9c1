/** The transaction table with its cache of unspent outputs. */
module TransactionDatabases {
  import opened Wrappers
  import opened StackMaps
  import opened ChainTypes
  import opened TransactionTable
  import opened UnspentOutputsCache
  import opened HashTables
  import opened Indexes

  /** Read from a slab whose transaction has no output of that index. */
  const NO_OUTPUT := Output(NOT_SPENT, 0xffff_ffff_ffff_ffff, None)

  function OutputOf(slab: Slab, index: nat): Hit {
    Hit(if index < |slab.tx.outputs| then slab.tx.outputs[index] else NO_OUTPUT,
        slab.height, slab.position == 0)
  }

  /** The answer the slabs alone give to an output query. */
  function OutputIn(t: Slabs, point: Point, fork: nat, requireConfirmed: bool): Option<Hit> {
    var slab := Lookup(t, point.hash, fork, requireConfirmed);
    if slab.None? then None else Some(OutputOf(slab.value, point.index))
  }

  /** An output query is answered from the newest slab of the hash, if it is confirmed
      at or below the fork height or need not be; beyond its outputs the answer is an
      output of the value that stands for not found. */
  ghost predicate AnswersOutput(r: Option<Hit>, slab: Option<Slab>, index: nat, fork: nat, requireConfirmed: bool) {
    && (r.Some? <==>
          && slab.Some?
          && (requireConfirmed ==> slab.value.position != UNCONFIRMED && slab.value.height <= fork))
    && (r.Some? ==>
          && r.value.height == slab.value.height && r.value.coinbase == (slab.value.position == 0)
          && (index < |slab.value.tx.outputs| ==> r.value.output == slab.value.tx.outputs[index])
          && (index >= |slab.value.tx.outputs| ==> r.value.output.value == 0xffff_ffff_ffff_ffff))
  }

  /** Every entry of the cache repeats outputs of its slab that are unspent; one
      that is held as confirmed also repeats its place. */
  ghost predicate CacheAgrees(left: map<Hash, Aged>, t: Slabs) {
    forall h :: h in left ==> EntryAgrees(left[h].cached, t, h)
  }

  ghost predicate EntryAgrees(c: Cached, t: Slabs, h: Hash) {
    && h in t
    && (forall i :: i in c.outputs ==>
         && i < |t[h][0].tx.outputs|
         && c.outputs[i] == t[h][0].tx.outputs[i]
         && c.outputs[i].spender == NOT_SPENT)
    && (c.confirmed ==>
         && IsConfirmed(t, h)
         && c.height == t[h][0].height
         && c.coinbase == (t[h][0].position == 0))
  }

  /** The newest slab of a transaction has the given place. A pooled transaction of a
      block keeps its slab, any other gets a new one in front; no other hash changes. */
  ghost predicate SlabStored(t: Slabs, t': Slabs, tx: Tx, height: nat, position: nat) {
    && var before, after := Stack(t, tx.hash), Stack(t', tx.hash);
    && (if position != UNCONFIRMED && position != 0 && tx.pooled && before != []
        then after == [Slab(height, position, before[0].tx)] + before[1..]
        else after == [Slab(height, position, tx.(pooled := false))] + before)
    && forall h :: h != tx.hash ==> Stack(t', h) == Stack(t, h)
  }

  lemma {:induction false} StoredAsAsked(t: Slabs, tx: Tx, height: nat, position: nat)
    ensures SlabStored(t, Stored(t, tx, height, position), tx, height, position)
  {
    if tx.hash in t {
      assert t[tx.hash][0].(height := height, position := position) == Slab(height, position, t[tx.hash][0].tx);
    }
  }

  /** A cache without one output, and without its transaction if that was the last. */
  ghost predicate OneForgotten(before: map<Hash, Aged>, after: map<Hash, Aged>, point: Point) {
    && (forall h :: h != point.hash ==> (h in after <==> h in before) && (h in after ==> after[h] == before[h]))
    && (point.hash !in before ==> point.hash !in after)
    && (point.hash in before ==>
          var rest := before[point.hash].cached.outputs - {point.index};
          if rest == map[] then point.hash !in after
          else point.hash in after &&
               after[point.hash] == before[point.hash].(cached := before[point.hash].cached.(outputs := rest)))
  }

  /** One output of a slab gets a spender height, and nothing else of it changes. */
  ghost predicate SpenderSet(before: Option<Slab>, after: Option<Slab>, index: nat, spender: nat) {
    && before.Some? && after.Some?
    && var tx, tx' := before.value.tx, after.value.tx;
    && after.value == before.value.(tx := tx.(outputs := tx'.outputs))
    && |tx'.outputs| == |tx.outputs|
    && forall i :: 0 <= i < |tx.outputs| ==>
         tx'.outputs[i] == if i == index then tx.outputs[i].(spender := spender) else tx.outputs[i]
  }

  /** The cache says that a transaction is confirmed. */
  ghost predicate HeldConfirmed(left: map<Hash, Aged>, h: Hash) {
    h in left && left[h].cached.confirmed
  }

  /** A transaction as it first arrives: nothing spends it yet, and its place
      says whether it is a coinbase. */
  ghost predicate Fresh(tx: Tx, t: Slabs, position: nat) {
    && !IsConfirmed(t, tx.hash)
    && Unspent(tx)
    && (position != UNCONFIRMED ==> tx.coinbase == (position == 0))
    && (tx.hash in t ==> Clean(t[tx.hash][0].tx) == Clean(tx) && Unspent(t[tx.hash][0].tx))
  }

  class TransactionDatabase {
    const table: HashTable<Hash, Slab>
    const cache: UnspentOutputs
    /** What the table holds. */
    ghost var lookup: Slabs

    ghost function Repr(): set<object> {
      {this, table, table.header, cache}
    }

    ghost predicate Valid()
      reads Repr()
    {
      table.Valid() && table.Unlimited() && lookup == table.View() && cache.Valid()
    }

    ghost predicate Sound()
      reads this, cache
    {
      CacheAgrees(cache.left, lookup)
    }

    constructor (capacity: nat, buckets: nat, hash: Hash -> nat)
      requires buckets > 0
      ensures Valid() && Sound() && lookup == map[] && fresh(Repr())
      ensures cache.left == map[] && cache.sequence == 0 && cache.capacity == capacity
    {
      table := new HashTable(buckets, hash, FIRST, SENTINEL);
      lookup := map[];
      cache := new UnspentOutputs(capacity);
    }

    /** The newest slab of a hash, unless a confirmed one is asked for and it is
        not confirmed at or below the height. */
    method Find(hash: Hash, fork: nat, requireConfirmed: bool) returns (r: Option<Slab>)
      requires Valid()
      ensures r == Lookup(lookup, hash, fork, requireConfirmed)
      ensures r.Some? <==>
                && Peek(lookup, hash).Some?
                && (requireConfirmed ==>
                      Peek(lookup, hash).value.position != UNCONFIRMED && Peek(lookup, hash).value.height <= fork)
      ensures r.Some? ==> r == Peek(lookup, hash)
    {
      hide HashTable.Valid, HashTable.View, UnspentOutputs.Valid;
      var found := table.Find(hash);
      if found.None? {
        return None;
      }
      var slab := table.rows[found.value].value;
      r := if requireConfirmed && (slab.height > fork || slab.position == UNCONFIRMED) then None else Some(slab);
    }

    /** A query through the cache; asking for a confirmed output, the answer is
        that of the slabs. Any cached answer is an unspent output of the newest
        slab, though height and place may lag behind if it is not confirmed. */
    method GetOutput(point: Point, fork: nat, requireConfirmed: bool) returns (r: Option<Hit>)
      requires Valid()
      modifies cache`hits, cache`queries
      ensures Valid()
      ensures r == if cache.Find(point, fork, requireConfirmed).Some? then cache.Find(point, fork, requireConfirmed)
                   else OutputIn(lookup, point, fork, requireConfirmed)
      ensures Sound() && requireConfirmed ==> r == OutputIn(lookup, point, fork, true)
      ensures cache.Find(point, fork, requireConfirmed).None? || (Sound() && requireConfirmed) ==>
                AnswersOutput(r, Peek(lookup, point.hash), point.index, fork, requireConfirmed)
      ensures Sound() && point.hash in cache.left && cache.left[point.hash].cached.confirmed && r.Some? ==>
                && Peek(lookup, point.hash).Some?
                && r.value.height == Peek(lookup, point.hash).value.height
                && r.value.coinbase == (Peek(lookup, point.hash).value.position == 0)
      ensures Sound() && cache.Find(point, fork, requireConfirmed).Some? ==>
                && r.Some? && point.hash in lookup
                && r.value.output == OutputOf(lookup[point.hash][0], point.index).output
                && r.value.output.spender == NOT_SPENT
    {
      hide HashTable.Valid, HashTable.View;
      r := cache.Get(point, fork, requireConfirmed);
      if r.Some? {
        if CacheAgrees(cache.left, lookup) {
          assert EntryAgrees(cache.left[point.hash].cached, lookup, point.hash);
        }
        return;
      }
      var slab := Find(point.hash, fork, requireConfirmed);
      r := if slab.None? then None else Some(OutputOf(slab.value, point.index));
    }

    method Store(tx: Tx, height: nat, position: nat)
      requires Valid()
      modifies Repr()
      ensures Valid()
      ensures lookup == Stored(old(lookup), tx, height, position)
      ensures SlabStored(old(lookup), lookup, tx, height, position)
      ensures cache.left == old(cache.WithAdded(tx, height, position != UNCONFIRMED))
      ensures old(Sound()) && Fresh(tx, old(lookup), position) ==> Sound()
    {
      hide CacheAgrees, WithPlace, Push, Paired, Fresh, AtMostAdded, SlabStored, Entered, HashTable.Valid,
           HashTable.View;
      StoredAsAsked(lookup, tx, height, position);
      ghost var sound := Sound() && Fresh(tx, lookup, position);
      if position != UNCONFIRMED && position != 0 && tx.pooled {
        var confirmed := Confirm(tx.hash, height, position);
        if confirmed {
          cache.Add(tx, height, true);
          if sound { AddedAgrees(old(cache.left), old(lookup), lookup, tx, height, position, cache.left); }
          return;
        }
      }
      var size: nat :| size > 0;
      var row := table.Store(tx.hash, Slab(height, position, tx.(pooled := false)), size);
      lookup := table.View();
      cache.Add(tx, height, position != UNCONFIRMED);
      if sound { AddedAgrees(old(cache.left), old(lookup), lookup, tx, height, position, cache.left); }
    }

    /** Before a spend the cache forgets the output. */
    method Forget(point: Point, height: nat)
      requires Valid()
      modifies cache
      ensures Valid() && Forgotten(old(cache.left), cache.left)
      ensures height == NOT_SPENT ==> cache.left == old(cache.left)
      ensures height != NOT_SPENT ==> OneForgotten(old(cache.left), cache.left, point)
      ensures height == NOT_SPENT || point.hash !in cache.left || point.index !in cache.left[point.hash].cached.outputs
    {
      hide HashTable.Valid, HashTable.View, Paired;
      if height != NOT_SPENT {
        cache.RemoveOutput(point);
      }
    }

    method Spend(point: Point, height: nat) returns (ok: bool)
      requires Valid()
      modifies Repr()
      ensures Valid()
      ensures ok == Spendable(old(lookup), point, height)
      ensures ok <==>
                && Peek(old(lookup), point.hash).Some?
                && var slab := Peek(old(lookup), point.hash).value;
                && slab.position != UNCONFIRMED && slab.height <= height && point.index < |slab.tx.outputs|
      ensures ok ==> SpenderSet(Peek(old(lookup), point.hash), Peek(lookup, point.hash), point.index, height)
      ensures forall h :: h != point.hash ==> Stack(lookup, h) == Stack(old(lookup), h)
      ensures lookup == if ok then WithSpender(old(lookup), point, height) else old(lookup)
      ensures old(Sound()) ==> Sound()
      ensures height == NOT_SPENT ==> cache.left == old(cache.left)
      ensures height != NOT_SPENT ==> OneForgotten(old(cache.left), cache.left, point)
    {
      hide CacheAgrees, Forgotten, OneForgotten, WithSpender, HashTable.Valid, HashTable.View, HashTable.IsNewest,
           UnspentOutputs.Valid;
      Forget(point, height);
      var found := table.Find(point.hash);
      var slab := if found.None? then None else Some(table.rows[found.value].value);
      if || slab.None? || slab.value.height > height || slab.value.position == UNCONFIRMED
         || point.index >= |slab.value.tx.outputs| {
        if old(Sound()) { ForgottenAgrees(old(cache.left), cache.left, lookup); }
        return false;
      }
      table.Write(point.hash, found.value, slab.value.(tx := SetSpender(slab.value.tx, point.index, height)));
      lookup := table.View();
      assert lookup == WithSpender(old(lookup), point, height) by { SpenderPatched(old(lookup), point, height); }
      if old(Sound()) { SpentAgrees(old(cache.left), cache.left, old(lookup), point, height); }
      return true;
    }

    method Unspend(point: Point) returns (ok: bool)
      requires Valid()
      modifies Repr()
      ensures Valid()
      ensures ok == Spendable(old(lookup), point, NOT_SPENT)
      ensures ok <==>
                && Peek(old(lookup), point.hash).Some?
                && var slab := Peek(old(lookup), point.hash).value;
                && slab.position != UNCONFIRMED && slab.height <= 0xffff_ffff && point.index < |slab.tx.outputs|
      ensures ok ==> SpenderSet(Peek(old(lookup), point.hash), Peek(lookup, point.hash), point.index, 0xffff_ffff)
      ensures forall h :: h != point.hash ==> Stack(lookup, h) == Stack(old(lookup), h)
      ensures lookup == if ok then WithSpender(old(lookup), point, NOT_SPENT) else old(lookup)
      ensures old(Sound()) ==> Sound()
      ensures cache.left == old(cache.left)
    {
      ok := Spend(point, NOT_SPENT);
    }

    method Confirm(hash: Hash, height: nat, position: nat) returns (ok: bool)
      requires Valid()
      modifies this, table
      ensures Valid()
      ensures ok == (hash in old(lookup))
      ensures lookup == if ok then WithPlace(old(lookup), hash, height, position) else old(lookup)
      ensures ok ==> Peek(lookup, hash) == Some(old(lookup)[hash][0].(height := height, position := position))
      ensures forall h :: h != hash ==> Stack(lookup, h) == Stack(old(lookup), h)
    {
      hide HashTable.Valid, HashTable.View, HashTable.IsNewest, UnspentOutputs.Valid;
      var found := table.Find(hash);
      if found.None? {
        return false;
      }
      var slab := table.rows[found.value].value;
      table.Write(hash, found.value, slab.(height := height, position := position));
      lookup := table.View();
      return true;
    }

    /** The cache is not told, so it stays sound exactly when it does not hold the
        transaction as confirmed. */
    method Unconfirm(hash: Hash, forks: nat) returns (ok: bool)
      requires Valid()
      modifies this, table
      ensures Valid()
      ensures ok == (hash in old(lookup))
      ensures lookup == if ok then WithPlace(old(lookup), hash, forks, UNCONFIRMED) else old(lookup)
      ensures ok ==> Peek(lookup, hash) == Some(old(lookup)[hash][0].(height := forks, position := UNCONFIRMED))
      ensures forall h :: h != hash ==> Stack(lookup, h) == Stack(old(lookup), h)
      ensures ok && old(Sound()) ==>
                (Sound() <==> !HeldConfirmed(cache.left, hash))
    {
      hide HashTable.Valid, HashTable.View, UnspentOutputs.Valid;
      ok := Confirm(hash, forks, UNCONFIRMED);
      if ok && old(Sound()) {
        UnplacedAgrees(cache.left, old(lookup), hash, forks);
      }
    }
  }

  lemma {:induction false} SpenderPatched(t: Slabs, p: Point, height: nat)
    requires p.hash in t && p.index < |t[p.hash][0].tx.outputs|
    ensures Patch(t, p.hash, t[p.hash][0].(tx := SetSpender(t[p.hash][0].tx, p.index, height))) == WithSpender(t, p, height)
  {
  }

  lemma {:induction false} AddedAgrees(before: map<Hash, Aged>, t: Slabs, t': Slabs, tx: Tx, height: nat,
                                       position: nat,
                    after: map<Hash, Aged>)
    requires CacheAgrees(before, t) && Fresh(tx, t, position)
    requires t' == Stored(t, tx, height, position)
    requires AtMostAdded(before, after, tx.hash, Cached(height, tx.coinbase, position != UNCONFIRMED, AllOutputs(tx)))
    ensures CacheAgrees(after, t')
  {
    var slab := t'[tx.hash][0].tx;
    assert Clean(slab) == Clean(tx) by {
      if tx.hash !in t { assert Clean(tx.(pooled := false)) == Clean(tx); }
    }
    CleanSameOutputs(slab, tx);
    forall i | 0 <= i < |tx.outputs| ensures slab.outputs[i] == tx.outputs[i] {
      assert slab.outputs[i].(spender := NOT_SPENT) == tx.outputs[i].(spender := NOT_SPENT);
    }
    forall h | h in after ensures EntryAgrees(after[h].cached, t', h) {
      if h != tx.hash {
        assert EntryAgrees(before[h].cached, t, h);
      } else if h in before && after[h] == before[h] {
        KeptAgrees(before[h].cached, t, tx, slab, t');
      }
    }
  }

  /** An entry that was there before its transaction is stored again. */
  lemma {:induction false} KeptAgrees(c: Cached, t: Slabs, tx: Tx, slab: Tx, t': Slabs)
    requires EntryAgrees(c, t, tx.hash) && !IsConfirmed(t, tx.hash)
    requires Unspent(t[tx.hash][0].tx) && Clean(t[tx.hash][0].tx) == Clean(tx) == Clean(slab)
    requires tx.hash in t' && t'[tx.hash][0].tx == slab && Unspent(slab)
    ensures EntryAgrees(c, t', tx.hash)
  {
    CleanSameOutputs(slab, t[tx.hash][0].tx);
    forall i | i in c.outputs ensures i < |slab.outputs| && c.outputs[i] == slab.outputs[i] {
      assert slab.outputs[i].(spender := NOT_SPENT) == t[tx.hash][0].tx.outputs[i].(spender := NOT_SPENT);
    }
  }

  /** An entry may lose outputs or vanish. */
  ghost predicate Forgotten(before: map<Hash, Aged>, after: map<Hash, Aged>) {
    forall h :: h in after ==>
      && h in before
      && after[h].cached.(outputs := before[h].cached.outputs) == before[h].cached
      && forall i :: i in after[h].cached.outputs ==>
           i in before[h].cached.outputs && after[h].cached.outputs[i] == before[h].cached.outputs[i]
  }

  lemma {:induction false} ForgottenAgrees(before: map<Hash, Aged>, after: map<Hash, Aged>, t: Slabs)
    requires CacheAgrees(before, t) && Forgotten(before, after)
    ensures CacheAgrees(after, t)
  {
    forall h | h in after ensures EntryAgrees(after[h].cached, t, h) {
      assert EntryAgrees(before[h].cached, t, h);
    }
  }

  lemma {:induction false} EntrySpent(before: Cached, after: Cached, t: Slabs, h: Hash, p: Point, height: nat)
    requires EntryAgrees(before, t, h) && after.(outputs := before.outputs) == before
    requires forall i :: i in after.outputs ==> i in before.outputs && after.outputs[i] == before.outputs[i]
    requires p.hash in t && p.index < |t[p.hash][0].tx.outputs|
    requires height == NOT_SPENT || p.hash != h || p.index !in after.outputs
    ensures EntryAgrees(after, WithSpender(t, p, height), h)
  {
  }

  lemma {:induction false} SpentAgrees(before: map<Hash, Aged>, after: map<Hash, Aged>, t: Slabs, p: Point,
                                       height: nat)
    requires CacheAgrees(before, t) && Forgotten(before, after)
    requires p.hash in t && p.index < |t[p.hash][0].tx.outputs|
    requires height == NOT_SPENT || p.hash !in after || p.index !in after[p.hash].cached.outputs
    ensures CacheAgrees(after, WithSpender(t, p, height))
  {
    forall h | h in after ensures EntryAgrees(after[h].cached, WithSpender(t, p, height), h) {
      EntrySpent(before[h].cached, after[h].cached, t, h, p, height);
    }
  }

  lemma {:induction false} UnplacedAgrees(left: map<Hash, Aged>, t: Slabs, hash: Hash, forks: nat)
    requires CacheAgrees(left, t) && hash in t
    ensures CacheAgrees(left, WithPlace(t, hash, forks, UNCONFIRMED)) <==>
            !HeldConfirmed(left, hash)
  {
    var t' := WithPlace(t, hash, forks, UNCONFIRMED);
    if HeldConfirmed(left, hash) {
      assert !EntryAgrees(left[hash].cached, t', hash);
    } else {
      forall h | h in left ensures EntryAgrees(left[h].cached, t', h) {
        assert EntryAgrees(left[h].cached, t, h);
      }
    }
  }
}
