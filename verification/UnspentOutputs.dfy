/** The bounded cache of unspent outputs: one entry per transaction hash, aged
    by a wrapping 32-bit sequence number. */
module UnspentOutputsCache {
  import opened Wrappers
  import opened ChainTypes

  datatype Cached = Cached(height: nat, coinbase: bool, confirmed: bool, outputs: map<nat, Output>)

  datatype Aged = Aged(cached: Cached, sequence: nat)

  datatype Hit = Hit(output: Output, height: nat, coinbase: bool)

  function AllOutputs(tx: Tx): map<nat, Output> {
    map i | 0 <= i < |tx.outputs| :: tx.outputs[i]
  }

  ghost predicate IsLeast(a: nat, s: set<nat>) {
    a in s && forall b :: b in s ==> a <= b
  }

  lemma {:induction false} LeastExists(s: set<nat>) returns (a: nat)
    requires s != {}
    ensures IsLeast(a, s)
    decreases |s|
  {
    a :| a in s;
    if s != {a} {
      var rest := s - {a};
      var least := LeastExists(rest);
      forall b | b in s ensures (if least < a then least else a) <= b {
        assert b == a || b in rest;
      }
      a := if least < a then least else a;
    }
  }

  function Least(s: set<nat>): (a: nat)
    requires s != {}
    ensures a in s && forall b :: b in s ==> a <= b
  {
    assert exists a :: IsLeast(a, s) by { var a := LeastExists(s); }
    var a :| a in s && forall b :: b in s ==> a <= b;
    a
  }

  /** Both sides of the bimap, each entry under its hash and its age. */
  ghost predicate Paired(left: map<Hash, Aged>, right: map<nat, Hash>) {
    && (forall h :: h in left ==> left[h].sequence in right && right[left[h].sequence] == h)
    && (forall s :: s in right ==> right[s] in left && left[right[s]].sequence == s)
  }

  /** All that adding an entry can bring in is that entry. */
  ghost predicate AtMostAdded(before: map<Hash, Aged>, after: map<Hash, Aged>, hash: Hash, c: Cached) {
    forall h :: h in after ==>
      (h in before && after[h] == before[h]) || (h == hash && after[h].cached == c)
  }

  /** An entry says where its transaction is, and has all of its outputs. */
  ghost predicate Entered(c: Cached, tx: Tx, height: nat, confirmed: bool) {
    && c.height == height && c.coinbase == tx.coinbase && c.confirmed == confirmed
    && (forall i: nat :: i in c.outputs <==> i < |tx.outputs|)
    && forall i :: 0 <= i < |tx.outputs| ==> c.outputs[i] == tx.outputs[i]
  }

  lemma {:induction false} NewEntry(tx: Tx, height: nat, confirmed: bool)
    ensures Entered(Cached(height, tx.coinbase, confirmed, AllOutputs(tx)), tx, height, confirmed)
  {
  }

  class UnspentOutputs {
    const capacity: nat
    var hits: nat
    var queries: nat
    var sequence: nat
    var left: map<Hash, Aged>
    var right: map<nat, Hash>

    /** At most `capacity` entries; ages are distinct and none is newer than the
        counter, which itself never leaves 32 bits. */
    ghost predicate Valid()
      reads this
    {
      && Paired(left, right)
      && |left| <= capacity
      && sequence <= MAX_UINT32
      && forall s :: s in right ==> s <= sequence
    }

    constructor (capacity: nat)
      ensures Valid() && left == map[] && sequence == 0 && this.capacity == capacity && hits == queries == 1
    {
      this.capacity := capacity;
      hits, queries, sequence := 1, 1, 0;
      left, right := map[], map[];
    }

    predicate Disabled() {
      capacity == 0
    }

    /** What the cache would hold once it has made room: nothing when the counter
        wraps, everything but the entry of the lowest age when it is full. */
    ghost function Room(): (r: map<Hash, Aged>)
      requires Valid() && capacity > 0
      reads this
      ensures |r| < capacity
      ensures forall h :: h in r ==> h in left && r[h] == left[h]
      ensures sequence < MAX_UINT32 && |left| < capacity ==> r == left
      ensures sequence < MAX_UINT32 && |left| == capacity ==>
                exists oldest :: oldest in left && r == left - {oldest} &&
                  forall h :: h in r ==> left[oldest].sequence < left[h].sequence
    {
      if sequence == MAX_UINT32 then map[]
      else if |left| < capacity then left
      else
        assert right != map[] by {
          assert left.Keys != {};
          var h :| h in left;
        }
        var oldest := right[Least(right.Keys)];
        assert forall h :: h in left && h != oldest ==> left[oldest].sequence < left[h].sequence;
        assert |left.Keys - {oldest}| == |left| - 1;
        assert (left - {oldest}).Keys == left.Keys - {oldest};
        left - {oldest}
    }

    /** Clears the cache when the counter is about to wrap, else drops the oldest
        entry of a full cache. */
    method MakeRoom()
      requires Valid() && capacity > 0
      modifies this`left, this`right
      ensures Valid()
      ensures left == old(Room()) && |left| < capacity
      ensures sequence == MAX_UINT32 ==> right == map[]
    {
      if sequence == MAX_UINT32 {
        left, right := map[], map[];
      }
      if |left| >= capacity {
        assert left.Keys != {};
        ghost var some :| some in left;
        assert left[some].sequence in right;
        var age := Least(right.Keys);
        assert |left.Keys - {right[age]}| == |left| - 1;
        assert (left - {right[age]}).Keys == left.Keys - {right[age]};
        left, right := left - {right[age]}, right - {age};
      }
    }

    /** What the cache holds once a transaction was added: a known one is left as it
        was, an unknown one enters with the next age. */
    ghost function WithAdded(tx: Tx, height: nat, confirmed: bool): map<Hash, Aged>
      requires Valid()
      reads this
    {
      if Disabled() || tx.outputs == [] then left
      else if tx.hash in Room() then Room()
      else Room()[tx.hash := Aged(Cached(height, tx.coinbase, confirmed, AllOutputs(tx)), NextSequence())]
    }

    function NextSequence(): nat
      reads this`sequence
    {
      if sequence == MAX_UINT32 then 0 else sequence + 1
    }

    method Add(tx: Tx, height: nat, confirmed: bool)
      requires Valid()
      modifies this`sequence, this`left, this`right
      ensures Valid()
      ensures left == old(WithAdded(tx, height, confirmed))
      ensures sequence == if Disabled() || tx.outputs == [] then old(sequence) else old(NextSequence())
      ensures capacity > 0 && tx.outputs != [] ==> sequence == (old(sequence) + 1) % 0x1_0000_0000
      ensures AtMostAdded(old(left), left, tx.hash, Cached(height, tx.coinbase, confirmed, AllOutputs(tx)))
      ensures capacity > 0 && tx.outputs != [] && tx.hash !in old(left) ==>
                && tx.hash in left && left[tx.hash].sequence == sequence
                && Entered(left[tx.hash].cached, tx, height, confirmed)
    {
      if Disabled() || tx.outputs == [] {
        return;
      }
      hide Room, Entered, AllOutputs;
      NewEntry(tx, height, confirmed);
      MakeRoom();
      sequence := if sequence == MAX_UINT32 then 0 else sequence + 1;
      if tx.hash !in left && sequence !in right {
        Insert(tx.hash, Aged(Cached(height, tx.coinbase, confirmed, AllOutputs(tx)), sequence));
      }
    }

    method Insert(hash: Hash, aged: Aged)
      requires Valid() && hash !in left && aged.sequence == sequence && sequence !in right && |left| < capacity
      modifies this`left, this`right
      ensures Valid() && left == old(left)[hash := aged]
    {
      assert |left.Keys + {hash}| == |left| + 1;
      assert left[hash := aged].Keys == left.Keys + {hash};
      left, right := left[hash := aged], right[aged.sequence := hash];
    }

    method RemoveTransaction(hash: Hash)
      requires Valid()
      modifies this`left, this`right
      ensures Valid()
      ensures left == old(left) - {hash}
    {
      if Disabled() || hash !in left {
        assert left.Keys == {} <== Disabled();
        assert left == left - {hash};
        return;
      }
      assert (left - {hash}).Keys == left.Keys - {hash};
      left, right := left - {hash}, right - {left[hash].sequence};
    }

    /** Forgets one output, and its transaction with the last of them. */
    method RemoveOutput(point: Point)
      requires Valid()
      modifies this`left, this`right
      ensures Valid()
      ensures point.hash !in old(left) ==> left == old(left)
      ensures point.hash in old(left) ==>
                var aged := old(left)[point.hash];
                var rest := aged.cached.outputs - {point.index};
                left == if rest == map[] then old(left) - {point.hash}
                        else old(left)[point.hash := aged.(cached := aged.cached.(outputs := rest))]
    {
      if Disabled() || point.hash !in left {
        assert Disabled() ==> left.Keys == {};
        return;
      }
      var aged := left[point.hash];
      var rest := aged.cached.outputs - {point.index};
      left := left[point.hash := aged.(cached := aged.cached.(outputs := rest))];
      assert left.Keys == old(left).Keys;
      if rest == map[] {
        assert left - {point.hash} == old(left) - {point.hash};
        assert (left - {point.hash}).Keys == left.Keys - {point.hash};
        left, right := left - {point.hash}, right - {aged.sequence};
      }
    }

    /** The answer to a query, without the bookkeeping. */
    function Find(point: Point, fork: nat, requireConfirmed: bool): Option<Hit>
      reads this`left
    {
      if point.hash !in left then None
      else
        var cached := left[point.hash].cached;
        if requireConfirmed && !cached.confirmed then None
        else if point.index !in cached.outputs then None
        else if cached.height > fork then None
        else Some(Hit(cached.outputs[point.index], cached.height, cached.coinbase))
    }

    method Get(point: Point, fork: nat, requireConfirmed: bool) returns (r: Option<Hit>)
      requires Valid()
      modifies this`hits, this`queries
      ensures r == Find(point, fork, requireConfirmed)
      ensures r.Some? <==>
                && capacity > 0 && point.hash in left
                && var c := left[point.hash].cached;
                && (requireConfirmed ==> c.confirmed) && point.index in c.outputs && c.height <= fork
      ensures r.Some? ==>
                var c := left[point.hash].cached;
                r.value.output == c.outputs[point.index] && r.value.height == c.height && r.value.coinbase == c.coinbase
      ensures queries == old(queries) + (if Disabled() then 0 else 1)
      ensures hits == old(hits) + (if r.Some? then 1 else 0)
    {
      if Disabled() {
        assert left.Keys == {};
        return None;
      }
      queries := queries + 1;
      r := Find(point, fork, requireConfirmed);
      if r.Some? {
        hits := hits + 1;
      }
    }
  }
}
