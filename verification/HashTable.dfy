/** The chained hash table of the store. Rows live in a file that only grows and
    are found from an array of bucket heads through the links inside the rows.
    A row's position is an index when rows have one size (then every row takes
    one unit) and a byte offset when they do not. */
module HashTables {
  import opened Wrappers
  import opened StackMaps

  datatype Row<K, V> = Row(key: K, next: nat, value: V)

  type Rows<K, V> = map<nat, Row<K, V>>

  // ------------------------------------------------------------ chains of rows

  /** The links from `head` run through exactly the positions in c. */
  predicate IsChain<K, V>(rows: Rows<K, V>, head: nat, c: seq<nat>, empty: nat)
    decreases |c|
  {
    if c == [] then head == empty
    else head == c[0] != empty && c[0] in rows && IsChain(rows, rows[c[0]].next, c[1..], empty)
  }

  predicate Distinct(c: seq<nat>) {
    forall i, j :: 0 <= i < j < |c| ==> c[i] != c[j]
  }

  predicate Within<K, V>(rows: Rows<K, V>, c: seq<nat>) {
    forall p :: p in c ==> p in rows
  }

  /** The values of a key along a chain. */
  function Along<K(==), V>(rows: Rows<K, V>, c: seq<nat>, k: K): seq<V>
    requires Within(rows, c)
  {
    if c == [] then []
    else
      assert c[0] in c && forall p :: p in c[1..] ==> p in c;
      (if rows[c[0]].key == k then [rows[c[0]].value] else []) + Along(rows, c[1..], k)
  }

  lemma {:induction false} ChainWithin<K, V>(rows: Rows<K, V>, head: nat, c: seq<nat>, empty: nat)
    requires IsChain(rows, head, c, empty)
    ensures Within(rows, c) && empty !in c
    decreases |c|
  {
    if c != [] {
      ChainWithin(rows, rows[c[0]].next, c[1..], empty);
      assert c == [c[0]] + c[1..];
    }
  }

  /** The link out of each row of a chain. */
  lemma {:induction false} ChainNext<K, V>(rows: Rows<K, V>, head: nat, c: seq<nat>, empty: nat, i: nat)
    requires IsChain(rows, head, c, empty) && i <= |c|
    ensures i < |c| ==> c[i] in rows && c[i] != empty
    ensures i > 0 ==> c[i - 1] in rows
    ensures var at := if i == 0 then head else rows[c[i - 1]].next;
            at == (if i == |c| then empty else c[i]) && IsChain(rows, at, c[i..], empty)
    decreases |c|
  {
    if i == 0 {
      assert c[0..] == c;
    } else {
      ChainNext(rows, rows[c[0]].next, c[1..], empty, i - 1);
      assert i > 1 ==> c[1..][i - 2] == c[i - 1];
      assert c[1..][i - 1..] == c[i..];
    }
  }

  /** Rows outside a chain do not matter to it. */
  lemma {:induction false} ChainFrame<K, V>(rows: Rows<K, V>, rows': Rows<K, V>, head: nat, c: seq<nat>, empty: nat)
    requires IsChain(rows, head, c, empty)
    requires forall p :: p in c && p in rows ==> p in rows' && rows'[p].next == rows[p].next
    ensures IsChain(rows', head, c, empty)
    decreases |c|
  {
    if c != [] {
      assert c == [c[0]] + c[1..];
      ChainFrame(rows, rows', rows[c[0]].next, c[1..], empty);
    }
  }

  lemma {:induction false} AlongFrame<K, V>(rows: Rows<K, V>, rows': Rows<K, V>, c: seq<nat>, k: K)
    requires Within(rows, c) && Within(rows', c)
    requires forall p :: p in c ==> rows'[p].key == rows[p].key && rows'[p].value == rows[p].value
    ensures Along(rows', c, k) == Along(rows, c, k)
  {
    if c != [] {
      assert c == [c[0]] + c[1..];
      AlongFrame(rows, rows', c[1..], k);
    }
  }

  lemma {:induction false} AlongConcat<K, V>(rows: Rows<K, V>, c: seq<nat>, d: seq<nat>, k: K)
    requires Within(rows, c) && Within(rows, d)
    ensures Within(rows, c + d)
    ensures Along(rows, c + d, k) == Along(rows, c, k) + Along(rows, d, k)
  {
    if c == [] {
      assert c + d == d;
    } else {
      assert c == [c[0]] + c[1..];
      assert (c + d)[1..] == c[1..] + d;
      AlongConcat(rows, c[1..], d, k);
    }
  }

  lemma {:induction false} AlongNone<K, V>(rows: Rows<K, V>, c: seq<nat>, k: K)
    requires Within(rows, c)
    requires forall p :: p in c ==> rows[p].key != k
    ensures Along(rows, c, k) == []
  {
    if c != [] {
      assert c == [c[0]] + c[1..];
      AlongNone(rows, c[1..], k);
    }
  }

  /** Taking row i out of a chain: the row before it gets its link. */
  lemma {:induction false} ChainCut<K, V>(rows: Rows<K, V>, rows': Rows<K, V>, head: nat, c: seq<nat>, empty: nat,
                                          i: nat)
    requires IsChain(rows, head, c, empty) && Distinct(c) && 0 < i < |c|
    requires c[i - 1] in rows && c[i] in rows
    requires rows' == rows[c[i - 1] := rows[c[i - 1]].(next := rows[c[i]].next)]
    ensures IsChain(rows', head, c[..i] + c[i + 1..], empty)
    decreases |c|
  {
    var d := c[..i] + c[i + 1..];
    assert d[0] == c[0] && d[1..] == c[1..][..i - 1] + c[1..][i..];
    if i == 1 {
      assert c[1..][1..] == c[2..] == d[1..];
      assert c[0] !in c[2..];
      ChainFrame(rows, rows', rows[c[1]].next, c[2..], empty);
    } else {
      assert c[1..][i - 2] == c[i - 1] && c[1..][i - 1] == c[i];
      ChainCut(rows, rows', rows[c[0]].next, c[1..], empty, i - 1);
    }
  }

  // ----------------------------------------------------------- buckets of chains

  /** A bucket's chain: its rows are distinct and hash to the bucket. */
  ghost predicate BucketOk<K, V>(rows: Rows<K, V>, head: nat, c: seq<nat>, b: nat, n: nat, hash: K -> nat, empty: nat)
    requires n > 0
  {
    && IsChain(rows, head, c, empty)
    && Distinct(c)
    && forall p :: p in c && p in rows ==> hash(rows[p].key) % n == b
  }

  ghost predicate TableOk<K, V>(rows: Rows<K, V>, heads: seq<nat>, chains: seq<seq<nat>>, hash: K -> nat,
                                empty: nat) {
    && 0 < |heads| == |chains|
    && (forall b :: 0 <= b < |heads| ==> BucketOk(rows, heads[b], chains[b], b, |heads|, hash, empty))
    && (forall b :: 0 <= b < |heads| ==> Within(rows, chains[b]))
  }

  ghost predicate AllWithin<K, V>(rows: Rows<K, V>, chains: seq<seq<nat>>) {
    0 < |chains| && forall b :: 0 <= b < |chains| ==> Within(rows, chains[b])
  }

  /** The values of a key, newest first. */
  ghost function StackIn<K, V>(rows: Rows<K, V>, chains: seq<seq<nat>>, hash: K -> nat, k: K): seq<V>
    requires AllWithin(rows, chains)
  {
    Along(rows, chains[hash(k) % |chains|], k)
  }

  /** The table as a map from keys to stacks. */
  ghost function ViewIn<K, V>(rows: Rows<K, V>, chains: seq<seq<nat>>, hash: K -> nat): StackMap<K, V>
    requires AllWithin(rows, chains)
  {
    var keys := set p | p in rows && StackIn(rows, chains, hash, rows[p].key) != [] :: rows[p].key;
    map k | k in keys :: StackIn(rows, chains, hash, k)
  }

  lemma {:induction false} AlongKey<K, V>(rows: Rows<K, V>, c: seq<nat>, k: K)
    requires Within(rows, c) && Along(rows, c, k) != []
    ensures exists p :: p in c && p in rows && rows[p].key == k
  {
    if forall p :: p in c ==> rows[p].key != k {
      AlongNone(rows, c, k);
    }
  }

  /** The map and the stacks say the same. */
  lemma {:induction false} ViewStack<K, V>(rows: Rows<K, V>, chains: seq<seq<nat>>, hash: K -> nat, k: K)
    requires AllWithin(rows, chains)
    ensures Stack(ViewIn(rows, chains, hash), k) == StackIn(rows, chains, hash, k)
  {
    if StackIn(rows, chains, hash, k) != [] {
      AlongKey(rows, chains[hash(k) % |chains|], k);
    }
  }

  /** Stacks decide the map. */
  lemma {:induction false} ViewFrom<K(!new), V>(rows: Rows<K, V>, chains: seq<seq<nat>>, hash: K -> nat, m: StackMap<K, V>)
    requires AllWithin(rows, chains)
    requires forall k :: Stack(m, k) == StackIn(rows, chains, hash, k)
    ensures ViewIn(rows, chains, hash) == m
  {
    hide ViewIn, StackIn, Stack;
    forall k ensures Stack(ViewIn(rows, chains, hash), k) == Stack(m, k) {
      ViewStack(rows, chains, hash, k);
    }
    Extensional(ViewIn(rows, chains, hash), m);
  }

  // --------------------------------------------------------------- steps of a table

  lemma {:induction false} BucketFrame<K, V>(rows: Rows<K, V>, rows': Rows<K, V>, head: nat, c: seq<nat>, b: nat,
                                             n: nat,
                                             hash: K -> nat, empty: nat)
    requires n > 0 && BucketOk(rows, head, c, b, n, hash, empty) && Within(rows, c)
    requires forall p :: p in c ==> p in rows' && rows'[p].next == rows[p].next && rows'[p].key == rows[p].key
    ensures BucketOk(rows', head, c, b, n, hash, empty) && Within(rows', c)
  {
    ChainFrame(rows, rows', head, c, empty);
  }

  /** Rows that no chain links do not matter to a table. */
  lemma {:induction false} TableFrame<K(!new), V>(rows: Rows<K, V>, rows': Rows<K, V>, heads: seq<nat>, chains: seq<seq<nat>>,
                                                  hash: K -> nat, empty: nat)
    requires TableOk(rows, heads, chains, hash, empty) && AllWithin(rows, chains)
    requires forall b, p :: 0 <= b < |chains| && p in chains[b] && p in rows ==> p in rows' && rows'[p] == rows[p]
    ensures TableOk(rows', heads, chains, hash, empty) && AllWithin(rows', chains)
    ensures ViewIn(rows', chains, hash) == ViewIn(rows, chains, hash)
  {
    forall b | 0 <= b < |heads|
      ensures BucketOk(rows', heads[b], chains[b], b, |heads|, hash, empty) && Within(rows', chains[b])
    {
      BucketFrame(rows, rows', heads[b], chains[b], b, |heads|, hash, empty);
    }
    forall k ensures Stack(ViewIn(rows', chains, hash), k) == StackIn(rows, chains, hash, k) {
      ViewStack(rows', chains, hash, k);
      AlongFrame(rows, rows', chains[hash(k) % |chains|], k);
    }
    ViewFrom(rows, chains, hash, ViewIn(rows', chains, hash));
  }

  /** A new row at the head of its bucket. */
  lemma {:induction false} TableStored<K(!new), V>(rows: Rows<K, V>, heads: seq<nat>, chains: seq<seq<nat>>, hash: K -> nat,
                                             empty: nat, position: nat, key: K, value: V, b: nat)
    requires TableOk(rows, heads, chains, hash, empty) && AllWithin(rows, chains)
    requires position !in rows && position != empty && b == hash(key) % |heads|
    ensures var rows', chains' := rows[position := Row(key, heads[b], value)], chains[b := [position] + chains[b]];
            && TableOk(rows', heads[b := position], chains', hash, empty)
            && AllWithin(rows', chains')
            && ViewIn(rows', chains', hash) == Push(ViewIn(rows, chains, hash), key, value)
  {
    var rows', heads' := rows[position := Row(key, heads[b], value)], heads[b := position];
    var chains' := chains[b := [position] + chains[b]];
    forall c | 0 <= c < |heads|
      ensures BucketOk(rows', heads'[c], chains'[c], c, |heads|, hash, empty) && Within(rows', chains'[c])
    {
      BucketFrame(rows, rows', heads[c], chains[c], c, |heads|, hash, empty);
      if c == b {
        assert chains'[c][1..] == chains[c];
      }
    }
    forall k ensures Stack(Push(ViewIn(rows, chains, hash), key, value), k) == StackIn(rows', chains', hash, k) {
      ViewStack(rows, chains, hash, k);
      PushStack(ViewIn(rows, chains, hash), key, value, k);
      if k == key { ViewStack(rows, chains, hash, key); }
      var c := hash(k) % |heads|;
      AlongFrame(rows, rows', chains[c], k);
      if c == b {
        assert chains'[c][1..] == chains[c];
      }
    }
    ViewFrom(rows', chains', hash, Push(ViewIn(rows, chains, hash), key, value));
  }

  lemma {:induction false} AlongAt<K, V>(rows: Rows<K, V>, c: seq<nat>, i: nat, k: K)
    requires Within(rows, c) && i < |c|
    ensures Within(rows, c[..i]) && Within(rows, c[i + 1..]) && c[i] in rows
    ensures Along(rows, c, k) ==
            Along(rows, c[..i], k) + (if rows[c[i]].key == k then [rows[c[i]].value] else []) + Along(rows, c[i + 1..], k)
  {
    assert c[i] in c;
    assert c == c[..i] + c[i..];
    AlongConcat(rows, c[..i], c[i..], k);
    assert c[i..][1..] == c[i + 1..];
  }

  /** Row i of a chain is the newest of its key. */
  ghost predicate NewestAt<K, V>(rows: Rows<K, V>, c: seq<nat>, i: nat, key: K)
    requires Within(rows, c)
  {
    i < |c| && c[i] in c && rows[c[i]].key == key && forall j :: 0 <= j < i ==> c[j] in c && rows[c[j]].key != key
  }

  lemma {:induction false} NewestStack<K, V>(rows: Rows<K, V>, c: seq<nat>, i: nat, key: K, k: K)
    requires Within(rows, c) && NewestAt(rows, c, i, key)
    ensures Within(rows, c[..i]) && Within(rows, c[i + 1..])
    ensures Along(rows, c, k) ==
            if k == key then [rows[c[i]].value] + Along(rows, c[i + 1..], k)
            else Along(rows, c[..i], k) + Along(rows, c[i + 1..], k)
    ensures k == key ==> Along(rows, c[..i], k) == []
  {
    AlongAt(rows, c, i, k);
    if k == key {
      AlongNone(rows, c[..i], key);
    }
  }

  /** Along a chain without its newest row of a key. */
  lemma {:induction false} CutStack<K, V>(rows: Rows<K, V>, rows': Rows<K, V>, c: seq<nat>, i: nat, key: K, k: K)
    requires Within(rows, c) && NewestAt(rows, c, i, key)
    requires forall p :: p in c ==> p in rows' && rows'[p].key == rows[p].key && rows'[p].value == rows[p].value
    ensures Within(rows', c[..i] + c[i + 1..])
    ensures k == key ==> Along(rows, c, k) != []
    ensures Along(rows', c[..i] + c[i + 1..], k) ==
            if k == key then Along(rows, c, k)[1..] else Along(rows, c, k)
  {
    NewestStack(rows, c, i, key, k);
    var d := c[..i] + c[i + 1..];
    AlongConcat(rows, c[..i], c[i + 1..], k);
    AlongFrame(rows, rows', d, k);
  }

  function Cut<T>(c: seq<T>, i: nat): seq<T>
    requires i < |c|
  {
    c[..i] + c[i + 1..]
  }

  lemma {:induction false} CutBucket<K, V>(rows: Rows<K, V>, rows': Rows<K, V>, head: nat, head': nat, c: seq<nat>,
                                           b: nat, n: nat, hash: K -> nat, empty: nat, i: nat)
    requires n > 0 && BucketOk(rows, head, c, b, n, hash, empty) && Within(rows, c)
    requires i < |c|
    requires i == 0 ==> rows' == rows && c[0] in rows && head' == rows[c[0]].next
    requires i > 0 ==> head' == head && c[i - 1] in rows && c[i] in rows &&
                       rows' == rows[c[i - 1] := rows[c[i - 1]].(next := rows[c[i]].next)]
    ensures BucketOk(rows', head', Cut(c, i), b, n, hash, empty) && Within(rows', Cut(c, i))
  {
    if i == 0 {
      assert Cut(c, 0) == c[1..];
    } else {
      ChainCut(rows, rows', head, c, empty, i);
    }
    DistinctCut(c, i);
  }

  lemma {:induction false} DistinctCut(c: seq<nat>, i: nat)
    requires Distinct(c) && i < |c|
    ensures Distinct(Cut(c, i))
    ensures forall p :: p in Cut(c, i) ==> p in c
  {
    var d := Cut(c, i);
    assert forall j :: 0 <= j < |d| ==> d[j] == if j < i then c[j] else c[j + 1];
  }

  /** Row i of a bucket is unlinked: from the bucket head if it comes first, else
      from the row before it. */
  ghost predicate Unlinked<K, V>(rows: Rows<K, V>, heads: seq<nat>, c: seq<nat>, b: nat, i: nat, rows': Rows<K, V>,
                                 heads': seq<nat>)
    requires b < |heads| && i < |c|
  {
    && (i == 0 ==> rows' == rows && c[0] in rows && heads' == heads[b := rows[c[0]].next])
    && (i > 0 ==> heads' == heads && c[i - 1] in rows && c[i] in rows &&
                  rows' == rows[c[i - 1] := rows[c[i - 1]].(next := rows[c[i]].next)])
  }

  lemma {:induction false} TableCutOk<K, V>(rows: Rows<K, V>, heads: seq<nat>, chains: seq<seq<nat>>, hash: K -> nat,
                                            empty: nat, b: nat, i: nat, rows': Rows<K, V>, heads': seq<nat>)
    requires TableOk(rows, heads, chains, hash, empty)
    requires b < |heads| && i < |chains[b]|
    requires Unlinked(rows, heads, chains[b], b, i, rows', heads')
    ensures TableOk(rows', heads', chains[b := Cut(chains[b], i)], hash, empty)
    ensures AllWithin(rows', chains[b := Cut(chains[b], i)])
  {
    hide Cut, Distinct, IsChain;
    var chains' := chains[b := Cut(chains[b], i)];
    forall c | 0 <= c < |heads|
      ensures BucketOk(rows', heads'[c], chains'[c], c, |heads|, hash, empty) && Within(rows', chains'[c])
    {
      if c == b {
        CutBucket(rows, rows', heads[b], heads'[b], chains[b], b, |heads|, hash, empty, i);
      } else {
        OtherBucket(rows, heads, chains, hash, empty, b, c);
        BucketFrame(rows, rows', heads[c], chains[c], c, |heads|, hash, empty);
      }
    }
  }

  /** Unlinking the newest row of a key pops its stack. */
  lemma {:induction false} TableCut<K(!new), V>(rows: Rows<K, V>, heads: seq<nat>, chains: seq<seq<nat>>, hash: K -> nat,
                                                empty: nat, key: K, b: nat, i: nat, rows': Rows<K, V>, heads': seq<nat>)
    requires TableOk(rows, heads, chains, hash, empty) && AllWithin(rows, chains)
    requires b == hash(key) % |heads| && NewestAt(rows, chains[b], i, key)
    requires Unlinked(rows, heads, chains[b], b, i, rows', heads')
    ensures var chains' := chains[b := Cut(chains[b], i)];
            && TableOk(rows', heads', chains', hash, empty)
            && AllWithin(rows', chains')
            && key in ViewIn(rows, chains, hash)
            && ViewIn(rows', chains', hash) == Pop(ViewIn(rows, chains, hash), key)
  {
    hide ViewIn, Stack, Pop, Along, StackIn, BucketOk, Cut;
    var m := ViewIn(rows, chains, hash);
    var chains' := chains[b := Cut(chains[b], i)];
    hide NewestAt;
    TableCutOk(rows, heads, chains, hash, empty, b, i, rows', heads');
    NewestInView(rows, chains, hash, key, b, i);
    forall k ensures Stack(Pop(m, key), k) == StackIn(rows', chains', hash, k) {
      CutStackIn(rows, rows', heads, heads', chains, hash, key, b, i, k);
    }
    ViewFrom(rows', chains', hash, Pop(m, key));
  }

  lemma {:induction false} NewestInView<K, V>(rows: Rows<K, V>, chains: seq<seq<nat>>, hash: K -> nat, key: K, b: nat,
                                              i: nat)
    requires AllWithin(rows, chains) && |chains| > 0 && b == hash(key) % |chains|
    requires NewestAt(rows, chains[b], i, key)
    ensures key in ViewIn(rows, chains, hash)
  {
    NewestStack(rows, chains[b], i, key, key);
    InView(rows, chains, hash, key);
  }

  /** One key's stack, after the newest row of another or of this key left. */
  lemma {:induction false} CutStackIn<K, V>(rows: Rows<K, V>, rows': Rows<K, V>, heads: seq<nat>, heads': seq<nat>,
                                            chains: seq<seq<nat>>, hash: K -> nat, key: K, b: nat, i: nat, k: K)
    requires AllWithin(rows, chains) && |heads| == |chains| > 0
    requires b == hash(key) % |heads| && NewestAt(rows, chains[b], i, key)
    requires Unlinked(rows, heads, chains[b], b, i, rows', heads')
    requires AllWithin(rows', chains[b := Cut(chains[b], i)])
    requires key in ViewIn(rows, chains, hash)
    ensures Stack(Pop(ViewIn(rows, chains, hash), key), k) == StackIn(rows', chains[b := Cut(chains[b], i)], hash, k)
  {
    hide ViewIn, Stack, Pop, Along, NewestAt;
    var c := hash(k) % |heads|;
    ViewStack(rows, chains, hash, k);
    ViewStack(rows, chains, hash, key);
    PopStack(ViewIn(rows, chains, hash), key, k);
    if c == b {
      CutStack(rows, rows', chains[b], i, key, k);
    } else {
      AlongFrame(rows, rows', chains[c], k);
    }
  }

  lemma {:induction false} InView<K, V>(rows: Rows<K, V>, chains: seq<seq<nat>>, hash: K -> nat, k: K)
    requires AllWithin(rows, chains)
    ensures k in ViewIn(rows, chains, hash) <==> StackIn(rows, chains, hash, k) != []
  {
    ViewStack(rows, chains, hash, k);
  }

  /** Chains of different buckets share no row. */
  lemma {:induction false} OtherBucket<K, V>(rows: Rows<K, V>, heads: seq<nat>, chains: seq<seq<nat>>, hash: K -> nat,
                                             empty: nat, b: nat, c: nat)
    requires TableOk(rows, heads, chains, hash, empty)
    requires b < |heads| && c < |heads| && b != c
    ensures forall p :: p in chains[b] ==> p !in chains[c]
  {
    assert BucketOk(rows, heads[b], chains[b], b, |heads|, hash, empty);
    assert BucketOk(rows, heads[c], chains[c], c, |heads|, hash, empty);
  }

  /** One chain, after the value of a key's newest row is overwritten. */
  lemma {:induction false} PatchedStack<K, V>(rows: Rows<K, V>, rows': Rows<K, V>, c: seq<nat>, i: nat, key: K, k: K,
                                              value: V)
    requires Within(rows, c) && NewestAt(rows, c, i, key) && Distinct(c) && c[i] in rows
    requires rows' == rows[c[i] := rows[c[i]].(value := value)]
    ensures Within(rows', c)
    ensures k == key ==> Along(rows, c, k) != []
    ensures Along(rows', c, k) == if k == key then [value] + Along(rows, c, k)[1..] else Along(rows, c, k)
  {
    hide Along;
    assert Within(rows', c) && NewestAt(rows', c, i, key);
    assert c[i] !in c[..i] && c[i] !in c[i + 1..];
    NewestStack(rows, c, i, key, k);
    NewestStack(rows', c, i, key, k);
    hide NewestAt, Within, Distinct;
    AlongFrame(rows, rows', c[..i], k);
    AlongFrame(rows, rows', c[i + 1..], k);
  }

  /** The value of the newest row of a key is overwritten. */
  lemma {:induction false} TablePatched<K(!new), V>(rows: Rows<K, V>, heads: seq<nat>, chains: seq<seq<nat>>, hash: K -> nat,
                                                    empty: nat, key: K, b: nat, i: nat, value: V)
    requires TableOk(rows, heads, chains, hash, empty) && AllWithin(rows, chains)
    requires b == hash(key) % |heads| && NewestAt(rows, chains[b], i, key) && chains[b][i] in rows
    ensures var rows' := rows[chains[b][i] := rows[chains[b][i]].(value := value)];
            && TableOk(rows', heads, chains, hash, empty)
            && AllWithin(rows', chains)
            && key in ViewIn(rows, chains, hash)
            && ViewIn(rows', chains, hash) == Patch(ViewIn(rows, chains, hash), key, value)
  {
    var m := ViewIn(rows, chains, hash);
    var p := chains[b][i];
    var rows' := rows[p := rows[p].(value := value)];
    forall c | 0 <= c < |heads|
      ensures BucketOk(rows', heads[c], chains[c], c, |heads|, hash, empty) && Within(rows', chains[c])
    {
      BucketFrame(rows, rows', heads[c], chains[c], c, |heads|, hash, empty);
    }
    assert BucketOk(rows, heads[b], chains[b], b, |heads|, hash, empty);
    NewestStack(rows, chains[b], i, key, key);
    InView(rows, chains, hash, key);
    hide BucketOk, ViewIn, Stack, Patch, Along, NewestAt;
    forall k ensures Stack(Patch(m, key, value), k) == StackIn(rows', chains, hash, k) {
      ViewStack(rows, chains, hash, k);
      ViewStack(rows, chains, hash, key);
      PatchStack(m, key, value, k);
      var c := hash(k) % |heads|;
      if c == b {
        PatchedStack(rows, rows', chains[b], i, key, k, value);
      } else {
        OtherBucket(rows, heads, chains, hash, empty, b, c);
        AlongFrame(rows, rows', chains[c], k);
      }
    }
    ViewFrom(rows', chains, hash, Patch(m, key, value));
  }

  // ------------------------------------------------------------------- walking

  /** A walk at position i of a chain. */
  ghost predicate Walking<K, V>(rows: Rows<K, V>, c: seq<nat>, i: nat, current: nat, empty: nat) {
    && Within(rows, c) && empty !in c && Distinct(c)
    && i <= |c| && current == (if i == |c| then empty else c[i])
    && IsChain(rows, current, c[i..], empty)
  }

  lemma {:induction false} WalkBegins<K, V>(rows: Rows<K, V>, heads: seq<nat>, chains: seq<seq<nat>>, hash: K -> nat,
                                            empty: nat, b: nat)
    requires TableOk(rows, heads, chains, hash, empty) && b < |heads|
    ensures Walking(rows, chains[b], 0, heads[b], empty)
  {
    assert BucketOk(rows, heads[b], chains[b], b, |heads|, hash, empty);
    ChainWithin(rows, heads[b], chains[b], empty);
    assert chains[b][0..] == chains[b];
  }

  lemma {:induction false} WalkStep<K, V>(rows: Rows<K, V>, c: seq<nat>, i: nat, current: nat, empty: nat)
    requires Walking(rows, c, i, current, empty) && current != empty
    ensures i < |c| && current in rows && c[i] == current && rows[current].next != current
    ensures Walking(rows, c, i + 1, rows[current].next, empty)
  {
    ChainNext(rows, current, c[i..], empty, 1);
    assert c[i..][0] == c[i] && c[i..][1..] == c[i + 1..] && c[i] in c;
    assert i + 1 < |c| ==> c[i..][1] == c[i + 1];
  }

  /** A reader at position i of a chain, having seen no row of the key. */
  ghost predicate Searching<K, V>(rows: Rows<K, V>, c: seq<nat>, i: nat, current: nat, key: K, empty: nat) {
    Walking(rows, c, i, current, empty) && forall j :: 0 <= j < i ==> c[j] in c && rows[c[j]].key != key
  }

  lemma {:induction false} SearchBegins<K, V>(rows: Rows<K, V>, heads: seq<nat>, chains: seq<seq<nat>>,
                                              hash: K -> nat,
                                              empty: nat, key: K, b: nat)
    requires TableOk(rows, heads, chains, hash, empty) && b < |heads|
    ensures Searching(rows, chains[b], 0, heads[b], key, empty)
  {
    WalkBegins(rows, heads, chains, hash, empty, b);
  }

  lemma {:induction false} SearchStep<K, V>(rows: Rows<K, V>, c: seq<nat>, i: nat, current: nat, key: K, empty: nat)
    requires Searching(rows, c, i, current, key, empty) && current != empty
    ensures i < |c| && current in rows && c[i] == current && rows[current].next != current
    ensures rows[current].key != key ==> Searching(rows, c, i + 1, rows[current].next, key, empty)
    ensures rows[current].key == key ==> NewestAt(rows, c, i, key)
  {
    WalkStep(rows, c, i, current, empty);
    assert c[i] in c;
  }

  lemma {:induction false} SearchFound<K, V>(rows: Rows<K, V>, chains: seq<seq<nat>>, hash: K -> nat, key: K, b: nat,
                                             i: nat)
    requires AllWithin(rows, chains) && b == hash(key) % |chains|
    requires NewestAt(rows, chains[b], i, key)
    ensures key in ViewIn(rows, chains, hash) && chains[b][i] in rows
    ensures Peek(ViewIn(rows, chains, hash), key) == Some(rows[chains[b][i]].value)
  {
    NewestStack(rows, chains[b], i, key, key);
    InView(rows, chains, hash, key);
    ViewStack(rows, chains, hash, key);
  }

  lemma {:induction false} SearchFailed<K, V>(rows: Rows<K, V>, chains: seq<seq<nat>>, hash: K -> nat, key: K, b: nat,
                                              i: nat, current: nat, empty: nat)
    requires AllWithin(rows, chains) && b == hash(key) % |chains|
    requires Searching(rows, chains[b], i, current, key, empty) && current == empty
    ensures key !in ViewIn(rows, chains, hash)
  {
    assert i == |chains[b]|;
    AlongNone(rows, chains[b], key);
    InView(rows, chains, hash, key);
  }

  function Flatten<T>(chains: seq<seq<T>>): seq<T> {
    if chains == [] then [] else Flatten(chains[..|chains| - 1]) + chains[|chains| - 1]
  }

  // ----------------------------------------------------------------- the table

  /** Rows stay where they are with their key and value, linked or not. */
  ghost predicate Stand<K, V>(rows: Rows<K, V>, rows': Rows<K, V>) {
    forall p :: p in rows ==> p in rows' && rows'[p].key == rows[p].key && rows'[p].value == rows[p].value
  }

  class HashTable<K(==, !new), V> {
    /** Bucket heads; the fixed part of the file. */
    const header: array<nat>
    const hash: K -> nat
    /** The sentinel that no row's position reaches. */
    const empty: nat
    var rows: Rows<K, V>
    var payload: nat
    ghost var chains: seq<seq<nat>>

    ghost predicate Valid()
      reads this, header
    {
      && (forall p :: p in rows ==> p < payload)
      && TableOk(rows, header[..], chains, hash, empty)
      && AllWithin(rows, chains)
    }

    ghost function View(): StackMap<K, V>
      requires Valid()
      reads this, header
    {
      ViewIn(rows, chains, hash)
    }

    /** No position up to the end of a new row is the sentinel, because it is above
        them all or below them all. */
    predicate Room(size: nat)
      reads this`payload
    {
      empty < payload || payload + size <= empty
    }

    /** The sentinel is below every position, so there is always room. */
    predicate Unlimited()
      reads this`payload
    {
      empty < payload
    }

    /** p is the row that a lookup of the key finds. */
    ghost predicate IsNewest(key: K, p: nat)
      requires Valid()
      reads this, header
    {
      exists i :: 0 <= i < |chains[hash(key) % |chains|]| && chains[hash(key) % |chains|][i] == p &&
        NewestAt(rows, chains[hash(key) % |chains|], i, key)
    }

    constructor (buckets: nat, hash: K -> nat, first: nat, empty: nat)
      requires buckets > 0
      ensures Valid() && View() == map[] && fresh(header)
      ensures this.empty == empty && payload == first
    {
      header := new nat[buckets](_ => empty);
      this.hash, this.empty := hash, empty;
      rows, payload := map[], first;
      chains := seq(buckets, _ => []);
    }

    function Bucket(key: K): (b: nat)
      requires header.Length > 0
      ensures b < header.Length
    {
      hash(key) % header.Length
    }

    /** Pushes a value on its key's stack. */
    method Store(key: K, value: V, size: nat) returns (position: nat)
      requires Valid() && size > 0 && Room(size)
      modifies this`rows, this`payload, this`chains, header
      ensures Valid()
      ensures position !in old(rows) && position in rows && rows[position].key == key && rows[position].value == value
      ensures Stand(old(rows), rows)
      ensures position == old(payload) && payload == old(payload) + size
      ensures View() == Push(old(View()), key, value)
    {
      hide TableOk, AllWithin, ViewIn, Push;
      assert |header[..]| == |chains| > 0 by { HeaderSize(); }
      var b := Bucket(key);
      ghost var heads := header[..];
      TableStored(rows, heads, chains, hash, empty, payload, key, value, b);
      // Create the row, not yet linked.
      position := payload;
      payload := payload + size;
      rows := rows[position := Row(key, empty, value)];
      // Link it as the first of its bucket.
      rows := rows[position := rows[position].(next := header[b])];
      header[b] := position;
      chains := chains[b := [position] + chains[b]];
      assert rows == old(rows)[position := Row(key, heads[b], value)];
      assert header[..] == heads[b := position];
    }

    lemma {:induction false} HeaderSize()
      requires Valid()
      ensures |header[..]| == |chains| > 0
    {
    }

    /** A key that is present has a non-empty bucket. */
    lemma {:induction false} BucketOf(key: K)
      requires Valid() && key in View()
      ensures header.Length > 0 && header[Bucket(key)] != empty
    {
      HeaderSize();
      var b := Bucket(key);
      InView(rows, chains, hash, key);
      assert BucketOk(rows, header[..][b], chains[b], b, |header[..]|, hash, empty);
    }

    /** The newest row of a key, if it has any. */
    method Find(key: K) returns (r: Option<nat>)
      requires Valid()
      ensures r.Some? <==> key in View()
      ensures r.Some? ==> r.value in rows && IsNewest(key, r.value) && Peek(View(), key) == Some(rows[r.value].value)
    {
      hide TableOk, AllWithin, ViewIn, Walking, Peek;
      HeaderSize();
      var b := Bucket(key);
      ghost var i := 0;
      WalkBegins(rows, header[..], chains, hash, empty, b);
      var current := header[b];
      while current != empty
        invariant Searching(rows, chains[b], i, current, key, empty)
        decreases |chains[b]| - i
      {
        SearchStep(rows, chains[b], i, current, key, empty);
        if rows[current].key == key {
          SearchFound(rows, chains, hash, key, b, i);
          return Some(current);
        }
        var previous := current;
        current := rows[current].next;
        i := i + 1;
        if previous == current {
          return None;
        }
      }
      SearchFailed(rows, chains, hash, key, b, i, current, empty);
      r := None;
    }

    /** Overwrites the value in the row that a lookup found. */
    method Write(key: K, position: nat, value: V)
      requires Valid() && position in rows && IsNewest(key, position)
      modifies this`rows
      ensures Valid()
      ensures key in old(View()) && View() == Patch(old(View()), key, value)
      ensures rows == old(rows)[position := old(rows)[position].(value := value)]
    {
      hide TableOk, ViewIn, Patch, NewestAt;
      HeaderSize();
      ghost var b := hash(key) % |chains|;
      ghost var i :| 0 <= i < |chains[b]| && chains[b][i] == position && NewestAt(rows, chains[b], i, key);
      TablePatched(rows, header[..], chains, hash, empty, key, b, i, value);
      rows := rows[position := rows[position].(value := value)];
    }

    /** Pops the stack of a key. The source reads the first row of the bucket
        without asking whether there is one. */
    method Unlink(key: K) returns (ok: bool)
      requires Valid() && header.Length > 0 && header[Bucket(key)] != empty
      modifies this`rows, this`chains, header
      ensures Valid()
      ensures ok == (key in old(View()))
      ensures View() == Pop(old(View()), key)
      ensures payload == old(payload) && Stand(old(rows), rows)
    {
      hide TableOk, AllWithin, ViewIn, Walking, Pop, NewestAt, Cut;
      HeaderSize();
      var b := Bucket(key);
      ghost var heads := header[..];
      WalkBegins(rows, heads, chains, hash, empty, b);
      var begin := header[b];
      SearchStep(rows, chains[b], 0, begin, key, empty);
      if rows[begin].key == key {
        TableCut(rows, heads, chains, hash, empty, key, b, 0, rows, heads[b := rows[begin].next]);
        header[b] := rows[begin].next;
        chains := chains[b := Cut(chains[b], 0)];
        assert header[..] == heads[b := rows[begin].next];
        return true;
      }
      var previous := begin;
      var current := rows[begin].next;
      ghost var i := 1;
      while current != empty
        invariant chains == old(chains) && rows == old(rows) && header[..] == heads
        invariant 0 < i <= |chains[b]| && previous == chains[b][i - 1] && previous in rows
        invariant Searching(rows, chains[b], i, current, key, empty)
        decreases |chains[b]| - i
      {
        SearchStep(rows, chains[b], i, current, key, empty);
        if rows[current].key == key {
          ghost var cut := rows[previous := rows[previous].(next := rows[current].next)];
          TableCut(rows, heads, chains, hash, empty, key, b, i, cut, heads);
          rows := rows[previous := rows[previous].(next := rows[current].next)];
          chains := chains[b := Cut(chains[b], i)];
          return true;
        }
        previous := current;
        current := rows[current].next;
        i := i + 1;
        if previous == current {
          return false;
        }
      }
      SearchFailed(rows, chains, hash, key, b, i, current, empty);
      PopAbsent(View(), key);
      ok := false;
    }

    /** Shows every linked row to f, bucket by bucket, until f says to stop. */
    method ForEach(f: V -> bool) returns (visited: seq<nat>)
      requires Valid()
      ensures visited <= Flatten(chains) && Within(rows, visited)
      ensures forall i :: 0 <= i < |visited| - 1 ==> f(rows[visited[i]].value)
      ensures visited == Flatten(chains) || (visited != [] && !f(rows[visited[|visited| - 1]].value))
      ensures Distinct(Flatten(chains)) && forall p :: p in Flatten(chains) <==> exists b :: 0 <= b < |chains| && p in chains[b]
    {
      hide TableOk, IsChain;
      HeaderSize();
      FlattenDistinct(rows, header[..], chains, hash, empty, |chains|);
      assert chains[..|chains|] == chains;
      visited := [];
      var index := 0;
      while index < header.Length
        invariant 0 <= index <= header.Length
        invariant visited == Flatten(chains[..index]) && Within(rows, visited)
        invariant forall i :: 0 <= i < |visited| ==> f(rows[visited[i]].value)
      {
        WalkBegins(rows, header[..], chains, hash, empty, index);
        assert chains[..index + 1][..index] == chains[..index];
        FlattenPrefix(chains, index + 1);
        var current := header[index];
        ghost var i := 0;
        while current != empty
          invariant Walking(rows, chains[index], i, current, empty)
          invariant visited == Flatten(chains[..index]) + chains[index][..i] && Within(rows, visited)
          invariant forall j :: 0 <= j < |visited| ==> f(rows[visited[j]].value)
          decreases |chains[index]| - i
        {
          WalkStep(rows, chains[index], i, current, empty);
          assert chains[index][..i + 1] == chains[index][..i] + [current];
          assert chains[index][..i + 1] <= chains[index];
          visited := visited + [current];
          if !f(rows[current].value) {
            return;
          }
          var previous := current;
          current := rows[current].next;
          i := i + 1;
          if previous == current {
            break;
          }
        }
        assert chains[index][..i] == chains[index];
        index := index + 1;
      }
    }
  }

  lemma {:induction false} FlattenPrefix<T>(chains: seq<seq<T>>, n: nat)
    requires n <= |chains|
    ensures Flatten(chains[..n]) <= Flatten(chains)
    decreases |chains| - n
  {
    if n < |chains| {
      assert chains[..n + 1][..n] == chains[..n];
      FlattenPrefix(chains, n + 1);
    } else {
      assert chains[..n] == chains;
    }
  }

  lemma {:induction false} DistinctConcat(a: seq<nat>, b: seq<nat>)
    requires Distinct(a) && Distinct(b) && forall p :: p in a ==> p !in b
    ensures Distinct(a + b)
  {
    var c := a + b;
    forall i, j | 0 <= i < j < |c| ensures c[i] != c[j] {
      if i < |a| <= j { assert a[i] in a && b[j - |a|] in b; }
    }
  }

  /** No row is linked twice. */
  lemma {:induction false} FlattenDistinct<K, V>(rows: Rows<K, V>, heads: seq<nat>, chains: seq<seq<nat>>,
                                                 hash: K -> nat,
                                                 empty: nat, n: nat)
    requires TableOk(rows, heads, chains, hash, empty) && n <= |chains|
    ensures Distinct(Flatten(chains[..n]))
    ensures forall p :: p in Flatten(chains[..n]) <==> exists b :: 0 <= b < n && p in chains[b]
  {
    if n > 0 {
      FlattenDistinct(rows, heads, chains, hash, empty, n - 1);
      var front, c := Flatten(chains[..n - 1]), chains[n - 1];
      assert chains[..n][..n - 1] == chains[..n - 1];
      assert BucketOk(rows, heads[n - 1], c, n - 1, |heads|, hash, empty);
      assert Flatten(chains[..n]) == front + c;
      hide BucketOk, Flatten;
      forall p | p in front ensures p !in c {
        var b :| 0 <= b < n - 1 && p in chains[b];
        OtherBucket(rows, heads, chains, hash, empty, b, n - 1);
      }
      DistinctConcat(front, c);
    }
  }

  lemma {:induction false} PopAbsent<K, V>(m: StackMap<K, V>, k: K)
    requires k !in m
    ensures Pop(m, k) == m
  {
  }
}
