/** The abstract value of every chained table of the store: each key holds a
    last-in first-out stack of values, newest first, and a key whose stack is
    empty is absent. */
module StackMaps {
  import opened Wrappers

  type StackMap<!K(==), V> = m: map<K, seq<V>> | forall k :: k in m ==> m[k] != []
    witness map[]

  /** The whole stack of a key, newest first. */
  function Stack<K(==), V>(m: StackMap<K, V>, k: K): seq<V> {
    if k in m then m[k] else []
  }

  function Push<K(==), V>(m: StackMap<K, V>, k: K, v: V): StackMap<K, V> {
    m[k := [v] + Stack(m, k)]
  }

  /** What a lookup sees: the newest value only. */
  function Peek<K(==), V>(m: StackMap<K, V>, k: K): Option<V> {
    if k in m then Some(m[k][0]) else None
  }

  /** Drops the newest value; an absent key is left alone. */
  function Pop<K(==), V>(m: StackMap<K, V>, k: K): StackMap<K, V> {
    if k !in m then m
    else if |m[k]| == 1 then m - {k}
    else m[k := m[k][1..]]
  }

  /** Overwrites the newest value in place. */
  function Patch<K(==), V>(m: StackMap<K, V>, k: K, v: V): StackMap<K, V>
    requires k in m
  {
    m[k := [v] + m[k][1..]]
  }

  lemma {:induction false} PushStack<K, V>(m: StackMap<K, V>, k: K, v: V, other: K)
    ensures Stack(Push(m, k, v), other) == if other == k then [v] + Stack(m, k) else Stack(m, other)
  {
  }

  lemma {:induction false} PopStack<K, V>(m: StackMap<K, V>, k: K, other: K)
    ensures Stack(Pop(m, k), other) == if other == k && k in m then Stack(m, k)[1..] else Stack(m, other)
  {
  }

  lemma {:induction false} PatchStack<K, V>(m: StackMap<K, V>, k: K, v: V, other: K)
    requires k in m
    ensures Stack(Patch(m, k, v), other) == if other == k then [v] + Stack(m, k)[1..] else Stack(m, other)
  {
  }

  lemma {:induction false} PopAfterPush<K, V>(m: StackMap<K, V>, k: K, v: V)
    ensures Pop(Push(m, k, v), k) == m
  {
    var p := Push(m, k, v);
    assert p[k][1..] == Stack(m, k);
    if k in m {
      assert Pop(p, k) == m;
    } else {
      assert p - {k} == m;
    }
  }

  /** Equal stacks under every key make equal maps: no empty stack is stored. */
  lemma {:induction false} Extensional<K, V>(m: StackMap<K, V>, n: StackMap<K, V>)
    requires forall k :: Stack(m, k) == Stack(n, k)
    ensures m == n
  {
    forall k | k in m || k in n
      ensures k in m && k in n && m[k] == n[k]
    {
      assert Stack(m, k) == Stack(n, k);
    }
  }

  // ------------------------------------------------------------ many pushes

  datatype Item<K, V> = Item(key: K, value: V)

  function PushItems<K(==), V>(m: StackMap<K, V>, items: seq<Item<K, V>>): StackMap<K, V> {
    if items == [] then m
    else
      var last := items[|items| - 1];
      Push(PushItems(m, items[..|items| - 1]), last.key, last.value)
  }

  lemma {:induction false} PushItemsLast<K, V>(m: StackMap<K, V>, items: seq<Item<K, V>>, last: Item<K, V>)
    ensures PushItems(m, items + [last]) == Push(PushItems(m, items), last.key, last.value)
  {
    assert (items + [last])[..|items|] == items;
  }

  /** The values stored under one key, in the order of the list. */
  function ValuesOf<K(==), V>(items: seq<Item<K, V>>, k: K): seq<V> {
    if items == [] then []
    else
      var last := items[|items| - 1];
      ValuesOf(items[..|items| - 1], k) + (if last.key == k then [last.value] else [])
  }

  function Reversed<T>(s: seq<T>): (r: seq<T>)
    ensures |r| == |s|
    ensures forall i :: 0 <= i < |s| ==> r[i] == s[|s| - 1 - i]
  {
    if s == [] then [] else [s[|s| - 1]] + Reversed(s[..|s| - 1])
  }

  lemma {:induction false} ReversedAppend<T>(s: seq<T>, x: T)
    ensures Reversed(s + [x]) == [x] + Reversed(s)
  {
    assert (s + [x])[..|s|] == s;
  }

  lemma {:induction false} Associative<T>(a: seq<T>, b: seq<T>, c: seq<T>)
    ensures a + (b + c) == (a + b) + c
  {
  }

  /** Whatever was pushed for a key sits on its old stack in reverse order. */
  lemma {:induction false} PushItemsStack<K, V>(m: StackMap<K, V>, items: seq<Item<K, V>>, k: K)
    ensures Stack(PushItems(m, items), k) == Reversed(ValuesOf(items, k)) + Stack(m, k)
  {
    if items != [] {
      hide *;
      var n := |items| - 1;
      PushItemsStack(m, items[..n], k);
      PushItemsStep(m, items, k);
      ValuesOfStep(items, k);
      Associative(if items[n].key == k then [items[n].value] else [], Reversed(ValuesOf(items[..n], k)), Stack(m, k));
    }
  }

  lemma {:induction false} PushItemsStep<K, V>(m: StackMap<K, V>, items: seq<Item<K, V>>, k: K)
    requires items != []
    ensures var before, last := PushItems(m, items[..|items| - 1]), items[|items| - 1];
            Stack(PushItems(m, items), k) == (if last.key == k then [last.value] else []) + Stack(before, k)
  {
    hide Stack, Push;
    var before, last := PushItems(m, items[..|items| - 1]), items[|items| - 1];
    PushStack(before, last.key, last.value, k);
    assert [] + Stack(before, k) == Stack(before, k);
  }

  lemma {:induction false} ValuesOfStep<K, V>(items: seq<Item<K, V>>, k: K)
    requires items != []
    ensures var before, last := ValuesOf(items[..|items| - 1], k), items[|items| - 1];
            Reversed(ValuesOf(items, k)) == (if last.key == k then [last.value] else []) + Reversed(before)
  {
    var before, last := ValuesOf(items[..|items| - 1], k), items[|items| - 1];
    if last.key == k {
      ReversedAppend(before, last.value);
    } else {
      assert ValuesOf(items, k) == before;
    }
  }

  lemma {:induction false} PushItemsConcat<K, V>(m: StackMap<K, V>, a: seq<Item<K, V>>, b: seq<Item<K, V>>)
    ensures PushItems(m, a + b) == PushItems(PushItems(m, a), b)
  {
    if b == [] {
      assert a + b == a;
    } else {
      var n := |b| - 1;
      assert (a + b)[..|a + b| - 1] == a + b[..n];
      PushItemsConcat(m, a, b[..n]);
    }
  }

  lemma {:induction false} PushItemsFirst<K, V>(m: StackMap<K, V>, first: Item<K, V>, rest: seq<Item<K, V>>)
    ensures PushItems(m, [first] + rest) == PushItems(Push(m, first.key, first.value), rest)
  {
    PushItemsLast(m, [], first);
    assert [] + [first] == [first];
    PushItemsConcat(m, [first], rest);
  }

  lemma {:induction false} PushItemsLength<K, V>(m: StackMap<K, V>, items: seq<Item<K, V>>, k: K)
    ensures |Stack(PushItems(m, items), k)| == |ValuesOf(items, k)| + |Stack(m, k)|
  {
    hide *;
    PushItemsStack(m, items, k);
  }

  lemma {:induction false} ValuesOfConcat<K, V>(a: seq<Item<K, V>>, b: seq<Item<K, V>>, k: K)
    ensures ValuesOf(a + b, k) == ValuesOf(a, k) + ValuesOf(b, k)
  {
    if b == [] {
      assert a + b == a;
    } else {
      var n := |b| - 1;
      assert (a + b)[..|a + b| - 1] == a + b[..n];
      ValuesOfConcat(a, b[..n], k);
    }
  }

  // -------------------------------------------------------------- many pops

  /** All but the first n. */
  function Drop<T>(s: seq<T>, n: nat): seq<T> {
    if n <= |s| then s[n..] else []
  }

  lemma {:induction false} DropMore<T>(s: seq<T>, n: nat)
    ensures Drop(s, n + 1) == Drop(Drop(s, n), 1)
    ensures Drop(s, n + 1) == Drop(Drop(s, 1), n)
    ensures Drop(s, 0) == s
  {
  }

  lemma {:induction false} PopDrops<K, V>(m: StackMap<K, V>, k: K, other: K)
    ensures Stack(Pop(m, k), other) == Drop(Stack(m, other), if other == k then 1 else 0)
  {
    PopStack(m, k, other);
  }

  /** Pops keys from the first to the last. */
  function PopKeys<K(==), V>(m: StackMap<K, V>, keys: seq<K>): StackMap<K, V> {
    if keys == [] then m else Pop(PopKeys(m, keys[..|keys| - 1]), keys[|keys| - 1])
  }

  /** Pops the keys of items from the last to the first, as a walk backwards does. */
  function PopItems<K(==), V>(m: StackMap<K, V>, items: seq<Item<K, V>>): StackMap<K, V>
    decreases |items|
  {
    if items == [] then m else PopItems(Pop(m, items[|items| - 1].key), items[..|items| - 1])
  }

  lemma {:induction false} CountLast<K>(keys: seq<K>, k: K)
    requires keys != []
    ensures multiset(keys)[k] == multiset(keys[..|keys| - 1])[k] + if keys[|keys| - 1] == k then 1 else 0
  {
    assert keys == keys[..|keys| - 1] + [keys[|keys| - 1]];
  }

  /** Every pop of a key drops one value, as long as there are any. */
  lemma {:induction false} PopKeysStack<K, V>(m: StackMap<K, V>, keys: seq<K>, k: K)
    ensures Stack(PopKeys(m, keys), k) == Drop(Stack(m, k), multiset(keys)[k])
  {
    hide Stack, Pop, Drop;
    if keys == [] {
      DropMore(Stack(m, k), 0);
    } else {
      var n := |keys| - 1;
      PopKeysStack(m, keys[..n], k);
      CountLast(keys, k);
      PopDrops(PopKeys(m, keys[..n]), keys[n], k);
      DropMore(Stack(m, k), multiset(keys[..n])[k]);
      DropMore(Stack(PopKeys(m, keys[..n]), k), 0);
    }
  }

  lemma {:induction false} PopItemsStack<K, V>(m: StackMap<K, V>, items: seq<Item<K, V>>, k: K)
    ensures Stack(PopItems(m, items), k) == Drop(Stack(m, k), |ValuesOf(items, k)|)
    decreases |items|
  {
    hide Stack, Pop, Drop;
    if items == [] {
      DropMore(Stack(m, k), 0);
    } else {
      var n := |items| - 1;
      PopItemsStack(Pop(m, items[n].key), items[..n], k);
      PopDrops(m, items[n].key, k);
      DropMore(Stack(m, k), |ValuesOf(items[..n], k)|);
      DropMore(Stack(m, k), 0);
    }
  }

  /** The order of pops does not matter. */
  lemma {:induction false} AnyPopOrder<K(!new), V>(m: StackMap<K, V>, a: seq<K>, b: seq<K>)
    requires multiset(a) == multiset(b)
    ensures PopKeys(m, a) == PopKeys(m, b)
  {
    hide PopKeys, Stack, Drop;
    forall k ensures Stack(PopKeys(m, a), k) == Stack(PopKeys(m, b), k) {
      PopKeysStack(m, a, k);
      PopKeysStack(m, b, k);
    }
    Extensional(PopKeys(m, a), PopKeys(m, b));
  }

  lemma {:induction false} PopItemsConcat<K, V>(m: StackMap<K, V>, a: seq<Item<K, V>>, b: seq<Item<K, V>>)
    ensures PopItems(m, a + b) == PopItems(PopItems(m, b), a)
    decreases |b|
  {
    if b == [] {
      assert a + b == a;
    } else {
      var n := |b| - 1;
      assert (a + b)[..|a + b| - 1] == a + b[..n];
      PopItemsConcat(Pop(m, b[n].key), a, b[..n]);
    }
  }

  lemma {:induction false} PopItemsLast<K, V>(m: StackMap<K, V>, items: seq<Item<K, V>>, last: Item<K, V>)
    ensures PopItems(m, items + [last]) == PopItems(Pop(m, last.key), items)
  {
    assert (items + [last])[..|items|] == items;
  }

  lemma {:induction false} CountOf<K, V>(items: seq<Item<K, V>>, k: K, v: V)
    ensures multiset(ValuesOf(items, k))[v] == multiset(items)[Item(k, v)]
  {
    if items != [] {
      var n := |items| - 1;
      CountOf(items[..n], k, v);
      assert items == items[..n] + [items[n]];
      assert multiset(items) == multiset(items[..n]) + multiset{items[n]};
      var before := ValuesOf(items[..n], k);
      if items[n].key == k {
        assert ValuesOf(items, k) == before + [items[n].value];
      } else {
        assert ValuesOf(items, k) == before + [] == before;
      }
    }
  }

  /** The same items give a key the same values, in some order. */
  lemma {:induction false} ValuesPermuted<K, V(!new)>(a: seq<Item<K, V>>, b: seq<Item<K, V>>, k: K)
    requires multiset(a) == multiset(b)
    ensures multiset(ValuesOf(a, k)) == multiset(ValuesOf(b, k)) && |ValuesOf(a, k)| == |ValuesOf(b, k)|
  {
    forall v ensures multiset(ValuesOf(a, k))[v] == multiset(ValuesOf(b, k))[v] {
      CountOf(a, k, v);
      CountOf(b, k, v);
    }
    assert multiset(ValuesOf(a, k)) == multiset(ValuesOf(b, k));
    assert |ValuesOf(a, k)| == |multiset(ValuesOf(a, k))|;
    assert |ValuesOf(b, k)| == |multiset(ValuesOf(b, k))|;
  }

  /** A walk backwards over the same items, pushed in whatever order, undoes the
      pushes. */
  lemma {:induction false} PopsUndoPushes<K(!new), V(!new)>(m: StackMap<K, V>, pushed: seq<Item<K, V>>, items: seq<Item<K, V>>)
    requires multiset(pushed) == multiset(items)
    ensures PopItems(PushItems(m, pushed), items) == m
  {
    hide PopItems, PushItems, ValuesOf, Stack;
    var after := PopItems(PushItems(m, pushed), items);
    forall k ensures Stack(after, k) == Stack(m, k) {
      PushItemsStack(m, pushed, k);
      ValuesPermuted(pushed, items, k);
      PopItemsStack(PushItems(m, pushed), items, k);
    }
    Extensional(after, m);
  }
}
