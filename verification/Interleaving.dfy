/** Merges of what several workers do, each in its own order. */
module Interleavings {
  import opened Wrappers
  import opened StackMaps

  /** A merge of the workers' sequences that keeps the order of each. */
  ghost predicate Interleaves<T>(workers: seq<seq<T>>, merged: seq<T>)
    decreases |merged|
  {
    if merged == [] then forall w :: 0 <= w < |workers| ==> workers[w] == []
    else exists w :: 0 <= w < |workers| && workers[w] != [] && workers[w][0] == merged[0] &&
           Interleaves(workers[w := workers[w][1..]], merged[1..])
  }

  /** Everything the workers have to do. */
  function Work<T>(workers: seq<seq<T>>): multiset<T> {
    if workers == [] then multiset{}
    else Work(workers[..|workers| - 1]) + multiset(workers[|workers| - 1])
  }

  lemma {:induction false} WorkOfNone<T>(workers: seq<seq<T>>)
    requires forall w :: 0 <= w < |workers| ==> workers[w] == []
    ensures Work(workers) == multiset{}
  {
    if workers != [] {
      WorkOfNone(workers[..|workers| - 1]);
    }
  }

  lemma {:induction false} WorkWithout<T>(workers: seq<seq<T>>, w: nat)
    requires w < |workers| && workers[w] != []
    ensures Work(workers) == multiset{workers[w][0]} + Work(workers[w := workers[w][1..]])
  {
    var n := |workers| - 1;
    var rest := workers[w := workers[w][1..]];
    assert workers[w] == [workers[w][0]] + workers[w][1..];
    if w == n {
      assert rest[..n] == workers[..n];
    } else {
      WorkWithout(workers[..n], w);
      assert rest[..n] == workers[..n][w := workers[..n][w][1..]];
    }
  }

  /** A merge does everything once. */
  lemma {:induction false} InterleavingWork<T>(workers: seq<seq<T>>, merged: seq<T>)
    requires Interleaves(workers, merged)
    ensures multiset(merged) == Work(workers)
    decreases |merged|
  {
    if merged == [] {
      WorkOfNone(workers);
    } else {
      var w :| 0 <= w < |workers| && workers[w] != [] && workers[w][0] == merged[0] &&
        Interleaves(workers[w := workers[w][1..]], merged[1..]);
      hide Work, Interleaves;
      WorkWithout(workers, w);
      InterleavingWork(workers[w := workers[w][1..]], merged[1..]);
      assert merged == [merged[0]] + merged[1..];
    }
  }

  // ---------------------------------------------------------------- building merges

  /** One worker may do all of its work before the others begin. */
  lemma {:induction false} Prepend<T>(workers: seq<seq<T>>, w: nat, rest: seq<T>)
    requires w < |workers| && Interleaves(workers[w := []], rest)
    ensures Interleaves(workers, workers[w] + rest)
    decreases |workers[w]|
  {
    if workers[w] == [] {
      assert workers[w := []] == workers;
      assert workers[w] + rest == rest;
    } else {
      var later := workers[w := workers[w][1..]];
      assert later[w := []] == workers[w := []];
      Prepend(later, w, rest);
      var merged := workers[w] + rest;
      assert merged[1..] == later[w] + rest;
    }
  }

  /** The first n workers one after the other, the last of them first. */
  function InTurn<T>(workers: seq<seq<T>>, n: nat): seq<T>
    requires n <= |workers|
  {
    if n == 0 then [] else workers[n - 1] + InTurn(workers, n - 1)
  }

  lemma {:induction false} InTurnFrame<T>(workers: seq<seq<T>>, others: seq<seq<T>>, n: nat)
    requires n <= |workers| && n <= |others| && workers[..n] == others[..n]
    ensures InTurn(workers, n) == InTurn(others, n)
  {
    if n > 0 {
      assert workers[n - 1] == workers[..n][n - 1] == others[..n][n - 1];
      assert workers[..n - 1] == workers[..n][..n - 1] == others[..n - 1];
      InTurnFrame(workers, others, n - 1);
    }
  }

  lemma {:induction false} InTurnInterleaves<T>(workers: seq<seq<T>>, n: nat)
    requires n <= |workers| && forall w :: n <= w < |workers| ==> workers[w] == []
    ensures Interleaves(workers, InTurn(workers, n))
    decreases n
  {
    if n > 0 {
      var others := workers[n - 1 := []];
      InTurnInterleaves(others, n - 1);
      InTurnFrame(workers, others, n - 1);
      Prepend(workers, n - 1, InTurn(workers, n - 1));
    }
  }

  /** Some merge begins with all that one worker does. */
  lemma {:induction false} FirstGoes<T>(workers: seq<seq<T>>, w: nat) returns (merged: seq<T>)
    requires w < |workers|
    ensures Interleaves(workers, merged) && workers[w] <= merged
  {
    var others := workers[w := []];
    InTurnInterleaves(others, |others|);
    Prepend(workers, w, InTurn(others, |others|));
    merged := workers[w] + InTurn(others, |others|);
  }

  /** The only merge of a single worker's work. */
  lemma {:induction false} OneWorkerAlone<T>(work: seq<T>)
    ensures Interleaves([work], work)
  {
    InTurnInterleaves([work], 1);
    assert InTurn([work], 1) == work + InTurn([work], 0);
    assert work + [] == work;
  }

  // ------------------------------------------------------------------------- owners

  /** When one worker alone stores under a key, its order is the key's. */
  lemma {:induction false} OwnersOrder<K, V>(workers: seq<seq<Item<K, V>>>, merged: seq<Item<K, V>>, w: nat, k: K)
    requires Interleaves(workers, merged) && w < |workers|
    requires forall v :: 0 <= v < |workers| && v != w ==> ValuesOf(workers[v], k) == []
    ensures ValuesOf(merged, k) == ValuesOf(workers[w], k)
    decreases |merged|
  {
    if merged != [] {
      var v :| 0 <= v < |workers| && workers[v] != [] && workers[v][0] == merged[0] &&
        Interleaves(workers[v := workers[v][1..]], merged[1..]);
      hide Interleaves, ValuesOf;
      var x, tail, rest := merged[0], workers[v][1..], merged[1..];
      assert workers[v] == [x] + tail && merged == [x] + rest;
      ValuesOfConcat([x], tail, k);
      ValuesOfConcat([x], rest, k);
      OwnersOrder(workers[v := tail], rest, w, k);
    }
  }

  // -------------------------------------------------------------------- projections

  /** What a partial function keeps of a sequence. */
  function Select<A, B>(s: seq<A>, f: A -> Option<B>): seq<B> {
    if s == [] then []
    else
      var last := f(s[|s| - 1]);
      Select(s[..|s| - 1], f) + (if last.None? then [] else [last.value])
  }

  lemma {:induction false} SelectConcat<A, B>(a: seq<A>, b: seq<A>, f: A -> Option<B>)
    ensures Select(a + b, f) == Select(a, f) + Select(b, f)
  {
    if b == [] {
      assert a + b == a;
    } else {
      var n := |b| - 1;
      assert (a + b)[..|a + b| - 1] == a + b[..n];
      SelectConcat(a, b[..n], f);
    }
  }

  lemma {:induction false} SelectOne<A, B>(x: A, f: A -> Option<B>)
    ensures Select([x], f) == if f(x).None? then [] else [f(x).value]
  {
    assert [x][..0] == [];
  }

  function SelectEach<A, B>(workers: seq<seq<A>>, f: A -> Option<B>): (r: seq<seq<B>>)
    ensures |r| == |workers| && forall w :: 0 <= w < |r| ==> r[w] == Select(workers[w], f)
  {
    seq(|workers|, w requires 0 <= w < |workers| => Select(workers[w], f))
  }

  lemma {:induction false} SelectFirst<A, B>(s: seq<A>, f: A -> Option<B>)
    requires s != []
    ensures Select(s, f) == (if f(s[0]).None? then [] else [f(s[0]).value]) + Select(s[1..], f)
  {
    assert s == [s[0]] + s[1..];
    SelectConcat([s[0]], s[1..], f);
    SelectOne(s[0], f);
  }

  /** One worker's first step leaves the others' parts alone. */
  lemma {:induction false} SelectStep<A, B>(workers: seq<seq<A>>, w: nat, f: A -> Option<B>)
    requires w < |workers| && workers[w] != []
    ensures var parts, later := SelectEach(workers, f), SelectEach(workers[w := workers[w][1..]], f);
            if f(workers[w][0]).None? then later == parts
            else parts[w] != [] && parts[w][0] == f(workers[w][0]).value && later == parts[w := parts[w][1..]]
  {
    hide Select;
    SelectFirst(workers[w], f);
    var parts, later := SelectEach(workers, f), SelectEach(workers[w := workers[w][1..]], f);
    if f(workers[w][0]).None? {
      assert parts[w] == Select(workers[w][1..], f);
      assert later == parts;
    } else {
      assert parts[w][1..] == Select(workers[w][1..], f);
      assert later == parts[w := parts[w][1..]];
    }
  }

  /** Of a merge the parts are a merge of the parts. */
  lemma {:induction false} SelectInterleaves<A, B>(workers: seq<seq<A>>, merged: seq<A>, f: A -> Option<B>)
    requires Interleaves(workers, merged)
    ensures Interleaves(SelectEach(workers, f), Select(merged, f))
    decreases |merged|
  {
    if merged != [] {
      var w :| 0 <= w < |workers| && workers[w] != [] && workers[w][0] == merged[0] &&
        Interleaves(workers[w := workers[w][1..]], merged[1..]);
      SelectInterleaves(workers[w := workers[w][1..]], merged[1..], f);
      SelectStep(workers, w, f);
      hide *;
      SelectFirst(merged, f);
      if f(merged[0]).None? {
        assert Select(merged, f) == Select(merged[1..], f);
      } else {
        assert Select(merged, f)[1..] == Select(merged[1..], f);
        StepInterleaves(SelectEach(workers, f), Select(merged, f), w);
      }
    }
  }

  lemma {:induction false} StepInterleaves<T>(workers: seq<seq<T>>, merged: seq<T>, w: nat)
    requires w < |workers| && workers[w] != [] && merged != [] && workers[w][0] == merged[0]
    requires Interleaves(workers[w := workers[w][1..]], merged[1..])
    ensures Interleaves(workers, merged)
  {
  }
}
