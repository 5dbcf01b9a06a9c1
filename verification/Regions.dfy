/** Pieces of a file, laid out one after the other. */
module Regions {
  import opened LittleEndian

  /** The bytes [start, start + size) of a file. */
  datatype Region = Region(start: nat, size: nat) {
    function End(): nat { start + size }

    predicate Within(s: Bytes) { End() <= |s| }

    function Cut(s: Bytes): (r: Bytes)
      requires Within(s)
    {
      s[start..End()]
    }

    predicate Apart(other: Region) {
      End() <= other.start || other.End() <= start
    }
  }

  /** The regions follow each other, without overlap, from one offset to another. */
  predicate Placed(rs: seq<Region>, from: nat, to: nat) {
    if rs == [] then from <= to
    else var last := rs[|rs| - 1]; last.End() <= to && Placed(rs[..|rs| - 1], from, last.start)
  }

  lemma {:induction false} PlacedOrdered(rs: seq<Region>, from: nat, to: nat)
    requires Placed(rs, from, to)
    ensures from <= to
  {
    if rs != [] {
      PlacedOrdered(rs[..|rs| - 1], from, rs[|rs| - 1].start);
    }
  }

  lemma {:induction false} PlacedLonger(rs: seq<Region>, from: nat, to: nat, longer: nat)
    requires Placed(rs, from, to) && to <= longer
    ensures Placed(rs, from, longer)
  {
  }

  lemma {:induction false} PlacedConcat(a: seq<Region>, b: seq<Region>, from: nat, middle: nat, to: nat)
    requires Placed(a, from, middle) && Placed(b, middle, to)
    ensures Placed(a + b, from, to)
  {
    if b == [] {
      assert a + b == a;
      if a != [] {
        assert a[|a| - 1].End() <= to;
      }
    } else {
      var n := |b| - 1;
      assert (a + b)[..|a + b| - 1] == a + b[..n];
      PlacedConcat(a, b[..n], from, middle, b[n].start);
    }
  }

  /** Regions that were placed one after the other lie inside the bounds. */
  lemma {:induction false} PlacedInside(rs: seq<Region>, from: nat, to: nat, i: nat)
    requires Placed(rs, from, to) && i < |rs|
    ensures from <= rs[i].start && rs[i].End() <= to
  {
    var n := |rs| - 1;
    if i < n {
      PlacedInside(rs[..n], from, rs[n].start, i);
    } else {
      PlacedOrdered(rs[..n], from, rs[n].start);
    }
  }

  /** ... and no two of them overlap. */
  lemma {:induction false} PlacedApart(rs: seq<Region>, from: nat, to: nat, i: nat, j: nat)
    requires Placed(rs, from, to) && i < j < |rs|
    ensures rs[i].End() <= rs[j].start && rs[i].Apart(rs[j])
  {
    var n := |rs| - 1;
    if j < n {
      PlacedApart(rs[..n], from, rs[n].start, i, j);
    } else {
      PlacedInside(rs[..n], from, rs[n].start, i);
    }
  }

  lemma {:induction false} CutOutside(s: Bytes, r: Region, at: nat, word: Bytes)
    requires at + |word| <= |s| && r.Within(s) && r.Apart(Region(at, |word|))
    ensures r.Cut(Splice(s, at, word)) == r.Cut(s)
  {
    forall k | 0 <= k < r.size ensures r.Cut(Splice(s, at, word))[k] == r.Cut(s)[k] {
      assert Splice(s, at, word)[r.start + k] == s[r.start + k];
    }
  }

  /** Two files hold the same bytes in every region. */
  predicate Kept(rs: seq<Region>, s: Bytes, t: Bytes) {
    forall k :: 0 <= k < |rs| ==> rs[k].Within(s) && rs[k].Within(t) && rs[k].Cut(s) == rs[k].Cut(t)
  }

  /** Writing before or behind all regions leaves their bytes. */
  lemma {:induction false} WriteOutside(rs: seq<Region>, from: nat, to: nat, s: Bytes, at: nat, word: Bytes)
    requires Placed(rs, from, to) && to <= |s| && at + |word| <= |s|
    requires at + |word| <= from || to <= at
    ensures Kept(rs, s, Splice(s, at, word))
  {
    forall k | 0 <= k < |rs|
      ensures rs[k].Within(s) && rs[k].Cut(Splice(s, at, word)) == rs[k].Cut(s)
    {
      PlacedInside(rs, from, to, k);
      CutOutside(s, rs[k], at, word);
    }
  }

  /** So does a cut behind all regions. */
  lemma {:induction false} CutBehind(rs: seq<Region>, from: nat, to: nat, s: Bytes, end: nat)
    requires Placed(rs, from, to) && to <= end <= |s|
    ensures Kept(rs, s, s[..end])
  {
    forall k | 0 <= k < |rs|
      ensures rs[k].Within(s) && rs[k].Within(s[..end]) && rs[k].Cut(s[..end]) == rs[k].Cut(s)
    {
      PlacedInside(rs, from, to, k);
    }
  }

  lemma {:induction false} KeptTwice(rs: seq<Region>, s: Bytes, t: Bytes, u: Bytes)
    requires Kept(rs, s, t) && Kept(rs, t, u)
    ensures Kept(rs, s, u)
  {
  }

  lemma {:induction false} KeptParts(a: seq<Region>, b: seq<Region>, s: Bytes, t: Bytes)
    requires Kept(a + b, s, t)
    ensures Kept(a, s, t) && Kept(b, s, t)
  {
    assert forall k :: 0 <= k < |a| ==> (a + b)[k] == a[k];
    assert forall k :: 0 <= k < |b| ==> (a + b)[|a| + k] == b[k];
  }

  /** n items of a fixed size, the first at `from`. */
  function Items(from: nat, size: nat, n: nat): (rs: seq<Region>)
    ensures |rs| == n && forall i :: 0 <= i < n ==> rs[i] == Region(from + i * size, size)
  {
    seq(n, i requires 0 <= i < n => Region(from + i * size, size))
  }

  lemma {:induction false} ItemsPlaced(from: nat, size: nat, n: nat)
    ensures Placed(Items(from, size, n), from, from + n * size)
  {
    if n > 0 {
      ItemsPlaced(from, size, n - 1);
      assert Items(from, size, n)[..n - 1] == Items(from, size, n - 1);
      assert from + (n - 1) * size + size == from + n * size;
    }
  }
}
