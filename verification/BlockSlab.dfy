/** The bytes of a stored block, and the reads at offsets computed from them:

      header:80  height:4  transaction count  [ transaction hash:32 ] ... */
module BlockSlabs {
  import opened ChainTypes
  import opened LittleEndian
  import opened TransactionSlabs

  const HEADER: nat := 80
  const HASH: nat := 32

  datatype SlabBlock = SlabBlock(header: Bytes, height: nat, hashes: seq<Bytes>)

  predicate BlockFits(b: SlabBlock) {
    && |b.header| == HEADER && b.height <= MAX_UINT32 && Fits(|b.hashes|, 8)
    && forall i :: 0 <= i < |b.hashes| ==> |b.hashes[i]| == HASH
  }

  function Joined(hashes: seq<Bytes>): Bytes {
    if hashes == [] then [] else Joined(hashes[..|hashes| - 1]) + hashes[|hashes| - 1]
  }

  function EncodeBlock(b: SlabBlock): Bytes {
    b.header + Little(b.height, 4) + Size(|b.hashes|) + Joined(b.hashes)
  }

  // --------------------------------------------------------------------- reading

  /** The bytes are long enough for a block and its transaction count. */
  predicate HasCount(s: Bytes) {
    HEADER + 4 < |s| && HEADER + 4 + SizeWidth(s[HEADER + 4]) <= |s|
  }

  function HeightOf(s: Bytes): nat
    requires HasCount(s)
  {
    FromLittle(s[HEADER..HEADER + 4])
  }

  function TransactionCount(s: Bytes): nat
    requires HasCount(s)
  {
    SizeAt(s, HEADER + 4)
  }

  /** Where the hash of transaction i starts. */
  function HashOffset(s: Bytes, i: nat): nat
    requires HasCount(s)
  {
    HEADER + 4 + SizeWidth(s[HEADER + 4]) + i * HASH
  }

  function TransactionHash(s: Bytes, i: nat): Bytes
    requires HasCount(s) && HashOffset(s, i) + HASH <= |s|
  {
    s[HashOffset(s, i)..HashOffset(s, i) + HASH]
  }

  // ------------------------------------------------------------------ round trip

  /** Hashes of one size are found by multiplication. */
  lemma {:induction false} JoinedAt(hashes: seq<Bytes>, i: nat)
    requires forall j :: 0 <= j < |hashes| ==> |hashes[j]| == HASH
    ensures |Joined(hashes)| == |hashes| * HASH
    ensures i < |hashes| ==> i * HASH + HASH <= |hashes| * HASH && Joined(hashes)[i * HASH..i * HASH + HASH] == hashes[i]
  {
    if hashes != [] {
      var n := |hashes| - 1;
      JoinedAt(hashes[..n], i);
      if i < n {
        assert hashes[..n][i] == hashes[i];
        assert Joined(hashes)[i * HASH..i * HASH + HASH] == Joined(hashes[..n])[i * HASH..i * HASH + HASH];
      }
    }
  }

  /** Every field of a stored block is read back, and the slab has the size that
      is allocated for it. */
  lemma {:induction false} BlockRoundTrip(b: SlabBlock, i: nat)
    requires BlockFits(b)
    ensures var s := EncodeBlock(b);
            && |s| == HEADER + 4 + |Size(|b.hashes|)| + |b.hashes| * HASH
            && HasCount(s) && s[..HEADER] == b.header
            && HeightOf(s) == b.height
            && TransactionCount(s) == |b.hashes|
            && (i < |b.hashes| ==> HashOffset(s, i) + HASH <= |s| && TransactionHash(s, i) == b.hashes[i])
  {
    hide Joined, Size, SizeAt, SizeWidth, FromLittle, Fits, Little;
    var before, count, after := b.header + Little(b.height, 4), Size(|b.hashes|), Joined(b.hashes);
    var s := EncodeBlock(b);
    SizeRoundTrip(before, |b.hashes|, after);
    FitsFour(b.height);
    LittleRoundTrip(b.height, 4);
    assert s[HEADER..HEADER + 4] == Little(b.height, 4);
    JoinedAt(b.hashes, i);
    if i < |b.hashes| {
      var at := |before| + |count|;
      assert s[at + i * HASH..at + (i * HASH + HASH)] == after[i * HASH..i * HASH + HASH];
    }
  }
}
