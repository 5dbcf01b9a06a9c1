/** The bucket array at the start of a hash table file: a count, then one row
    position a bucket, all ones where the bucket is empty. */
module HashTableHeaders {
  import opened LittleEndian
  import opened Regions
  import opened MemoryMaps

  /** The sentinel of an empty bucket: all ones. */
  function Empty(width: nat): nat {
    if width == 0 then 0 else 255 + 256 * Empty(width - 1)
  }

  function Filled(n: nat): (r: Bytes)
    ensures |r| == n
  {
    seq(n, i => 255)
  }

  /** The sentinel is the largest number of its width. */
  lemma {:induction false} EmptyLargest(n: nat, width: nat)
    ensures Fits(n, width) <==> n <= Empty(width)
  {
    if width > 0 {
      EmptyLargest(n / 256, width - 1);
    }
  }

  /** The bytes of a fresh bucket read as the sentinel. */
  lemma {:induction false} FilledEmpty(width: nat)
    ensures FromLittle(Filled(width)) == Empty(width)
  {
    if width > 0 {
      assert Filled(width)[1..] == Filled(width - 1);
      FilledEmpty(width - 1);
    }
  }

  lemma {:induction false} EmptyValues()
    ensures Empty(4) == 0xffff_ffff && Empty(8) == 0xffff_ffff_ffff_ffff
  {
    assert Empty(4) == 0xffff_ffff;
    assert Empty(5) == 255 + 256 * Empty(4);
    assert Empty(6) == 255 + 256 * Empty(5);
    assert Empty(7) == 255 + 256 * Empty(6);
    assert Empty(8) == 255 + 256 * Empty(7);
  }

  /** Where bucket i starts; `width` bytes a bucket. */
  function ItemPosition(i: nat, width: nat): nat {
    4 + i * width
  }

  /** The count and every bucket. */
  function HeaderRegions(buckets: nat, width: nat): seq<Region> {
    [Region(0, 4)] + Items(4, width, buckets)
  }

  lemma {:induction false} HeaderPlaced(buckets: nat, width: nat)
    ensures Placed(HeaderRegions(buckets, width), 0, ItemPosition(buckets, width))
  {
    ItemsPlaced(4, width, buckets);
    assert Placed([Region(0, 4)][..0], 0, 0);
    assert Placed([Region(0, 4)], 0, 4);
    PlacedConcat([Region(0, 4)], Items(4, width, buckets), 0, 4, ItemPosition(buckets, width));
  }

  class HashTableHeader {
    const file: MemoryMap
    const buckets: nat
    const width: nat

    ghost predicate Valid()
      reads this, file
    {
      && file.Valid() && Fits(buckets, 4)
      && ItemPosition(buckets, width) <= file.logical
      && FromLittle(file.bytes[..4]) == buckets
    }

    function Layout(): seq<Region> {
      HeaderRegions(buckets, width)
    }

    function BucketRegion(i: nat): Region {
      Region(ItemPosition(i, width), width)
    }

    /** The row position that bucket i holds. */
    function Bucket(i: nat): nat
      reads file
      requires BucketRegion(i).Within(file.bytes)
    {
      FromLittle(BucketRegion(i).Cut(file.bytes))
    }

    lemma {:induction false} BucketWithin(i: nat)
      requires i < buckets
      ensures BucketRegion(i).End() <= ItemPosition(buckets, width)
      ensures forall j: nat | j < i :: BucketRegion(j).End() <= BucketRegion(i).start
    {
      assert ItemPosition(i + 1, width) == BucketRegion(i).End();
      ItemsUpTo(i + 1, buckets);
      forall j: nat | j < i ensures BucketRegion(j).End() <= BucketRegion(i).start {
        assert ItemPosition(j + 1, width) == BucketRegion(j).End();
        ItemsUpTo(j + 1, i);
      }
    }

    lemma {:induction false} ItemsUpTo(i: nat, j: nat)
      requires i <= j
      ensures ItemPosition(i, width) <= ItemPosition(j, width)
    {
      assert j * width == i * width + (j - i) * width;
    }

    /** Bytes kept are positions kept. */
    lemma {:induction false} BucketKept(s: Bytes, t: Bytes, i: nat)
      requires Kept(Layout(), s, t) && i < buckets
      ensures BucketRegion(i).Within(s) && BucketRegion(i).Within(t)
      ensures BucketRegion(i).Cut(s) == BucketRegion(i).Cut(t)
    {
      assert Layout()[i + 1] == Items(4, width, buckets)[i] == BucketRegion(i);
    }

    constructor (file: MemoryMap, buckets: nat, width: nat)
      ensures this.file == file && this.buckets == buckets && this.width == width
    {
      this.file := file;
      this.buckets := buckets;
      this.width := width;
    }

    /** Every bucket of a new table is empty. */
    method Create() returns (ok: bool)
      requires file.Valid() && Fits(buckets, 4)
      modifies file`bytes, file`logical
      ensures ok == (buckets != 0 && !file.closed)
      ensures !ok ==> file.bytes == old(file.bytes) && file.logical == old(file.logical)
      ensures ok ==> Valid() && file.logical == ItemPosition(buckets, width) && |file.bytes| >= old(|file.bytes|)
      ensures ok ==> forall i :: 0 <= i < buckets ==> HeadsIn(this, file.bytes)[i] == Empty(width)
    {
      hide Splice, Resized, Filled;
      if buckets == 0 {
        return false;
      }
      ok := file.Resize(ItemPosition(buckets, width));
      if !ok {
        return;
      }
      file.Put(0, Little(buckets, 4));
      ghost var counted := file.bytes;
      file.Put(4, Filled(buckets * width));
      CutOutside(counted, Region(0, 4), 4, Filled(buckets * width));
      LittleRoundTrip(buckets, 4);
      forall i: nat | i < buckets ensures HeadsIn(this, file.bytes)[i] == Empty(width) {
        BucketFilled(counted, i);
      }
    }

    lemma {:induction false} BucketFilled(s: Bytes, i: nat)
      requires i < buckets && ItemPosition(buckets, width) <= |s|
      ensures 4 + |Filled(buckets * width)| <= |s|
      ensures BucketRegion(i).Within(Splice(s, 4, Filled(buckets * width)))
      ensures FromLittle(BucketRegion(i).Cut(Splice(s, 4, Filled(buckets * width)))) == Empty(width)
    {
      BucketWithin(i);
      FilledEmpty(width);
      var fill := Filled(buckets * width);
      var item, t := BucketRegion(i).Cut(Splice(s, 4, fill)), Splice(s, 4, fill);
      var at := i * width;
      assert at + width <= |fill|;
      forall k | 0 <= k < width ensures item[k] == 255 {
        assert item[k] == t[4 + (at + k)] == t[4..4 + |fill|][at + k];
      }
      assert item == Filled(width);
    }

    /** A file passes if it has the buckets and says so. */
    method Start() returns (ok: bool)
      requires file.Valid()
      ensures ok == (ItemPosition(buckets, width) <= |file.bytes|
                     && (buckets == 0 || FromLittle(file.bytes[..4]) == buckets))
    {
      if ItemPosition(buckets, width) > |file.bytes| {
        return false;
      }
      var stored := FromLittle(file.bytes[..4]);
      return buckets == 0 || stored == buckets;
    }

    method Read(i: nat) returns (v: nat)
      requires Valid() && i < buckets
      ensures BucketRegion(i).Within(file.bytes) && v == Bucket(i)
    {
      BucketWithin(i);
      v := FromLittle(file.bytes[ItemPosition(i, width)..ItemPosition(i, width) + width]);
    }

    /** Changes one bucket and no other byte of the file. */
    method Write(i: nat, v: nat)
      requires Valid() && i < buckets && Fits(v, width)
      modifies file`bytes
      ensures Valid()
      ensures BucketRegion(i).Within(old(file.bytes))
      ensures file.bytes == Splice(old(file.bytes), ItemPosition(i, width), Little(v, width))
      ensures forall j: nat | j < buckets ::
        && BucketRegion(j).Within(old(file.bytes))
        && BucketRegion(j).Within(file.bytes)
        && Bucket(j) == if j == i then v else old(Bucket(j))
    {
      BucketWithin(i);
      ghost var before := file.bytes;
      file.Put(ItemPosition(i, width), Little(v, width));
      CutOutside(before, Region(0, 4), ItemPosition(i, width), Little(v, width));
      LittleRoundTrip(v, width);
      forall j: nat | j < buckets
        ensures BucketRegion(j).Within(before) && BucketRegion(j).Within(file.bytes)
             && Bucket(j) == if j == i then v else FromLittle(BucketRegion(j).Cut(before))
      {
        BucketWithin(j);
        BucketWithin(i);
        if j != i {
          CutOutside(before, BucketRegion(j), ItemPosition(i, width), Little(v, width));
        }
      }
    }
  }

  /** The positions in the bucket array. */
  ghost function HeadsIn(header: HashTableHeader, s: Bytes): (r: seq<nat>)
    requires ItemPosition(header.buckets, header.width) <= |s|
    ensures |r| == header.buckets
  {
    seq(header.buckets, i requires 0 <= i < header.buckets =>
      header.BucketWithin(i); FromLittle(header.BucketRegion(i).Cut(s)))
  }

  lemma {:induction false} HeadsKept(header: HashTableHeader, s: Bytes, t: Bytes)
    requires ItemPosition(header.buckets, header.width) <= |s|
    requires ItemPosition(header.buckets, header.width) <= |t|
    requires Kept(header.Layout(), s, t)
    ensures HeadsIn(header, s) == HeadsIn(header, t)
  {
    forall i | 0 <= i < header.buckets ensures HeadsIn(header, s)[i] == HeadsIn(header, t)[i] {
      header.BucketKept(s, t, i);
    }
  }

  lemma {:induction false} CountKept(header: HashTableHeader, s: Bytes, t: Bytes)
    requires Kept(header.Layout(), s, t)
    ensures |s| >= 4 && |t| >= 4 && s[..4] == t[..4]
  {
    var count := header.Layout()[0];
    assert count == Region(0, 4) && count.Cut(s) == s[..4] && count.Cut(t) == t[..4];
  }
}
