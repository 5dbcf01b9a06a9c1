/** A hash table of slabs down to the bytes of its file: a row is a key, the
    position of the next row and a value, and the rows of a file are what its
    slabs read as. */
module SlabTables {
  import opened Wrappers
  import opened LittleEndian
  import opened StackMaps
  import opened Regions
  import opened MemoryMaps
  import opened HashTableHeaders
  import opened SlabManagers
  import opened HashTables

  const POSITION: nat := 8

  type FileRows = map<nat, Row<Bytes, Bytes>>

  /** The slab has room for a key and a link. */
  predicate Roomy(r: Region, keySize: nat) {
    keySize + POSITION <= r.size
  }

  predicate AllRoomy(rs: seq<Region>, keySize: nat) {
    forall i :: 0 <= i < |rs| ==> Roomy(rs[i], keySize)
  }

  /** What a slab reads as. */
  function RowAt(r: Region, s: Bytes, keySize: nat): Row<Bytes, Bytes>
    requires r.Within(s) && Roomy(r, keySize)
  {
    var link := r.start + keySize;
    Row(s[r.start..link], FromLittle(s[link..link + POSITION]), s[link + POSITION..r.End()])
  }

  predicate Readable(rs: seq<Region>, from: nat, to: nat, origin: nat, keySize: nat) {
    Placed(rs, from, to) && AllRoomy(rs, keySize) && origin <= from
  }

  /** The rows of a file, by position from the origin. */
  function RowsIn(rs: seq<Region>, from: nat, to: nat, origin: nat, keySize: nat, s: Bytes): FileRows
    requires Readable(rs, from, to, origin, keySize) && to <= |s|
  {
    if rs == [] then map[]
    else
      var n := |rs| - 1;
      PlacedInside(rs, from, to, n);
      RowsIn(rs[..n], from, rs[n].start, origin, keySize, s)[rs[n].start - origin := RowAt(rs[n], s, keySize)]
  }

  /** Positions are below the end. */
  lemma {:induction false} RowsBelow(rs: seq<Region>, from: nat, to: nat, origin: nat, keySize: nat, s: Bytes)
    requires Readable(rs, from, to, origin, keySize) && to <= |s|
    ensures forall p :: p in RowsIn(rs, from, to, origin, keySize, s) ==> from - origin <= p < to - origin
  {
    if rs != [] {
      var n := |rs| - 1;
      PlacedInside(rs, from, to, n);
      RowsBelow(rs[..n], from, rs[n].start, origin, keySize, s);
    }
  }

  /** The slab that a row was read from. */
  lemma {:induction false} SlabOf(rs: seq<Region>, from: nat, to: nat, origin: nat, keySize: nat, s: Bytes, p: nat)
    returns (i: nat)
    requires Readable(rs, from, to, origin, keySize) && to <= |s|
    requires p in RowsIn(rs, from, to, origin, keySize, s)
    ensures i < |rs| && rs[i].start == origin + p && rs[i].End() <= to
    ensures RowsIn(rs, from, to, origin, keySize, s)[p] == RowAt(rs[i], s, keySize)
  {
    hide RowAt;
    i := |rs| - 1;
    PlacedInside(rs, from, to, i);
    if p != rs[i].start - origin {
      i := SlabOf(rs[..i], from, rs[i].start, origin, keySize, s, p);
    }
  }

  lemma {:induction false} RowSame(r: Region, s: Bytes, t: Bytes, keySize: nat)
    requires r.Within(s) && r.Within(t) && Roomy(r, keySize) && r.Cut(s) == r.Cut(t)
    ensures RowAt(r, s, keySize) == RowAt(r, t, keySize)
  {
    var link := keySize;
    Slices(r, s, 0, link);
    Slices(r, t, 0, link);
    Slices(r, s, link, link + POSITION);
    Slices(r, t, link, link + POSITION);
    Slices(r, s, link + POSITION, r.size);
    Slices(r, t, link + POSITION, r.size);
  }

  lemma {:induction false} Slices(r: Region, s: Bytes, i: nat, j: nat)
    requires r.Within(s) && i <= j <= r.size
    ensures s[r.start + i..r.start + j] == r.Cut(s)[i..j]
  {
    var a, b := s[r.start + i..r.start + j], r.Cut(s)[i..j];
    forall k | 0 <= k < j - i ensures a[k] == b[k] {
      assert a[k] == s[r.start + i + k];
    }
  }

  /** Bytes kept are rows kept. */
  lemma {:induction false} RowsKept(rs: seq<Region>, from: nat, to: nat, origin: nat, keySize: nat, s: Bytes,
                                    t: Bytes)
    requires Readable(rs, from, to, origin, keySize) && to <= |s| && to <= |t|
    requires Kept(rs, s, t)
    ensures RowsIn(rs, from, to, origin, keySize, s) == RowsIn(rs, from, to, origin, keySize, t)
  {
    if rs != [] {
      var n := |rs| - 1;
      PlacedInside(rs, from, to, n);
      RowSame(rs[n], s, t, keySize);
      RowsKept(rs[..n], from, rs[n].start, origin, keySize, s, t);
    }
  }

  /** Writing a link changes the link of one row. */
  lemma {:induction false} RowLinked(r: Region, s: Bytes, keySize: nat, next: nat)
    requires r.Within(s) && Roomy(r, keySize) && Fits(next, POSITION)
    ensures var t := Splice(s, r.start + keySize, Little(next, POSITION));
            r.Within(t) && RowAt(r, t, keySize) == RowAt(r, s, keySize).(next := next)
  {
    var link := r.start + keySize;
    var t := Splice(s, link, Little(next, POSITION));
    CutOutside(s, Region(r.start, keySize), link, Little(next, POSITION));
    CutOutside(s, Region(link + POSITION, r.size - keySize - POSITION), link, Little(next, POSITION));
    assert Region(r.start, keySize).Cut(t) == t[r.start..link];
    assert Region(link + POSITION, r.size - keySize - POSITION).Cut(t) == t[link + POSITION..r.End()];
    LittleRoundTrip(next, POSITION);
  }

  lemma {:induction false} LastPlaced(rs: seq<Region>, from: nat, to: nat)
    requires Placed(rs, from, to) && rs != []
    ensures Placed(rs[..|rs| - 1], from, rs[|rs| - 1].start)
  {
  }

  lemma {:induction false} RowsLinked(rs: seq<Region>, from: nat, to: nat, origin: nat, keySize: nat, s: Bytes,
                                      i: nat, next: nat)
    requires Readable(rs, from, to, origin, keySize) && to <= |s| && i < |rs| && Fits(next, POSITION)
    ensures from <= rs[i].start && rs[i].End() <= to
    ensures var p, rows := rs[i].start - origin, RowsIn(rs, from, to, origin, keySize, s);
            var t := Splice(s, rs[i].start + keySize, Little(next, POSITION));
            p in rows && RowsIn(rs, from, to, origin, keySize, t) == rows[p := rows[p].(next := next)]
  {
    hide Splice, RowAt, Placed;
    var n, at, word := |rs| - 1, rs[i].start + keySize, Little(next, POSITION);
    assert Placed(rs[..n], from, rs[n].start) by { LastPlaced(rs, from, to); }
    PlacedInside(rs, from, to, i);
    PlacedInside(rs, from, to, n);
    var t := Splice(s, at, word);
    if i == n {
      RowLinked(rs[n], s, keySize, next);
      WriteOutside(rs[..n], from, rs[n].start, s, at, word);
      RowsKept(rs[..n], from, rs[n].start, origin, keySize, s, t);
    } else {
      PlacedApart(rs, from, to, i, n);
      CutOutside(s, rs[n], at, word);
      RowSame(rs[n], s, t, keySize);
      RowsLinked(rs[..n], from, rs[n].start, origin, keySize, s, i, next);
    }
  }

  /** A key and a value, with the link between them left as it was. */
  function WrittenRow(s: Bytes, at: nat, key: Bytes, value: Bytes): (r: Bytes)
    requires at + |key| + POSITION + |value| <= |s|
    ensures |r| == |s|
  {
    Splice(Splice(s, at, key), at + |key| + POSITION, value)
  }

  /** Regions before the new row keep their bytes while the file grows and the
      row is written. */
  lemma {:induction false} BeforeRow(rs: seq<Region>, from: nat, to: nat, s: Bytes, grown: Bytes, at: nat, key: Bytes,
                                     value: Bytes)
    requires Placed(rs, from, to) && to <= |s| && s <= grown
    requires to <= at && at + |key| + POSITION + |value| <= |grown|
    ensures Kept(rs, s, WrittenRow(grown, at, key, value))
  {
    hide Splice;
    var keyed := Splice(grown, at, key);
    assert s == grown[..|s|];
    CutBehind(rs, from, to, grown, |s|);
    WriteOutside(rs, from, to, grown, at, key);
    WriteOutside(rs, from, to, keyed, at + |key| + POSITION, value);
    KeptTwice(rs, s, grown, keyed);
    KeptTwice(rs, s, keyed, WrittenRow(grown, at, key, value));
  }

  lemma {:induction false} RowWritten(s: Bytes, at: nat, key: Bytes, value: Bytes)
    requires at + |key| + POSITION + |value| <= |s|
    ensures var r, t := Region(at, |key| + POSITION + |value|), WrittenRow(s, at, key, value);
            RowAt(r, t, |key|).key == key && RowAt(r, t, |key|).value == value
  {
    var keyed := Splice(s, at, key);
    CutOutside(keyed, Region(at, |key|), at + |key| + POSITION, value);
    assert Region(at, |key|).Cut(keyed) == key;
  }

  /** The new slab adds one row. */
  lemma {:induction false} RowsCreated(rs: seq<Region>, from: nat, to: nat, origin: nat, s: Bytes, grown: Bytes,
                                       key: Bytes, value: Bytes)
    requires Readable(rs, from, to, origin, |key|) && to <= |s| && s <= grown && from <= to
    requires to + |key| + POSITION + |value| <= |grown|
    ensures var r, t := Region(to, |key| + POSITION + |value|), WrittenRow(grown, to, key, value);
            && Readable(rs + [r], from, r.End(), origin, |key|)
            && RowsIn(rs + [r], from, r.End(), origin, |key|, t) ==
               RowsIn(rs, from, to, origin, |key|, s)[to - origin := Row(key, RowAt(r, t, |key|).next, value)]
  {
    hide Splice, WrittenRow, RowAt;
    var r, t := Region(to, |key| + POSITION + |value|), WrittenRow(grown, to, key, value);
    BeforeRow(rs, from, to, s, grown, to, key, value);
    RowWritten(grown, to, key, value);
    RowsKept(rs, from, to, origin, |key|, s, t);
    assert (rs + [r])[..|rs + [r]| - 1] == rs;
  }

  // ------------------------------------------------------------------ the table

  /** The bucket array stays as it is. */
  lemma {:induction false} HeaderBeforeRow(header: HashTableHeader, s: Bytes, grown: Bytes, at: nat, key: Bytes,
                                           value: Bytes)
    requires ItemPosition(header.buckets, header.width) <= |s| && s <= grown
    requires ItemPosition(header.buckets, header.width) <= at && at + |key| + POSITION + |value| <= |grown|
    ensures var t := WrittenRow(grown, at, key, value);
            HeadsIn(header, t) == HeadsIn(header, s) && |s| >= 4 && |t| >= 4 && t[..4] == s[..4]
  {
    hide Kept, HeadsIn, Splice, WrittenRow, Placed, HeaderRegions;
    HeaderPlaced(header.buckets, header.width);
    BeforeRow(header.Layout(), 0, ItemPosition(header.buckets, header.width), s, grown, at, key, value);
    HeadsKept(header, s, WrittenRow(grown, at, key, value));
    CountKept(header, s, WrittenRow(grown, at, key, value));
  }

  class SlabTable {
    const header: HashTableHeader
    const manager: SlabManager
    const keySize: nat
    const hash: Bytes -> nat
    ghost var chains: seq<seq<nat>>

    /** Header and heap share a file and do not overlap. */
    ghost predicate Sound()
      reads this, header, manager, manager.file
    {
      && header.file == manager.file && header.width == POSITION && header.buckets > 0
      && manager.headerSize == SlabHeaderSize(header.buckets)
      && header.Valid() && manager.Valid()
      && Fits(manager.headerSize + manager.payload, POSITION)
      && AllRoomy(manager.slabs, keySize)
    }

    ghost function Rows(): FileRows
      requires Sound()
      reads this, header, manager, manager.file
    {
      RowsIn(manager.slabs, manager.headerSize + SIZE_WORD, manager.headerSize + manager.payload,
             manager.headerSize, keySize, manager.file.bytes)
    }

    ghost function Heads(): (r: seq<nat>)
      requires Sound()
      reads this, header, manager, manager.file
      ensures |r| == header.buckets
    {
      HeadsIn(header, manager.file.bytes)
    }

    /** The bytes read as a hash table. */
    ghost predicate Valid()
      reads this, header, manager, manager.file
    {
      && Sound()
      && TableOk(Rows(), Heads(), chains, hash, Empty(POSITION))
      && AllWithin(Rows(), chains)
    }

    ghost function View(): StackMap<Bytes, Bytes>
      requires Valid()
      reads this, header, manager, manager.file
    {
      ViewIn(Rows(), chains, hash)
    }

    /** A value starts at this offset, behind its key and its link. */
    ghost predicate IsValue(offset: nat, key: Bytes, value: Bytes)
      requires Sound()
      reads this, header, manager, manager.file
    {
      && offset >= keySize + POSITION && offset - keySize - POSITION in Rows()
      && Rows()[offset - keySize - POSITION].key == key && Rows()[offset - keySize - POSITION].value == value
    }

    /** A table on files that were started; `chains` are known to the caller. */
    constructor (header: HashTableHeader, manager: SlabManager, keySize: nat, hash: Bytes -> nat, ghost chains: seq<seq<nat>>)
      ensures this.header == header && this.manager == manager && this.keySize == keySize
      ensures this.hash == hash && this.chains == chains
    {
      this.header, this.manager, this.keySize, this.hash := header, manager, keySize, hash;
      this.chains := chains;
    }

    /** A row that nothing links yet. None for the exception of a closed file. */
    method Create(key: Bytes, value: Bytes) returns (row: Option<nat>)
      requires Sound() && |key| == keySize
      requires Fits(manager.headerSize + manager.payload + keySize + POSITION + |value|, POSITION)
      modifies manager`payload, manager`slabs, manager.file`bytes, manager.file`logical
      ensures Sound() && Heads() == old(Heads()) && (row == None <==> manager.file.closed)
      ensures row == None ==> Rows() == old(Rows()) && manager.payload == old(manager.payload)
      ensures row != None ==>
        && row == Some(old(manager.payload))
        && manager.payload == old(manager.payload) + keySize + POSITION + |value|
        && manager.slabs != [] && manager.slabs[|manager.slabs| - 1].start == manager.headerSize + row.value
        && exists next :: Rows() == old(Rows())[row.value := Row(key, next, value)]
    {
      hide Splice, RowAt, RowsIn, HeadsIn, Placed, Resized, AllRoomy, HeaderRegions, Kept, Fits;
      ghost var before, from, to := manager.file.bytes, manager.headerSize + SIZE_WORD, manager.headerSize + manager.payload;
      ghost var slabs := manager.slabs;
      row := manager.NewSlab(keySize + POSITION + |value|);
      if row == None {
        return;
      }
      ghost var grown := manager.file.bytes;
      var at := manager.headerSize + row.value;
      manager.file.Put(at, key);
      manager.file.Put(at + keySize + POSITION, value);
      assert manager.file.bytes == WrittenRow(grown, at, key, value);
      hide WrittenRow;
      RowsCreated(slabs, from, to, manager.headerSize, before, grown, key, value);
      HeaderBeforeRow(header, before, grown, at, key, value);
    }

    /** Changes the link of one row; `i` is its slab. */
    method SetNext(row: nat, next: nat, ghost i: nat)
      requires Sound() && Fits(next, POSITION)
      requires i < |manager.slabs| && manager.slabs[i].start == manager.headerSize + row
      modifies manager.file`bytes
      ensures Sound() && Heads() == old(Heads()) && row in old(Rows())
      ensures Rows() == old(Rows())[row := old(Rows())[row].(next := next)]
    {
      hide Splice, RowAt, RowsIn, HeadsIn, Placed;
      ghost var before, top := manager.file.bytes, ItemPosition(header.buckets, header.width);
      ghost var from, to := manager.headerSize + SIZE_WORD, manager.headerSize + manager.payload;
      RowsLinked(manager.slabs, from, to, manager.headerSize, keySize, before, i, next);
      HeaderPlaced(header.buckets, header.width);
      WriteOutside(header.Layout(), 0, top, before, manager.headerSize + row + keySize, Little(next, POSITION));
      manager.file.Put(manager.headerSize + row + keySize, Little(next, POSITION));
      HeadsKept(header, before, manager.file.bytes);
      CountKept(header, before, manager.file.bytes);
    }

    /** Changes the head of one bucket. */
    method SetHead(b: nat, position: nat)
      requires Sound() && b < header.buckets && Fits(position, POSITION)
      modifies manager.file`bytes
      ensures Sound() && Heads() == old(Heads())[b := position] && Rows() == old(Rows())
    {
      hide Splice, RowAt, RowsIn, Placed;
      ghost var before := manager.file.bytes;
      ghost var heads := Heads();
      ghost var from, to := manager.headerSize + SIZE_WORD, manager.headerSize + manager.payload;
      header.BucketWithin(b);
      WriteOutside(manager.slabs, from, to, before, ItemPosition(b, POSITION), Little(position, POSITION));
      header.Write(b, position);
      RowsKept(manager.slabs, from, to, manager.headerSize, keySize, before, manager.file.bytes);
      assert Heads() == heads[b := position];
    }

    /** The next position is free and is not the sentinel. */
    lemma {:induction false} NextFree()
      requires Sound()
      ensures manager.payload !in Rows() && manager.payload != Empty(POSITION) && Fits(manager.payload, POSITION)
    {
      RowsBelow(manager.slabs, manager.headerSize + SIZE_WORD, manager.headerSize + manager.payload,
                manager.headerSize, keySize, manager.file.bytes);
      EmptyLargest(manager.headerSize + manager.payload, POSITION);
      EmptyLargest(manager.payload, POSITION);
    }

    /** A head that was read. */
    lemma {:induction false} HeadFits(b: nat)
      requires Sound() && b < header.buckets
      ensures header.BucketRegion(b).Within(manager.file.bytes)
      ensures header.Bucket(b) == Heads()[b] && Fits(header.Bucket(b), POSITION)
    {
      header.BucketWithin(b);
      LittleFits(header.BucketRegion(b).Cut(manager.file.bytes));
    }

    /** Creates the row, links it to the first of its bucket and makes it the
        first: what changes in the file. */
    method Place(key: Bytes, value: Bytes, b: nat) returns (row: Option<nat>)
      requires Sound() && |key| == keySize && b < header.buckets
      requires Fits(manager.headerSize + manager.payload + keySize + POSITION + |value|, POSITION)
      modifies manager`payload, manager`slabs, manager.file`bytes, manager.file`logical
      ensures Sound() && (row == None <==> manager.file.closed)
      ensures row == None ==> Rows() == old(Rows()) && Heads() == old(Heads())
      ensures row != None ==>
        && row == Some(old(manager.payload))
        && Rows() == old(Rows())[row.value := Row(key, old(Heads())[b], value)]
        && Heads() == old(Heads())[b := row.value]
    {
      hide RowsIn, HeadsIn, Placed, AllRoomy, HashTableHeaders.Empty, Fits;
      ghost var rows, heads := Rows(), Heads();
      NextFree();
      row := Create(key, value);
      if row == None {
        return;
      }
      ghost var next :| Rows() == rows[row.value := Row(key, next, value)];
      HeadFits(b);
      var head := header.Read(b);
      SetNext(row.value, head, |manager.slabs| - 1);
      SetHead(b, row.value);
    }

    /** Pushes a value on its key's stack. Returns where the value starts. */
    method Store(key: Bytes, value: Bytes) returns (offset: Option<nat>)
      requires Valid() && |key| == keySize
      requires Fits(manager.headerSize + manager.payload + keySize + POSITION + |value|, POSITION)
      modifies this`chains, manager`payload, manager`slabs, manager.file`bytes, manager.file`logical
      ensures Valid() && (offset == None <==> manager.file.closed)
      ensures offset == None ==> View() == old(View())
      ensures offset != None ==>
        && offset == Some(old(manager.payload) + keySize + POSITION)
        && View() == Push(old(View()), key, value)
        && IsValue(offset.value, key, value)
      ensures Stand(old(Rows()), Rows())
    {
      hide AllWithin, ViewIn, Push, RowsIn, HeadsIn, Placed, AllRoomy, HashTableHeaders.Empty, Fits, BucketOk;
      NextFree();
      ghost var rows, heads := Rows(), Heads();
      var b := hash(key) % header.buckets;
      TableStored(rows, heads, chains, hash, Empty(POSITION), manager.payload, key, value, b);
      var row := Place(key, value, b);
      if row == None {
        return None;
      }
      chains := chains[b := [row.value] + chains[b]];
      offset := Some(row.value + keySize + POSITION);
    }

    /** What the bytes at a row's position are, and which slab holds them. */
    lemma {:induction false} ReadRow(p: nat) returns (i: nat)
      requires Sound() && p in Rows()
      ensures i < |manager.slabs| && manager.slabs[i].start == manager.headerSize + p
      ensures var at := manager.headerSize + p;
              && at + keySize + POSITION <= |manager.file.bytes|
              && Rows()[p].key == manager.file.bytes[at..at + keySize]
              && Rows()[p].next == FromLittle(manager.file.bytes[at + keySize..at + keySize + POSITION])
              && Fits(Rows()[p].next, POSITION)
    {
      hide Placed, Fits, RowsIn;
      i := SlabOf(manager.slabs, manager.headerSize + SIZE_WORD, manager.headerSize + manager.payload,
                  manager.headerSize, keySize, manager.file.bytes, p);
      var link := manager.headerSize + p + keySize;
      LittleFits(manager.file.bytes[link..link + POSITION]);
    }

    method Compare(row: nat, key: Bytes) returns (same: bool)
      requires Sound() && row in Rows()
      ensures same == (Rows()[row].key == key)
    {
      hide Placed, Fits, RowsIn;
      var at := manager.headerSize + row;
      ghost var i := ReadRow(row);
      same := manager.file.bytes[at..at + keySize] == key;
    }

    /** Backs up from a value to the key in front of it, for as long as the table is
        used: stores and unlinks let rows stand. */
    method KeyBefore(offset: nat, ghost key: Bytes, ghost value: Bytes) returns (read: Bytes)
      requires Sound() && IsValue(offset, key, value)
      ensures read == key
    {
      hide Placed, Fits, RowsIn;
      var at := manager.headerSize + (offset - keySize - POSITION);
      ghost var i := ReadRow(offset - keySize - POSITION);
      read := manager.file.bytes[at..at + keySize];
    }

    method NextPosition(row: nat) returns (next: nat)
      requires Sound() && row in Rows()
      ensures next == Rows()[row].next && Fits(next, POSITION)
    {
      hide Placed, Fits, RowsIn;
      var link := manager.headerSize + row + keySize;
      ghost var i := ReadRow(row);
      next := FromLittle(manager.file.bytes[link..link + POSITION]);
    }

    lemma {:induction false} Sizes()
      requires Valid()
      ensures |Heads()| == |chains| == header.buckets > 0
    {
    }

    /** The newest row of a key, if it has any. */
    method Find(key: Bytes) returns (row: Option<nat>)
      requires Valid()
      ensures row.Some? <==> key in View()
      ensures row.Some? ==> row.value in Rows() && Peek(View(), key) == Some(Rows()[row.value].value)
    {
      hide TableOk, AllWithin, ViewIn, Walking, Peek, RowsIn, HeadsIn, Placed, AllRoomy, Fits, HashTableHeaders.Empty,
           NewestAt;
      Sizes();
      ghost var rows, empty, i := Rows(), HashTableHeaders.Empty(POSITION), 0;
      var b := hash(key) % header.buckets;
      WalkBegins(rows, Heads(), chains, hash, empty, b);
      HeadFits(b);
      var current := header.Read(b);
      while current != HashTableHeaders.Empty(POSITION)
        invariant Searching(rows, chains[b], i, current, key, empty)
        decreases |chains[b]| - i
      {
        SearchStep(rows, chains[b], i, current, key, empty);
        var found := Compare(current, key);
        if found {
          SearchFound(rows, chains, hash, key, b, i);
          return Some(current);
        }
        var previous := current;
        current := NextPosition(current);
        i := i + 1;
        if previous == current {
          return None;
        }
      }
      SearchFailed(rows, chains, hash, key, b, i, current, empty);
      row := None;
    }

    /** Row i of a bucket left its chain, and the key lost its newest value. */
    lemma {:induction false} Popped(rows: FileRows, heads: seq<nat>, before: seq<seq<nat>>, key: Bytes, b: nat,
                                    i: nat)
      requires Sound() && TableOk(rows, heads, before, hash, HashTableHeaders.Empty(POSITION)) && AllWithin(rows, before)
      requires b == hash(key) % |heads| && |before| == |heads|
      requires NewestAt(rows, before[b], i, key)
      requires Unlinked(rows, heads, before[b], b, i, Rows(), Heads())
      requires chains == before[b := HashTables.Cut(before[b], i)]
      ensures Valid()
      ensures key in ViewIn(rows, before, hash) && View() == Pop(ViewIn(rows, before, hash), key)
    {
      hide TableOk, AllWithin, ViewIn, RowsIn, HeadsIn, NewestAt, HashTables.Cut, Unlinked;
      TableCut(rows, heads, before, hash, HashTableHeaders.Empty(POSITION), key, b, i, Rows(), Heads());
    }

    /** The first row of a bucket leaves it. */
    method ReleaseFirst(key: Bytes, b: nat, next: nat)
      requires Valid() && b == hash(key) % header.buckets && Fits(next, POSITION)
      requires |chains| == header.buckets && chains[b] != [] && NewestAt(Rows(), chains[b], 0, key)
      requires chains[b][0] in Rows() && Rows()[chains[b][0]].next == next
      modifies this`chains, manager.file`bytes
      ensures Valid()
      ensures key in old(View()) && View() == Pop(old(View()), key)
      ensures Stand(old(Rows()), Rows())
    {
      hide TableOk, AllWithin, ViewIn, Pop, RowsIn, HeadsIn, Placed, AllRoomy, Fits, HashTableHeaders.Empty, NewestAt,
           HashTables.Cut;
      ghost var rows, heads, before := Rows(), Heads(), chains;
      SetHead(b, next);
      chains := chains[b := HashTables.Cut(chains[b], 0)];
      Popped(rows, heads, before, key, b, 0);
    }

    /** Row i of a bucket leaves it: the row before it gets its link. */
    method Release(key: Bytes, b: nat, previous: nat, next: nat, ghost i: nat)
      requires Valid() && b == hash(key) % header.buckets && Fits(next, POSITION)
      requires |chains| == header.buckets && 0 < i < |chains[b]| && NewestAt(Rows(), chains[b], i, key)
      requires chains[b][i] in Rows() && Rows()[chains[b][i]].next == next
      requires chains[b][i - 1] == previous && previous in Rows()
      modifies this`chains, manager.file`bytes
      ensures Valid()
      ensures key in old(View()) && View() == Pop(old(View()), key)
      ensures Stand(old(Rows()), Rows())
    {
      hide TableOk, AllWithin, ViewIn, Pop, RowsIn, HeadsIn, Placed, AllRoomy, Fits, HashTableHeaders.Empty, NewestAt,
           HashTables.Cut;
      ghost var rows, heads, before := Rows(), Heads(), chains;
      ghost var slab := ReadRow(previous);
      SetNext(previous, next, slab);
      chains := chains[b := HashTables.Cut(chains[b], i)];
      Popped(rows, heads, before, key, b, i);
    }

    /** Pops the stack of a key. The source reads the first row of the bucket
        without asking whether there is one. */
    method Unlink(key: Bytes) returns (ok: bool)
      requires Valid() && Heads()[hash(key) % header.buckets] != HashTableHeaders.Empty(POSITION)
      modifies this`chains, manager.file`bytes
      ensures Valid()
      ensures ok == (key in old(View())) && View() == Pop(old(View()), key)
      ensures Stand(old(Rows()), Rows())
    {
      hide TableOk, AllWithin, ViewIn, Searching, Pop, RowsIn, HeadsIn, Placed, AllRoomy, Fits, HashTableHeaders.Empty,
           NewestAt, HashTables.Cut, BucketOk;
      Sizes();
      ghost var rows, heads, before, bytes := Rows(), Heads(), chains, manager.file.bytes;
      ghost var empty, i := HashTableHeaders.Empty(POSITION), 1;
      var b := hash(key) % header.buckets;
      SearchBegins(rows, heads, chains, hash, empty, key, b);
      HeadFits(b);
      var begin := header.Read(b);
      SearchStep(rows, chains[b], 0, begin, key, empty);
      var found := Compare(begin, key);
      var next := NextPosition(begin);
      if found {
        ReleaseFirst(key, b, next);
        return true;
      }
      var previous := begin;
      var current := next;
      while current != HashTableHeaders.Empty(POSITION)
        invariant chains == before && manager.file.bytes == bytes
        invariant 0 < i <= |chains[b]| && previous == chains[b][i - 1] && previous in rows
        invariant Searching(rows, chains[b], i, current, key, empty)
        decreases |chains[b]| - i
      {
        SearchStep(rows, chains[b], i, current, key, empty);
        found := Compare(current, key);
        next := NextPosition(current);
        if found {
          Release(key, b, previous, next, i);
          return true;
        }
        previous := current;
        current := next;
        i := i + 1;
        if previous == current {
          return false;
        }
      }
      SearchFailed(rows, chains, hash, key, b, i, current, empty);
      PopAbsent(View(), key);
      ok := false;
    }

    /** Sync, close and start again: the file passes, and the table that it holds
        is the one it held. */
    method Reopen() returns (passed: bool, table: SlabTable)
      requires Valid() && !manager.file.closed
      modifies manager.file`bytes, manager.file`closed
      ensures passed && fresh(table) && !table.manager.file.closed
      ensures table.keySize == keySize && table.hash == hash && table.header.buckets == header.buckets
      ensures table.Valid() && table.View() == old(View()) && table.Rows() == old(Rows())
    {
      hide RowsIn, HeadsIn, Placed, AllRoomy, Fits, TableOk, AllWithin, ViewIn, HeaderRegions, Kept;
      ghost var before, rows, heads := manager.file.bytes, Rows(), Heads();
      ghost var from, to := manager.headerSize + SIZE_WORD, manager.headerSize + manager.payload;
      assert Fits(manager.payload, SIZE_WORD) by { NextFree(); }
      var file, header', manager';
      passed, file, header', manager' := Restart(header, manager);
      table := new SlabTable(header', manager', keySize, hash, chains);
      KeptParts(header.Layout(), manager.slabs, before, file.bytes);
      HeadsKept(header, before, file.bytes);
      HeadsSame(header, header', file.bytes);
      RowsKept(manager.slabs, from, to, manager.headerSize, keySize, before, file.bytes);
    }
  }

  lemma {:induction false} HeadsSame(header: HashTableHeader, other: HashTableHeader, s: Bytes)
    requires header.buckets == other.buckets && header.width == other.width
    requires ItemPosition(header.buckets, header.width) <= |s|
    ensures HeadsIn(header, s) == HeadsIn(other, s)
  {
  }

  /** A new file: an empty bucket array before an empty heap. An empty file cannot be
      opened, and a table needs buckets. */
  method CreateFile(file: MemoryMap, buckets: nat)
    returns (passed: bool, header: HashTableHeader, manager: SlabManager)
    requires file.Valid() && file.closed && Fits(buckets, 4)
    modifies file
    ensures passed <==> old(|file.bytes|) > 0 && buckets > 0
    ensures fresh(header) && fresh(manager) && header.file == manager.file == file
    ensures header.buckets == buckets && header.width == POSITION && manager.headerSize == SlabHeaderSize(buckets)
    ensures passed ==>
      && !file.closed && header.Valid() && manager.Valid() && manager.slabs == [] && manager.payload == SIZE_WORD
      && forall b :: 0 <= b < buckets ==> HeadsIn(header, file.bytes)[b] == HashTableHeaders.Empty(POSITION)
  {
    hide Placed, Resized, Splice, HeaderRegions, HashTableHeaders.Empty, Fits, HeadsIn;
    header := new HashTableHeader(file, buckets, POSITION);
    manager := new SlabManager(file, SlabHeaderSize(buckets));
    passed := file.Open();
    if !passed {
      return;
    }
    var ok := file.Resize(SlabHeaderSize(buckets) + SIZE_WORD);
    passed := header.Create();
    if !passed {
      return;
    }
    passed := StartHeap(header, manager);
  }

  /** The heap behind a new bucket array is created, and both are started. */
  method StartHeap(header: HashTableHeader, manager: SlabManager) returns (passed: bool)
    requires header.file == manager.file && header.Valid() && !manager.file.closed && header.width == POSITION
    requires manager.headerSize == SlabHeaderSize(header.buckets) && manager.payload == SIZE_WORD
    requires |manager.file.bytes| >= manager.headerSize + SIZE_WORD
    modifies manager`payload, manager`slabs, manager.file`bytes, manager.file`logical
    ensures passed && header.Valid() && manager.Valid() && manager.slabs == [] && manager.payload == SIZE_WORD
    ensures ItemPosition(header.buckets, header.width) <= old(|header.file.bytes|)
    ensures HeadsIn(header, header.file.bytes) == old(HeadsIn(header, header.file.bytes))
  {
    hide Resized, Splice, HeaderRegions, Fits, HeadsIn;
    ghost var filled := manager.file.bytes;
    var sized := manager.Create();
    StillHeaded(header, filled, manager.file.bytes, manager.headerSize);
    var ok := header.Start();
    passed := sized == Some(true) && ok;
    ok := manager.Start([]);
    passed := passed && ok;
  }

  /** An empty table in a new file. */
  method CreateTable(file: MemoryMap, buckets: nat, keySize: nat, hash: Bytes -> nat) returns (table: Option<SlabTable>)
    requires file.Valid() && file.closed && Fits(buckets, 4)
    modifies file
    ensures table.Some? <==> old(|file.bytes|) > 0 && buckets > 0
    ensures table.Some? ==>
      && fresh(table.value) && table.value.manager.file == file && !file.closed
      && table.value.keySize == keySize && table.value.hash == hash && table.value.header.buckets == buckets
      && table.value.Valid() && table.value.View() == map[]
  {
    hide Placed, HeaderRegions, TableOk, AllWithin, ViewIn, HashTableHeaders.Empty, Fits, HeadsIn, RowsIn;
    var passed, header, manager := CreateFile(file, buckets);
    if !passed {
      return None;
    }
    ghost var chains := seq(buckets, b => []);
    EmptyTable(HeadsIn(header, file.bytes), chains, hash, HashTableHeaders.Empty(POSITION));
    ManagerFits(buckets);
    NoSlabs(SlabHeaderSize(buckets) + SIZE_WORD, SlabHeaderSize(buckets), keySize, file.bytes);
    var created := new SlabTable(header, manager, keySize, hash, chains);
    table := Some(created);
  }

  /** Buckets stay as they are while the bytes behind them change. */
  lemma {:induction false} StillHeaded(header: HashTableHeader, s: Bytes, t: Bytes, n: nat)
    requires ItemPosition(header.buckets, header.width) <= n <= |s| && n <= |t| && s[..n] == t[..n]
    ensures |t| >= 4 && s[..4] == t[..4]
    ensures HeadsIn(header, t) == HeadsIn(header, s)
  {
    HeaderPlaced(header.buckets, header.width);
    SamePrefix(header.Layout(), 0, ItemPosition(header.buckets, header.width), s, t, n);
    CountKept(header, s, t);
    HeadsKept(header, s, t);
  }

  lemma {:induction false} SamePrefix(rs: seq<Region>, from: nat, to: nat, s: Bytes, t: Bytes, n: nat)
    requires Placed(rs, from, to) && to <= n <= |s| && n <= |t| && s[..n] == t[..n]
    ensures Kept(rs, s, t)
  {
    CutBehind(rs, from, to, s, n);
    CutBehind(rs, from, to, t, n);
  }

  lemma {:induction false} NoSlabs(from: nat, origin: nat, keySize: nat, s: Bytes)
    requires origin <= from <= |s|
    ensures Readable([], from, from, origin, keySize) && AllRoomy([], keySize)
    ensures RowsIn([], from, from, origin, keySize, s) == map[]
  {
  }

  lemma {:induction false} ManagerFits(buckets: nat)
    requires Fits(buckets, 4)
    ensures Fits(SlabHeaderSize(buckets) + SIZE_WORD, POSITION)
  {
    EmptyValues();
    EmptyLargest(buckets, 4);
    EmptyLargest(SlabHeaderSize(buckets) + SIZE_WORD, POSITION);
  }

  /** A table without rows. */
  lemma {:induction false} EmptyTable(heads: seq<nat>, chains: seq<seq<nat>>, hash: Bytes -> nat, empty: nat)
    requires 0 < |heads| == |chains|
    requires forall b :: 0 <= b < |heads| ==> heads[b] == empty && chains[b] == []
    ensures TableOk<Bytes, Bytes>(map[], heads, chains, hash, empty)
    ensures AllWithin<Bytes, Bytes>(map[], chains)
    ensures ViewIn<Bytes, Bytes>(map[], chains, hash) == map[]
  {
  }
}
