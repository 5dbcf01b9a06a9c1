/** A heap that hands out slabs one after the other, behind a bucket array:

      bucket array (headerSize)  payload size:8  slab  slab ...

    A slab's position counts from the payload size word. The word is written
    only by Sync, so between two syncs the file runs behind the manager. */
module SlabManagers {
  import opened Wrappers
  import opened LittleEndian
  import opened Regions
  import opened MemoryMaps
  import opened HashTableHeaders

  const SIZE_WORD: nat := 8

  /** The space before the payload of a table of slabs. */
  function SlabHeaderSize(buckets: nat): nat {
    8 + 8 * buckets
  }

  class SlabManager {
    const file: MemoryMap
    const headerSize: nat
    var payload: nat                  // bytes after the header, the word included
    ghost var slabs: seq<Region>      // every slab handed out, in file offsets

    function Word(): Region {
      Region(headerSize, SIZE_WORD)
    }

    /** The payload size that the file holds. */
    function Stored(): nat
      reads file
      requires Word().Within(file.bytes)
    {
      FromLittle(Word().Cut(file.bytes))
    }

    ghost function Layout(): seq<Region>
      reads this
    {
      [Word()] + slabs
    }

    ghost predicate Valid()
      reads this, file
    {
      && file.Valid() && SIZE_WORD <= payload
      && headerSize + payload <= file.logical
      && Placed(slabs, headerSize + SIZE_WORD, headerSize + payload)
    }

    constructor (file: MemoryMap, headerSize: nat)
      ensures this.file == file && this.headerSize == headerSize
      ensures payload == SIZE_WORD && slabs == []
    {
      this.file := file;
      this.headerSize := headerSize;
      payload := SIZE_WORD;
      slabs := [];
    }

    /** None when the manager already holds slabs; Some(false) for the exception
        of a closed file. */
    method Create() returns (ok: Option<bool>)
      requires file.Valid()
      modifies this`slabs, file`bytes, file`logical
      ensures file.Valid()
      ensures ok == if old(payload) != SIZE_WORD then None else Some(!file.closed)
      ensures ok != Some(true) ==> file.bytes == old(file.bytes) && slabs == old(slabs)
      ensures ok == Some(true) ==>
        && Valid() && slabs == [] && Stored() == payload
        && file.bytes[..headerSize] == Resized(old(file.bytes), headerSize + SIZE_WORD, 0)[..headerSize]
    {
      if payload != SIZE_WORD {
        return None;
      }
      var grown := file.Resize(headerSize + payload);
      if !grown {
        return Some(false);
      }
      WriteSize();
      slabs := [];
      return Some(true);
    }

    /** Takes the payload size from the file, which passes if it is long enough.
        `known` are the slabs that a caller expects; the manager recovers them if
        they fill the payload that it reads. */
    method Start(ghost known: seq<Region>) returns (ok: bool)
      requires file.Valid() && Word().Within(file.bytes)
      modifies this`payload, this`slabs
      ensures payload == Stored() && ok == (headerSize + payload <= |file.bytes|)
      ensures Placed(known, headerSize + SIZE_WORD, headerSize + payload) ==> slabs == known
    {
      payload := FromLittle(file.bytes[headerSize..headerSize + SIZE_WORD]);
      slabs := known;
      return headerSize + payload <= |file.bytes|;
    }

    method WriteSize()
      requires file.Valid() && Word().Within(file.bytes)
      modifies file`bytes
      ensures file.bytes == Splice(old(file.bytes), headerSize, Little(payload, SIZE_WORD))
      ensures Fits(payload, SIZE_WORD) ==> Stored() == payload
    {
      file.Put(headerSize, Little(payload, SIZE_WORD));
      if Fits(payload, SIZE_WORD) {
        LittleRoundTrip(payload, SIZE_WORD);
      }
    }

    /** Writes the payload size and nothing else. */
    method Sync()
      requires Valid() && Fits(payload, SIZE_WORD)
      modifies file`bytes
      ensures Valid() && Stored() == payload
      ensures file.bytes == Splice(old(file.bytes), headerSize, Little(payload, SIZE_WORD))
      ensures Kept(slabs, old(file.bytes), file.bytes)
    {
      WriteOutside(slabs, headerSize + SIZE_WORD, headerSize + payload,
                   file.bytes, headerSize, Little(payload, SIZE_WORD));
      WriteSize();
    }

    /** A slab behind all others; None for the exception of a closed file. The
        bytes of the file are kept, and the file has room for the slab. */
    method NewSlab(size: nat) returns (position: Option<nat>)
      requires Valid()
      modifies this`payload, this`slabs, file`bytes, file`logical
      ensures Valid() && (position == None <==> file.closed)
      ensures position == None ==>
        payload == old(payload) && slabs == old(slabs) && file.bytes == old(file.bytes) && file.logical == old(file.logical)
      ensures position != None ==>
        && position == Some(old(payload)) && payload == old(payload) + size
        && slabs == old(slabs) + [Region(headerSize + position.value, size)]
        && old(file.bytes) <= file.bytes && file.logical == headerSize + payload
    {
      var grown := file.Reserve(headerSize + payload + size);
      if !grown {
        return None;
      }
      position := Some(payload);
      payload := payload + size;
      slabs := slabs + [Region(headerSize + position.value, size)];
    }
  }

  /** The bucket array, the size word and the slabs are placed one after the
      other inside the logical file. */
  lemma {:induction false} SlabFileLayout(header: HashTableHeader, manager: SlabManager)
    requires header.file == manager.file && manager.Valid()
    requires header.width == 8 && manager.headerSize == SlabHeaderSize(header.buckets)
    ensures Placed(header.Layout() + manager.Layout(), 0, manager.file.logical)
  {
    var top, end := ItemPosition(header.buckets, header.width), manager.headerSize + manager.payload;
    HeaderPlaced(header.buckets, header.width);
    ManagerPlaced(manager);
    PlacedLonger(header.Layout(), 0, top, manager.headerSize);
    PlacedLonger(manager.Layout(), manager.headerSize, end, manager.file.logical);
    PlacedConcat(header.Layout(), manager.Layout(), 0, manager.headerSize, manager.file.logical);
  }

  /** No slab that holds anything is at position 0 (the index entry of a missing
      block), at the sentinel of an empty bucket, or where another one is. */
  lemma {:induction false} SlabPositions(manager: SlabManager, i: nat)
    requires manager.Valid() && i < |manager.slabs| && manager.slabs[i].size > 0
    requires Fits(manager.headerSize + manager.payload, 8)
    ensures var position := manager.slabs[i].start - manager.headerSize;
            && SIZE_WORD <= position < manager.payload && position != Empty(8)
            && manager.slabs[i].Within(manager.file.bytes[..manager.file.logical])
            && forall j :: 0 <= j < |manager.slabs| && j != i ==> manager.slabs[j].Apart(manager.slabs[i])
  {
    var from, to := manager.headerSize + SIZE_WORD, manager.headerSize + manager.payload;
    PlacedInside(manager.slabs, from, to, i);
    EmptyLargest(to, 8);
    forall j | 0 <= j < |manager.slabs| && j != i ensures manager.slabs[j].Apart(manager.slabs[i]) {
      if i < j {
        PlacedApart(manager.slabs, from, to, i, j);
      } else {
        PlacedApart(manager.slabs, from, to, j, i);
      }
    }
  }

  /** Stopping and starting again: with a sync before the close, the file passes
      both checks, and buckets, slabs and their bytes are as before. */
  method Restart(header: HashTableHeader, manager: SlabManager)
    returns (passed: bool, file: MemoryMap, header': HashTableHeader, manager': SlabManager)
    requires header.file == manager.file && header.Valid() && manager.Valid() && !manager.file.closed
    requires ItemPosition(header.buckets, header.width) <= manager.headerSize
    requires Fits(manager.payload, SIZE_WORD)
    modifies manager.file`bytes, manager.file`closed
    ensures passed && header'.file == manager'.file == file && fresh(file) && !file.closed
    ensures header'.Valid() && manager'.Valid()
    ensures header'.buckets == header.buckets && header'.width == header.width
    ensures manager'.headerSize == manager.headerSize
    ensures manager'.payload == manager.payload && manager'.slabs == manager.slabs
    ensures Kept(header.Layout() + manager.slabs, old(manager.file.bytes), file.bytes)
  {
    hide Splice, Placed, HeaderRegions;
    SyncedAndCut(header, manager);
    manager.Sync();
    manager.file.Close();
    file := new MemoryMap(manager.file.bytes, manager.file.expansion);
    passed := file.Open();
    header' := new HashTableHeader(file, header.buckets, header.width);
    manager' := new SlabManager(file, manager.headerSize);
    var started := header'.Start();
    passed := passed && started;
    started := manager'.Start(manager.slabs);
    passed := passed && started;
  }

  /** What a sync and a close leave of a file. */
  function Closed(manager: SlabManager): Bytes
    reads manager, manager.file
    requires manager.file.Valid() && manager.headerSize + SIZE_WORD <= manager.file.logical
  {
    Splice(manager.file.bytes, manager.headerSize, Little(manager.payload, SIZE_WORD))[..manager.file.logical]
  }

  /** ... and it holds everything that the file held. */
  lemma {:induction false} SyncedAndCut(header: HashTableHeader, manager: SlabManager)
    requires header.file == manager.file && header.Valid() && manager.Valid()
    requires ItemPosition(header.buckets, header.width) <= manager.headerSize
    requires Fits(manager.payload, SIZE_WORD)
    ensures Kept(header.Layout() + manager.slabs, manager.file.bytes, Closed(manager))
    ensures |Closed(manager)| == manager.file.logical
    ensures Closed(manager)[..4] == manager.file.bytes[..4]
    ensures FromLittle(manager.Word().Cut(Closed(manager))) == manager.payload
  {
    var before, word := manager.file.bytes, Little(manager.payload, SIZE_WORD);
    var synced, logical := Splice(before, manager.headerSize, word), manager.file.logical;
    var top, end := ItemPosition(header.buckets, header.width), manager.headerSize + manager.payload;
    HeaderPlaced(header.buckets, header.width);
    WriteOutside(header.Layout(), 0, top, before, manager.headerSize, word);
    WriteOutside(manager.slabs, manager.headerSize + SIZE_WORD, end, before, manager.headerSize, word);
    CutBehind(header.Layout(), 0, top, synced, logical);
    CutBehind(manager.slabs, manager.headerSize + SIZE_WORD, end, synced, logical);
    KeptTwice(header.Layout(), before, synced, synced[..logical]);
    KeptTwice(manager.slabs, before, synced, synced[..logical]);
    CountKept(header, before, synced[..logical]);
    LittleRoundTrip(manager.payload, SIZE_WORD);
    assert manager.Word().Cut(synced[..logical]) == manager.Word().Cut(synced) == word;
  }

  lemma {:induction false} ManagerPlaced(manager: SlabManager)
    requires manager.Valid()
    ensures Placed(manager.Layout(), manager.headerSize, manager.headerSize + manager.payload)
  {
    var word, start := [manager.Word()], manager.headerSize + SIZE_WORD;
    assert Placed(word[..0], manager.headerSize, manager.headerSize);
    assert Placed(word, manager.headerSize, start);
    PlacedConcat(word, manager.slabs, manager.headerSize, start, manager.headerSize + manager.payload);
  }
}
