/** A heap of records of one size, numbered from 0, behind a bucket array:

      bucket array (headerSize)  record count:4  record  record ...

    Unlike slabs, records can be given back from the end. */
module RecordManagers {
  import opened Wrappers
  import opened LittleEndian
  import opened Regions
  import opened MemoryMaps
  import opened HashTableHeaders

  const COUNT_WORD: nat := 4
  const MAX_RECORDS: nat := 0xffff_ffff

  /** The space before the payload of a table of records. */
  function RecordHeaderSize(buckets: nat): nat {
    4 + 4 * buckets
  }

  class RecordManager {
    const file: MemoryMap
    const headerSize: nat
    const recordSize: nat
    var count: nat

    function Word(): Region {
      Region(headerSize, COUNT_WORD)
    }

    /** The record count that the file holds. */
    function Stored(): nat
      reads file
      requires Word().Within(file.bytes)
    {
      FromLittle(Word().Cut(file.bytes))
    }

    /** Counts from the count word. */
    function RecordToPosition(record: nat): nat {
      COUNT_WORD + record * recordSize
    }

    function PositionToRecord(position: nat): nat
      requires recordSize > 0 && position >= COUNT_WORD
    {
      (position - COUNT_WORD) / recordSize
    }

    /** The first n records. */
    function Records(n: nat): seq<Region> {
      Items(headerSize + COUNT_WORD, recordSize, n)
    }

    ghost predicate Valid()
      reads this, file
    {
      && file.Valid() && count <= MAX_RECORDS
      && headerSize + RecordToPosition(count) <= file.logical
    }

    constructor (file: MemoryMap, headerSize: nat, recordSize: nat)
      ensures this.file == file && this.headerSize == headerSize && this.recordSize == recordSize && count == 0
    {
      this.file := file;
      this.headerSize := headerSize;
      this.recordSize := recordSize;
      count := 0;
    }

    /** None when the manager already holds records; Some(false) for the
        exception of a closed file. */
    method Create() returns (ok: Option<bool>)
      requires file.Valid()
      modifies file`bytes, file`logical
      ensures file.Valid()
      ensures ok == if count != 0 then None else Some(!file.closed)
      ensures ok != Some(true) ==> file.bytes == old(file.bytes)
      ensures ok == Some(true) ==>
        && Valid() && Stored() == count
        && file.bytes[..headerSize] == Resized(old(file.bytes), headerSize + COUNT_WORD, 0)[..headerSize]
    {
      if count != 0 {
        return None;
      }
      var grown := file.Resize(headerSize + RecordToPosition(count));
      if !grown {
        return Some(false);
      }
      WriteCount();
      return Some(true);
    }

    /** Takes the count from the file, which passes if it is long enough. */
    method Start() returns (ok: bool)
      requires file.Valid() && Word().Within(file.bytes)
      modifies this`count
      ensures count == Stored() && ok == (headerSize + RecordToPosition(count) <= |file.bytes|)
    {
      count := FromLittle(file.bytes[headerSize..headerSize + COUNT_WORD]);
      return headerSize + RecordToPosition(count) <= |file.bytes|;
    }

    method WriteCount()
      requires file.Valid() && Word().Within(file.bytes)
      modifies file`bytes
      ensures file.bytes == Splice(old(file.bytes), headerSize, Little(count, COUNT_WORD))
      ensures count <= MAX_RECORDS ==> Stored() == count
    {
      file.Put(headerSize, Little(count, COUNT_WORD));
      if count <= MAX_RECORDS {
        EmptyValues();
        EmptyLargest(count, COUNT_WORD);
        LittleRoundTrip(count, COUNT_WORD);
      }
    }

    /** Writes the count; every record keeps its bytes. */
    method Sync()
      requires Valid()
      modifies file`bytes
      ensures Valid() && Stored() == count
      ensures file.bytes == Splice(old(file.bytes), headerSize, Little(count, COUNT_WORD))
      ensures Kept(Records(count), old(file.bytes), file.bytes)
    {
      ItemsPlaced(headerSize + COUNT_WORD, recordSize, count);
      WriteOutside(Records(count), headerSize + COUNT_WORD, headerSize + RecordToPosition(count),
                   file.bytes, headerSize, Little(count, COUNT_WORD));
      WriteCount();
    }

    /** Gives back the records from `value` on. */
    method SetCount(value: nat)
      requires Valid() && value <= count
      modifies this`count
      ensures Valid() && count == value
    {
      Fewer(value, count);
      count := value;
    }

    lemma {:induction false} Fewer(value: nat, count: nat)
      requires value <= count
      ensures RecordToPosition(value) <= RecordToPosition(count)
    {
      assert count * recordSize == value * recordSize + (count - value) * recordSize;
    }

    /** The next n numbers, whatever was given back; None for the exception of a
        closed file. The file keeps its bytes and has room for the records. */
    method NewRecords(n: nat) returns (first: Option<nat>)
      requires Valid() && count + n <= MAX_RECORDS
      modifies this`count, file`bytes, file`logical
      ensures Valid() && (first == None <==> file.closed)
      ensures first == None ==>
        count == old(count) && file.bytes == old(file.bytes) && file.logical == old(file.logical)
      ensures first != None ==>
        && first == Some(old(count)) && count == old(count) + n
        && old(file.bytes) <= file.bytes && file.logical == headerSize + RecordToPosition(count)
    {
      var grown := file.Reserve(headerSize + RecordToPosition(count + n));
      if !grown {
        return None;
      }
      first := Some(count);
      count := count + n;
    }

    /** Numbers and positions determine each other. */
    lemma {:induction false} RecordPosition(record: nat)
      requires recordSize > 0
      ensures PositionToRecord(RecordToPosition(record)) == record
    {
      Divided(record, (record * recordSize) / recordSize, recordSize);
    }
  }

  /** Two multiples less than one apart are the same. */
  lemma {:induction false} Divided(a: nat, q: nat, n: nat)
    requires n > 0 && q * n <= a * n < q * n + n
    ensures a == q
  {
    Larger(a - q, n);
    Larger(q - a, n);
  }

  lemma {:induction false} Larger(d: int, n: nat)
    ensures d > 0 ==> d * n >= n
  {
    if d > 0 {
      assert d * n == n + (d - 1) * n;
    }
  }

  lemma {:induction false} ManagerPlaced(manager: RecordManager)
    requires manager.Valid()
    ensures Placed([manager.Word()] + manager.Records(manager.count),
                   manager.headerSize, manager.headerSize + manager.RecordToPosition(manager.count))
  {
    var word, start := [manager.Word()], manager.headerSize + COUNT_WORD;
    var end := manager.headerSize + manager.RecordToPosition(manager.count);
    assert Placed(word[..0], manager.headerSize, manager.headerSize);
    assert Placed(word, manager.headerSize, start);
    ItemsPlaced(start, manager.recordSize, manager.count);
    PlacedConcat(word, manager.Records(manager.count), manager.headerSize, start, end);
  }

  /** The bucket array, the count word and the records are placed one after the
      other inside the logical file, and every record number is below the sentinel
      of an empty bucket. */
  lemma {:induction false} RecordFileLayout(header: HashTableHeader, manager: RecordManager)
    requires header.file == manager.file && manager.Valid()
    requires header.width == 4 && manager.headerSize == RecordHeaderSize(header.buckets)
    ensures Placed(header.Layout() + ([manager.Word()] + manager.Records(manager.count)), 0, manager.file.logical)
    ensures manager.count <= Empty(4)
  {
    HeaderPlaced(header.buckets, header.width);
    ManagerPlaced(manager);
    EmptyValues();
    var top, end := ItemPosition(header.buckets, header.width), manager.headerSize + manager.RecordToPosition(manager.count);
    PlacedLonger(header.Layout(), 0, top, manager.headerSize);
    PlacedLonger([manager.Word()] + manager.Records(manager.count), manager.headerSize, end, manager.file.logical);
    PlacedConcat(header.Layout(), [manager.Word()] + manager.Records(manager.count),
                 0, manager.headerSize, manager.file.logical);
  }

  /** Stopping and starting again, as the file stands: it passes if and only if
      the count on file fits what was asked for last, and it does after a sync.
      Giving records back and handing out fewer, without a sync, breaks that. */
  method Restart(manager: RecordManager) returns (passed: bool, file: MemoryMap, manager': RecordManager)
    requires manager.Valid() && !manager.file.closed
    modifies manager.file`bytes, manager.file`closed
    ensures fresh(file) && manager'.file == file && !file.closed
    ensures manager'.headerSize == manager.headerSize && manager'.recordSize == manager.recordSize
    ensures file.bytes == old(manager.file.bytes)[..manager.file.logical]
    ensures manager.Word().Within(old(manager.file.bytes))
    ensures manager'.count == old(manager.Stored())
    ensures passed <==> manager.headerSize + manager.RecordToPosition(manager'.count) <= manager.file.logical
    ensures old(manager.Stored()) == manager.count ==> passed && manager'.Valid()
    ensures Kept(manager.Records(manager.count), old(manager.file.bytes), file.bytes)
  {
    hide Items;
    ghost var before := manager.file.bytes;
    RecordsBehind(manager, before);
    manager.file.Close();
    file := new MemoryMap(manager.file.bytes, manager.file.expansion);
    passed := file.Open();
    manager' := new RecordManager(file, manager.headerSize, manager.recordSize);
    assert manager.Word().Cut(file.bytes) == manager.Word().Cut(before);
    var started := manager'.Start();
    passed := passed && started;
    EmptyValues();
  }

  lemma {:induction false} RecordsBehind(manager: RecordManager, s: Bytes)
    requires manager.Valid() && manager.file.bytes == s
    ensures Kept(manager.Records(manager.count), s, s[..manager.file.logical])
  {
    ItemsPlaced(manager.headerSize + COUNT_WORD, manager.recordSize, manager.count);
    CutBehind(manager.Records(manager.count), manager.headerSize + COUNT_WORD,
              manager.headerSize + manager.RecordToPosition(manager.count), s, manager.file.logical);
  }

  /** Stopping and starting a table of records again: with a sync before the close,
      the file passes both checks, and buckets, records and their bytes are as
      before. */
  method RestartTable(header: HashTableHeader, manager: RecordManager)
    returns (passed: bool, file: MemoryMap, header': HashTableHeader, manager': RecordManager)
    requires header.file == manager.file && header.Valid() && manager.Valid() && !manager.file.closed
    requires header.width == 4 && manager.headerSize == RecordHeaderSize(header.buckets)
    modifies manager.file`bytes, manager.file`closed
    ensures passed && header'.file == manager'.file == file && fresh(file) && !file.closed
    ensures header'.Valid() && manager'.Valid()
    ensures header'.buckets == header.buckets && header'.width == header.width
    ensures manager'.headerSize == manager.headerSize && manager'.recordSize == manager.recordSize
    ensures manager'.count == manager.count
    ensures Kept(header.Layout() + manager.Records(manager.count), old(manager.file.bytes), file.bytes)
  {
    hide Splice, Placed, HeaderRegions, Items, Kept, Fits, FromLittle, Little;
    hide RecordManager.RecordToPosition, RecordManager.Records;
    HeaderSynced(header, manager);
    RecordsSynced(manager);
    BothKept(header.Layout(), manager.Records(manager.count), manager.file.bytes, Closed(manager));
    manager.Sync();
    passed, file, manager' := Restart(manager);
    header' := new HashTableHeader(file, header.buckets, header.width);
    var started := header'.Start();
    passed := passed && started;
  }

  lemma {:induction false} BothKept(a: seq<Region>, b: seq<Region>, s: Bytes, t: Bytes)
    requires Kept(a, s, t) && Kept(b, s, t)
    ensures Kept(a + b, s, t)
  {
  }

  /** What a sync and a close leave of a file. */
  function Closed(manager: RecordManager): Bytes
    reads manager, manager.file
    requires manager.Valid()
  {
    Splice(manager.file.bytes, manager.headerSize, Little(manager.count, COUNT_WORD))[..manager.file.logical]
  }

  lemma {:induction false} HeaderSynced(header: HashTableHeader, manager: RecordManager)
    requires header.file == manager.file && header.Valid() && manager.Valid()
    requires header.width == 4 && manager.headerSize == RecordHeaderSize(header.buckets)
    ensures Kept(header.Layout(), manager.file.bytes, Closed(manager))
    ensures |Closed(manager)| == manager.file.logical && Closed(manager)[..4] == manager.file.bytes[..4]
  {
    var before, word := manager.file.bytes, Little(manager.count, COUNT_WORD);
    var synced, top := Splice(before, manager.headerSize, word), ItemPosition(header.buckets, header.width);
    HeaderPlaced(header.buckets, header.width);
    WriteOutside(header.Layout(), 0, top, before, manager.headerSize, word);
    CutBehind(header.Layout(), 0, top, synced, manager.file.logical);
    KeptTwice(header.Layout(), before, synced, synced[..manager.file.logical]);
    CountKept(header, before, synced[..manager.file.logical]);
  }

  lemma {:induction false} RecordsSynced(manager: RecordManager)
    requires manager.Valid()
    ensures Kept(manager.Records(manager.count), manager.file.bytes, Closed(manager))
  {
    var before, word := manager.file.bytes, Little(manager.count, COUNT_WORD);
    var synced, from := Splice(before, manager.headerSize, word), manager.headerSize + COUNT_WORD;
    var to := manager.headerSize + manager.RecordToPosition(manager.count);
    ItemsPlaced(from, manager.recordSize, manager.count);
    WriteOutside(manager.Records(manager.count), from, to, before, manager.headerSize, word);
    CutBehind(manager.Records(manager.count), from, to, synced, manager.file.logical);
    KeptTwice(manager.Records(manager.count), before, synced, synced[..manager.file.logical]);
  }

  /** A file with the one byte that it is created with; three records, synced; give
      all back and hand out one: the file does not pass when it is started again. */
  method UnsyncedRestartFails() returns (passed: bool)
    ensures !passed
  {
    var file := new MemoryMap([120], 50);
    var ok := file.Open();
    var manager := new RecordManager(file, 0, 8);
    var created := manager.Create();
    var first := manager.NewRecords(3);
    manager.Sync();
    ghost var synced := file.bytes;
    manager.SetCount(0);
    first := manager.NewRecords(1);
    assert manager.Word().Cut(file.bytes) == manager.Word().Cut(synced);
    var file', manager';
    passed, file', manager' := Restart(manager);
  }
}
