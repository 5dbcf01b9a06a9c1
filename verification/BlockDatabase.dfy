/** Blocks by hash, and an index of their slabs by height in which heights may be
    missing. */
module BlockDatabases {
  import opened Wrappers
  import opened StackMaps
  import opened ChainTypes
  import HashTables

  /** What a slab holds of a block; its hash is the key of the slab. */
  datatype BlockValue = BlockValue(previous: Hash, height: nat, txHashes: seq<Hash>)

  type BlockRows = HashTables.Rows<Hash, BlockValue>

  /** A block as it is read back. */
  datatype BlockSlab = BlockSlab(hash: Hash, header: Header, height: nat, txHashes: seq<Hash>)

  function TxHashes(txs: seq<Tx>): (r: seq<Hash>)
    ensures |r| == |txs|
    ensures forall i :: 0 <= i < |r| ==> r[i] == txs[i].hash
  {
    seq(|txs|, i requires 0 <= i < |txs| => txs[i].hash)
  }

  function ValueOf(b: Block, height: nat): BlockValue {
    BlockValue(b.header.previous, height, TxHashes(b.txs))
  }

  function Read(key: Hash, v: BlockValue): BlockSlab {
    BlockSlab(key, Header(key, v.previous), v.height, v.txHashes)
  }

  /** Reading back what was stored under the block's hash gives back the header, the
      height and the hashes of the transactions. */
  function SlabOf(b: Block, height: nat): (r: BlockSlab)
    ensures r.hash == b.header.hash && r.header == b.header && r.height == height
    ensures |r.txHashes| == |b.txs| && forall i :: 0 <= i < |b.txs| ==> r.txHashes[i] == b.txs[i].hash
  {
    Read(b.header.hash, ValueOf(b, height))
  }

  /** No value is at offset zero, so it marks a missing height. */
  const EMPTY: nat := 0
  /** A value is behind its key and its link. */
  const PREFIX: nat := 40

  ghost predicate IndexKept(rows: BlockRows, index: seq<nat>, count: nat) {
    && count <= |index|
    && forall h :: 0 <= h < count && index[h] != EMPTY ==>
         && index[h] >= PREFIX && index[h] - PREFIX in rows
         && rows[index[h] - PREFIX].value.height == h
  }

  /** The block at every height whose index record is not empty. */
  ghost function ViewOf(rows: BlockRows, index: seq<nat>, count: nat): map<nat, BlockSlab>
    requires IndexKept(rows, index, count)
  {
    map h | 0 <= h < count && index[h] != EMPTY :: Read(rows[index[h] - PREFIX].key, rows[index[h] - PREFIX].value)
  }

  ghost function NewestOf(lookup: StackMap<Hash, BlockValue>): map<Hash, BlockSlab> {
    map k | k in lookup :: Read(k, lookup[k][0])
  }

  /** One more row, and its offset in the index at its height. */
  lemma {:induction false} StoredView(rows: BlockRows, rows': BlockRows, index: seq<nat>, count: nat, position: nat,
                                      b: Block, height: nat, index': seq<nat>, count': nat)
    requires IndexKept(rows, index, count) && HashTables.Stand(rows, rows')
    requires position in rows' && rows'[position].key == b.header.hash && rows'[position].value == ValueOf(b, height)
    requires count' == (if height < count then count else height + 1) <= |index'|
    requires forall h :: 0 <= h < count' ==>
               index'[h] == if h == height then position + PREFIX else if h < count then index[h] else EMPTY
    ensures IndexKept(rows', index', count')
    ensures ViewOf(rows', index', count') == ViewOf(rows, index, count)[height := SlabOf(b, height)]
  {
    hide ViewOf, SlabOf, ValueOf, IndexKept;
    StoredIndex(rows, rows', index, count, position, b, height, index', count');
    var view, view' := ViewOf(rows, index, count), ViewOf(rows', index', count');
    forall h: nat
      ensures h in view' <==> h == height || h in view
      ensures h in view' ==> view'[h] == if h == height then SlabOf(b, height) else view[h]
    {
      StoredAt(rows, rows', index, count, position, b, height, index', count', h);
    }
    OneChanged(view, view', height, SlabOf(b, height));
  }

  lemma {:induction false} OneChanged(view: map<nat, BlockSlab>, view': map<nat, BlockSlab>, height: nat, slab: BlockSlab)
    requires forall h: nat :: h in view' <==> h == height || h in view
    requires forall h: nat :: h in view' ==> view'[h] == if h == height then slab else view[h]
    ensures view' == view[height := slab]
  {
  }

  lemma {:induction false} StoredAt(rows: BlockRows, rows': BlockRows, index: seq<nat>, count: nat, position: nat,
                                    b: Block, height: nat, index': seq<nat>, count': nat, h: nat)
    requires IndexKept(rows, index, count) && IndexKept(rows', index', count') && HashTables.Stand(rows, rows')
    requires position in rows' && rows'[position].key == b.header.hash && rows'[position].value == ValueOf(b, height)
    requires count' == (if height < count then count else height + 1) <= |index'|
    requires forall h :: 0 <= h < count' ==>
               index'[h] == if h == height then position + PREFIX else if h < count then index[h] else EMPTY
    ensures h in ViewOf(rows', index', count') <==> h == height || h in ViewOf(rows, index, count)
    ensures h in ViewOf(rows', index', count') ==>
              ViewOf(rows', index', count')[h] == if h == height then SlabOf(b, height) else ViewOf(rows, index, count)[h]
  {
    hide ViewOf, ValueOf, IndexKept;
    ViewAt(rows, index, count, h);
    ViewAt(rows', index', count', h);
  }

  /** A shorter index shows what it still covers. */
  lemma {:induction false} Truncated(rows: BlockRows, index: seq<nat>, count: nat, shorter: nat)
    requires IndexKept(rows, index, count) && shorter <= count
    ensures IndexKept(rows, index, shorter)
    ensures ViewOf(rows, index, shorter) ==
            map h | h in ViewOf(rows, index, count) && h < shorter :: ViewOf(rows, index, count)[h]
  {
  }

  /** What is shown at a height. */
  lemma {:induction false} ViewAt(rows: BlockRows, index: seq<nat>, count: nat, h: nat)
    requires IndexKept(rows, index, count)
    ensures count <= |index|
    ensures h in ViewOf(rows, index, count) <==> h < count && index[h] != EMPTY
    ensures h < count && index[h] != EMPTY ==>
              && index[h] >= PREFIX && index[h] - PREFIX in rows
              && ViewOf(rows, index, count)[h] == Read(rows[index[h] - PREFIX].key, rows[index[h] - PREFIX].value)
  {
  }

  lemma {:induction false} StoredIndex(rows: BlockRows, rows': BlockRows, index: seq<nat>, count: nat, position: nat,
                                       b: Block, height: nat, index': seq<nat>, count': nat)
    requires IndexKept(rows, index, count) && HashTables.Stand(rows, rows')
    requires position in rows' && rows'[position].value == ValueOf(b, height)
    requires count' == (if height < count then count else height + 1) <= |index'|
    requires forall h :: 0 <= h < count' ==>
               index'[h] == if h == height then position + PREFIX else if h < count then index[h] else EMPTY
    ensures IndexKept(rows', index', count')
  {
    hide TxHashes;
  }

  lemma {:induction false} StoredNewest(lookup: StackMap<Hash, BlockValue>, k: Hash, v: BlockValue)
    ensures NewestOf(Push(lookup, k, v)) == NewestOf(lookup)[k := Read(k, v)]
  {
  }

  class BlockDatabase {
    const table: HashTables.HashTable<Hash, BlockValue>
    /** The index file, which keeps the records that a truncation leaves behind. */
    var index: seq<nat>
    var count: nat

    ghost function Repr(): set<object> {
      {this, table, table.header}
    }

    ghost predicate Valid()
      reads Repr()
    {
      table.Valid() && table.Unlimited() && IndexKept(table.rows, index, count)
    }

    /** The block at every height that exists. */
    ghost function View(): map<nat, BlockSlab>
      requires Valid()
      reads Repr()
    {
      ViewOf(table.rows, index, count)
    }

    /** The block a lookup by hash returns. */
    ghost function Newest(): map<Hash, BlockSlab>
      requires Valid()
      reads Repr()
    {
      NewestOf(table.View())
    }

    constructor (buckets: nat, hash: Hash -> nat)
      requires buckets > 0
      ensures Valid() && View() == map[] && Newest() == map[] && count == 0 && fresh(Repr())
    {
      table := new HashTables.HashTable(buckets, hash, 8, EMPTY);
      index, count := [], 0;
    }

    predicate Exists(height: nat)
      requires Valid()
      reads Repr()
      ensures Exists(height) <==> height in View()
    {
      height < count && index[height] != EMPTY
    }

    /** The last height of the index. Stores and truncations say when it exists. */
    function Top(): (r: Option<nat>)
      requires Valid()
      reads Repr()
      ensures r.None? <==> count == 0
      ensures r.None? ==> View() == map[]
      ensures r.Some? ==> forall h :: h in View() ==> h <= r.value
    {
      if count == 0 then None else Some(count - 1)
    }

    /** The top is a block. */
    ghost predicate TopExists()
      requires Valid()
      reads Repr()
    {
      Top().Some? && Top().value in View()
    }

    /** The hash is read in front of the value. */
    function GetAt(height: nat): (r: Option<BlockSlab>)
      requires Valid()
      requires height < count ==> Exists(height)
      reads Repr()
      ensures r == if height in View() then Some(View()[height]) else None
      ensures r.Some? ==> r.value.height == height
    {
      if height >= count then None
      else
        var row := table.rows[index[height] - PREFIX];
        Some(Read(row.key, row.value))
    }

    method GetByHash(hash: Hash) returns (r: Option<BlockSlab>)
      requires Valid()
      ensures r == if hash in Newest() then Some(Newest()[hash]) else None
      ensures r.Some? ==> r.value.hash == hash
    {
      hide HashTables.HashTable.Valid, HashTables.HashTable.View, ViewOf;
      var found := table.Find(hash);
      r := if found.None? then None else Some(Read(hash, table.rows[found.value].value));
    }

    method Store(b: Block, height: nat)
      requires Valid()
      modifies Repr()
      ensures Valid()
      ensures View() == old(View())[height := SlabOf(b, height)]
      ensures Newest() == old(Newest())[b.header.hash := SlabOf(b, height)]
      ensures count == if height < old(count) then old(count) else height + 1
      ensures TopExists() <==> height + 1 >= old(count) || old(TopExists())
    {
      hide ViewOf, NewestOf, ValueOf, Push, HashTables.HashTable.Valid, HashTables.HashTable.View;
      var size: nat :| size > 0;
      StoredNewest(table.View(), b.header.hash, ValueOf(b, height));
      var position := table.Store(b.header.hash, ValueOf(b, height), size);
      WritePosition(position + PREFIX, height);
      StoredView(old(table.rows), table.rows, old(index), old(count), position, b, height, index, count);
    }

    /** Records are appended after the last one in use, over whatever is there. */
    method NewRecords(n: nat)
      requires count <= |index|
      modifies this`index, this`count
      ensures count == old(count) + n <= |index|
      ensures index[..old(count)] == old(index)[..old(count)]
    {
      while |index| < count + n
        invariant count == old(count) <= |index|
        invariant index[..count] == old(index)[..count]
        decreases count + n - |index|
      {
        var fill: nat :| true;
        index := index + [fill];
      }
      count := count + n;
    }

    /** A gap left by an earlier truncation may hold old positions. */
    method Zeroize(first: nat, n: nat)
      requires first + n <= |index|
      modifies this`index
      ensures |index| == |old(index)|
      ensures forall h :: 0 <= h < |index| ==>
                index[h] == if first <= h < first + n then EMPTY else old(index)[h]
    {
      for i := first to first + n
        invariant |index| == |old(index)|
        invariant forall h :: 0 <= h < |index| ==>
                    index[h] == if first <= h < i then EMPTY else old(index)[h]
      {
        index := index[i := EMPTY];
      }
    }

    method WritePosition(position: nat, height: nat)
      requires count <= |index|
      modifies this`index, this`count
      ensures count == if height < old(count) then old(count) else height + 1
      ensures count <= |index|
      ensures forall h :: 0 <= h < count ==>
                index[h] == if h == height then position
                            else if h < old(count) then old(index)[h] else EMPTY
    {
      var initial := count;
      if height + 1 > initial {
        var create := height + 1 - initial;
        NewRecords(create);
        assert forall h :: 0 <= h < initial ==> index[h] == index[..initial][h];
        assert forall h :: 0 <= h < initial ==> old(index)[h] == old(index)[..initial][h];
        Zeroize(initial, create - 1);
      }
      index := index[height := position];
    }

    method Unlink(from: nat) returns (ok: bool)
      requires Valid()
      modifies this`count
      ensures Valid()
      ensures ok == (from < old(count))
      ensures count == if ok then from else old(count)
      ensures View() == map h | h in old(View()) && h < count :: old(View())[h]
      ensures Newest() == old(Newest())
      ensures TopExists() <==> if ok then from > 0 && from - 1 in old(View()) else old(TopExists())
    {
      hide ViewOf, NewestOf, IndexKept, HashTables.HashTable.Valid, HashTables.HashTable.View;
      Truncated(table.rows, index, count, if count > from then from else count);
      if count > from {
        count := from;
        return true;
      }
      return false;
    }

    /** Exactly the missing heights below the top, in ascending order. */
    method Gaps() returns (gaps: seq<nat>)
      requires Valid()
      ensures forall h: nat :: h in gaps <==> h < count && h !in View()
      ensures forall i, j :: 0 <= i < j < |gaps| ==> gaps[i] < gaps[j]
    {
      hide HashTables.HashTable.Valid, HashTables.HashTable.View;
      gaps := [];
      for height := 0 to count
        invariant forall h: nat :: h in gaps <==> h < height && h !in View()
        invariant forall i, j :: 0 <= i < j < |gaps| ==> gaps[i] < gaps[j]
      {
        if index[height] == EMPTY {
          assert forall i :: 0 <= i < |gaps| ==> gaps[i] in gaps;
          gaps := gaps + [height];
        }
      }
    }
  }

  /** A truncation across a gap leaves a top that does not exist. */
  method MissingTop(first: Block, second: Block) returns (blocks: BlockDatabase)
    ensures fresh(blocks) && blocks.Valid() && blocks.View() == map[0 := SlabOf(first, 0)]
    ensures blocks.Top() == Some(2) && !blocks.TopExists()
  {
    hide ViewOf, NewestOf, ValueOf, IndexKept, HashTables.HashTable.Valid, HashTables.HashTable.View;
    blocks := new BlockDatabase(1, h => h);
    blocks.Store(first, 0);
    blocks.Store(second, 5);
    var ok := blocks.Unlink(3);
  }
}
