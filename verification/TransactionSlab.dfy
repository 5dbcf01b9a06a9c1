/** The bytes of a stored transaction, and the walks over its outputs:

      height:4  position:4  version and locktime:8
      output count  [ spender height:4  value:8  script size  script ] ...
      inputs

    Counts and script sizes have one, three, five or nine bytes. */
module TransactionSlabs {
  import opened Wrappers
  import opened ChainTypes
  import opened LittleEndian
  import TransactionTable

  type Slab = TransactionTable.Slab

  // -------------------------------------------------------------- size prefixes

  lemma {:induction false} FitsFour(n: nat)
    ensures Fits(n, 4) <==> n <= MAX_UINT32
  {
    var n1 := n / 256;
    var n2 := n1 / 256;
    var n3 := n2 / 256;
    assert Fits(n, 4) == Fits(n1, 3) == Fits(n2, 2) == Fits(n3, 1) == Fits(n3 / 256, 0);
    assert n3 / 256 == 0 <==> n3 < 256;
  }

  lemma {:induction false} FitsTwo(n: nat)
    ensures Fits(n, 2) <==> n <= 0xffff
  {
    assert Fits(n, 2) == Fits(n / 256, 1) == Fits(n / 256 / 256, 0);
  }

  /** The size prefix. */
  function Size(n: nat): Bytes {
    if n < 0xfd then [n]
    else if n <= 0xffff then [0xfd] + Little(n, 2)
    else if n <= MAX_UINT32 then [0xfe] + Little(n, 4)
    else [0xff] + Little(n, 8)
  }

  /** How many bytes the size prefix that starts with b has. */
  function SizeWidth(b: Byte): nat {
    if b < 0xfd then 1 else if b == 0xfd then 3 else if b == 0xfe then 5 else 9
  }

  /** Reads the size prefix at a position. */
  function SizeAt(s: Bytes, at: nat): nat
    requires at < |s| && at + SizeWidth(s[at]) <= |s|
  {
    if s[at] < 0xfd then s[at] else FromLittle(s[at + 1..at + SizeWidth(s[at])])
  }

  lemma {:induction false} SizeShape(n: nat)
    ensures |Size(n)| > 0 && SizeWidth(Size(n)[0]) == |Size(n)|
  {
  }

  /** A size prefix is read back, whatever surrounds it. */
  lemma {:induction false} SizeRoundTrip(before: Bytes, n: nat, after: Bytes)
    requires Fits(n, 8)
    ensures var s, at := before + Size(n) + after, |before|;
            at < |s| && SizeWidth(s[at]) == |Size(n)| && at + |Size(n)| <= |s| && SizeAt(s, at) == n
  {
    SizeShape(n);
    var s, at := before + Size(n) + after, |before|;
    assert s[at] == Size(n)[0];
    assert s[at + 1..at + |Size(n)|] == Size(n)[1..];
    FitsTwo(n);
    FitsFour(n);
    if 0xfd <= n <= 0xffff {
      LittleRoundTrip(n, 2);
      assert Size(n)[1..] == Little(n, 2);
    } else if 0xffff < n <= MAX_UINT32 {
      LittleRoundTrip(n, 4);
      assert Size(n)[1..] == Little(n, 4);
    } else if n > MAX_UINT32 {
      LittleRoundTrip(n, 8);
      assert Size(n)[1..] == Little(n, 8);
    }
  }

  // ----------------------------------------------------------------- transactions

  datatype SlabOutput = SlabOutput(spender: nat, value: nat, script: Bytes)

  /** A stored transaction; `rest` are its serialized inputs. */
  datatype SlabTx = SlabTx(height: nat, position: nat, versionLock: Bytes, outputs: seq<SlabOutput>, rest: Bytes)

  predicate OutputFits(o: SlabOutput) {
    o.spender <= MAX_UINT32 && Fits(o.value, 8) && Fits(|o.script|, 8)
  }

  predicate TxFits(t: SlabTx) {
    && t.height <= MAX_UINT32 && t.position <= MAX_UINT32 && |t.versionLock| == 8
    && Fits(|t.outputs|, 8)
    && forall i :: 0 <= i < |t.outputs| ==> OutputFits(t.outputs[i])
  }

  /** An output without its spender height. */
  function OutputTail(o: SlabOutput): Bytes {
    Little(o.value, 8) + Size(|o.script|) + o.script
  }

  function EncodeOutput(o: SlabOutput): Bytes {
    Little(o.spender, 4) + OutputTail(o)
  }

  function EncodeOutputs(os: seq<SlabOutput>): Bytes {
    if os == [] then [] else EncodeOutputs(os[..|os| - 1]) + EncodeOutput(os[|os| - 1])
  }

  function Prefix(t: SlabTx): Bytes {
    Little(t.height, 4) + Little(t.position, 4) + t.versionLock + Size(|t.outputs|)
  }

  function Encode(t: SlabTx): Bytes {
    Prefix(t) + EncodeOutputs(t.outputs) + t.rest
  }

  /** Where output i starts. */
  function OffsetOf(t: SlabTx, i: nat): nat
    requires i <= |t.outputs|
  {
    |Prefix(t)| + |EncodeOutputs(t.outputs[..i])|
  }

  function Spent(t: SlabTx, index: nat, height: nat): SlabTx
    requires index < |t.outputs|
  {
    t.(outputs := t.outputs[index := t.outputs[index].(spender := height)])
  }

  /** The bytes after output i. */
  function After(t: SlabTx, i: nat): Bytes
    requires i < |t.outputs|
  {
    EncodeOutputs(t.outputs[i + 1..]) + t.rest
  }

  lemma {:induction false} EncodeConcat(a: seq<SlabOutput>, b: seq<SlabOutput>)
    ensures EncodeOutputs(a + b) == EncodeOutputs(a) + EncodeOutputs(b)
  {
    hide EncodeOutput;
    if b == [] {
      assert a + b == a;
    } else {
      var n := |b| - 1;
      assert (a + b)[..|a + b| - 1] == a + b[..n];
      EncodeConcat(a, b[..n]);
    }
  }

  lemma {:induction false} EncodeStep(os: seq<SlabOutput>, i: nat)
    requires i < |os|
    ensures EncodeOutputs(os[..i + 1]) == EncodeOutputs(os[..i]) + EncodeOutput(os[i])
  {
    assert os[..i + 1][..i] == os[..i];
  }

  lemma {:induction false} Regroup(a: Bytes, b: Bytes, c: Bytes, d: Bytes, e: Bytes)
    ensures a + (b + c + d) + e == (a + b) + c + (d + e)
  {
  }

  /** The slab around output i. */
  lemma {:induction false} EncodeAt(t: SlabTx, i: nat)
    requires i < |t.outputs|
    ensures Encode(t) == (Prefix(t) + EncodeOutputs(t.outputs[..i])) + EncodeOutput(t.outputs[i]) + After(t, i)
    ensures OffsetOf(t, i + 1) == OffsetOf(t, i) + |EncodeOutput(t.outputs[i])|
  {
    var os := t.outputs;
    assert os == os[..i + 1] + os[i + 1..];
    EncodeConcat(os[..i + 1], os[i + 1..]);
    EncodeStep(os, i);
    hide EncodeOutputs, EncodeOutput, Prefix;
    Regroup(Prefix(t), EncodeOutputs(os[..i]), EncodeOutput(os[i]), EncodeOutputs(os[i + 1..]), t.rest);
  }

  /** Four parts in the middle of a sequence, each cut out again. */
  lemma {:induction false} Parts(s: Bytes, before: Bytes, a: Bytes, b: Bytes, c: Bytes, d: Bytes, after: Bytes)
    requires s == before + (a + (b + c + d)) + after
    ensures var at := |before|;
            && at + |a| + |b| + |c| + |d| <= |s|
            && s[..at] == before
            && s[at..at + |a|] == a
            && s[at + |a|..at + |a| + |b|] == b
            && s[at + |a| + |b| + |c|..at + |a| + |b| + |c| + |d|] == d
            && s[at + |a|..] == (b + c + d) + after
            && s == (before + a + b) + c + (d + after)
  {
  }

  /** What each word of output i reads as. */
  lemma {:induction false} ReadOutput(t: SlabTx, i: nat)
    requires TxFits(t) && i < |t.outputs|
    ensures var s, at, o := Encode(t), OffsetOf(t, i), t.outputs[i];
            var script := at + 12 + |Size(|o.script|)|;
            && script + |o.script| == OffsetOf(t, i + 1) <= |s|
            && FromLittle(s[at..at + 4]) == o.spender
            && FromLittle(s[at + 4..at + 12]) == o.value
            && at + 12 + SizeWidth(s[at + 12]) == script
            && SizeAt(s, at + 12) == |o.script|
            && s[script..script + |o.script|] == o.script
  {
    hide *;
    var s, at, o := Encode(t), OffsetOf(t, i), t.outputs[i];
    var before, after := Prefix(t) + EncodeOutputs(t.outputs[..i]), After(t, i);
    var a, b, c := Little(o.spender, 4), Little(o.value, 8), Size(|o.script|);
    EncodeAt(t, i);
    OutputParts(t, i);
    FitsFour(o.spender);
    LittleRoundTrip(o.spender, 4);
    LittleRoundTrip(o.value, 8);
    Parts(s, before, a, b, c, o.script, after);
    SizeRoundTrip(before + a + b, |o.script|, o.script + after);
  }

  lemma {:induction false} OutputParts(t: SlabTx, i: nat)
    requires TxFits(t) && i < |t.outputs|
    ensures var o := t.outputs[i];
            && OutputFits(o) && o.spender <= MAX_UINT32 && Fits(o.value, 8) && Fits(|o.script|, 8)
            && EncodeOutput(o) == Little(o.spender, 4) + (Little(o.value, 8) + Size(|o.script|) + o.script)
            && OffsetOf(t, i) == |Prefix(t) + EncodeOutputs(t.outputs[..i])|
  {
    assert OutputFits(t.outputs[i]);
  }

  /** What the head of a slab reads as. */
  lemma {:induction false} ReadHead(t: SlabTx)
    requires TxFits(t)
    ensures var s := Encode(t);
            && |Prefix(t)| == 16 + |Size(|t.outputs|)| <= |s|
            && OffsetOf(t, 0) == |Prefix(t)|
            && FromLittle(s[0..4]) == t.height
            && FromLittle(s[4..8]) == t.position
            && 16 + SizeWidth(s[16]) == |Prefix(t)|
            && SizeAt(s, 16) == |t.outputs|
  {
    var s, n := Encode(t), |t.outputs|;
    var after := EncodeOutputs(t.outputs) + t.rest;
    assert EncodeOutputs(t.outputs[..0]) == [];
    hide EncodeOutputs, Little, Size, Fits, FromLittle, SizeWidth, SizeAt;
    FitsFour(t.height);
    FitsFour(t.position);
    LittleRoundTrip(t.height, 4);
    LittleRoundTrip(t.position, 4);
    assert s[0..4] == Little(t.height, 4);
    assert s[4..8] == Little(t.position, 4);
    SizeRoundTrip(Little(t.height, 4) + Little(t.position, 4) + t.versionLock, n, after);
    assert s == (Little(t.height, 4) + Little(t.position, 4) + t.versionLock) + Size(n) + after;
  }

  /** Overwriting the first word of an output re-encodes the transaction. */
  lemma {:induction false} SpentBytes(t: SlabTx, i: nat, height: nat, s: Bytes)
    requires i < |t.outputs|
    requires OffsetOf(t, i) + 4 <= |Encode(t)|
    requires s == Encode(t)[..OffsetOf(t, i)] + Little(height, 4) + Encode(t)[OffsetOf(t, i) + 4..]
    ensures s == Encode(Spent(t, i, height))
  {
    var u, at, o := Spent(t, i, height), OffsetOf(t, i), t.outputs[i];
    var before, after := Prefix(t) + EncodeOutputs(t.outputs[..i]), After(t, i);
    SpentParts(t, i, height);
    hide *;
    EncodeAt(t, i);
    EncodeAt(u, i);
    Parts(Encode(t), before, Little(o.spender, 4), Little(o.value, 8), Size(|o.script|), o.script, after);
    Reassemble(before, Little(height, 4), OutputTail(o), after);
  }

  lemma {:induction false} Reassemble(before: Bytes, a: Bytes, tail: Bytes, after: Bytes)
    ensures before + a + (tail + after) == before + (a + tail) + after
  {
  }

  lemma {:induction false} SpentParts(t: SlabTx, i: nat, height: nat)
    requires i < |t.outputs|
    ensures var u, o := Spent(t, i, height), t.outputs[i];
            && |u.outputs| == |t.outputs|
            && Prefix(u) == Prefix(t)
            && u.outputs[..i] == t.outputs[..i] && After(u, i) == After(t, i)
            && EncodeOutput(u.outputs[i]) == Little(height, 4) + OutputTail(o)
            && EncodeOutput(o) == Little(o.spender, 4) + OutputTail(o)
            && OutputTail(o) == Little(o.value, 8) + Size(|o.script|) + o.script
            && OffsetOf(t, i) == |Prefix(t) + EncodeOutputs(t.outputs[..i])|
  {
    hide Little, Size, EncodeOutputs;
    var u := Spent(t, i, height);
    assert u.outputs[..i] == t.outputs[..i] && u.outputs[i + 1..] == t.outputs[i + 1..];
  }

  // ------------------------------------------------------------------ the methods

  /** Writes a word in place. */
  method WriteFour(slab: array<Byte>, at: nat, n: nat)
    requires at + 4 <= slab.Length
    modifies slab
    ensures slab[..] == old(slab[..at]) + Little(n, 4) + old(slab[at + 4..])
  {
    ghost var word := Little(n, 4);
    assert word == [n % 256, n / 256 % 256, n / 256 / 256 % 256, n / 256 / 256 / 256 % 256] by {
      assert Little(n, 4) == [n % 256] + Little(n / 256, 3);
      assert Little(n / 256, 3) == [n / 256 % 256] + Little(n / 256 / 256, 2);
      assert Little(n / 256 / 256, 2) == [n / 256 / 256 % 256] + Little(n / 256 / 256 / 256, 1);
    }
    slab[at] := n % 256;
    slab[at + 1] := n / 256 % 256;
    slab[at + 2] := n / 256 / 256 % 256;
    slab[at + 3] := n / 256 / 256 / 256 % 256;
  }

  /** Walks to an output. */
  method Seek(slab: array<Byte>, index: nat, ghost t: SlabTx) returns (ok: bool, at: nat)
    requires TxFits(t) && slab[..] == Encode(t)
    ensures ok == (index < |t.outputs|)
    ensures ok ==> at == OffsetOf(t, index)
  {
    hide Encode, OffsetOf, TxFits, SizeAt, SizeWidth;
    ReadHead(t);
    var outputs := SizeAt(slab[..], 16);
    at := 16 + SizeWidth(slab[16]);
    if index >= outputs {
      return false, at;
    }
    for output := 0 to index
      invariant at == OffsetOf(t, output)
    {
      ReadOutput(t, output);
      at := at + 12;
      at := at + SizeWidth(slab[at]) + SizeAt(slab[..], at);
    }
    ok := true;
  }

  /** Changes exactly the four bytes of one output's spender height. */
  method Spend(slab: array<Byte>, index: nat, height: nat, ghost t: SlabTx) returns (ok: bool)
    requires TxFits(t) && slab[..] == Encode(t) && height <= MAX_UINT32
    modifies slab
    ensures ok == (index < |t.outputs|)
    ensures !ok ==> slab[..] == Encode(t)
    ensures ok ==> TxFits(Spent(t, index, height)) && slab[..] == Encode(Spent(t, index, height))
    ensures ok ==> forall i :: 0 <= i < slab.Length && !(OffsetOf(t, index) <= i < OffsetOf(t, index) + 4) ==>
              slab[i] == old(slab[i])
  {
    hide Encode, OffsetOf, Little;
    var at;
    ok, at := Seek(slab, index, t);
    if !ok {
      return;
    }
    ReadOutput(t, index);
    WriteFour(slab, at, height);
    SpentBytes(t, index, height, slab[..]);
    assert forall i :: 0 <= i < slab.Length && !(at <= i < at + 4) ==> slab[..][i] == old(slab[..])[i];
  }

  /** Writes height and position, as confirm and unconfirm do; nothing else
      changes. */
  method Place(slab: array<Byte>, height: nat, position: nat, ghost t: SlabTx)
    requires TxFits(t) && slab[..] == Encode(t) && height <= MAX_UINT32 && position <= MAX_UINT32
    modifies slab
    ensures TxFits(t.(height := height, position := position))
    ensures slab[..] == Encode(t.(height := height, position := position))
  {
    hide *;
    PlacedBytes(t, height, position);
    WriteFour(slab, 0, height);
    WriteFour(slab, 4, position);
  }

  lemma {:induction false} PlacedBytes(t: SlabTx, height: nat, position: nat)
    requires TxFits(t) && height <= MAX_UINT32 && position <= MAX_UINT32
    ensures var u, s := t.(height := height, position := position), Encode(t);
            && TxFits(u) && |s| >= 8
            && var first := s[..0] + Little(height, 4) + s[0 + 4..];
               |first| >= 8 && Encode(u) == first[..4] + Little(position, 4) + first[4 + 4..]
  {
    var u := t.(height := height, position := position);
    var tail := t.versionLock + Size(|t.outputs|) + EncodeOutputs(t.outputs) + t.rest;
    PlacedFits(t, height, position);
    EncodeHead(t);
    EncodeHead(u);
    hide *;
    TwoWords(Little(t.height, 4), Little(t.position, 4), Little(height, 4), Little(position, 4), tail);
  }

  lemma {:induction false} EncodeHead(t: SlabTx)
    ensures Encode(t) == Little(t.height, 4) + Little(t.position, 4) +
                         (t.versionLock + Size(|t.outputs|) + EncodeOutputs(t.outputs) + t.rest)
  {
    hide Little, Size, EncodeOutputs;
  }

  lemma {:induction false} TwoWords(a: Bytes, b: Bytes, c: Bytes, d: Bytes, tail: Bytes)
    requires |a| == |b| == |c| == |d| == 4
    ensures var s := a + b + tail;
            var first := s[..0] + c + s[0 + 4..];
            |s| >= 8 && |first| >= 8 && first[..4] + d + first[4 + 4..] == c + d + tail
  {
  }

  lemma {:induction false} PlacedFits(t: SlabTx, height: nat, position: nat)
    requires TxFits(t) && height <= MAX_UINT32 && position <= MAX_UINT32
    ensures TxFits(t.(height := height, position := position))
  {
  }

  /** Undoing a spend leaves the bytes of a slab whose output was unspent. */
  method SpendThenUnspend(slab: array<Byte>, index: nat, height: nat, ghost t: SlabTx)
    requires TxFits(t) && slab[..] == Encode(t) && height <= MAX_UINT32
    requires index < |t.outputs| && t.outputs[index].spender == NOT_SPENT
    modifies slab
    ensures slab[..] == old(slab[..])
  {
    var ok := Spend(slab, index, height, t);
    ok := Spend(slab, index, NOT_SPENT, Spent(t, index, height));
    assert Spent(Spent(t, index, height), index, NOT_SPENT) == t;
  }

  /** Whether the transaction is confirmed and each output is spent at or below
      the fork height. */
  method IsSpent(slab: array<Byte>, fork: nat, ghost t: SlabTx) returns (spent: bool)
    requires TxFits(t) && slab[..] == Encode(t)
    ensures spent <==>
              && t.position != UNCONFIRMED
              && forall i :: 0 <= i < |t.outputs| ==>
                   t.outputs[i].spender != NOT_SPENT && t.outputs[i].spender <= fork
  {
    hide Encode, OffsetOf, TxFits, SizeAt, SizeWidth, FromLittle;
    ReadHead(t);
    var bytes := slab[..];
    if FromLittle(bytes[4..8]) == UNCONFIRMED {
      return false;
    }
    var outputs := SizeAt(bytes, 16);
    var at := 16 + SizeWidth(bytes[16]);
    for output := 0 to outputs
      invariant at == OffsetOf(t, output)
      invariant forall i :: 0 <= i < output ==>
                  t.outputs[i].spender != NOT_SPENT && t.outputs[i].spender <= fork
    {
      ReadOutput(t, output);
      var spender := FromLittle(bytes[at..at + 4]);
      if spender == NOT_SPENT || spender > fork {
        return false;
      }
      at := at + 12;
      at := at + SizeWidth(bytes[at]) + SizeAt(bytes, at);
    }
    spent := true;
  }

  /** The output of an index, or none beyond the last. */
  method OutputOf(slab: array<Byte>, index: nat, ghost t: SlabTx) returns (r: Option<SlabOutput>)
    requires TxFits(t) && slab[..] == Encode(t)
    ensures r == if index < |t.outputs| then Some(t.outputs[index]) else None
  {
    hide Encode, OffsetOf, TxFits, SizeAt, SizeWidth, FromLittle;
    var ok, at := Seek(slab, index, t);
    if !ok {
      return None;
    }
    ReadOutput(t, index);
    var bytes := slab[..];
    var script := at + 12 + SizeWidth(bytes[at + 12]);
    var length := SizeAt(bytes, at + 12);
    r := Some(SlabOutput(FromLittle(bytes[at..at + 4]), FromLittle(bytes[at + 4..at + 12]),
                         bytes[script..script + length]));
  }

  // ------------------------------------------------ the slabs of the transaction table

  /** A transaction and a slab of the table say the same, where `addressOf` stands for
      the address extracted from a script. */
  predicate Represents(t: SlabTx, s: Slab, addressOf: Bytes -> Option<Address>) {
    && t.height == s.height && t.position == s.position
    && |t.outputs| == |s.tx.outputs|
    && forall i :: 0 <= i < |t.outputs| ==>
         s.tx.outputs[i] == Output(t.outputs[i].spender, t.outputs[i].value, addressOf(t.outputs[i].script))
  }

  /** The bytes hold a slab of the table. */
  ghost predicate Stores(bytes: Bytes, s: Slab, addressOf: Bytes -> Option<Address>) {
    exists t :: TxFits(t) && bytes == Encode(t) && Represents(t, s, addressOf)
  }

  /** Spending in the bytes is spending in the table. */
  method SpendSlab(slab: array<Byte>, index: nat, height: nat, ghost s: Slab, ghost addressOf: Bytes -> Option<Address>)
    returns (ok: bool)
    requires Stores(slab[..], s, addressOf) && height <= MAX_UINT32
    modifies slab
    ensures ok == (index < |s.tx.outputs|)
    ensures Stores(slab[..], if ok then s.(tx := TransactionTable.SetSpender(s.tx, index, height)) else s, addressOf)
  {
    hide TxFits, Encode;
    ghost var t :| TxFits(t) && slab[..] == Encode(t) && Represents(t, s, addressOf);
    ok := Spend(slab, index, height, t);
    if ok {
      assert Represents(Spent(t, index, height), s.(tx := TransactionTable.SetSpender(s.tx, index, height)), addressOf);
    }
  }

  /** So are confirming and unconfirming. */
  method PlaceSlab(slab: array<Byte>, height: nat, position: nat, ghost s: Slab,
                   ghost addressOf: Bytes -> Option<Address>)
    requires Stores(slab[..], s, addressOf) && height <= MAX_UINT32 && position <= MAX_UINT32
    modifies slab
    ensures Stores(slab[..], s.(height := height, position := position), addressOf)
  {
    hide TxFits, Encode;
    ghost var t :| TxFits(t) && slab[..] == Encode(t) && Represents(t, s, addressOf);
    Place(slab, height, position, t);
    assert Represents(t.(height := height, position := position), s.(height := height, position := position), addressOf);
  }

  /** Reading the bytes answers what the table answers. */
  method IsSpentSlab(slab: array<Byte>, fork: nat, ghost s: Slab, ghost addressOf: Bytes -> Option<Address>)
    returns (spent: bool)
    requires Stores(slab[..], s, addressOf)
    ensures spent == TransactionTable.IsSpent(s, fork)
  {
    hide TxFits, Encode;
    ghost var t :| TxFits(t) && slab[..] == Encode(t) && Represents(t, s, addressOf);
    spent := IsSpent(slab, fork, t);
  }

  method OutputOfSlab(slab: array<Byte>, index: nat, ghost s: Slab, addressOf: Bytes -> Option<Address>)
    returns (r: Option<Output>)
    requires Stores(slab[..], s, addressOf)
    ensures r == if index < |s.tx.outputs| then Some(s.tx.outputs[index]) else None
  {
    hide TxFits, Encode;
    ghost var t :| TxFits(t) && slab[..] == Encode(t) && Represents(t, s, addressOf);
    var read := OutputOf(slab, index, t);
    r := if read.None? then None
         else Some(Output(read.value.spender, read.value.value, addressOf(read.value.script)));
  }
}
