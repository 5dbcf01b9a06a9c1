/** A memory-mapped file. The file grows by more than was asked for, so that it
    is not remapped often; closing it cuts it back to the size that was asked
    for last. */
module MemoryMaps {
  import opened LittleEndian

  /** What a request for `size` bytes leaves of a file. */
  function Resized(file: Bytes, size: nat, expansion: nat): (r: Bytes)
    ensures file <= r && |r| >= size
    ensures |r| > |file| <==> |file| < size
    ensures |file| < size ==> |r| * 100 <= size * (100 + expansion) < (|r| + 1) * 100
    ensures forall i :: |file| <= i < |r| ==> r[i] == 0
  {
    if size <= |file| then file
    else
      var target := size * (expansion + 100) / 100;
      Enough(size, expansion);
      Hundredth(size * (expansion + 100));
      file + seq(target - |file|, i => 0)
  }

  lemma {:induction false} Enough(size: nat, expansion: nat)
    ensures size * (expansion + 100) / 100 >= size
  {
    assert size * (expansion + 100) == size * expansion + size * 100;
    assert size * expansion >= 0;
  }

  lemma {:induction false} Hundredth(n: nat)
    ensures n / 100 * 100 <= n < (n / 100 + 1) * 100
  {
  }

  class MemoryMap {
    const expansion: nat
    var bytes: Bytes    // the mapped file; its length is the file size
    var logical: nat    // the size that was asked for last
    var closed: bool

    ghost predicate Valid()
      reads this
    {
      logical <= |bytes|
    }

    constructor (file: Bytes, expansion: nat)
      ensures Valid() && closed && bytes == file && logical == |file| && this.expansion == expansion
    {
      this.expansion := expansion;
      bytes := file;
      logical := |file|;
      closed := true;
    }

    /** An empty file cannot be mapped, and an open one is not opened again. */
    method Open() returns (ok: bool)
      modifies this`closed
      ensures ok == (old(closed) && |bytes| > 0)
      ensures closed == (old(closed) && !ok)
    {
      ok := closed && |bytes| > 0;
      if ok {
        closed := false;
      }
    }

    /** False stands for the exception thrown once the file is closed. */
    method Grow(size: nat, expansion: nat) returns (ok: bool)
      requires Valid()
      modifies this`bytes, this`logical
      ensures Valid() && ok == !closed
      ensures ok ==> logical == size && bytes == Resized(old(bytes), size, expansion)
      ensures !ok ==> logical == old(logical) && bytes == old(bytes)
    {
      if closed {
        return false;
      }
      if size > |bytes| {
        bytes := Resized(bytes, size, expansion);
      }
      logical := size;
      return true;
    }

    method Reserve(size: nat) returns (ok: bool)
      requires Valid()
      modifies this`bytes, this`logical
      ensures Valid() && ok == !closed
      ensures ok ==> logical == size && bytes == Resized(old(bytes), size, expansion)
      ensures !ok ==> logical == old(logical) && bytes == old(bytes)
    {
      ok := Grow(size, expansion);
    }

    method Resize(size: nat) returns (ok: bool)
      requires Valid()
      modifies this`bytes, this`logical
      ensures Valid() && ok == !closed
      ensures ok ==> logical == size && bytes == Resized(old(bytes), size, 0)
      ensures ok && old(|bytes|) < size ==> |bytes| == size
      ensures !ok ==> logical == old(logical) && bytes == old(bytes)
    {
      ok := Grow(size, 0);
    }

    /** Writes through the mapping. */
    method Put(at: nat, word: Bytes)
      requires at + |word| <= |bytes|
      modifies this`bytes
      ensures bytes == Splice(old(bytes), at, word)
    {
      bytes := Splice(bytes, at, word);
    }

    /** The file keeps the logical bytes; closing twice changes nothing. */
    method Close()
      requires Valid()
      modifies this`bytes, this`closed
      ensures Valid() && closed
      ensures bytes == if old(closed) then old(bytes) else old(bytes)[..logical]
    {
      if !closed {
        bytes := bytes[..logical];
        closed := true;
      }
    }
  }
}
