/** Unsigned integers as bytes, lowest byte first. */
module LittleEndian {
  type Byte = b: nat | b < 256
  type Bytes = seq<Byte>

  /** n fits in w bytes. */
  predicate Fits(n: nat, w: nat) {
    if w == 0 then n == 0 else Fits(n / 256, w - 1)
  }

  /** Little-endian, lowest byte first. */
  function Little(n: nat, w: nat): (r: Bytes)
    ensures |r| == w
  {
    if w == 0 then [] else [n % 256] + Little(n / 256, w - 1)
  }

  function FromLittle(s: Bytes): nat {
    if s == [] then 0 else s[0] + 256 * FromLittle(s[1..])
  }

  lemma {:induction false} LittleRoundTrip(n: nat, w: nat)
    requires Fits(n, w)
    ensures FromLittle(Little(n, w)) == n
  {
    if w > 0 {
      LittleRoundTrip(n / 256, w - 1);
      assert Little(n, w)[1..] == Little(n / 256, w - 1);
    }
  }

  /** What is read from w bytes fits in w bytes. */
  lemma {:induction false} LittleFits(s: Bytes)
    ensures Fits(FromLittle(s), |s|)
  {
    if s != [] {
      LittleFits(s[1..]);
    }
  }

  /** Overwrites bytes in the middle of a file. */
  function Splice(s: Bytes, at: nat, word: Bytes): (r: Bytes)
    requires at + |word| <= |s|
    ensures |r| == |s| && r[at..at + |word|] == word
    ensures forall i :: 0 <= i < |s| && !(at <= i < at + |word|) ==> r[i] == s[i]
  {
    s[..at] + word + s[at + |word|..]
  }
}
