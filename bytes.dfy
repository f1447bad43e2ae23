/** Raw memory as the offload code sees it: bytes, and the machine words
    (size_t, int) that the packet table and the transported structs hold.
    The target is little-endian (x86 host and Xeon Phi coprocessor). */
module Bytes {

  newtype byte = b: int | 0 <= b < 256

  /** sizeof(size_t) */
  const WORD_BYTES: nat := 8
  /** sizeof(int) */
  const INT_BYTES: nat := 4

  function Pow256(k: nat): (r: nat)
    ensures r >= 1
  {
    if k == 0 then 1 else 256 * Pow256(k - 1)
  }

  /** Unsigned little-endian value of a byte string. */
  function Decode(bs: seq<byte>): (r: nat)
    ensures r < Pow256(|bs|)
  {
    if bs == [] then 0 else bs[0] as nat + 256 * Decode(bs[1..])
  }

  /** The k low-order bytes of x, little-endian (a store to a k-byte field:
      higher bits are cut off, as an unsigned C store does). */
  function Encode(x: nat, k: nat): (r: seq<byte>)
    ensures |r| == k
  {
    if k == 0 then [] else [(x % 256) as byte] + Encode(x / 256, k - 1)
  }

  /** Reading back a stored value gives the value, when it fits the field. */
  lemma {:induction false} DecodeEncode(x: nat, k: nat)
    requires x < Pow256(k)
    ensures Decode(Encode(x, k)) == x
  {
    if k > 0 {
      var e := Encode(x, k);
      assert e[1..] == Encode(x / 256, k - 1);
      DecodeEncode(x / 256, k - 1);
    }
  }

  /** Every value a field can hold is the value of some store into it. */
  lemma {:induction false} EncodeDecode(bs: seq<byte>)
    ensures Encode(Decode(bs), |bs|) == bs
  {
    if bs != [] {
      var x := Decode(bs);
      assert x % 256 == bs[0] as nat;
      assert x / 256 == Decode(bs[1..]);
      EncodeDecode(bs[1..]);
    }
  }

  /** The size_t stored at byte position pos. */
  function Word(s: seq<byte>, pos: nat): nat
    requires pos + WORD_BYTES <= |s|
  {
    Decode(s[pos..pos + WORD_BYTES])
  }

  /** The (non-negative) int stored at byte position pos. */
  function IntField(s: seq<byte>, pos: nat): nat
    requires pos + INT_BYTES <= |s|
  {
    Decode(s[pos..pos + INT_BYTES])
  }

  /** The largest size_t plus one. */
  function WordLimit(): nat
  {
    Pow256(WORD_BYTES)
  }

  /** s with bs stored at position at (a memcpy into a byte region). */
  function Store(s: seq<byte>, at: nat, bs: seq<byte>): (r: seq<byte>)
    requires at + |bs| <= |s|
    ensures |r| == |s|
    ensures r[at..at + |bs|] == bs
  {
    s[..at] + bs + s[at + |bs|..]
  }

  /** Zero bytes, as a fresh zero-initialised allocation holds. */
  function Zeros(n: nat): (r: seq<byte>)
    ensures |r| == n
    ensures forall i :: 0 <= i < n ==> r[i] == 0
  {
    seq(n, _ => 0)
  }

  /** A slice inside a prefix is the same slice of the whole. */
  lemma SliceOfPrefix(s: seq<byte>, front: seq<byte>, lo: nat, hi: nat)
    requires |front| <= |s| && s[..|front|] == front && lo <= hi <= |front|
    ensures s[lo..hi] == front[lo..hi]
  {
    assert forall i :: lo <= i < hi ==> s[i] == s[..|front|][i];
  }

  /** Two byte strings agree on the positions lo..hi. */
  lemma SliceEqual(s: seq<byte>, t: seq<byte>, lo: nat, hi: nat)
    requires lo <= hi <= |s| && hi <= |t|
    requires forall i :: lo <= i < hi ==> s[i] == t[i]
    ensures s[lo..hi] == t[lo..hi]
  {
  }
}
