/** Heap buffers as the offload code handles them: pointers that may be
    null, memcpy, and the mirrored host/coprocessor allocation. */
module Memory {
  import opened Bytes

  /** The bytes a buffer holds; a null buffer holds none. */
  function Contents(buf: array?<byte>): seq<byte>
    reads buf
  {
    if buf == null then [] else buf[..]
  }

  /** A buffer pointer and the capacity kept beside it agree: null with
      capacity zero, or an allocation of exactly that many bytes. */
  predicate Holds(buf: array?<byte>, cap: nat)
  {
    (buf == null ==> cap == 0) && (buf != null ==> buf.Length == cap)
  }

  /** The first n bytes of a source buffer: what a packet_buffer {p, n}
      hands to packdata. */
  function Take(src: seq<byte>, n: nat): (r: seq<byte>)
    requires n <= |src|
    ensures |r| == n
  {
    src[..n]
  }

  /** memcpy(dst + at, src, |src|). A copy of no bytes may name a null
      destination. */
  method Memcpy(dst: array?<byte>, at: nat, src: seq<byte>)
    requires at + |src| <= |Contents(dst)|
    modifies dst
    ensures Contents(dst) == Store(old(Contents(dst)), at, src)
  {
    if dst != null {
      forall i | 0 <= i < |src| {
        dst[at + i] := src[i];
      }
      assert dst[..] == Store(old(dst[..]), at, src);
    }
  }

  /** mmalloc(s, &off_ptr): a zeroed, 64-byte aligned host allocation and
      its coprocessor mirror, both of s bytes. */
  method Mmalloc(s: nat) returns (p: array<byte>, offPtr: array<byte>)
    ensures fresh(p) && fresh(offPtr) && p != offPtr
    ensures p[..] == Zeros(s) && offPtr[..] == Zeros(s)
  {
    p := new byte[s](_ => 0);
    offPtr := new byte[s](_ => 0);
  }

  /** The copy an offload clause in(src[0:n] : into(dst[0:n])) or
      out(src[0:n] : into(dst[0:n])) makes between host and coprocessor:
      the first n bytes of src over the first n of dst. */
  method Transfer(src: array<byte>, dst: array<byte>, n: nat)
    requires n <= src.Length && n <= dst.Length && src != dst
    modifies dst
    ensures dst[..n] == src[..n] && dst[n..] == old(dst[n..])
  {
    forall i | 0 <= i < n {
      dst[i] := src[i];
    }
  }

  /** No two non-null pointers of the sequence designate the same buffer. */
  predicate Disjoint(bufs: seq<array?<byte>>)
  {
    forall i, j :: 0 <= i < j < |bufs| && bufs[i] != null ==> bufs[i] != bufs[j]
  }

  /** Replacing one pointer by a fresh allocation keeps the buffers apart. */
  lemma DisjointUpdate(bufs: seq<array?<byte>>, i: nat, b: array<byte>)
    requires Disjoint(bufs) && i < |bufs| && b !in bufs
    ensures Disjoint(bufs[i := b])
  {
  }
}
