/** refresh_buffer: how the coprocessor keeps its own copy of a buffer that
    the host sends only when it changed.  The .cpp template and the older
    void* version in the .c file behave the same way. */
module Refresh {
  import opened Bytes
  import opened PackData
  import opened Memory

  /** The capacity refresh_buffer leaves behind for a record of `size` bytes
      when the buffer held `bsize`: unchanged when the record is empty or
      fits, twice the record otherwise.  It never shrinks, and a non-empty
      record always fits afterwards. */
  function GrownCapacity(size: nat, bsize: nat): (r: nat)
    ensures r >= bsize && r >= size
    ensures r > bsize <==> size > bsize
  {
    if size <= bsize then bsize else 2 * size
  }

  /** A record that arrives again with the same size causes no second
      allocation. */
  lemma GrownCapacityIdempotent(size: nat, bsize: nat)
    ensures GrownCapacity(size, GrownCapacity(size, bsize)) == GrownCapacity(size, bsize)
  {
  }

  /** The capacity left by a run of refreshes, one record size per step. */
  function CapacityAfter(sizes: seq<nat>, bsize: nat): nat
  {
    if sizes == [] then bsize else GrownCapacity(sizes[|sizes| - 1], CapacityAfter(sizes[..|sizes| - 1], bsize))
  }

  /** Over any run of refreshes the capacity holds the largest record seen,
      and never drops below where it started. */
  lemma {:induction false} CapacityAfterCovers(sizes: seq<nat>, bsize: nat)
    ensures CapacityAfter(sizes, bsize) >= bsize
    ensures forall i :: 0 <= i < |sizes| ==> CapacityAfter(sizes, bsize) >= sizes[i]
  {
    if sizes != [] {
      var n := |sizes| - 1;
      CapacityAfterCovers(sizes[..n], bsize);
      assert forall i :: 0 <= i < n ==> sizes[..n][i] == sizes[i];
    }
  }

  /** What a buffer holds after refresh_buffer meets `payload`: the old
      contents for an empty record; the payload over the front of the old
      contents when it fits; otherwise the payload in a zeroed allocation
      twice its size. */
  function Refreshed(cur: seq<byte>, payload: seq<byte>): seq<byte>
  {
    if |payload| == 0 then cur
    else if |payload| <= |cur| then CopiedInto(cur, payload)
    else payload + Zeros(|payload|)
  }

  /** The refreshed buffer is as long as the grown capacity, starts with the
      payload, and is the old buffer exactly when the record was empty. */
  lemma RefreshedShape(cur: seq<byte>, payload: seq<byte>)
    ensures |Refreshed(cur, payload)| == GrownCapacity(|payload|, |cur|)
    ensures |payload| <= |Refreshed(cur, payload)|
    ensures Refreshed(cur, payload)[..|payload|] == payload
    ensures |payload| == 0 ==> Refreshed(cur, payload) == cur
    ensures |payload| <= |cur| ==> Refreshed(cur, payload)[|payload|..] == cur[|payload|..]
  {
  }

  /** refresh_buffer(&buf, &bsize, iter), with the capacity passed in and
      handed back.  An empty record leaves buffer and capacity alone; a
      record that fits is copied into the buffer; a larger one replaces the
      buffer by a fresh one of twice its size (the old one is freed; freeing
      is not modelled).  Either way the iterator moves one entry on. */
  method RefreshBuffer(buf: array?<byte>, bsize: nat, it: PacketIter) returns (r: array?<byte>, rsize: nat)
    requires it.PayloadInPacket()
    requires Holds(buf, bsize) && buf != it.packet
    modifies buf, it
    ensures it.ptr == old(it.ptr) + ENTRY_BYTES
    ensures it.packet[..] == old(it.packet[..])
    ensures Contents(r) == Refreshed(old(Contents(buf)), old(it.Payload()))
    ensures rsize == GrownCapacity(old(it.Size()), bsize)
    ensures Holds(r, rsize) && r != it.packet
    ensures old(it.Size()) <= bsize ==> r == buf
    ensures old(it.Size()) > bsize ==> r != null && fresh(r)
  {
    var size := it.Size();
    ghost var cur := Contents(buf);
    ghost var payload := it.Payload();
    if size <= 0 {
      var _ := it.Next();
      r, rsize := buf, bsize;
    } else if size <= bsize {
      it.CNext(buf);
      r, rsize := buf, bsize;
    } else {
      rsize := 2 * size;
      r := it.ANext(2);
      assert r[..] == r[..size] + r[size..];
    }
  }
}
