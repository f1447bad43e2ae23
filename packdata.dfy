/** The serialisation library of the offload kernel (packdata.h).

    A packet is one contiguous byte region.  It starts with a table of
    two-word entries, one per packed buffer: the first word is the buffer's
    length, the second the offset of its payload from the packet base.  The
    payloads follow the table.  The header only declares the packet-level
    operations; here they get one admissible body (payloads placed in order
    after the table, each aligned to PACK_BUFFER_ALIGN), and the contracts
    state only what the iterator relies on: each entry describes its buffer,
    payloads do not overlap the table or each other, and everything packdata
    writes lies below compute_required_size. */
module PackData {
  import opened Bytes

  const PACK_BUFFER_ALIGN: nat := 64
  /** One table entry: length word and offset word. */
  const ENTRY_BYTES: nat := 2 * WORD_BYTES

  /** packet_buffer {p, s} as get_buffer returns it for a packed region:
      p is the packet base plus offset, s the length. */
  datatype PacketBuffer = PacketBuffer(offset: nat, size: nat)

  function AlignUp(x: nat): (r: nat)
    ensures x <= r < x + PACK_BUFFER_ALIGN
    ensures r % PACK_BUFFER_ALIGN == 0
  {
    (x + PACK_BUFFER_ALIGN - 1) / PACK_BUFFER_ALIGN * PACK_BUFFER_ALIGN
  }

  function Sizes(buffers: seq<seq<byte>>): (r: seq<nat>)
    ensures |r| == |buffers|
    ensures forall k :: 0 <= k < |buffers| ==> r[k] == |buffers[k]|
  {
    seq(|buffers|, k requires 0 <= k < |buffers| => |buffers[k]|)
  }

  function Sum(sizes: seq<nat>): nat
  {
    if sizes == [] then 0 else sizes[0] + Sum(sizes[1..])
  }

  /** Bytes of the first n table entries, which is where entry n starts:
      ENTRY_BYTES (16) each, written as a literal so that it stays linear. */
  function TableBytes(n: nat): nat
  {
    16 * n
  }

  /** Payload offsets when buffers are placed one after another from start. */
  function Place(sizes: seq<nat>, start: nat): (offs: seq<nat>)
    ensures |offs| == |sizes|
  {
    if sizes == [] then []
    else [AlignUp(start)] + Place(sizes[1..], AlignUp(start) + sizes[0])
  }

  /** End of the last payload so placed. */
  function EndOf(sizes: seq<nat>, start: nat): nat
  {
    if sizes == [] then start else EndOf(sizes[1..], AlignUp(start) + sizes[0])
  }

  /** Payload offsets of a packet holding buffers of these sizes. */
  function Layout(sizes: seq<nat>): (offs: seq<nat>)
    ensures |offs| == |sizes|
  {
    Place(sizes, TableBytes(|sizes|))
  }

  /** Bytes of a packet holding buffers of these sizes. */
  function RequiredSize(sizes: seq<nat>): nat
  {
    EndOf(sizes, TableBytes(|sizes|))
  }

  /** compute_required_size: the region must hold the table and every
      payload byte, and every payload lies inside it. */
  function ComputeRequiredSize(buffers: seq<seq<byte>>): (r: nat)
    ensures r >= TableBytes(|buffers|) + Sum(Sizes(buffers))
    ensures forall k :: 0 <= k < |buffers| ==>
              TableBytes(|buffers|) <= Layout(Sizes(buffers))[k] &&
              Layout(Sizes(buffers))[k] + |buffers[k]| <= r
  {
    var sizes := Sizes(buffers);
    EndOfAtLeast(sizes, TableBytes(|sizes|));
    assert forall k :: 0 <= k < |buffers| ==>
              TableBytes(|buffers|) <= Layout(sizes)[k] &&
              Layout(sizes)[k] + sizes[k] <= RequiredSize(sizes) by {
      forall k | 0 <= k < |buffers| {
        PlaceWithin(sizes, TableBytes(|sizes|), k);
      }
    }
    RequiredSize(sizes)
  }

  lemma {:induction false} EndOfAtLeast(sizes: seq<nat>, start: nat)
    ensures EndOf(sizes, start) >= start + Sum(sizes)
  {
    if sizes != [] {
      EndOfAtLeast(sizes[1..], AlignUp(start) + sizes[0]);
    }
  }

  /** Each payload starts at or after start and ends before EndOf. */
  lemma {:induction false} PlaceWithin(sizes: seq<nat>, start: nat, k: nat)
    requires k < |sizes|
    ensures start <= Place(sizes, start)[k]
    ensures Place(sizes, start)[k] + sizes[k] <= EndOf(sizes, start)
  {
    var a := AlignUp(start);
    if k == 0 {
      EndOfAtLeast(sizes[1..], a + sizes[0]);
    } else {
      PlaceWithin(sizes[1..], a + sizes[0], k - 1);
    }
  }

  /** Payloads do not overlap: an earlier one ends before a later one starts. */
  lemma {:induction false} PlaceOrdered(sizes: seq<nat>, start: nat, j: nat, k: nat)
    requires j < k < |sizes|
    ensures Place(sizes, start)[j] + sizes[j] <= Place(sizes, start)[k]
  {
    var a := AlignUp(start);
    if j == 0 {
      PlaceWithin(sizes[1..], a + sizes[0], k - 1);
    } else {
      PlaceOrdered(sizes[1..], a + sizes[0], j - 1, k - 1);
    }
  }

  /** A payload never exceeds its own packet, nor does its offset. */
  lemma RecordWithinRequired(sizes: seq<nat>, k: nat)
    requires k < |sizes|
    ensures TableBytes(|sizes|) <= Layout(sizes)[k]
    ensures Layout(sizes)[k] + sizes[k] <= RequiredSize(sizes)
  {
    PlaceWithin(sizes, TableBytes(|sizes|), k);
  }

  // ---------------------------------------------------------------------
  // The packed region

  /** Entry k of the table describes payload p at offset off, and p is there. */
  predicate HoldsRecord(region: seq<byte>, k: nat, off: nat, p: seq<byte>)
  {
    && TableBytes(k + 1) <= |region|
    && region[TableBytes(k)..TableBytes(k) + WORD_BYTES] == Encode(|p|, WORD_BYTES)
    && region[TableBytes(k) + WORD_BYTES..TableBytes(k + 1)] == Encode(off, WORD_BYTES)
    && off + |p| <= |region|
    && region[off..off + |p|] == p
  }

  /** region is a packet of buffers: every entry and payload in place. */
  predicate PackedAs(region: seq<byte>, buffers: seq<seq<byte>>)
  {
    forall k {:trigger HoldsRecord(region, k, Layout(Sizes(buffers))[k], buffers[k])} :: 0 <= k < |buffers| ==>
      HoldsRecord(region, k, Layout(Sizes(buffers))[k], buffers[k])
  }

  function WriteRecord(region: seq<byte>, k: nat, off: nat, p: seq<byte>): (r: seq<byte>)
    requires TableBytes(k + 1) <= |region| && off + |p| <= |region|
    ensures |r| == |region|
    ensures forall i :: (0 <= i < |region| && !(TableBytes(k) <= i < TableBytes(k + 1)) &&
                         !(off <= i < off + |p|)) ==> r[i] == region[i]
  {
    var r1 := Store(region, TableBytes(k), Encode(|p|, WORD_BYTES));
    var r2 := Store(r1, TableBytes(k) + WORD_BYTES, Encode(off, WORD_BYTES));
    Store(r2, off, p)
  }

  /** Records k.. of buffers written at offsets offs. */
  function WriteFrom(region: seq<byte>, buffers: seq<seq<byte>>, offs: seq<nat>, k: nat): (r: seq<byte>)
    requires |offs| == |buffers| && k <= |buffers|
    requires TableBytes(|buffers|) <= |region|
    requires forall j :: 0 <= j < |buffers| ==> offs[j] + |buffers[j]| <= |region|
    ensures |r| == |region|
    decreases |buffers| - k
  {
    if k == |buffers| then region
    else WriteFrom(WriteRecord(region, k, offs[k], buffers[k]), buffers, offs, k + 1)
  }

  /** The region after packdata(packet, buffers). */
  function Packed(region: seq<byte>, buffers: seq<seq<byte>>): (r: seq<byte>)
    requires RequiredSize(Sizes(buffers)) <= |region|
    ensures |r| == |region|
  {
    var sizes := Sizes(buffers);
    assert forall j :: 0 <= j < |buffers| ==> Layout(sizes)[j] + |buffers[j]| <= |region| by {
      forall j | 0 <= j < |buffers| { RecordWithinRequired(sizes, j); }
    }
    assert TableBytes(|buffers|) <= |region| by { EndOfAtLeast(sizes, TableBytes(|sizes|)); }
    WriteFrom(region, buffers, Layout(sizes), 0)
  }

  /** A store outside a slice leaves the slice as it was. */
  lemma StoreOutside(s: seq<byte>, at: nat, bs: seq<byte>, lo: nat, hi: nat)
    requires at + |bs| <= |s| && lo <= hi <= |s|
    requires hi <= at || at + |bs| <= lo || |bs| == 0
    ensures Store(s, at, bs)[lo..hi] == s[lo..hi]
  {
    SliceEqual(Store(s, at, bs), s, lo, hi);
  }

  /** Writing a record leaves every byte range outside its entry and payload. */
  lemma WriteRecordOutside(region: seq<byte>, k: nat, off: nat, p: seq<byte>, lo: nat, hi: nat)
    requires TableBytes(k + 1) <= |region| && off + |p| <= |region|
    requires lo <= hi <= |region|
    requires hi <= TableBytes(k) || TableBytes(k + 1) <= lo
    requires hi <= off || off + |p| <= lo || |p| == 0
    ensures WriteRecord(region, k, off, p)[lo..hi] == region[lo..hi]
  {
    SliceEqual(WriteRecord(region, k, off, p), region, lo, hi);
  }

  /** Writing a record whose entry and payload avoid record j keeps record j. */
  lemma WriteRecordKeeps(region: seq<byte>, k: nat, off: nat, p: seq<byte>,
                         j: nat, offj: nat, pj: seq<byte>)
    requires TableBytes(k + 1) <= |region| && off + |p| <= |region|
    requires HoldsRecord(region, j, offj, pj)
    requires j != k
    requires off + |p| <= offj || offj + |pj| <= off
    requires TableBytes(j + 1) <= off || |p| == 0
    requires TableBytes(k + 1) <= offj || |pj| == 0
    ensures HoldsRecord(WriteRecord(region, k, off, p), j, offj, pj)
  {
    var r := WriteRecord(region, k, off, p);
    var e := TableBytes(j);
    assert e + WORD_BYTES + WORD_BYTES == TableBytes(j + 1);
    assert TableBytes(j + 1) <= TableBytes(k) || TableBytes(k + 1) <= e;
    WriteRecordOutside(region, k, off, p, e, e + WORD_BYTES);
    WriteRecordOutside(region, k, off, p, e + WORD_BYTES, TableBytes(j + 1));
    assert r[e..e + WORD_BYTES] == Encode(|pj|, WORD_BYTES);
    assert r[e + WORD_BYTES..TableBytes(j + 1)] == Encode(offj, WORD_BYTES);
    if |pj| > 0 {
      WriteRecordOutside(region, k, off, p, offj, offj + |pj|);
    }
    assert r[offj..offj + |pj|] == pj;
  }

  /** A record just written holds. */
  lemma WriteRecordHolds(region: seq<byte>, k: nat, off: nat, p: seq<byte>)
    requires TableBytes(k + 1) <= |region| && off + |p| <= |region|
    requires TableBytes(k + 1) <= off || |p| == 0
    ensures HoldsRecord(WriteRecord(region, k, off, p), k, off, p)
  {
    var r1 := Store(region, TableBytes(k), Encode(|p|, WORD_BYTES));
    var r2 := Store(r1, TableBytes(k) + WORD_BYTES, Encode(off, WORD_BYTES));
    StoreOutside(r1, TableBytes(k) + WORD_BYTES, Encode(off, WORD_BYTES), TableBytes(k), TableBytes(k) + WORD_BYTES);
    StoreOutside(r2, off, p, TableBytes(k), TableBytes(k) + WORD_BYTES);
    StoreOutside(r2, off, p, TableBytes(k) + WORD_BYTES, TableBytes(k + 1));
  }

  /** Records k.. are disjoint from each other and from the table. */
  ghost predicate Separated(buffers: seq<seq<byte>>, offs: seq<nat>)
    requires |offs| == |buffers|
  {
    && (forall j :: 0 <= j < |buffers| ==> TableBytes(|buffers|) <= offs[j])
    && (forall j, k :: 0 <= j < k < |buffers| ==> offs[j] + |buffers[j]| <= offs[k])
  }

  lemma {:induction false} WriteFromHolds(region: seq<byte>, buffers: seq<seq<byte>>, offs: seq<nat>, k: nat)
    requires |offs| == |buffers| && k <= |buffers|
    requires TableBytes(|buffers|) <= |region|
    requires forall j :: 0 <= j < |buffers| ==> offs[j] + |buffers[j]| <= |region|
    requires Separated(buffers, offs)
    requires forall j :: 0 <= j < k ==> HoldsRecord(region, j, offs[j], buffers[j])
    ensures forall j :: 0 <= j < |buffers| ==>
              HoldsRecord(WriteFrom(region, buffers, offs, k), j, offs[j], buffers[j])
    decreases |buffers| - k
  {
    if k < |buffers| {
      var r := WriteRecord(region, k, offs[k], buffers[k]);
      forall j | 0 <= j < k
        ensures HoldsRecord(r, j, offs[j], buffers[j])
      {
        WriteRecordKeeps(region, k, offs[k], buffers[k], j, offs[j], buffers[j]);
      }
      WriteRecordHolds(region, k, offs[k], buffers[k]);
      WriteFromHolds(r, buffers, offs, k + 1);
    }
  }

  lemma {:induction false} WriteFromBelow(region: seq<byte>, buffers: seq<seq<byte>>, offs: seq<nat>, k: nat, bound: nat)
    requires |offs| == |buffers| && k <= |buffers|
    requires TableBytes(|buffers|) <= bound <= |region|
    requires forall j :: 0 <= j < |buffers| ==> offs[j] + |buffers[j]| <= bound
    ensures WriteFrom(region, buffers, offs, k)[bound..] == region[bound..]
    decreases |buffers| - k
  {
    if k < |buffers| {
      var p := buffers[k];
      var r1 := Store(region, TableBytes(k), Encode(|p|, WORD_BYTES));
      var r2 := Store(r1, TableBytes(k) + WORD_BYTES, Encode(offs[k], WORD_BYTES));
      var r3 := Store(r2, offs[k], p);
      StoreOutside(region, TableBytes(k), Encode(|p|, WORD_BYTES), bound, |region|);
      StoreOutside(r1, TableBytes(k) + WORD_BYTES, Encode(offs[k], WORD_BYTES), bound, |region|);
      StoreOutside(r2, offs[k], p, bound, |region|);
      WriteFromBelow(r3, buffers, offs, k + 1, bound);
    }
  }

  lemma LayoutSeparated(sizes: seq<nat>, buffers: seq<seq<byte>>)
    requires sizes == Sizes(buffers)
    ensures Separated(buffers, Layout(sizes))
  {
    forall j | 0 <= j < |buffers| ensures TableBytes(|buffers|) <= Layout(sizes)[j] {
      PlaceWithin(sizes, TableBytes(|sizes|), j);
    }
    forall j, k | 0 <= j < k < |buffers| ensures Layout(sizes)[j] + |buffers[j]| <= Layout(sizes)[k] {
      PlaceOrdered(sizes, TableBytes(|sizes|), j, k);
    }
  }

  /** packdata leaves a packet of exactly these buffers, and writes nothing
      at or beyond compute_required_size. */
  lemma PackedHolds(region: seq<byte>, buffers: seq<seq<byte>>)
    requires ComputeRequiredSize(buffers) <= |region|
    ensures PackedAs(Packed(region, buffers), buffers)
    ensures Packed(region, buffers)[ComputeRequiredSize(buffers)..] == region[ComputeRequiredSize(buffers)..]
  {
    var sizes := Sizes(buffers);
    var offs := Layout(sizes);
    forall j | 0 <= j < |buffers| ensures offs[j] + |buffers[j]| <= RequiredSize(sizes) {
      RecordWithinRequired(sizes, j);
    }
    EndOfAtLeast(sizes, TableBytes(|sizes|));
    LayoutSeparated(sizes, buffers);
    WriteFromHolds(region, buffers, offs, 0);
    WriteFromBelow(region, buffers, offs, 0, RequiredSize(sizes));
  }

  /** A packet is determined by its first compute_required_size bytes: a
      transfer of that many bytes carries the whole packet. */
  lemma PackedAsPrefix(r1: seq<byte>, r2: seq<byte>, buffers: seq<seq<byte>>)
    requires ComputeRequiredSize(buffers) <= |r1| && ComputeRequiredSize(buffers) <= |r2|
    requires r1[..ComputeRequiredSize(buffers)] == r2[..ComputeRequiredSize(buffers)]
    requires PackedAs(r1, buffers)
    ensures PackedAs(r2, buffers)
  {
    var offs := Layout(Sizes(buffers));
    var n := ComputeRequiredSize(buffers);
    forall k | 0 <= k < |buffers| ensures HoldsRecord(r2, k, offs[k], buffers[k]) {
      assert HoldsRecord(r1, k, offs[k], buffers[k]);
      assert TableBytes(k + 1) <= TableBytes(|buffers|) <= offs[k];
      PrefixKeepsRecord(r1, r2, n, k, offs[k], buffers[k]);
    }
  }

  lemma PrefixKeepsRecord(r1: seq<byte>, r2: seq<byte>, n: nat, k: nat, off: nat, p: seq<byte>)
    requires n <= |r1| && n <= |r2| && r1[..n] == r2[..n]
    requires HoldsRecord(r1, k, off, p)
    requires TableBytes(k + 1) <= n && off + |p| <= n
    ensures HoldsRecord(r2, k, off, p)
  {
    PrefixSlice(r1, r2, n, TableBytes(k), TableBytes(k) + WORD_BYTES);
    PrefixSlice(r1, r2, n, TableBytes(k) + WORD_BYTES, TableBytes(k + 1));
    PrefixSlice(r1, r2, n, off, off + |p|);
  }

  lemma PrefixSlice(r1: seq<byte>, r2: seq<byte>, n: nat, lo: nat, hi: nat)
    requires n <= |r1| && n <= |r2| && r1[..n] == r2[..n]
    requires lo <= hi <= n
    ensures r1[lo..hi] == r2[lo..hi]
  {
    assert forall i :: lo <= i < hi ==> r1[i] == r1[..n][i] == r2[..n][i] == r2[i];
  }

  // ---------------------------------------------------------------------
  // Reading a packed region

  /** First word of entry k: the buffer length (what size() reads). */
  function EntrySize(region: seq<byte>, k: nat): nat
    requires TableBytes(k + 1) <= |region|
  {
    Word(region, TableBytes(k))
  }

  /** Second word of entry k: the payload offset from the packet base. */
  function EntryOffset(region: seq<byte>, k: nat): nat
    requires TableBytes(k + 1) <= |region|
  {
    Word(region, TableBytes(k) + WORD_BYTES)
  }

  /** get_buffer(packet, n): the descriptor of the n-th packed buffer, read
      from the table without moving any iterator. */
  function GetBuffer(region: seq<byte>, n: nat): PacketBuffer
    requires TableBytes(n + 1) <= |region|
  {
    PacketBuffer(EntryOffset(region, n), EntrySize(region, n))
  }

  /** Entry k lies in the region and describes a payload inside it. */
  predicate EntryInPacket(region: seq<byte>, k: nat)
  {
    TableBytes(k + 1) <= |region| && EntryOffset(region, k) + EntrySize(region, k) <= |region|
  }

  /** The payload entry k describes. */
  function PayloadOf(region: seq<byte>, k: nat): (p: seq<byte>)
    requires EntryInPacket(region, k)
    ensures |p| == EntrySize(region, k)
  {
    region[EntryOffset(region, k)..EntryOffset(region, k) + EntrySize(region, k)]
  }

  /** Reading entry k of a packet gives back the k-th buffer packed. */
  lemma ReadRecord(region: seq<byte>, buffers: seq<seq<byte>>, k: nat)
    requires PackedAs(region, buffers) && k < |buffers|
    requires ComputeRequiredSize(buffers) < WordLimit()
    ensures EntryInPacket(region, k)
    ensures EntrySize(region, k) == |buffers[k]|
    ensures EntryOffset(region, k) == Layout(Sizes(buffers))[k]
    ensures PayloadOf(region, k) == buffers[k]
  {
    var sizes := Sizes(buffers);
    RecordWithinRequired(sizes, k);
    assert HoldsRecord(region, k, Layout(sizes)[k], buffers[k]);
    DecodeEncode(|buffers[k]|, WORD_BYTES);
    DecodeEncode(Layout(sizes)[k], WORD_BYTES);
  }

  /** get_buffer on a packet names the n-th packed buffer, so device code can
      hand an input record back out as an output buffer. */
  lemma GetBufferOfPacked(region: seq<byte>, buffers: seq<seq<byte>>, n: nat)
    requires PackedAs(region, buffers) && n < |buffers|
    requires ComputeRequiredSize(buffers) < WordLimit()
    ensures TableBytes(n + 1) <= |region|
    ensures GetBuffer(region, n) == PacketBuffer(Layout(Sizes(buffers))[n], |buffers[n]|)
    ensures GetBuffer(region, n).offset + GetBuffer(region, n).size <= |region|
    ensures region[GetBuffer(region, n).offset..GetBuffer(region, n).offset + GetBuffer(region, n).size] == buffers[n]
  {
    ReadRecord(region, buffers, n);
  }

  /** packdata(packet, buffers, num_buffers) */
  method PackData(packet: array<byte>, buffers: seq<seq<byte>>)
    requires ComputeRequiredSize(buffers) <= packet.Length
    modifies packet
    ensures packet[..] == Packed(old(packet[..]), buffers)
  {
    var r := Packed(packet[..], buffers);
    forall i | 0 <= i < packet.Length {
      packet[i] := r[i];
    }
  }

  // ---------------------------------------------------------------------
  // The iterator

  /** packet_iter: the packet base and a cursor at the current table entry.
      The cursor is kept as a byte offset from the base. */
  class PacketIter {
    const packet: array<byte>
    var ptr: nat

    /** create_packet_iter: the cursor starts at the first entry. */
    constructor (packet: array<byte>)
      ensures this.packet == packet && ptr == 0
    {
      this.packet := packet;
      ptr := 0;
    }

    predicate AtEntry()
      reads this
    {
      ptr + ENTRY_BYTES <= packet.Length
    }

    /** size(iter): the first word of the current entry. */
    function Size(): nat
      reads this, packet
      requires AtEntry()
    {
      Word(packet[..], ptr)
    }

    /** value<T>(iter): the packet base plus the second word of the current
        entry; the model returns the offset from the base. */
    function Value(): nat
      reads this, packet
      requires AtEntry()
    {
      Word(packet[..], ptr + WORD_BYTES)
    }

    predicate PayloadInPacket()
      reads this, packet
    {
      AtEntry() && Value() + Size() <= packet.Length
    }

    /** The Size() bytes at Value(). */
    function Payload(): seq<byte>
      reads this, packet
      requires PayloadInPacket()
    {
      packet[Value()..Value() + Size()]
    }

    /** next<T>: what value<T> gives, then one entry further. */
    method Next() returns (p: nat)
      requires AtEntry()
      modifies this
      ensures p == old(Value())
      ensures ptr == old(ptr) + ENTRY_BYTES
      // The frame already gives this (packet is not in modifies); it is
      // stated because next<T> only reads the packet.
      ensures packet[..] == old(packet[..])
    {
      p := Value();
      ptr := ptr + 2 * WORD_BYTES;
    }

    /** anext<T>: a fresh zeroed allocation of size*multiplier bytes holding
        the current payload, then one entry further. */
    method ANext(multiplier: nat) returns (buffer: array<byte>)
      requires PayloadInPacket() && multiplier >= 1
      modifies this
      ensures fresh(buffer)
      ensures buffer.Length == old(Size()) * multiplier
      ensures buffer[..old(Size())] == old(Payload())
      ensures buffer[old(Size())..] == Zeros(buffer.Length - old(Size()))
      ensures ptr == old(ptr) + ENTRY_BYTES
    {
      var len := Size();
      ghost var payload := Payload();
      var n := len * multiplier;
      ScaledAtLeast(len, multiplier);
      buffer := new byte[n](_ => 0);
      var src := Next();
      forall i | 0 <= i < len {
        buffer[i] := packet[src + i];
      }
      assert buffer[..len] == payload;
      assert buffer[len..] == Zeros(buffer.Length - len);
    }

    /** cnext<T>: copy the current payload into the caller's buffer, which
        must be large enough, then one entry further. */
    method CNext(buffer: array<byte>)
      requires PayloadInPacket() && Size() <= buffer.Length
      requires buffer != packet
      modifies this, buffer
      ensures buffer[..] == CopiedInto(old(buffer[..]), old(Payload()))
      ensures ptr == old(ptr) + ENTRY_BYTES
    {
      var bsize := Size();
      ghost var payload := Payload();
      ghost var cur := buffer[..];
      var src := Next();
      forall i | 0 <= i < bsize {
        buffer[i] := packet[src + i];
      }
      assert buffer[..bsize] == payload;
      assert buffer[bsize..] == cur[bsize..];
      assert buffer[..] == buffer[..bsize] + buffer[bsize..];
    }
  }

  /** A buffer after payload p is copied to its front. */
  function CopiedInto(cur: seq<byte>, p: seq<byte>): seq<byte>
    requires |p| <= |cur|
  {
    p + cur[|p|..]
  }

  /** The copy starts with p, keeps the rest of the buffer, and is undone by
      nothing else: from a result and p the old tail is recovered. */
  lemma CopiedIntoShape(cur: seq<byte>, p: seq<byte>)
    requires |p| <= |cur|
    ensures |CopiedInto(cur, p)| == |cur|
    ensures CopiedInto(cur, p)[..|p|] == p
    ensures CopiedInto(cur, p)[|p|..] == cur[|p|..]
  {
  }

  lemma ScaledAtLeast(len: nat, multiplier: nat)
    requires multiplier >= 1
    ensures len <= len * multiplier
  {
    assert len * multiplier == len + len * (multiplier - 1);
  }

  /** An iterator at entry k reads what entry k describes. */
  lemma IterAtEntry(it: PacketIter, region: seq<byte>, k: nat)
    requires it.packet[..] == region && it.ptr == TableBytes(k) && EntryInPacket(region, k)
    ensures it.PayloadInPacket()
    ensures it.Size() == EntrySize(region, k)
    ensures it.Value() == EntryOffset(region, k)
    ensures it.Payload() == PayloadOf(region, k)
  {
  }

  /** An array no call wrote to still holds what it held. */
  twostate lemma SameContents(a: array<byte>)
    requires unchanged(a)
    ensures a[..] == old(a[..])
  {
  }

  /** unpackdata(packet, buffers, num_buffers): copy the payload of each
      table entry, in order, into the matching destination buffer. */
  method UnpackData(packet: array<byte>, buffers: seq<array<byte>>)
    requires forall i :: 0 <= i < |buffers| ==>
               EntryInPacket(packet[..], i) && buffers[i] != packet && EntrySize(packet[..], i) <= buffers[i].Length
    requires forall i, j :: 0 <= i < j < |buffers| ==> buffers[i] != buffers[j]
    modifies buffers
    ensures forall i :: 0 <= i < |buffers| ==> buffers[i][..] == CopiedInto(old(buffers[i][..]), PayloadOf(old(packet[..]), i))
  {
    var it := new PacketIter(packet);
    UnpackFrom(it, buffers, 0, packet[..]);
  }

  /** The walk behind unpackdata: with the iterator at entry k, each entry
      from k on is cnext-ed into its destination. */
  method UnpackFrom(it: PacketIter, buffers: seq<array<byte>>, k: nat, ghost region: seq<byte>)
    requires k <= |buffers| && it.packet[..] == region && it.ptr == TableBytes(k)
    requires forall i :: k <= i < |buffers| ==>
               EntryInPacket(region, i) && buffers[i] != it.packet && EntrySize(region, i) <= buffers[i].Length
    requires forall i, j :: k <= i < j < |buffers| ==> buffers[i] != buffers[j]
    modifies it, buffers[k..]
    ensures forall i :: k <= i < |buffers| ==> buffers[i][..] == CopiedInto(old(buffers[i][..]), PayloadOf(region, i))
    decreases |buffers| - k
  {
    if k < |buffers| {
      IterAtEntry(it, region, k);
      it.CNext(buffers[k]);
      label copied:
      UnpackFrom(it, buffers, k + 1, region);
      SameContents@copied(buffers[k]);
    }
  }
}
