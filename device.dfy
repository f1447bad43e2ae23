/** The coprocessor's half of an offload_buffer (in the .c file, the
    offload statics): the nine buffers it keeps from call to call with
    their capacities phi_buffer_sizes, the nbl pointer array of its
    pair-list set, and the list pointers re-linking writes.

    The source stores the ci/sci/cj/cj4 pointers into the list headers in
    nbl_buffer; here they are the separate sequence `links`, one Link per
    list, so the header bytes the host sent stay as they were. */
module DeviceSide {
  import opened Bytes
  import opened PackData
  import opened Memory
  import opened Refresh
  import opened PairLists
  import opened Descriptors

  /** nbl_lists, nbl_buffer, ci_buffer, sci_buffer, cj_buffer, cj4_buffer,
      type_buffer, lj_comb_buffer, q_buffer: the buffers refresh_buffer
      keeps, in phi_buffer_sizes order. */
  const NUM_KEPT: nat := 9

  /** The in-packet entry refreshed into kept buffer j: the first six come
      first, type, lj_comb and q are entries 10 to 12. */
  function KeptEntry(j: nat): (e: nat)
    ensures j < NUM_KEPT ==> Structural(e) && e < 19
  {
    if j < 6 then j else j + 4
  }

  /** The entries the unpack sequence reads with next<T>, in order: the
      atom data, its three parameter tables, then energrp, the atom data's
      shift vectors, x, the flags, the interaction constants, shift_vec,
      fshift (.c only), Vc and Vvdw. */
  function NextEntries(withFshift: bool): (r: seq<nat>)
    ensures |r| == NumIn(withFshift) - NUM_KEPT
    ensures forall i :: 0 <= i < |r| ==> r[i] == if i < 4 then i + 6 else i + 9
  {
    [6, 7, 8, 9] + [13, 14, 15, 16, 17, 18] + (if withFshift then [19, 20, 21] else [19, 20])
  }

  /** The flattened pair-list buffers among the kept ones. */
  function FlatOf(kept: seq<seq<byte>>): Flat
    requires |kept| == NUM_KEPT
  {
    Flat(kept[1], kept[2], kept[3], kept[4], kept[5])
  }

  /** Entries 0 to n - 1 of the packet all describe payloads inside it. */
  predicate InPacket(region: seq<byte>, n: nat)
  {
    forall k :: 0 <= k < n ==> EntryInPacket(region, k)
  }

  lemma InPacketPrefix(region: seq<byte>, m: nat, n: nat)
    requires m <= n && InPacket(region, n)
    ensures InPacket(region, m)
  {
  }

  /** The kept entries' payloads, taken from the buffers that were packed. */
  function KeptOf(ins: seq<seq<byte>>): (r: seq<seq<byte>>)
    requires |ins| >= 19
    ensures |r| == NUM_KEPT
  {
    seq(NUM_KEPT, j requires 0 <= j < NUM_KEPT => ins[KeptEntry(j)])
  }

  /** The payloads the unpack sequence hands to the nine refresh_buffer
      calls, in slot order. */
  function KeptPayloads(region: seq<byte>): (r: seq<seq<byte>>)
    requires InPacket(region, 19)
    ensures |r| == NUM_KEPT
  {
    seq(NUM_KEPT, j requires 0 <= j < NUM_KEPT => PayloadOf(region, KeptEntry(j)))
  }

  /** Every kept buffer after its refresh_buffer call. */
  function RefreshedAll(d0: seq<seq<byte>>, payloads: seq<seq<byte>>): (r: seq<seq<byte>>)
    requires |d0| == |payloads| == NUM_KEPT
    ensures |r| == NUM_KEPT
  {
    seq(NUM_KEPT, j requires 0 <= j < NUM_KEPT => Refreshed(d0[j], payloads[j]))
  }

  /** Every capacity after its refresh_buffer call. */
  function GrownAll(s0: seq<nat>, payloads: seq<seq<byte>>): (r: seq<nat>)
    requires |s0| == |payloads| == NUM_KEPT
    ensures |r| == NUM_KEPT
  {
    seq(NUM_KEPT, j requires 0 <= j < NUM_KEPT => GrownCapacity(|payloads[j]|, s0[j]))
  }

  /** Refreshing slots 0 to 5 and then 6 to 8 refreshes every slot once. */
  lemma RunsComplete(payloads: seq<seq<byte>>, d0: seq<seq<byte>>, s0: seq<nat>, d1: seq<seq<byte>>, s1: seq<nat>,
                     d2: seq<seq<byte>>, s2: seq<nat>)
    requires |payloads| == |d0| == |s0| == |d1| == |s1| == |d2| == |s2| == NUM_KEPT
    requires RefreshedRun(0, 6, payloads, d0, s0, d1, s1)
    requires RefreshedRun(6, NUM_KEPT, payloads, d1, s1, d2, s2)
    ensures d2 == RefreshedAll(d0, payloads) && s2 == GrownAll(s0, payloads)
  {
  }

  /** Payload offsets of entries lo to hi - 1, in order. */
  function OffsetsOf(region: seq<byte>, lo: nat, hi: nat): (r: seq<nat>)
    requires lo <= hi && InPacket(region, hi)
    ensures |r| == hi - lo
    ensures forall k :: lo <= k < hi ==> EntryInPacket(region, k) && r[k - lo] == EntryOffset(region, k)
    decreases hi - lo
  {
    if lo == hi then [] else assert EntryInPacket(region, lo); [EntryOffset(region, lo)] + OffsetsOf(region, lo + 1, hi)
  }

  /** next<T> at entries lo to hi - 1, one after another. */
  method NextRun(it: PacketIter, ghost region: seq<byte>, lo: nat, hi: nat) returns (ps: seq<nat>)
    requires lo <= hi && InPacket(region, hi)
    requires it.packet[..] == region && it.ptr == TableBytes(lo)
    modifies it
    ensures ps == OffsetsOf(region, lo, hi)
    ensures it.ptr == TableBytes(hi) && it.packet[..] == region
    decreases hi - lo
  {
    if lo == hi {
      ps := [];
    } else {
      var p := NextAt(it, region, lo);
      var rest := NextRun(it, region, lo + 1, hi);
      ps := [p] + rest;
    }
  }

  /** A refreshed buffer starts with whatever the payload starts with. */
  lemma RefreshedKeepsFront(cur: seq<byte>, payload: seq<byte>, front: seq<byte>)
    requires |front| <= |payload| && payload[..|front|] == front
    ensures |front| <= |Refreshed(cur, payload)|
    ensures Refreshed(cur, payload)[..|front|] == front
  {
    RefreshedShape(cur, payload);
    if |payload| > 0 {
      var r := Refreshed(cur, payload);
      assert r[..|front|] == r[..|payload|][..|front|];
    }
  }

  /** next<T>(it) with the iterator at entry k: the payload offset of
      entry k, and the iterator one entry on. */
  method NextAt(it: PacketIter, ghost region: seq<byte>, k: nat) returns (p: nat)
    requires it.packet[..] == region && it.ptr == TableBytes(k) && EntryInPacket(region, k)
    modifies it
    ensures p == EntryOffset(region, k)
    ensures it.ptr == TableBytes(k + 1) && it.packet[..] == region
  {
    IterAtEntry(it, region, k);
    p := it.Next();
  }

  /** An array no call wrote to still holds what it held. */
  twostate lemma KeptSame(a: array?<byte>)
    requires a != null ==> unchanged(a)
    ensures Contents(a) == old(Contents(a))
  {
  }

  /** Kept buffers lo to hi - 1 have their entries in the packet and
      payloads[j] is the payload of kept buffer j's entry. */
  predicate PayloadsAt(region: seq<byte>, payloads: seq<seq<byte>>, lo: nat, hi: nat)
    requires hi <= |payloads|
    decreases hi - lo
  {
    lo >= hi || (EntryInPacket(region, KeptEntry(lo)) && payloads[lo] == PayloadOf(region, KeptEntry(lo))
                 && PayloadsAt(region, payloads, lo + 1, hi))
  }

  lemma {:induction false} PayloadsAtFrom(region: seq<byte>, payloads: seq<seq<byte>>, lo: nat, hi: nat)
    requires hi <= |payloads|
    requires forall j :: lo <= j < hi ==> EntryInPacket(region, KeptEntry(j)) && payloads[j] == PayloadOf(region, KeptEntry(j))
    ensures PayloadsAt(region, payloads, lo, hi)
    decreases hi - lo
  {
    if lo < hi {
      PayloadsAtFrom(region, payloads, lo + 1, hi);
    }
  }

  /** Slots lo to hi - 1 went from (d0, s0) to (d, s) by one refresh_buffer
      each with their payloads; the other slots did not change. */
  predicate RefreshedRun(lo: nat, hi: nat, payloads: seq<seq<byte>>, d0: seq<seq<byte>>, s0: seq<nat>,
                         d: seq<seq<byte>>, s: seq<nat>)
    requires lo <= hi <= NUM_KEPT && |payloads| == |d0| == |s0| == |d| == |s| == NUM_KEPT
  {
    && (forall j :: lo <= j < hi ==> d[j] == Refreshed(d0[j], payloads[j]) && s[j] == GrownCapacity(|payloads[j]|, s0[j]))
    && (forall j :: 0 <= j < NUM_KEPT && !(lo <= j < hi) ==> d[j] == d0[j] && s[j] == s0[j])
  }

  /** Refreshing slot lo and then slots lo + 1 to hi - 1 refreshes slots lo
      to hi - 1. */
  lemma RangeStep(lo: nat, hi: nat, payloads: seq<seq<byte>>, d0: seq<seq<byte>>, s0: seq<nat>,
                  d1: seq<seq<byte>>, s1: seq<nat>, d2: seq<seq<byte>>, s2: seq<nat>)
    requires lo < hi <= NUM_KEPT && |payloads| == |d0| == |s0| == |d2| == |s2| == NUM_KEPT
    requires d1 == d0[lo := Refreshed(d0[lo], payloads[lo])]
    requires s1 == s0[lo := GrownCapacity(|payloads[lo]|, s0[lo])]
    requires RefreshedRun(lo + 1, hi, payloads, d1, s1, d2, s2)
    ensures RefreshedRun(lo, hi, payloads, d0, s0, d2, s2)
  {
  }

  /** The payload offsets the unpack sequence reads with next<T>, in
      NextEntries order: entries 6 to 9, then 13 on. */
  function NextOffsets(region: seq<byte>, withFshift: bool): (r: seq<nat>)
    requires InPacket(region, NumIn(withFshift))
    ensures |r| == |NextEntries(withFshift)|
    ensures forall i :: 0 <= i < |r| ==>
              EntryInPacket(region, NextEntries(withFshift)[i]) && r[i] == EntryOffset(region, NextEntries(withFshift)[i])
  {
    var e := NextEntries(withFshift);
    assert forall i :: 0 <= i < |e| ==> e[i] < NumIn(withFshift) && EntryInPacket(region, e[i]);
    seq(|e|, i requires 0 <= i < |e| => EntryOffset(region, e[i]))
  }

  /** The two runs of next<T> together read NextOffsets. */
  lemma NextOffsetsRuns(region: seq<byte>, withFshift: bool)
    requires InPacket(region, NumIn(withFshift))
    ensures NextOffsets(region, withFshift) == OffsetsOf(region, 6, 10) + OffsetsOf(region, 13, NumIn(withFshift))
  {
    var atoms, rest := OffsetsOf(region, 6, 10), OffsetsOf(region, 13, NumIn(withFshift));
    var e := NextEntries(withFshift);
    forall i | 0 <= i < |atoms + rest| ensures (atoms + rest)[i] == NextOffsets(region, withFshift)[i] {
      if i < 4 {
        assert e[i] == 6 + i;
      } else {
        assert e[i] == 13 + (i - 4);
        assert (atoms + rest)[i] == rest[i - 4];
      }
    }
  }

  /** The kept buffers' entries, with their payloads, for the two runs of
      refresh_buffer calls. */
  lemma KeptPayloadsAt(region: seq<byte>)
    requires InPacket(region, 19)
    ensures PayloadsAt(region, KeptPayloads(region), 0, 6)
    ensures PayloadsAt(region, KeptPayloads(region), 6, NUM_KEPT)
  {
    var r := KeptPayloads(region);
    assert forall j :: 0 <= j < NUM_KEPT ==> EntryInPacket(region, KeptEntry(j)) && r[j] == PayloadOf(region, KeptEntry(j));
    PayloadsAtFrom(region, r, 0, 6);
    PayloadsAtFrom(region, r, 6, NUM_KEPT);
  }


  /** The links re-linking gives lists 0 to |hs| - 1. */
  function Links(hs: seq<seq<byte>>): seq<Link>
    requires Sized(hs)
  {
    seq(|hs|, i requires 0 <= i < |hs| => LinkFor(hs, i))
  }

  /** The re-linking loop: nbl[i] = nbl_buffer + i, and each list's ci,
      sci, cj and cj4 pointers at the running offsets, which grow by the
      counts the list's header holds.  Only the first n pointer slots are
      written. */
  method LinkLoop(nbl: array?<byte>, ptrs: array<nat>, n: nat) returns (ls: seq<Link>)
    requires ElemAt(Nbl, n) <= |Contents(nbl)| && n <= ptrs.Length
    modifies ptrs
    ensures ls == Links(Headers(Contents(nbl), n))
    ensures forall i :: 0 <= i < n ==> ptrs[i] == i
    ensures forall i :: n <= i < ptrs.Length ==> ptrs[i] == old(ptrs[i])
  {
    ghost var hs := Headers(Contents(nbl), n);
    var off := Link(0, 0, 0, 0);
    ls := [];
    var i := 0;
    while i < n
      invariant 0 <= i <= n
      invariant off == LinkFor(hs, i)
      invariant ls == Links(hs)[..i]
      invariant forall j :: 0 <= j < i ==> ptrs[j] == j
      invariant forall j :: n <= j < ptrs.Length ==> ptrs[j] == old(ptrs[j])
    {
      ptrs[i] := i;
      HeaderFits(i, n);
      var h := nbl[ElemAt(Nbl, i)..ElemAt(Nbl, i) + PAIRLIST_BYTES];
      assert h == hs[i];
      var c := CountsOf(h);
      LinkForNext(hs, i);
      assert Links(hs)[..i + 1] == Links(hs)[..i] + [off];
      ls := ls + [off];
      off := Link(off.ci + c.nci, off.sci + c.nsci, off.cj + c.ncj, off.cj4 + c.ncj4);
      i := i + 1;
    }
  }

  /** The corrected restore: the saved array only when it has room.  The
      result is the length of the array used: either the saved one or a fresh
      one of exactly nnbl pointers; it always has room, and the saved array is
      reused whenever it can be. */
  function RestoredRoom(saved: bool, savedLen: nat, nnbl: nat): (r: nat)
    ensures r >= nnbl
    ensures r == nnbl || (saved && r == savedLen)
    ensures saved && nnbl <= savedLen ==> r == savedLen
  {
    if saved && nnbl <= savedLen then savedLen else nnbl
  }

  class DeviceBuffers {
    /** The nine kept buffers (null until first allocated). */
    var kept: seq<array?<byte>>
    /** phi_buffer_sizes: the capacity of each kept buffer. */
    var sizes: seq<nat>
    /** The bytes each kept buffer holds. */
    ghost var data: seq<seq<byte>>
    /** Every buffer allocated for a kept slot. */
    ghost var Repr: set<array<byte>>
    /** nbl_lists->nbl: nbl[i] = nbl_buffer + nblPtrs[i]. */
    var nblPtrs: array?<nat>
    /** The ci/sci/cj/cj4 pointers of each list, in elements. */
    var links: seq<Link>

    /** The zero-initialised statics: every buffer null, every capacity 0. */
    constructor ()
      ensures Valid() && Repr == {}
      ensures data == seq(NUM_KEPT, _ => []) && sizes == seq(NUM_KEPT, _ => 0)
      ensures nblPtrs == null && links == []
    {
      kept := seq(NUM_KEPT, _ => null);
      sizes := seq(NUM_KEPT, _ => 0);
      data := seq(NUM_KEPT, _ => []);
      Repr := {};
      nblPtrs := null;
      links := [];
    }

    /** Every kept buffer is null with capacity 0 or an allocation of
        exactly its capacity holding data[j], and no two of them are the
        same. */
    ghost predicate Valid()
      reads this, Repr
    {
      Shaped() && forall j :: 0 <= j < NUM_KEPT ==> SlotHolds(j)
    }

    ghost predicate Shaped()
      reads this
    {
      && |kept| == NUM_KEPT && |sizes| == NUM_KEPT && |data| == NUM_KEPT
      && (forall j :: 0 <= j < NUM_KEPT ==> kept[j] != null ==> kept[j] in Repr)
      && Disjoint(kept)
    }

    ghost predicate SlotHolds(j: nat)
      reads this, Repr
      requires Shaped() && j < NUM_KEPT
    {
      Holds(kept[j], sizes[j]) && Contents(kept[j]) == data[j]
    }

    /** refresh_buffer(&kept[j], &phi_buffer_sizes[j], it): only kept
        buffer j and its capacity change, and the iterator moves to the
        next entry. */
    method RefreshSlot(j: nat, it: PacketIter, ghost payload: seq<byte>)
      requires Valid() && j < NUM_KEPT && it.packet !in Repr
      requires it.PayloadInPacket() && it.Payload() == payload
      modifies this, Repr, it
      ensures Valid() && it.packet !in Repr && Repr >= old(Repr) && fresh(Repr - old(Repr))
      ensures it.ptr == old(it.ptr) + ENTRY_BYTES && it.packet[..] == old(it.packet[..])
      ensures data == old(data)[j := Refreshed(old(data)[j], payload)]
      ensures sizes == old(sizes)[j := GrownCapacity(|payload|, old(sizes)[j])]
      ensures nblPtrs == old(nblPtrs) && links == old(links)
    {
      assert SlotHolds(j);
      var r, rsize := RefreshBuffer(kept[j], sizes[j], it);
      assert Contents(r) == Refreshed(old(data)[j], payload);
      forall i | 0 <= i < NUM_KEPT && i != j
        ensures SlotHolds(i)
      {
        assert kept[i] != null ==> kept[i] != kept[j];
        KeptSame(kept[i]);
        assert old(SlotHolds(i));
      }
      Install(j, r, rsize);
    }

    /** Store the buffer and capacity refresh_buffer handed back into slot
        j, when every other slot still holds. */
    method Install(j: nat, r: array?<byte>, rsize: nat)
      requires Shaped() && j < NUM_KEPT && Holds(r, rsize)
      requires forall i :: 0 <= i < NUM_KEPT && i != j ==> SlotHolds(i)
      requires r == kept[j] || (r != null && r !in Repr)
      modifies this
      ensures Valid() && Repr == old(Repr) + (if r == null then {} else {r})
      ensures kept == old(kept)[j := r] && sizes == old(sizes)[j := rsize] && data == old(data)[j := Contents(r)]
      ensures nblPtrs == old(nblPtrs) && links == old(links)
    {
      ghost var before := kept;
      kept, sizes := kept[j := r], sizes[j := rsize];
      data := data[j := Contents(r)];
      if r != before[j] {
        DisjointUpdate(before, j, r);
        Repr := Repr + {r};
      }
      forall i | 0 <= i < NUM_KEPT
        ensures SlotHolds(i)
      {
        if i != j {
          assert old(SlotHolds(i));
        }
      }
    }

    /** RefreshSlot with the iterator at in-packet entry KeptEntry(j). */
    method RefreshEntry(j: nat, it: PacketIter, ghost region: seq<byte>, ghost payload: seq<byte>)
      requires Valid() && j < NUM_KEPT && it.packet !in Repr
      requires it.packet[..] == region && it.ptr == TableBytes(KeptEntry(j))
      requires EntryInPacket(region, KeptEntry(j)) && payload == PayloadOf(region, KeptEntry(j))
      modifies this, Repr, it
      ensures Valid() && it.packet !in Repr && Repr >= old(Repr) && fresh(Repr - old(Repr))
      ensures it.ptr == TableBytes(KeptEntry(j) + 1) && it.packet[..] == region
      ensures data == old(data)[j := Refreshed(old(data)[j], payload)]
      ensures sizes == old(sizes)[j := GrownCapacity(|payload|, old(sizes)[j])]
      ensures nblPtrs == old(nblPtrs) && links == old(links)
    {
      IterAtEntry(it, region, KeptEntry(j));
      RefreshSlot(j, it, payload);
    }

    /** The refresh_buffer calls for kept buffers lo to hi - 1, one after
        another, at consecutive in-packet entries (the source writes them
        out one per line: 0 to 5, then 6 to 8). */
    method RefreshRange(lo: nat, hi: nat, it: PacketIter, ghost region: seq<byte>, ghost payloads: seq<seq<byte>>)
      requires lo <= hi <= NUM_KEPT && (hi <= 6 || 6 <= lo) && |payloads| == NUM_KEPT
      requires Valid() && it.packet !in Repr && it.packet[..] == region
      requires lo < hi ==> it.ptr == TableBytes(KeptEntry(lo))
      requires PayloadsAt(region, payloads, lo, hi)
      modifies this, Repr, it
      ensures Valid() && it.packet !in Repr && Repr >= old(Repr) && fresh(Repr - old(Repr))
      ensures it.packet[..] == region
      ensures lo < hi ==> it.ptr == TableBytes(KeptEntry(hi - 1) + 1)
      ensures lo == hi ==> it.ptr == old(it.ptr)
      ensures |data| == |sizes| == NUM_KEPT
      ensures RefreshedRun(lo, hi, payloads, old(data), old(sizes), data, sizes)
      ensures nblPtrs == old(nblPtrs) && links == old(links)
      decreases hi - lo
    {
      if lo < hi {
        ghost var d0, s0 := data, sizes;
        RefreshEntry(lo, it, region, payloads[lo]);
        ghost var d1, s1 := data, sizes;
        RefreshRange(lo + 1, hi, it, region, payloads);
        RangeStep(lo, hi, payloads, d0, s0, d1, s1, data, sizes);
      }
    }

    /** NextRun with the kept buffers alongside: they stay as they are. */
    method Skip(it: PacketIter, ghost region: seq<byte>, lo: nat, hi: nat) returns (ps: seq<nat>)
      requires Valid() && it.packet !in Repr
      requires lo <= hi && InPacket(region, hi)
      requires it.packet[..] == region && it.ptr == TableBytes(lo)
      modifies it
      ensures Valid() && Repr == old(Repr) && data == old(data) && sizes == old(sizes)
      ensures nblPtrs == old(nblPtrs) && links == old(links)
      ensures ps == OffsetsOf(region, lo, hi)
      ensures it.ptr == TableBytes(hi) && it.packet[..] == region
    {
      ps := NextRun(it, region, lo, hi);
    }

    /** The first half of the unpack sequence: the six pair-list buffers,
        then next<T> for the atom data and its three parameter tables. */
    method UnpackFront(it: PacketIter, ghost region: seq<byte>, ghost payloads: seq<seq<byte>>, ghost others: set<object>)
      returns (atoms: seq<nat>)
      requires Valid() && it.packet !in Repr && it.packet[..] == region && it.ptr == 0
      requires |payloads| == NUM_KEPT && InPacket(region, 10) && PayloadsAt(region, payloads, 0, 6)
      requires others !! Repr
      modifies this, Repr, it
      ensures Valid() && it.packet !in Repr && Repr >= old(Repr) && fresh(Repr - old(Repr)) && others !! Repr
      ensures it.packet[..] == region && it.ptr == TableBytes(10)
      ensures |data| == |sizes| == NUM_KEPT
      ensures RefreshedRun(0, 6, payloads, old(data), old(sizes), data, sizes)
      ensures atoms == OffsetsOf(region, 6, 10)
      ensures nblPtrs == old(nblPtrs) && links == old(links)
    {
      RefreshRange(0, 6, it, region, payloads);
      atoms := Skip(it, region, 6, 10);
    }

    /** The second half: type, lj_comb and q, then next<T> for the rest.
        With the first half's effect from (d0, s0), every kept buffer has
        had its refresh. */
    method UnpackBack(it: PacketIter, ghost region: seq<byte>, ghost payloads: seq<seq<byte>>, n: nat, ghost others: set<object>,
                      ghost d0: seq<seq<byte>>, ghost s0: seq<nat>)
      returns (rest: seq<nat>)
      requires Valid() && it.packet !in Repr && it.packet[..] == region && it.ptr == TableBytes(10)
      requires |payloads| == NUM_KEPT && 13 <= n && InPacket(region, n) && PayloadsAt(region, payloads, 6, NUM_KEPT)
      requires others !! Repr
      requires |d0| == |s0| == NUM_KEPT && RefreshedRun(0, 6, payloads, d0, s0, data, sizes)
      modifies this, Repr, it
      ensures Valid() && Repr >= old(Repr) && others !! Repr
      ensures it.packet[..] == region
      ensures |data| == |sizes| == NUM_KEPT
      ensures data == RefreshedAll(d0, payloads) && sizes == GrownAll(s0, payloads)
      ensures rest == OffsetsOf(region, 13, n)
      ensures nblPtrs == old(nblPtrs) && links == old(links)
    {
      RefreshRange(6, NUM_KEPT, it, region, payloads);
      RunsComplete(payloads, d0, s0, old(data), old(sizes), data, sizes);
      rest := Skip(it, region, 13, n);
    }

    /** The unpack sequence of the offloaded body, from create_packet_iter
        to the last next<T>: each kept buffer is refreshed from its in-packet
        entry, and every other entry is read in place, its payload offset
        handed back in NextEntries order. */
    method UnpackInputs(it: PacketIter, ghost region: seq<byte>, withFshift: bool, ghost others: set<object>) returns (vals: seq<nat>)
      requires Valid() && it.packet !in Repr && it.packet[..] == region && it.ptr == 0
      requires InPacket(region, NumIn(withFshift)) && others !! Repr
      modifies this, Repr, it
      ensures Valid() && Repr >= old(Repr) && others !! Repr
      ensures it.packet[..] == region
      ensures data == RefreshedAll(old(data), KeptPayloads(region))
      ensures sizes == GrownAll(old(sizes), KeptPayloads(region))
      ensures vals == NextOffsets(region, withFshift)
      ensures nblPtrs == old(nblPtrs) && links == old(links)
    {
      InPacketPrefix(region, 19, NumIn(withFshift));
      KeptPayloadsAt(region);
      ghost var payloads := KeptPayloads(region);
      var atoms := UnpackFront(it, region, payloads, others);
      var rest := UnpackBack(it, region, payloads, NumIn(withFshift), others, old(data), old(sizes));
      vals := atoms + rest;
      NextOffsetsRuns(region, withFshift);
    }

    /** nbl_lists->nnbl of the set struct the host sent. */
    ghost function ListCount(): nat
      reads this
      requires Shaped() && |data[0]| >= PAIRLIST_SET_BYTES
    {
      Nnbl(data[0])
    }

    /** The first n pointer slots point at headers 0 to n - 1 of the
        received nbl_buffer, and the links are the running offsets over
        those headers. */
    ghost predicate Relinked(n: nat)
      reads this, nblPtrs
      requires Shaped()
    {
      && ElemAt(Nbl, n) <= |data[1]|
      && nblPtrs != null && n <= nblPtrs.Length
      && (forall i :: 0 <= i < n ==> nblPtrs[i] == i)
      && links == Links(Headers(data[1], n))
    }

    /** The relink of the .cpp body, as corrected: nbl_lists->nbl is put
        back from the saved pointer, or allocated when there is none or the
        saved one is too short for nnbl lists; then the re-linking loop. */
    method RelinkCpp() returns (n: nat)
      requires Valid() && |data[0]| >= PAIRLIST_SET_BYTES && ElemAt(Nbl, Nnbl(data[0])) <= |data[1]|
      modifies this, nblPtrs
      ensures Valid() && Repr == old(Repr) && kept == old(kept) && data == old(data) && sizes == old(sizes)
      ensures n == ListCount() && Relinked(n)
      ensures old(nblPtrs) != null && n <= old(nblPtrs).Length ==> nblPtrs == old(nblPtrs)
      ensures old(nblPtrs) == null || n > old(nblPtrs).Length ==> fresh(nblPtrs)
      ensures nblPtrs.Length == RestoredRoom(old(nblPtrs) != null, if old(nblPtrs) == null then 0 else old(nblPtrs).Length, n)
    {
      assert SlotHolds(0) && SlotHolds(1);
      n := IntField(kept[0][..], NNBL_AT);
      if nblPtrs == null || nblPtrs.Length < n {
        nblPtrs := new nat[n];
      }
      links := LinkLoop(kept[1], nblPtrs, n);
      forall j | 0 <= j < NUM_KEPT
        ensures SlotHolds(j)
      {
        assert old(SlotHolds(j));
      }
    }

    /** The relink of the .cpp body as written: nbl_lists->nbl is put back
        from the saved pointer whenever there is one, whatever its length,
        and allocated for nnbl lists only when there is none.  `overrun`
        says the restored array is shorter than nnbl, so the re-linking
        loop would write past its end; the model stops before the loop
        then. */
    method RelinkCppAsWritten() returns (n: nat, overrun: bool)
      requires Valid() && |data[0]| >= PAIRLIST_SET_BYTES && ElemAt(Nbl, Nnbl(data[0])) <= |data[1]|
      modifies this, nblPtrs
      ensures Valid() && Repr == old(Repr) && kept == old(kept) && data == old(data) && sizes == old(sizes)
      ensures n == ListCount()
      ensures overrun <==> old(nblPtrs) != null && old(nblPtrs).Length < n
      ensures old(nblPtrs) != null ==> nblPtrs == old(nblPtrs)
      ensures old(nblPtrs) == null ==> fresh(nblPtrs) && nblPtrs.Length == n
      ensures !overrun ==> Relinked(n)
    {
      assert SlotHolds(0) && SlotHolds(1);
      n := IntField(kept[0][..], NNBL_AT);
      if nblPtrs == null {
        nblPtrs := new nat[n];
      }
      overrun := nblPtrs.Length < n;
      if !overrun {
        links := LinkLoop(kept[1], nblPtrs, n);
      }
      forall j | 0 <= j < NUM_KEPT
        ensures SlotHolds(j)
      {
        assert old(SlotHolds(j));
      }
    }

    /** The relink of the .c body: a fresh nbl_lists->nbl of nnbl pointers
        when the lists were refreshed, else the one already in place. */
    method RelinkC(refresh: bool) returns (n: nat)
      requires Valid() && |data[0]| >= PAIRLIST_SET_BYTES && ElemAt(Nbl, Nnbl(data[0])) <= |data[1]|
      requires !refresh ==> nblPtrs != null && Nnbl(data[0]) <= nblPtrs.Length
      modifies this, nblPtrs
      ensures Valid() && Repr == old(Repr) && kept == old(kept) && data == old(data) && sizes == old(sizes)
      ensures n == ListCount() && Relinked(n)
      ensures refresh ==> fresh(nblPtrs)
      ensures !refresh ==> nblPtrs == old(nblPtrs)
    {
      assert SlotHolds(0) && SlotHolds(1);
      n := IntField(kept[0][..], NNBL_AT);
      if refresh {
        nblPtrs := new nat[n];
      }
      links := LinkLoop(kept[1], nblPtrs, n);
      forall j | 0 <= j < NUM_KEPT
        ensures SlotHolds(j)
      {
        assert old(SlotHolds(j));
      }
    }
  }
  /** A first call whose set struct counts one list, then a refresh whose
      set struct counts two: the .cpp restore as written relinks the first
      and puts the one-pointer array back for the second, which then
      overruns. */
  method OneListThenTwo(d: DeviceBuffers, it: PacketIter, ghost set2: seq<byte>) returns (first: bool, second: bool)
    requires d.Valid() && d.nblPtrs == null && it.packet !in d.Repr
    requires |d.data[0]| >= PAIRLIST_SET_BYTES && Nnbl(d.data[0]) == 1 && ElemAt(Nbl, 2) <= |d.data[1]|
    requires it.PayloadInPacket() && it.Payload() == set2 && |set2| >= PAIRLIST_SET_BYTES && Nnbl(set2) == 2
    modifies d, d.Repr, it
    ensures !first && second
  {
    ElemAtMonotone(Nbl, 1, 2);
    var n1;
    n1, first := d.RelinkCppAsWritten();
    assert d.nblPtrs.Length == 1;
    ghost var before := d.data[0];
    d.RefreshSlot(0, it, set2);
    RefreshedKeepsFront(before, set2, set2[..PAIRLIST_SET_BYTES]);
    assert d.data[0][..PAIRLIST_SET_BYTES] == set2[..PAIRLIST_SET_BYTES];
    assert d.data[0][NNBL_AT..NNBL_AT + INT_BYTES] == set2[NNBL_AT..NNBL_AT + INT_BYTES];
    var n2;
    n2, second := d.RelinkCppAsWritten();
  }
}
