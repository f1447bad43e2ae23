/** The host's half of an offload_buffer (in the .c file, the function
    statics of the offload call): the flattened pair-list buffers with their
    capacities, and the host and coprocessor ends of the two transfer
    packets with their current sizes. */
module HostSide {
  import opened Bytes
  import opened PackData
  import opened PairLists
  import opened Memory

  /** A capacity after a refresh: replaced by the requirement exactly when
      the requirement exceeds it. */
  function NewCapacity(req: nat, cap: nat): (r: nat)
    ensures r >= cap && r >= req
    ensures r == cap <==> req <= cap
    ensures r != cap ==> r == req
  {
    if req > cap then req else cap
  }

  /** A packet size after a refresh: twice the requirement when the
      requirement exceeds the current size, unchanged otherwise. */
  function GrownPacket(required: nat, current: nat): (r: nat)
    ensures r >= required && r >= current
    ensures r == current <==> required <= current
    ensures r != current ==> r == 2 * required
  {
    if required > current then 2 * required else current
  }

  /** The capacity left by a run of refreshes is the largest requirement
      seen, or the starting capacity if that was larger. */
  function CapacityOver(reqs: seq<nat>, cap: nat): nat
  {
    if reqs == [] then cap else NewCapacity(reqs[|reqs| - 1], CapacityOver(reqs[..|reqs| - 1], cap))
  }

  lemma {:induction false} CapacityOverIsMax(reqs: seq<nat>, cap: nat)
    ensures CapacityOver(reqs, cap) >= cap
    ensures forall i :: 0 <= i < |reqs| ==> CapacityOver(reqs, cap) >= reqs[i]
    ensures CapacityOver(reqs, cap) == cap || exists i :: 0 <= i < |reqs| && CapacityOver(reqs, cap) == reqs[i]
  {
    if reqs != [] {
      var n := |reqs| - 1;
      CapacityOverIsMax(reqs[..n], cap);
      assert forall i :: 0 <= i < n ==> reqs[..n][i] == reqs[i];
      if CapacityOver(reqs[..n], cap) != cap && CapacityOver(reqs, cap) == CapacityOver(reqs[..n], cap) {
        var i :| 0 <= i < n && CapacityOver(reqs[..n], cap) == reqs[..n][i];
        assert CapacityOver(reqs, cap) == reqs[i];
      }
    }
  }

  /** Position of kind k in the host's buffer and capacity sequences. */
  function KindIndex(k: Kind): (i: nat)
    ensures i < 5
  {
    match k
    case Nbl => 0
    case Ci => 1
    case Sci => 2
    case Cj => 3
    case Cj4 => 4
  }

  /** The capacities the refresh block leaves behind, in Kind order: each
      grown to its kind's requirement over the lists. */
  function CapacitiesFor(lists: seq<PairList>, caps: seq<nat>): (r: seq<nat>)
    requires AllWellFormed(lists) && |caps| == 5
    ensures |r| == 5
    ensures forall k :: r[KindIndex(k)] == NewCapacity(Required(lists, k), caps[KindIndex(k)])
  {
    [NewCapacity(Required(lists, Nbl), caps[0]), NewCapacity(Required(lists, Ci), caps[1]),
     NewCapacity(Required(lists, Sci), caps[2]), NewCapacity(Required(lists, Cj), caps[3]),
     NewCapacity(Required(lists, Cj4), caps[4])]
  }

  /** The requirement loop: each kind's element count summed over the
      lists. */
  method SumRequired(lists: seq<PairList>) returns (ciReq: nat, sciReq: nat, cjReq: nat, cj4Req: nat)
    requires AllWellFormed(lists)
    ensures ciReq == Required(lists, Ci) && sciReq == Required(lists, Sci)
    ensures cjReq == Required(lists, Cj) && cj4Req == Required(lists, Cj4)
  {
    ciReq, sciReq, cjReq, cj4Req := 0, 0, 0, 0;
    var i := 0;
    while i < |lists|
      invariant i <= |lists|
      invariant ciReq == Counted(lists, i, Ci) && sciReq == Counted(lists, i, Sci)
      invariant cjReq == Counted(lists, i, Cj) && cj4Req == Counted(lists, i, Cj4)
    {
      var c := CountsOf(lists[i].header);
      ciReq, sciReq, cjReq, cj4Req := ciReq + c.nci, sciReq + c.nsci, cjReq + c.ncj, cj4Req + c.ncj4;
      i := i + 1;
    }
  }

  /** The front of b holds `done` and there is room for `total` bytes. */
  predicate Front(b: seq<byte>, done: seq<byte>, total: nat)
  {
    |done| <= total <= |b| && b[..|done|] == done
  }

  /** One memcpy of the flattening loop, for kind k: list i's part goes to
      the running element offset, right after the earlier lists' parts. */
  lemma CopyStep(b: seq<byte>, lists: seq<PairList>, i: nat, k: Kind)
    requires AllWellFormed(lists) && i < |lists|
    requires Front(b, Flattened(lists, i, k), |Flatten(lists, k)|)
    ensures ElemAt(k, Counted(lists, i, k)) + |Part(lists[i], k)| <= |b|
    ensures Front(Store(b, ElemAt(k, Counted(lists, i, k)), Part(lists[i], k)),
                  Flattened(lists, i + 1, k), |Flatten(lists, k)|)
  {
    var done, part := Flattened(lists, i, k), Part(lists[i], k);
    FlattenedLength(lists, i, k);
    FlattenedGrows(lists, i + 1, |lists|, k);
    var r := Store(b, |done|, part);
    assert r[..|done|] == b[..|done|];
    assert r[..|done| + |part|] == r[..|done|] + r[|done|..|done| + |part|];
  }

  /** Buffer b holds the first i lists' parts of kind k and has room for
      all of them. */
  predicate FrontAt(b: seq<byte>, lists: seq<PairList>, i: nat, k: Kind)
    requires i <= |lists|
  {
    Front(b, Flattened(lists, i, k), |Flatten(lists, k)|)
  }

  /** The state of the flattening loop after i rounds: every buffer starts
      with what the first i lists own and has room for all of them, and the
      offsets ci_offset, sci_offset, cj_offset, cj4_offset (a Link) count
      the elements copied so far. */
  predicate Progress(f: Flat, off: Link, lists: seq<PairList>, i: nat)
  {
    && i <= |lists| && AllWellFormed(lists)
    && FrontAt(f.nbl, lists, i, Nbl) && FrontAt(f.ci, lists, i, Ci) && FrontAt(f.sci, lists, i, Sci)
    && FrontAt(f.cj, lists, i, Cj) && FrontAt(f.cj4, lists, i, Cj4)
    && off == Link(Counted(lists, i, Ci), Counted(lists, i, Sci), Counted(lists, i, Cj), Counted(lists, i, Cj4))
  }

  /** One round of the flattening loop: the five memcpys of list i fit, and
      afterwards the loop state is that of round i + 1. */
  lemma RoundStep(f: Flat, off: Link, lists: seq<PairList>, i: nat)
    requires Progress(f, off, lists, i) && i < |lists|
    ensures ElemAt(Nbl, i) + |lists[i].header| <= |f.nbl|
    ensures ElemAt(Ci, off.ci) + |lists[i].ci| <= |f.ci|
    ensures ElemAt(Sci, off.sci) + |lists[i].sci| <= |f.sci|
    ensures ElemAt(Cj, off.cj) + |lists[i].cj| <= |f.cj|
    ensures ElemAt(Cj4, off.cj4) + |lists[i].cj4| <= |f.cj4|
    ensures Progress(Flat(Store(f.nbl, ElemAt(Nbl, i), lists[i].header),
                          Store(f.ci, ElemAt(Ci, off.ci), lists[i].ci),
                          Store(f.sci, ElemAt(Sci, off.sci), lists[i].sci),
                          Store(f.cj, ElemAt(Cj, off.cj), lists[i].cj),
                          Store(f.cj4, ElemAt(Cj4, off.cj4), lists[i].cj4)),
                     Link(off.ci + CountsOf(lists[i].header).nci, off.sci + CountsOf(lists[i].header).nsci,
                          off.cj + CountsOf(lists[i].header).ncj, off.cj4 + CountsOf(lists[i].header).ncj4),
                     lists, i + 1)
  {
    CountedNbl(lists, i);
    CopyStep(f.nbl, lists, i, Nbl);
    CopyStep(f.ci, lists, i, Ci);
    CopyStep(f.sci, lists, i, Sci);
    CopyStep(f.cj, lists, i, Cj);
    CopyStep(f.cj4, lists, i, Cj4);
  }

  /** Before the first round nothing is copied and every offset is zero. */
  lemma ProgressStart(f: Flat, lists: seq<PairList>)
    requires AllWellFormed(lists)
    requires forall k :: |Flatten(lists, k)| <= |Buf(f, k)|
    ensures Progress(f, Link(0, 0, 0, 0), lists, 0)
  {
    assert |Flatten(lists, Nbl)| <= |Buf(f, Nbl)| && |Flatten(lists, Ci)| <= |Buf(f, Ci)|;
    assert |Flatten(lists, Sci)| <= |Buf(f, Sci)| && |Flatten(lists, Cj)| <= |Buf(f, Cj)|;
    assert |Flatten(lists, Cj4)| <= |Buf(f, Cj4)|;
  }

  /** After the last round every buffer starts with the flattened lists. */
  lemma ProgressCovers(f: Flat, off: Link, lists: seq<PairList>)
    requires Progress(f, off, lists, |lists|)
    ensures Covers(f, lists)
  {
    forall k ensures |Flatten(lists, k)| <= |Buf(f, k)| && Buf(f, k)[..|Flatten(lists, k)|] == Flatten(lists, k) {
      match k
      case Nbl =>
      case Ci =>
      case Sci =>
      case Cj =>
      case Cj4 =>
    }
  }

  /** The flattening loop: copy each list's header into slot i of
      nbl_buffer and its ci/sci/cj/cj4 arrays to the running offsets (in
      elements), which are the prefix sums of the earlier lists' counts.
      Afterwards each buffer, still as long as before, starts with the
      flattened lists. */
  method FlattenLists(bufs: Flat, lists: seq<PairList>) returns (r: Flat)
    requires AllWellFormed(lists)
    requires forall k :: |Flatten(lists, k)| <= |Buf(bufs, k)|
    ensures |r.nbl| == |bufs.nbl| && |r.ci| == |bufs.ci| && |r.sci| == |bufs.sci| && |r.cj| == |bufs.cj| && |r.cj4| == |bufs.cj4|
    ensures Covers(r, lists)
  {
    ProgressStart(bufs, lists);
    var f, off := bufs, Link(0, 0, 0, 0);
    var i := 0;
    while i < |lists|
      invariant |f.nbl| == |bufs.nbl| && |f.ci| == |bufs.ci| && |f.sci| == |bufs.sci| && |f.cj| == |bufs.cj| && |f.cj4| == |bufs.cj4|
      invariant Progress(f, off, lists, i)
    {
      RoundStep(f, off, lists, i);
      var l := lists[i];
      var c := CountsOf(l.header);
      f := Flat(Store(f.nbl, ElemAt(Nbl, i), l.header),
                Store(f.ci, ElemAt(Ci, off.ci), l.ci),
                Store(f.sci, ElemAt(Sci, off.sci), l.sci),
                Store(f.cj, ElemAt(Cj, off.cj), l.cj),
                Store(f.cj4, ElemAt(Cj4, off.cj4), l.cj4));
      off := Link(off.ci + c.nci, off.sci + c.nsci, off.cj + c.ncj, off.cj4 + c.ncj4);
      i := i + 1;
    }
    r := f;
    ProgressCovers(r, off, lists);
  }

  /** The five growth steps, one per kind in Kind order, leave every
      capacity grown to that kind's requirement. */
  lemma GrownSizes(lists: seq<PairList>, s0: seq<nat>, s1: seq<nat>, s2: seq<nat>,
                   s3: seq<nat>, s4: seq<nat>, s5: seq<nat>)
    requires AllWellFormed(lists) && |s0| == 5
    requires s1 == s0[0 := NewCapacity(Required(lists, Nbl), s0[0])]
    requires s2 == s1[1 := NewCapacity(Required(lists, Ci), s1[1])]
    requires s3 == s2[2 := NewCapacity(Required(lists, Sci), s2[2])]
    requires s4 == s3[3 := NewCapacity(Required(lists, Cj), s3[3])]
    requires s5 == s4[4 := NewCapacity(Required(lists, Cj4), s4[4])]
    ensures |s5| == 5
    ensures forall k :: s5[KindIndex(k)] == NewCapacity(Required(lists, k), s0[KindIndex(k)])
  {
    forall k ensures s5[KindIndex(k)] == NewCapacity(Required(lists, k), s0[KindIndex(k)]) {
      match k
      case Nbl =>
      case Ci =>
      case Sci =>
      case Cj =>
      case Cj4 =>
    }
  }

  class HostBuffers {
    /** nbl_buffer_size, ci_buffer_size, sci_buffer_size, cj_buffer_size,
        cj4_buffer_size: capacities in elements, in Kind order. */
    var bufferSizes: seq<nat>
    /** What nbl_buffer, ci_buffer, sci_buffer, cj_buffer and cj4_buffer
        hold (a buffer not yet allocated holds nothing). */
    var buffers: Flat
    var currentPacketInSize: nat
    var currentPacketOutSize: nat
    var cpuInPacket: array?<byte>
    var cpuOutPacket: array?<byte>
    var phiInPacket: array?<byte>
    var phiOutPacket: array?<byte>

    /** offload_buffer(): every capacity zero, every pointer null. */
    constructor ()
      ensures Valid()
      ensures forall k :: Capacity(k) == 0 && Buf(buffers, k) == []
      ensures currentPacketInSize == 0 && currentPacketOutSize == 0
      ensures Packets() == [null, null, null, null]
    {
      bufferSizes := [0, 0, 0, 0, 0];
      buffers := Flat([], [], [], [], []);
      currentPacketInSize, currentPacketOutSize := 0, 0;
      cpuInPacket, cpuOutPacket, phiInPacket, phiOutPacket := null, null, null, null;
    }

    function Capacity(k: Kind): nat
      reads this
      requires |bufferSizes| == 5
    {
      bufferSizes[KindIndex(k)]
    }

    /** cpu_in_packet, cpu_out_packet, phi_in_packet, phi_out_packet. */
    function Packets(): seq<array?<byte>>
      reads this
    {
      [cpuInPacket, cpuOutPacket, phiInPacket, phiOutPacket]
    }

    /** Buffer k holds exactly its capacity of elements. */
    predicate BufSized(k: Kind)
      reads this
      requires |bufferSizes| == 5
    {
      |Buf(buffers, k)| == ElemAt(k, Capacity(k))
    }

    /** Each buffer holds exactly its capacity, each packet end holds exactly
        the current packet size, and no two packet ends share memory. */
    predicate Valid()
      reads this
    {
      && |bufferSizes| == 5
      && BufSized(Nbl) && BufSized(Ci) && BufSized(Sci) && BufSized(Cj) && BufSized(Cj4)
      && Holds(cpuOutPacket, currentPacketInSize) && Holds(phiInPacket, currentPacketInSize)
      && Holds(cpuInPacket, currentPacketOutSize) && Holds(phiOutPacket, currentPacketOutSize)
      && Disjoint(Packets())
    }

    /** The growth step for one buffer (repeated per kind in the source):
        free it and allocate exactly the requirement, zeroed, when the
        requirement exceeds the capacity.  Nothing else changes. */
    method Grow(k: Kind, req: nat)
      requires Valid()
      modifies this
      ensures Valid()
      ensures bufferSizes == old(bufferSizes)[KindIndex(k) := NewCapacity(req, old(Capacity(k)))]
      ensures req > old(Capacity(k)) ==> Buf(buffers, k) == Zeros(ElemAt(k, req))
      ensures req <= old(Capacity(k)) ==> Buf(buffers, k) == old(Buf(buffers, k))
      ensures forall k2 :: k2 != k ==> Buf(buffers, k2) == old(Buf(buffers, k2))
      ensures Packets() == old(Packets())
      ensures currentPacketInSize == old(currentPacketInSize) && currentPacketOutSize == old(currentPacketOutSize)
    {
      if req > Capacity(k) {
        var b := Zeros(ElemAt(k, req));
        match k
        case Nbl => buffers, bufferSizes := buffers.(nbl := b), bufferSizes[0 := req];
        case Ci => buffers, bufferSizes := buffers.(ci := b), bufferSizes[1 := req];
        case Sci => buffers, bufferSizes := buffers.(sci := b), bufferSizes[2 := req];
        case Cj => buffers, bufferSizes := buffers.(cj := b), bufferSizes[3 := req];
        case Cj4 => buffers, bufferSizes := buffers.(cj4 := b), bufferSizes[4 := req];
      }
    }

    /** The requirement loop and the five growth steps. */
    method GrowAll(lists: seq<PairList>)
      requires Valid() && AllWellFormed(lists)
      modifies this
      ensures Valid()
      ensures forall k :: Capacity(k) == NewCapacity(Required(lists, k), old(Capacity(k)))
      ensures Packets() == old(Packets())
      ensures currentPacketInSize == old(currentPacketInSize) && currentPacketOutSize == old(currentPacketOutSize)
    {
      var ciReq, sciReq, cjReq, cj4Req := SumRequired(lists);
      RequiredNbl(lists);
      ghost var s0 := bufferSizes;
      Grow(Nbl, |lists|);
      ghost var s1 := bufferSizes;
      Grow(Ci, ciReq);
      ghost var s2 := bufferSizes;
      Grow(Sci, sciReq);
      ghost var s3 := bufferSizes;
      Grow(Cj, cjReq);
      ghost var s4 := bufferSizes;
      Grow(Cj4, cj4Req);
      GrownSizes(lists, s0, s1, s2, s3, s4, bufferSizes);
    }

    /** Once grown, each buffer is long enough for its flattened lists. */
    lemma FitsAll(lists: seq<PairList>)
      requires Valid() && AllWellFormed(lists)
      requires forall k :: Required(lists, k) <= Capacity(k)
      ensures forall k :: |Flatten(lists, k)| <= |Buf(buffers, k)|
    {
      forall k ensures |Flatten(lists, k)| <= |Buf(buffers, k)| {
        FlattenLength(lists, k);
        ElemAtMonotone(k, Required(lists, k), Capacity(k));
      }
    }

    /** The refresh block of the offload call: sum each kind's requirement
        over the lists, grow each buffer to it, then flatten the lists into
        the buffers.  Afterwards every buffer starts with the flattened
        lists. */
    method RefreshNbl(lists: seq<PairList>)
      requires Valid() && AllWellFormed(lists)
      modifies this
      ensures Valid()
      ensures bufferSizes == CapacitiesFor(lists, old(bufferSizes))
      ensures Covers(buffers, lists)
      ensures Packets() == old(Packets())
      ensures currentPacketInSize == old(currentPacketInSize) && currentPacketOutSize == old(currentPacketOutSize)
    {
      GrowAll(lists);
      assert bufferSizes == CapacitiesFor(lists, old(bufferSizes)) by {
        assert bufferSizes[0] == Capacity(Nbl) && bufferSizes[1] == Capacity(Ci) && bufferSizes[2] == Capacity(Sci);
        assert bufferSizes[3] == Capacity(Cj) && bufferSizes[4] == Capacity(Cj4);
      }
      FitsAll(lists);
      buffers := FlattenLists(buffers, lists);
    }

    /** Sizing of the in packet: when the packed inputs need more than the
        current size, both mirrored ends are allocated afresh at twice the
        requirement (the old pair is freed; freeing is not modelled). */
    method PrepareInPacket(required: nat, ghost bufs: seq<array<byte>>)
      requires Valid() && forall i :: 0 <= i < |bufs| ==> bufs[i] !in Packets()
      modifies this
      ensures Valid()
      ensures forall i :: 0 <= i < |bufs| ==> bufs[i] !in Packets()
      ensures currentPacketInSize == GrownPacket(required, old(currentPacketInSize))
      ensures required > old(currentPacketInSize) ==> fresh(cpuOutPacket) && fresh(phiInPacket)
      ensures required <= old(currentPacketInSize) ==> Packets() == old(Packets())
      ensures cpuInPacket == old(cpuInPacket) && phiOutPacket == old(phiOutPacket)
      ensures currentPacketOutSize == old(currentPacketOutSize)
      ensures bufferSizes == old(bufferSizes) && buffers == old(buffers)
    {
      if required > currentPacketInSize {
        ghost var before := Packets();
        var p, offPtr := Mmalloc(2 * required);
        DisjointUpdate(before, 1, p);
        DisjointUpdate(before[1 := p], 2, offPtr);
        cpuOutPacket, phiInPacket := p, offPtr;
        assert Packets() == before[1 := p][2 := offPtr];
        currentPacketInSize := 2 * required;
      }
    }

    /** Sizing of the out packet, in the same way. */
    method PrepareOutPacket(required: nat, ghost bufs: seq<array<byte>>)
      requires Valid() && forall i :: 0 <= i < |bufs| ==> bufs[i] !in Packets()
      modifies this
      ensures Valid()
      ensures forall i :: 0 <= i < |bufs| ==> bufs[i] !in Packets()
      ensures currentPacketOutSize == GrownPacket(required, old(currentPacketOutSize))
      ensures required > old(currentPacketOutSize) ==> fresh(cpuInPacket) && fresh(phiOutPacket)
      ensures required <= old(currentPacketOutSize) ==> Packets() == old(Packets())
      ensures cpuOutPacket == old(cpuOutPacket) && phiInPacket == old(phiInPacket)
      ensures currentPacketInSize == old(currentPacketInSize)
      ensures bufferSizes == old(bufferSizes) && buffers == old(buffers)
    {
      if required > currentPacketOutSize {
        ghost var before := Packets();
        var p, offPtr := Mmalloc(2 * required);
        DisjointUpdate(before, 0, p);
        DisjointUpdate(before[0 := p], 3, offPtr);
        cpuInPacket, phiOutPacket := p, offPtr;
        assert Packets() == before[0 := p][3 := offPtr];
        currentPacketOutSize := 2 * required;
      }
    }
  }
}
