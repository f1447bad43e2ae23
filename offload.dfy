/** One offload slot, shared by the .cpp and .c files: what travels from
    the host into the in packet, what the coprocessor keeps of it, and what
    comes back in the out packet.  The .cpp file has two slots (one per
    nbat->id), the .c file one. */
module Offload {
  import opened Bytes
  import opened PackData
  import opened Memory
  import opened Refresh
  import opened PairLists
  import opened HostSide
  import opened Descriptors
  import opened DeviceSide

  /** The host-side inputs of one offload call besides the pair lists: the
      bytes of the set struct nbvg->nbl_lists, the regions ibuffers[6] to
      ibuffers[18] point at (atom data, its tables and arrays, the
      interaction constants, shift vectors), the energy-group arrays that
      follow them (fshift in the .c file, then Vc and Vvdw), and the atom
      data's scalars. */
  datatype Inputs = Inputs(setBytes: seq<byte>, regions: seq<seq<byte>>, energies: seq<seq<byte>>, atoms: AtomData)

  /** What the kernel and the force reduction leave on the coprocessor:
      nbat->out[0].fshift, the energies written over the Vc and Vvdw
      payloads of the in packet, and nbat->out[0].f. */
  datatype KernelOutput = KernelOutput(fshift: seq<byte>, vc: seq<byte>, vvdw: seq<byte>, f: seq<byte>)

  /** The regions the descriptors point at, in ibuffers order. */
  function Sources(f: Flat, inp: Inputs): seq<seq<byte>>
  {
    [inp.setBytes, f.nbl, f.ci, f.sci, f.cj, f.cj4] + inp.regions + inp.energies
  }

  const NO_CAPS: seq<nat> := [0, 0, 0, 0, 0]

  /** What the caller of the offload call provides: a set struct, and host
      regions each at least as long as its descriptor says. */
  predicate InputsFit(withFshift: bool, refresh: bool, inp: Inputs)
  {
    && |inp.setBytes| == PAIRLIST_SET_BYTES && Sizable(inp.atoms)
    && |inp.regions| + |inp.energies| == NumIn(withFshift) - 6 && |inp.regions| == 13
    && forall i :: 6 <= i < NumIn(withFshift) ==>
         InSizes(withFshift, refresh, NO_CAPS, inp.atoms)[i] <= |(inp.regions + inp.energies)[i - 6]|
  }

  /** Every flattened buffer is as long as its capacity says. */
  predicate FlatSized(f: Flat, caps: seq<nat>)
    requires |caps| == 5
  {
    forall k :: |Buf(f, k)| == ElemAt(k, caps[KindIndex(k)])
  }

  /** The descriptors past the flattened buffers do not depend on the
      capacities. */
  lemma InSizesPastBuffers(withFshift: bool, refresh: bool, caps: seq<nat>, a: AtomData)
    requires |caps| == 5 && Sizable(a)
    ensures forall i :: 6 <= i < NumIn(withFshift) ==>
              InSizes(withFshift, refresh, caps, a)[i] == InSizes(withFshift, refresh, NO_CAPS, a)[i]
  {
  }

  /** With buffers of their capacities and inputs that fit, every source
      region is long enough for packdata to read its descriptor. */
  lemma SourcesFit(withFshift: bool, refresh: bool, caps: seq<nat>, f: Flat, inp: Inputs)
    requires |caps| == 5 && FlatSized(f, caps) && InputsFit(withFshift, refresh, inp)
    ensures |Sources(f, inp)| == NumIn(withFshift)
    ensures forall i :: 0 <= i < NumIn(withFshift) ==>
              InSizes(withFshift, refresh, caps, inp.atoms)[i] <= |Sources(f, inp)[i]|
  {
    var src, sz := Sources(f, inp), InSizes(withFshift, refresh, caps, inp.atoms);
    InSizesPastBuffers(withFshift, refresh, caps, inp.atoms);
    InSizesRefreshing(withFshift, caps, inp.atoms, Nbl);
    InSizesRefreshing(withFshift, caps, inp.atoms, Ci);
    InSizesRefreshing(withFshift, caps, inp.atoms, Sci);
    InSizesRefreshing(withFshift, caps, inp.atoms, Cj);
    InSizesRefreshing(withFshift, caps, inp.atoms, Cj4);
    InSizesIdle(withFshift, caps, inp.atoms);
    assert Buf(f, Nbl) == src[1] && Buf(f, Ci) == src[2] && Buf(f, Sci) == src[3];
    assert Buf(f, Cj) == src[4] && Buf(f, Cj4) == src[5];
    forall i | 6 <= i < NumIn(withFshift) ensures sz[i] <= |src[i]| {
      assert src[i] == (inp.regions + inp.energies)[i - 6];
    }
  }

  /** The payloads packdata puts into the in packet: the first size bytes
      of each source region. */
  function Ins(withFshift: bool, refresh: bool, caps: seq<nat>, f: Flat, inp: Inputs): (r: seq<seq<byte>>)
    requires |caps| == 5 && FlatSized(f, caps) && InputsFit(withFshift, refresh, inp)
    ensures |r| == NumIn(withFshift)
    ensures Sizes(r) == InSizes(withFshift, refresh, caps, inp.atoms)
  {
    SourcesFit(withFshift, refresh, caps, f, inp);
    Payloads(Sources(f, inp), InSizes(withFshift, refresh, caps, inp.atoms))
  }

  /** The kept buffers hold a set struct counting `lists` and start with
      the lists' flattened buffers. */
  predicate Arrived(data: seq<seq<byte>>, lists: seq<PairList>)
  {
    && |data| == NUM_KEPT && |data[0]| >= PAIRLIST_SET_BYTES && Nnbl(data[0]) == |lists|
    && AllWellFormed(lists) && Covers(FlatOf(data), lists) && ElemAt(Nbl, |lists|) <= |data[1]|
  }

  /** Every entry of a packed region holds its payload. */
  lemma PacketReads(region: seq<byte>, ins: seq<seq<byte>>)
    requires PackedAs(region, ins) && ComputeRequiredSize(ins) < WordLimit()
    ensures InPacket(region, |ins|)
    ensures forall k :: 0 <= k < |ins| ==> PayloadOf(region, k) == ins[k]
  {
    forall k | 0 <= k < |ins|
      ensures EntryInPacket(region, k) && PayloadOf(region, k) == ins[k]
    {
      ReadRecord(region, ins, k);
    }
  }

  lemma FlatOfKind(data: seq<seq<byte>>, k: Kind)
    requires |data| == NUM_KEPT
    ensures Buf(FlatOf(data), k) == data[1 + KindIndex(k)]
  {
    match k
    case Nbl =>
    case Ci =>
    case Sci =>
    case Cj =>
    case Cj4 =>
  }

  lemma SourceKind(f: Flat, inp: Inputs, k: Kind)
    ensures Buf(f, k) == Sources(f, inp)[1 + KindIndex(k)]
  {
    match k
    case Nbl =>
    case Ci =>
    case Sci =>
    case Cj =>
    case Cj4 =>
  }

  /** A buffer that starts with the set struct reads the same list count. */
  lemma SameCount(b: seq<byte>, setBytes: seq<byte>)
    requires |setBytes| == PAIRLIST_SET_BYTES <= |b| && b[..PAIRLIST_SET_BYTES] == setBytes
    ensures Nnbl(b) == Nnbl(setBytes)
  {
    assert b[NNBL_AT..NNBL_AT + INT_BYTES] == setBytes[NNBL_AT..NNBL_AT + INT_BYTES];
  }

  /** The coprocessor reads back from a packet of `ins` exactly the kept
      buffers that were packed into it. */
  lemma PackedKept(region: seq<byte>, ins: seq<seq<byte>>, withFshift: bool)
    requires PackedAs(region, ins) && ComputeRequiredSize(ins) < WordLimit() && |ins| == NumIn(withFshift)
    ensures InPacket(region, NumIn(withFshift)) && KeptPayloads(region) == KeptOf(ins)
  {
    PacketReads(region, ins);
    InPacketPrefix(region, 19, NumIn(withFshift));
    forall j | 0 <= j < NUM_KEPT ensures KeptPayloads(region)[j] == KeptOf(ins)[j] {
      assert KeptEntry(j) < 19;
    }
  }



  /** When refreshing, the kept buffers' payloads are the set struct and
      the whole flattened buffers. */
  lemma KeptFromInputs(withFshift: bool, caps: seq<nat>, f: Flat, inp: Inputs)
    requires |caps| == 5 && FlatSized(f, caps) && InputsFit(withFshift, true, inp)
    ensures KeptOf(Ins(withFshift, true, caps, f, inp))[0] == inp.setBytes
    ensures forall k :: KeptOf(Ins(withFshift, true, caps, f, inp))[1 + KindIndex(k)] == Buf(f, k)
  {
    var ins := Ins(withFshift, true, caps, f, inp);
    var src := Sources(f, inp);
    var ps := KeptOf(ins);
    InSizesRefreshing(withFshift, caps, inp.atoms, Nbl);
    assert ps[0] == ins[0] == src[0][..PAIRLIST_SET_BYTES];
    forall k ensures ps[1 + KindIndex(k)] == Buf(f, k) {
      var j := 1 + KindIndex(k);
      InSizesRefreshing(withFshift, caps, inp.atoms, k);
      SourceKind(f, inp, k);
      assert KeptEntry(j) == j;
      assert ps[j] == ins[j] == src[j][..ElemAt(k, caps[KindIndex(k)])];
    }
  }

  /** Kept buffers refreshed from the set struct and the whole flattened
      buffers count the lists and start with their flattened buffers. */
  lemma RefreshedArrive(d0: seq<seq<byte>>, ps: seq<seq<byte>>, f: Flat, setBytes: seq<byte>, lists: seq<PairList>)
    requires |d0| == |ps| == NUM_KEPT
    requires SetWellFormed(ListSet(setBytes, lists)) && Covers(f, lists)
    requires ps[0] == setBytes && forall k :: ps[1 + KindIndex(k)] == Buf(f, k)
    ensures Arrived(RefreshedAll(d0, ps), lists)
  {
    var data := RefreshedAll(d0, ps);
    RefreshedKeepsFront(d0[0], ps[0], ps[0]);
    SameCount(data[0], setBytes);
    forall k
      ensures |Flatten(lists, k)| <= |Buf(FlatOf(data), k)|
      ensures Buf(FlatOf(data), k)[..|Flatten(lists, k)|] == Flatten(lists, k)
    {
      var j := 1 + KindIndex(k);
      FlatOfKind(data, k);
      RefreshedKeepsFront(d0[j], ps[j], Flatten(lists, k));
    }
    if |lists| > 0 {
      DerefRecovers(FlatOf(data), lists, |lists| - 1);
    }
  }

  /** A refreshing call delivers the lists: once the in packet carries the
      set struct and the whole flattened buffers, the kept buffers after
      the unpack sequence, whatever they held before, count the host's
      lists and start with their flattened buffers. */
  lemma ListsArrive(withFshift: bool, caps: seq<nat>, f: Flat, inp: Inputs, lists: seq<PairList>, d0: seq<seq<byte>>)
    requires |caps| == 5 && FlatSized(f, caps) && InputsFit(withFshift, true, inp)
    requires SetWellFormed(ListSet(inp.setBytes, lists)) && Covers(f, lists)
    requires |d0| == NUM_KEPT
    ensures Arrived(RefreshedAll(d0, KeptOf(Ins(withFshift, true, caps, f, inp))), lists)
  {
    KeptFromInputs(withFshift, caps, f, inp);
    RefreshedArrive(d0, KeptOf(Ins(withFshift, true, caps, f, inp)), f, inp.setBytes, lists);
  }

  /** A call that does not refresh sends the set struct and the flattened
      buffers empty, so those kept buffers stay as they were, and lists
      that had arrived are still there. */
  lemma IdleKeeps(withFshift: bool, caps: seq<nat>, f: Flat, inp: Inputs, d0: seq<seq<byte>>, lists: seq<PairList>)
    requires |caps| == 5 && FlatSized(f, caps) && InputsFit(withFshift, false, inp)
    requires |d0| == NUM_KEPT
    ensures forall j :: 0 <= j < 6 ==> RefreshedAll(d0, KeptOf(Ins(withFshift, false, caps, f, inp)))[j] == d0[j]
    ensures Arrived(d0, lists) ==> Arrived(RefreshedAll(d0, KeptOf(Ins(withFshift, false, caps, f, inp))), lists)
  {
    var ins := Ins(withFshift, false, caps, f, inp);
    InSizesIdle(withFshift, caps, inp.atoms);
    var ps := KeptOf(ins);
    forall j | 0 <= j < 6 ensures RefreshedAll(d0, ps)[j] == d0[j] {
      assert KeptEntry(j) == j && Structural(j);
      assert |ps[j]| == |ins[j]| == 0;
    }
    assert FlatOf(RefreshedAll(d0, ps)) == FlatOf(d0);
  }

  /** Either way, the lists are there after the unpack sequence. */
  lemma InputsArrive(withFshift: bool, refresh: bool, caps: seq<nat>, f: Flat, inp: Inputs, lists: seq<PairList>,
                     d0: seq<seq<byte>>)
    requires |caps| == 5 && FlatSized(f, caps) && InputsFit(withFshift, refresh, inp)
    requires refresh ==> SetWellFormed(ListSet(inp.setBytes, lists)) && Covers(f, lists)
    requires !refresh ==> Arrived(d0, lists)
    requires |d0| == NUM_KEPT
    ensures Arrived(RefreshedAll(d0, KeptOf(Ins(withFshift, refresh, caps, f, inp))), lists)
  {
    if refresh {
      ListsArrive(withFshift, caps, f, inp, lists, d0);
    } else {
      IdleKeeps(withFshift, caps, f, inp, d0, lists);
    }
  }

  /** Equal table bytes give equal entries. */
  lemma SameTable(r1: seq<byte>, r2: seq<byte>, t: nat, k: nat)
    requires t <= |r1| && t <= |r2| && r1[..t] == r2[..t] && TableBytes(k + 1) <= t
    ensures EntrySize(r1, k) == EntrySize(r2, k) && EntryOffset(r1, k) == EntryOffset(r2, k)
  {
    SliceOfPrefix(r1, r2[..t], TableBytes(k), TableBytes(k) + WORD_BYTES);
    SliceOfPrefix(r2, r2[..t], TableBytes(k), TableBytes(k) + WORD_BYTES);
    SliceOfPrefix(r1, r2[..t], TableBytes(k) + WORD_BYTES, TableBytes(k + 1));
    SliceOfPrefix(r2, r2[..t], TableBytes(k) + WORD_BYTES, TableBytes(k + 1));
  }

  /** The kernel writes the energies over the Vc and Vvdw payloads of the
      in packet (entries v and v + 1, reached through next<T>); reading
      those entries back with get_buffer gives what it wrote. */
  lemma KernelEnergies(region: seq<byte>, ins: seq<seq<byte>>, v: nat, vc: seq<byte>, vvdw: seq<byte>)
    requires PackedAs(region, ins) && ComputeRequiredSize(ins) < WordLimit() && v + 1 < |ins|
    requires |vc| == |ins[v]| && |vvdw| == |ins[v + 1]|
    ensures EntryInPacket(region, v) && EntryInPacket(region, v + 1)
    ensures EntrySize(region, v) == |vc| && EntrySize(region, v + 1) == |vvdw|
    ensures EntryOffset(region, v) + |vc| <= EntryOffset(region, v + 1)
    ensures var r := Store(Store(region, EntryOffset(region, v), vc), EntryOffset(region, v + 1), vvdw);
            EntryInPacket(r, v) && EntryInPacket(r, v + 1) && PayloadOf(r, v) == vc && PayloadOf(r, v + 1) == vvdw
  {
    var sizes := Sizes(ins);
    ReadRecord(region, ins, v);
    ReadRecord(region, ins, v + 1);
    RecordWithinRequired(sizes, v);
    PlaceOrdered(sizes, TableBytes(|sizes|), v, v + 1);
    var ov, ow := EntryOffset(region, v), EntryOffset(region, v + 1);
    var r1 := Store(region, ov, vc);
    var r := Store(r1, ow, vvdw);
    var t := TableBytes(|ins|);
    StoreOutside(region, ov, vc, 0, t);
    StoreOutside(r1, ow, vvdw, 0, t);
    SameTable(r, region, t, v);
    SameTable(r, region, t, v + 1);
    StoreOutside(r1, ow, vvdw, ov, ov + |vc|);
  }

  /** Sizes of obuffers: fshift, the Vc and Vvdw descriptors again, and the
      forces. */
  function OutSizes(a: AtomData): seq<nat>
  {
    [FshiftBytes(), REAL_BYTES * a.nener, REAL_BYTES * a.nener, ForceBytes(a)]
  }

  /** The in-packet descriptor sizes once the refresh block has run. */
  function SizesAfter(withFshift: bool, refresh: bool, lists: seq<PairList>, caps: seq<nat>, a: AtomData): seq<nat>
    requires |caps| == 5 && Sizable(a) && (refresh ==> AllWellFormed(lists))
  {
    InSizes(withFshift, refresh, if refresh then CapacitiesFor(lists, caps) else caps, a)
  }

  /** The host buffers' every kind holds its capacity. */
  lemma HostFlatSized(h: HostBuffers)
    requires h.Valid()
    ensures FlatSized(h.buffers, h.bufferSizes)
  {
    forall k ensures |Buf(h.buffers, k)| == ElemAt(k, h.bufferSizes[KindIndex(k)]) {
      assert h.BufSized(k) by {
        match k
        case Nbl =>
        case Ci =>
        case Sci =>
        case Cj =>
        case Cj4 =>
      }
    }
  }

  /** The coprocessor's kept buffers hold `lists`, and its nbl pointers
      and links are re-linked for them. */
  ghost predicate Delivered(d: DeviceBuffers, lists: seq<PairList>)
    reads d, d.nblPtrs
  {
    d.Shaped() && Arrived(d.data, lists) && d.Relinked(|lists|)
  }

  /** The coprocessor's unpack sequence over an in packet of `ins`, when the kept
      payloads packed into it make the kept buffers hold `lists`. */
  method Unpack(d: DeviceBuffers, packet: array<byte>, withFshift: bool, ghost region: seq<byte>,
                ghost ins: seq<seq<byte>>, ghost lists: seq<PairList>, ghost others: set<object>)
    returns (vals: seq<nat>)
    requires d.Valid() && packet !in d.Repr && others !! d.Repr && packet[..] == region
    requires PackedAs(region, ins) && ComputeRequiredSize(ins) < WordLimit() && |ins| == NumIn(withFshift)
    requires Arrived(RefreshedAll(d.data, KeptOf(ins)), lists)
    modifies d, d.Repr
    ensures d.Valid() && packet !in d.Repr && others !! d.Repr
    ensures Arrived(d.data, lists) && d.nblPtrs == old(d.nblPtrs) && d.links == old(d.links)
    ensures InPacket(region, NumIn(withFshift)) && vals == NextOffsets(region, withFshift)
  {
    PackedKept(region, ins, withFshift);
    var it := new PacketIter(packet);
    vals := d.UnpackInputs(it, region, withFshift, others + {packet});
  }

  /** The relink that follows the unpack: the .c one (a fresh pointer array
      on every refresh) when withFshift, else the .cpp one. */
  method Relink(d: DeviceBuffers, withFshift: bool, refresh: bool, ghost lists: seq<PairList>)
    requires d.Valid() && Arrived(d.data, lists)
    requires withFshift && !refresh ==> d.nblPtrs != null && |lists| <= d.nblPtrs.Length
    modifies d, d.nblPtrs
    ensures d.Valid() && d.Repr == old(d.Repr) && d.data == old(d.data)
    ensures Delivered(d, lists)
  {
    var n;
    if withFshift {
      n := d.RelinkC(refresh);
    } else {
      n := d.RelinkCpp();
    }
  }

  /** The coprocessor's side of the offload region up to the kernel: the
      unpack sequence, then the relink. */
  method Deliver(d: DeviceBuffers, packet: array<byte>, withFshift: bool, refresh: bool, ghost region: seq<byte>,
                 ghost ins: seq<seq<byte>>, ghost lists: seq<PairList>, ghost others: set<object>)
    returns (vals: seq<nat>)
    requires d.Valid() && packet !in d.Repr && others !! d.Repr && packet[..] == region
    requires PackedAs(region, ins) && ComputeRequiredSize(ins) < WordLimit() && |ins| == NumIn(withFshift)
    requires Arrived(RefreshedAll(d.data, KeptOf(ins)), lists)
    requires withFshift && !refresh ==> d.nblPtrs != null && |lists| <= d.nblPtrs.Length
    modifies d, d.Repr, d.nblPtrs
    ensures d.Valid() && packet !in d.Repr && others !! d.Repr && Delivered(d, lists)
    ensures InPacket(region, NumIn(withFshift)) && vals == NextOffsets(region, withFshift)
  {
    vals := Unpack(d, packet, withFshift, region, ins, lists, others);
    Relink(d, withFshift, refresh, lists);
  }

  /** The offload region's in half: offload_transfer's
      in(cpu_out_packet[0:packet_in_size] : into(phi_in_packet[0:packet_in_size])),
      then the coprocessor's unpack sequence and relink. */
  method OffloadIn(cpuOut: array<byte>, phiIn: array<byte>, inSize: nat, d: DeviceBuffers, withFshift: bool,
                   refresh: bool, ghost ins: seq<seq<byte>>, ghost lists: seq<PairList>, ghost others: set<object>)
    returns (vals: seq<nat>, ghost region: seq<byte>)
    requires cpuOut != phiIn && inSize <= cpuOut.Length && inSize <= phiIn.Length
    requires inSize == ComputeRequiredSize(ins) < WordLimit() && |ins| == NumIn(withFshift)
    requires PackedAs(cpuOut[..], ins)
    requires d.Valid() && cpuOut !in d.Repr && phiIn !in d.Repr && others !! d.Repr
    requires Arrived(RefreshedAll(d.data, KeptOf(ins)), lists)
    requires withFshift && !refresh ==> d.nblPtrs != null && |lists| <= d.nblPtrs.Length
    modifies phiIn, d, d.Repr, d.nblPtrs
    ensures d.Valid() && cpuOut !in d.Repr && phiIn !in d.Repr && others !! d.Repr && Delivered(d, lists)
    ensures phiIn[..] == region && Opened(region, ins, withFshift, vals)
  {
    Transfer(cpuOut, phiIn, inSize);
    region := phiIn[..];
    PackedAsPrefix(cpuOut[..], region, ins);
    vals := Deliver(d, phiIn, withFshift, refresh, region, ins, lists, others + {cpuOut});
  }

  /** The records of phi_buffers (and of unpack_data.cpu_buffers): the
      shift forces, the two energy arrays, the forces. */
  function OutOf(out: KernelOutput): (r: seq<seq<byte>>)
    ensures |r| == NUM_OUT
  {
    [out.fshift, out.vc, out.vvdw, out.f]
  }

  /** Where the Vc and Vvdw payloads sit among the offsets the unpack read. */
  lemma EnergyOffsets(region: seq<byte>, withFshift: bool)
    requires InPacket(region, NumIn(withFshift))
    ensures |NextOffsets(region, withFshift)| >= 2
    ensures EntryInPacket(region, VcIndex(withFshift)) && EntryInPacket(region, VcIndex(withFshift) + 1)
    ensures var vals := NextOffsets(region, withFshift);
            vals[|vals| - 2] == EntryOffset(region, VcIndex(withFshift))
            && vals[|vals| - 1] == EntryOffset(region, VcIndex(withFshift) + 1)
  {
    var e := NextEntries(withFshift);
    assert e[|e| - 2] == VcIndex(withFshift) && e[|e| - 1] == VcIndex(withFshift) + 1;
  }

  /** The kernel's energy output: Vc and Vvdw, the pointers next<real>
      handed out for the last two entries, are written in place in the
      coprocessor end of the in packet. */
  method WriteEnergies(phiIn: array<byte>, withFshift: bool, vals: seq<nat>, vc: seq<byte>, vvdw: seq<byte>,
                       ghost ins: seq<seq<byte>>)
    requires PackedAs(phiIn[..], ins) && ComputeRequiredSize(ins) < WordLimit() && |ins| == NumIn(withFshift)
    requires InPacket(phiIn[..], NumIn(withFshift)) && vals == NextOffsets(phiIn[..], withFshift)
    requires |vc| == |ins[VcIndex(withFshift)]| && |vvdw| == |ins[VcIndex(withFshift) + 1]|
    modifies phiIn
    ensures EntryInPacket(phiIn[..], VcIndex(withFshift)) && EntryInPacket(phiIn[..], VcIndex(withFshift) + 1)
    ensures PayloadOf(phiIn[..], VcIndex(withFshift)) == vc && PayloadOf(phiIn[..], VcIndex(withFshift) + 1) == vvdw
  {
    ghost var region := phiIn[..];
    KernelEnergies(region, ins, VcIndex(withFshift), vc, vvdw);
    EnergyOffsets(region, withFshift);
    Memcpy(phiIn, vals[|vals| - 2], vc);
    Memcpy(phiIn, vals[|vals| - 1], vvdw);
  }

  /** packdata(phi_out_packet, phi_buffers, 4), with phi_buffers[1] and [2]
      read back through get_buffer from the in packet. */
  method PackOut(phiIn: array<byte>, phiOut: array<byte>, withFshift: bool, out: KernelOutput,
                 ghost ins: seq<seq<byte>>)
    requires phiIn != phiOut && Fits(ins, withFshift, out)
    requires EntryInPacket(phiIn[..], VcIndex(withFshift)) && EntryInPacket(phiIn[..], VcIndex(withFshift) + 1)
    requires PayloadOf(phiIn[..], VcIndex(withFshift)) == out.vc && PayloadOf(phiIn[..], VcIndex(withFshift) + 1) == out.vvdw
    requires ComputeRequiredSize(OutOf(out)) <= phiOut.Length
    modifies phiOut
    ensures PackedAs(phiOut[..], OutOf(out))
    ensures var v := VcIndex(withFshift);
            PackedAs(phiOut[..], OutBuffers(out.fshift, ins[v := out.vc][v + 1 := out.vvdw], withFshift, out.f))
  {
    var v := VcIndex(withFshift);
    var vcBuf, vvdwBuf := GetBuffer(phiIn[..], v), GetBuffer(phiIn[..], v + 1);
    var pb := [out.fshift, phiIn[vcBuf.offset..vcBuf.offset + vcBuf.size],
               phiIn[vvdwBuf.offset..vvdwBuf.offset + vvdwBuf.size], out.f];
    assert pb == OutOf(out);
    ghost var blank := phiOut[..];
    PackData.PackData(phiOut, pb);
    PackedHolds(blank, pb);
    PhiBuffersAreOutBuffers(ins, withFshift, out, out.fshift, out.f);
  }

  /** The out half of the offload region: the packing, then offload_transfer's
      out(phi_out_packet[0:packet_out_size] : into(cpu_in_packet[0:packet_out_size])). */
  method SendOut(phiIn: array<byte>, phiOut: array<byte>, cpuIn: array<byte>, outSize: nat, withFshift: bool,
                 out: KernelOutput, ghost ins: seq<seq<byte>>)
    requires phiIn != phiOut && phiOut != cpuIn && phiIn != cpuIn && Fits(ins, withFshift, out)
    requires EntryInPacket(phiIn[..], VcIndex(withFshift)) && EntryInPacket(phiIn[..], VcIndex(withFshift) + 1)
    requires PayloadOf(phiIn[..], VcIndex(withFshift)) == out.vc && PayloadOf(phiIn[..], VcIndex(withFshift) + 1) == out.vvdw
    requires outSize == ComputeRequiredSize(OutOf(out)) && outSize <= phiOut.Length && outSize <= cpuIn.Length
    modifies phiOut, cpuIn
    ensures PackedAs(cpuIn[..], OutOf(out))
  {
    PackOut(phiIn, phiOut, withFshift, out, ins);
    Transfer(phiOut, cpuIn, outSize);
    PackedAsPrefix(phiOut[..], cpuIn[..], OutOf(out));
  }

  /** An in packet of `ins` that the unpack sequence has read, handing out
      the payload offsets `vals`. */
  ghost predicate Opened(region: seq<byte>, ins: seq<seq<byte>>, withFshift: bool, vals: seq<nat>)
  {
    && PackedAs(region, ins) && ComputeRequiredSize(ins) < WordLimit() && |ins| == NumIn(withFshift)
    && InPacket(region, NumIn(withFshift)) && vals == NextOffsets(region, withFshift)
  }

  /** The kernel's output as the descriptors size it: SHIFTS rvecs of
      shift forces, nener reals of each energy, and natoms * fstride reals
      of forces. */
  predicate OutputShaped(a: AtomData, out: KernelOutput)
  {
    && |out.fshift| == FshiftBytes() && |out.vc| == REAL_BYTES * a.nener
    && |out.vvdw| == REAL_BYTES * a.nener && |out.f| == ForceBytes(a)
  }

  /** An output of that shape is what obuffers describes, so the out packet
      sized from the descriptors holds exactly its records, and its energies
      are as long as the Vc and Vvdw records of the in packet. */
  lemma ShapedOutput(withFshift: bool, refresh: bool, caps: seq<nat>, f: Flat, inp: Inputs, out: KernelOutput)
    requires |caps| == 5 && FlatSized(f, caps) && InputsFit(withFshift, refresh, inp)
    requires OutputShaped(inp.atoms, out)
    ensures Sizes(OutOf(out)) == OutSizes(inp.atoms)
    ensures ComputeRequiredSize(OutOf(out)) == RequiredSize(OutSizes(inp.atoms))
    ensures Fits(Ins(withFshift, refresh, caps, f, inp), withFshift, out)
  {
    var ins := Ins(withFshift, refresh, caps, f, inp);
    var sizes := InSizes(withFshift, refresh, caps, inp.atoms);
    assert Sizes(OutOf(out)) == OutSizes(inp.atoms);
    assert |ins[VcIndex(withFshift)]| == sizes[VcIndex(withFshift)];
    assert |ins[VcIndex(withFshift) + 1]| == sizes[VcIndex(withFshift) + 1];
  }

  /** obuffers as the host builds it, over the host's fshift and force
      regions and the Vc and Vvdw records of the in list, describes the
      four records of the out descriptor sizes. */
  lemma OutBuffersSized(withFshift: bool, refresh: bool, caps: seq<nat>, f: Flat, inp: Inputs,
                        fshift: seq<byte>, forces: seq<byte>)
    requires |caps| == 5 && FlatSized(f, caps) && InputsFit(withFshift, refresh, inp)
    requires |fshift| == FshiftBytes() && |forces| == ForceBytes(inp.atoms)
    ensures VcIndex(withFshift) + 1 < |Ins(withFshift, refresh, caps, f, inp)|
    ensures Sizes(OutBuffers(fshift, Ins(withFshift, refresh, caps, f, inp), withFshift, forces)) == OutSizes(inp.atoms)
    ensures ComputeRequiredSize(OutBuffers(fshift, Ins(withFshift, refresh, caps, f, inp), withFshift, forces))
            == RequiredSize(OutSizes(inp.atoms))
  {
    var ins := Ins(withFshift, refresh, caps, f, inp);
    var sizes := InSizes(withFshift, refresh, caps, inp.atoms);
    assert |ins[VcIndex(withFshift)]| == sizes[VcIndex(withFshift)];
    assert |ins[VcIndex(withFshift) + 1]| == sizes[VcIndex(withFshift) + 1];
    assert Sizes(OutBuffers(fshift, ins, withFshift, forces)) == OutSizes(inp.atoms);
  }

  /** phi_buffers is obuffers over the coprocessor's fshift and forces and
      the in list with the kernel's energies in place of the Vc and Vvdw
      records; its records are as long as those of the host's obuffers, so
      the out packet the host sized is the one the coprocessor packs. */
  lemma PhiBuffersAreOutBuffers(ins: seq<seq<byte>>, withFshift: bool, out: KernelOutput,
                                fshift: seq<byte>, forces: seq<byte>)
    requires Fits(ins, withFshift, out) && |fshift| == |out.fshift| && |forces| == |out.f|
    ensures var v := VcIndex(withFshift);
            OutOf(out) == OutBuffers(out.fshift, ins[v := out.vc][v + 1 := out.vvdw], withFshift, out.f)
    ensures Sizes(OutOf(out)) == Sizes(OutBuffers(fshift, ins, withFshift, forces))
    ensures ComputeRequiredSize(OutOf(out)) == ComputeRequiredSize(OutBuffers(fshift, ins, withFshift, forces))
  {
    var v := VcIndex(withFshift);
    var written := ins[v := out.vc][v + 1 := out.vvdw];
    assert written[v] == out.vc && written[v + 1] == out.vvdw;
    assert Sizes(OutOf(out)) == Sizes(OutBuffers(fshift, ins, withFshift, forces));
  }

  /** The kernel's energies are as long as the Vc and Vvdw records sent. */
  predicate Fits(ins: seq<seq<byte>>, withFshift: bool, out: KernelOutput)
  {
    VcIndex(withFshift) + 1 < |ins| && |out.vc| == |ins[VcIndex(withFshift)]| && |out.vvdw| == |ins[VcIndex(withFshift) + 1]|
  }

  /** The coprocessor's side after the relink: the kernel's energies, then
      the out packet packed and carried back. */
  method OffloadOut(phiIn: array<byte>, phiOut: array<byte>, cpuIn: array<byte>, outSize: nat, withFshift: bool,
                    vals: seq<nat>, out: KernelOutput, ghost ins: seq<seq<byte>>, ghost region: seq<byte>)
    requires phiIn != phiOut && phiOut != cpuIn && phiIn != cpuIn
    requires phiIn[..] == region && Opened(region, ins, withFshift, vals) && Fits(ins, withFshift, out)
    requires outSize == ComputeRequiredSize(OutOf(out)) && outSize <= phiOut.Length && outSize <= cpuIn.Length
    modifies phiIn, phiOut, cpuIn
    ensures PackedAs(cpuIn[..], OutOf(out))
  {
    WriteEnergies(phiIn, withFshift, vals, out.vc, out.vvdw, ins);
    SendOut(phiIn, phiOut, cpuIn, outSize, withFshift, out, ins);
  }

  /** The host buffers of a list, as a set of objects. */
  ghost function Bound(bufs: seq<array<byte>>): (r: set<object>)
    ensures forall i :: 0 <= i < |bufs| ==> bufs[i] in r
  {
    set i | 0 <= i < |bufs| :: bufs[i] as object
  }

  /** A slot none of whose objects and kept buffers was written is still
      valid: only packet contents changed. */
  twostate lemma StillValid(sl: Slot)
    requires old(sl.Valid()) && unchanged(sl, sl.host, sl.device) && unchanged(old(sl.device.Repr))
    ensures sl.Valid()
  {
  }

  /** offload_buffers_array[id] (both its host and its coprocessor half)
      with bRefreshNbl_array[id] and unpack_data_array[id]; in the .c file,
      the statics of the offload call, bRefreshNbl and unpack_data.  It ties
      one offload call to the wait that collects its results. */
  class Slot {
    const host: HostBuffers
    const device: DeviceBuffers
    /** unpack_data.out_packet_addr: the host end of the out packet. */
    var outPacketAddr: array?<byte>
    /** unpack_data.cpu_buffers: nbat->out[0].fshift, Vc, Vvdw and nbat->out[0].f. */
    var cpuBuffers: seq<array<byte>>
    /** What the pending out packet carries for each of cpuBuffers. */
    ghost var results: seq<seq<byte>>
    /** nbat->id, which the .cpp offload call returns as the signal to wait on. */
    const id: nat
    /** The refresh flag of this id (bRefreshNbl_array[id] in the .cpp
        file, the global bRefreshNbl in the .c file). */
    var refresh: bool
    /** The pair lists the coprocessor was last sent. */
    ghost var sent: seq<PairList>

    /** A slot with empty buffers and the given initial flag. */
    constructor (id: nat, refresh: bool)
      ensures Valid() && fresh(host) && fresh(device) && device.Repr == {}
      ensures device.data == seq(NUM_KEPT, _ => [])
      ensures outPacketAddr == null && cpuBuffers == [] && results == []
      ensures this.id == id && this.refresh == refresh && sent == []
    {
      host := new HostBuffers();
      device := new DeviceBuffers();
      outPacketAddr, cpuBuffers, results := null, [], [];
      this.id := id;
      this.refresh, sent := refresh, [];
    }

    /** The slot is well formed, and while the flag is clear the
        coprocessor still holds, relinked, the lists it was last sent. */
    ghost predicate Ready()
      reads this, host, device, device.Repr, device.nblPtrs
    {
      Valid() && (!refresh ==> Delivered(device, sent))
    }

    /** Host buffers that are neither packets nor coprocessor buffers. */
    ghost predicate Outside(bufs: seq<array<byte>>)
      reads host, device
    {
      Bound(bufs) !! device.Repr && forall i :: 0 <= i < |bufs| ==> bufs[i] !in host.Packets()
    }

    /** The four packet ends. */
    ghost function PacketSet(): set<array<byte>>
      reads host
    {
      set p: array<byte> | p in host.Packets()
    }

    ghost predicate Valid()
      reads host, device, device.Repr
    {
      host.Valid() && device.Valid() && Apart()
    }

    /** No packet end is one of the coprocessor's kept buffers. */
    ghost predicate Apart()
      reads host, device
    {
      && host.cpuInPacket !in device.Repr && host.cpuOutPacket !in device.Repr
      && host.phiInPacket !in device.Repr && host.phiOutPacket !in device.Repr
    }

    /** unpack_data describes an out packet that has arrived: its records
        are `results`, each fits the host buffer it is bound for, and the
        host buffers are distinct and apart from the packet. */
    ghost predicate Pending()
      reads this, outPacketAddr
    {
      && outPacketAddr != null && |cpuBuffers| == NUM_OUT && |results| == NUM_OUT
      && PackedAs(outPacketAddr[..], results) && ComputeRequiredSize(results) < WordLimit()
      && (forall i :: 0 <= i < NUM_OUT ==> cpuBuffers[i] != outPacketAddr && |results[i]| <= cpuBuffers[i].Length)
      && (forall i, j :: 0 <= i < j < NUM_OUT ==> cpuBuffers[i] != cpuBuffers[j])
    }

    /** The refresh block of the offload call, when the flag is set. */
    method RefreshHost(refresh: bool, lists: seq<PairList>)
      requires Valid() && (refresh ==> AllWellFormed(lists))
      modifies host
      ensures Valid() && host.Packets() == old(host.Packets())
      ensures host.currentPacketInSize == old(host.currentPacketInSize)
      ensures host.currentPacketOutSize == old(host.currentPacketOutSize)
      ensures refresh ==> Covers(host.buffers, lists) && host.bufferSizes == CapacitiesFor(lists, old(host.bufferSizes))
      ensures !refresh ==> host.buffers == old(host.buffers) && host.bufferSizes == old(host.bufferSizes)
      ensures FlatSized(host.buffers, host.bufferSizes)
    {
      if refresh {
        host.RefreshNbl(lists);
      }
      HostFlatSized(host);
    }

    /** compute_required_size over ibuffers, the in packet grown to it if
        need be, and packdata into the host end. */
    method PackIn(withFshift: bool, refresh: bool, inp: Inputs, ghost bufs: seq<array<byte>>)
      returns (ins: seq<seq<byte>>, inSize: nat)
      requires Valid() && InputsFit(withFshift, refresh, inp) && FlatSized(host.buffers, host.bufferSizes)
      requires forall i :: 0 <= i < |bufs| ==> bufs[i] !in host.Packets()
      modifies host, host.cpuOutPacket
      ensures Valid() && forall i :: 0 <= i < |bufs| ==> bufs[i] !in host.Packets()
      ensures host.cpuOutPacket == old(host.cpuOutPacket) || fresh(host.cpuOutPacket)
      ensures host.phiInPacket == old(host.phiInPacket) || fresh(host.phiInPacket)
      ensures host.buffers == old(host.buffers) && host.bufferSizes == old(host.bufferSizes)
      ensures host.cpuInPacket == old(host.cpuInPacket) && host.phiOutPacket == old(host.phiOutPacket)
      ensures host.currentPacketOutSize == old(host.currentPacketOutSize)
      ensures ins == Ins(withFshift, refresh, host.bufferSizes, host.buffers, inp)
      ensures inSize == ComputeRequiredSize(ins)
      ensures host.cpuOutPacket != null && host.phiInPacket != null
      ensures inSize <= host.cpuOutPacket.Length && inSize <= host.phiInPacket.Length
      ensures PackedAs(host.cpuOutPacket[..], ins)
    {
      ins := Ins(withFshift, refresh, host.bufferSizes, host.buffers, inp);
      inSize := ComputeRequiredSize(ins);
      host.PrepareInPacket(inSize, bufs);
      ghost var blank := host.cpuOutPacket[..];
      PackData.PackData(host.cpuOutPacket, ins);
      PackedHolds(blank, ins);
    }

    /** compute_required_size over obuffers (the host's fshift and force
        regions around the Vc and Vvdw records of the in list), and the out
        packet grown to it if need be. */
    method SizeOut(withFshift: bool, ins: seq<seq<byte>>, fshift: seq<byte>, forces: seq<byte>,
                   ghost bufs: seq<array<byte>>) returns (outSize: nat)
      requires VcIndex(withFshift) + 1 < |ins|
      requires Valid() && forall i :: 0 <= i < |bufs| ==> bufs[i] !in host.Packets()
      modifies host
      ensures Valid() && forall i :: 0 <= i < |bufs| ==> bufs[i] !in host.Packets()
      ensures host.cpuInPacket == old(host.cpuInPacket) || fresh(host.cpuInPacket)
      ensures host.phiOutPacket == old(host.phiOutPacket) || fresh(host.phiOutPacket)
      ensures host.buffers == old(host.buffers) && host.bufferSizes == old(host.bufferSizes)
      ensures host.cpuOutPacket == old(host.cpuOutPacket) && host.phiInPacket == old(host.phiInPacket)
      ensures host.currentPacketInSize == old(host.currentPacketInSize)
      ensures outSize == ComputeRequiredSize(OutBuffers(fshift, ins, withFshift, forces))
      ensures host.cpuInPacket != null && host.phiOutPacket != null
      ensures outSize <= host.cpuInPacket.Length && outSize <= host.phiOutPacket.Length
    {
      outSize := ComputeRequiredSize(OutBuffers(fshift, ins, withFshift, forces));
      host.PrepareOutPacket(outSize, bufs);
    }

    /** The in half of the host's part: the refresh block and the in
        packet packed.  The kept payloads of the packed inputs make the
        coprocessor's buffers hold `lists`: sent afresh when refreshing,
        kept from the last call otherwise. */
    method PrepareIn(withFshift: bool, refresh: bool, inp: Inputs, lists: seq<PairList>, ghost bufs: seq<array<byte>>)
      returns (ins: seq<seq<byte>>, inSize: nat)
      requires Valid() && InputsFit(withFshift, refresh, inp)
      requires forall i :: 0 <= i < |bufs| ==> bufs[i] !in host.Packets()
      requires refresh ==> SetWellFormed(ListSet(inp.setBytes, lists))
      requires !refresh ==> Arrived(device.data, lists)
      requires RequiredSize(SizesAfter(withFshift, refresh, lists, host.bufferSizes, inp.atoms)) < WordLimit()
      modifies host, host.cpuOutPacket
      ensures Valid() && forall i :: 0 <= i < |bufs| ==> bufs[i] !in host.Packets()
      ensures host.cpuOutPacket == old(host.cpuOutPacket) || fresh(host.cpuOutPacket)
      ensures host.phiInPacket == old(host.phiInPacket) || fresh(host.phiInPacket)
      ensures host.cpuInPacket == old(host.cpuInPacket) && host.phiOutPacket == old(host.phiOutPacket)
      ensures host.cpuOutPacket != null && host.phiInPacket != null
      ensures FlatSized(host.buffers, host.bufferSizes) && ins == Ins(withFshift, refresh, host.bufferSizes, host.buffers, inp)
      ensures inSize == ComputeRequiredSize(ins) < WordLimit() && |ins| == NumIn(withFshift)
      ensures inSize <= host.cpuOutPacket.Length && inSize <= host.phiInPacket.Length
      ensures PackedAs(host.cpuOutPacket[..], ins)
      ensures Arrived(RefreshedAll(device.data, KeptOf(ins)), lists)
    {
      RefreshHost(refresh, lists);
      InputsArrive(withFshift, refresh, host.bufferSizes, host.buffers, inp, lists, device.data);
      ins, inSize := PackIn(withFshift, refresh, inp, bufs);
    }

    /** The host's part of the offload call before the transfer: the in
        half, then compute_required_size over obuffers and the out packet
        grown to it. */
    method Prepare(withFshift: bool, refresh: bool, inp: Inputs, lists: seq<PairList>, fshift: seq<byte>,
                   forces: seq<byte>, ghost out: KernelOutput, ghost bufs: seq<array<byte>>)
      returns (inSize: nat, outSize: nat, ghost ins: seq<seq<byte>>)
      requires Valid() && InputsFit(withFshift, refresh, inp) && OutputShaped(inp.atoms, out)
      requires |fshift| == FshiftBytes() && |forces| == ForceBytes(inp.atoms)
      requires forall i :: 0 <= i < |bufs| ==> bufs[i] !in host.Packets()
      requires refresh ==> SetWellFormed(ListSet(inp.setBytes, lists))
      requires !refresh ==> Arrived(device.data, lists)
      requires RequiredSize(SizesAfter(withFshift, refresh, lists, host.bufferSizes, inp.atoms)) < WordLimit()
      requires RequiredSize(OutSizes(inp.atoms)) < WordLimit()
      modifies host, host.cpuOutPacket
      ensures Valid()
      ensures host.cpuInPacket == old(host.cpuInPacket) || fresh(host.cpuInPacket)
      ensures host.cpuOutPacket == old(host.cpuOutPacket) || fresh(host.cpuOutPacket)
      ensures host.phiInPacket == old(host.phiInPacket) || fresh(host.phiInPacket)
      ensures host.phiOutPacket == old(host.phiOutPacket) || fresh(host.phiOutPacket)
      ensures host.cpuInPacket != null && host.cpuOutPacket != null && host.phiInPacket != null && host.phiOutPacket != null
      ensures inSize == ComputeRequiredSize(ins) < WordLimit() && |ins| == NumIn(withFshift)
      ensures inSize <= host.cpuOutPacket.Length && inSize <= host.phiInPacket.Length
      ensures PackedAs(host.cpuOutPacket[..], ins)
      ensures Arrived(RefreshedAll(device.data, KeptOf(ins)), lists)
      ensures Fits(ins, withFshift, out)
      ensures outSize == ComputeRequiredSize(OutOf(out)) < WordLimit()
      ensures outSize <= host.phiOutPacket.Length && outSize <= host.cpuInPacket.Length
      ensures forall i :: 0 <= i < |bufs| ==> bufs[i] !in host.Packets()
    {
      var packed;
      packed, inSize := PrepareIn(withFshift, refresh, inp, lists, bufs);
      ins := packed;
      ShapedOutput(withFshift, refresh, host.bufferSizes, host.buffers, inp, out);
      OutBuffersSized(withFshift, refresh, host.bufferSizes, host.buffers, inp, fshift, forces);
      outSize := SizeOut(withFshift, packed, fshift, forces, bufs);
    }

    /** The in packet's transfer, then the coprocessor's unpack and relink,
        when the packed kept payloads make the kept buffers hold `lists`. */
    method DeviceIn(withFshift: bool, refresh: bool, inSize: nat, ghost ins: seq<seq<byte>>,
                    ghost lists: seq<PairList>, ghost others: set<object>)
      returns (vals: seq<nat>, ghost region: seq<byte>)
      requires Valid() && others !! device.Repr
      requires host.cpuInPacket != null && host.cpuOutPacket != null && host.phiInPacket != null && host.phiOutPacket != null
      requires inSize == ComputeRequiredSize(ins) < WordLimit() && |ins| == NumIn(withFshift)
      requires inSize <= host.cpuOutPacket.Length && inSize <= host.phiInPacket.Length
      requires PackedAs(host.cpuOutPacket[..], ins)
      requires Arrived(RefreshedAll(device.data, KeptOf(ins)), lists)
      requires withFshift && !refresh ==> device.nblPtrs != null && |lists| <= device.nblPtrs.Length
      modifies host.phiInPacket, device, device.Repr, device.nblPtrs
      ensures Valid() && others !! device.Repr && Delivered(device, lists)
      ensures host.phiInPacket[..] == region && Opened(region, ins, withFshift, vals)
    {
      var cpuIn: array<byte>, cpuOut: array<byte> := host.cpuInPacket, host.cpuOutPacket;
      var phiIn: array<byte>, phiOut: array<byte> := host.phiInPacket, host.phiOutPacket;
      assert host.Packets()[1] == cpuOut && host.Packets()[2] == phiIn;
      vals, region := OffloadIn(cpuOut, phiIn, inSize, device, withFshift, refresh, ins, lists, others + {cpuIn, phiOut});
    }

    /** The kernel's energies written into the in packet, phi_buffers packed
        and carried back into the host end of the out packet. */
    method Compute(withFshift: bool, vals: seq<nat>, outSize: nat, out: KernelOutput, ghost ins: seq<seq<byte>>,
                   ghost region: seq<byte>)
      requires Valid()
      requires host.cpuInPacket != null && host.cpuOutPacket != null && host.phiInPacket != null && host.phiOutPacket != null
      requires host.phiInPacket[..] == region && Opened(region, ins, withFshift, vals) && Fits(ins, withFshift, out)
      requires outSize == ComputeRequiredSize(OutOf(out))
      requires outSize <= host.phiOutPacket.Length && outSize <= host.cpuInPacket.Length
      modifies host.phiInPacket, host.phiOutPacket, host.cpuInPacket
      ensures Valid() && PackedAs(host.cpuInPacket[..], OutOf(out))
    {
      var cpuIn: array<byte>, phiIn: array<byte>, phiOut: array<byte> := host.cpuInPacket, host.phiInPacket, host.phiOutPacket;
      assert host.Packets()[0] == cpuIn && host.Packets()[2] == phiIn && host.Packets()[3] == phiOut;
      assert {cpuIn, phiIn, phiOut} !! device.Repr;
      label before:
      OffloadOut(phiIn, phiOut, cpuIn, outSize, withFshift, vals, out, ins, region);
      StillValid@before(this);
    }

    /** The end of the offload call: unpack_data is pointed at the host end
        of the out packet and at the host buffers its records are bound for. */
    method Record(cpuBufs: seq<array<byte>>, ghost outs: seq<seq<byte>>, ghost lists: seq<PairList>)
      requires host.cpuInPacket != null && PackedAs(host.cpuInPacket[..], outs)
      requires |outs| == NUM_OUT && ComputeRequiredSize(outs) < WordLimit()
      requires |cpuBufs| == NUM_OUT
      requires forall i :: 0 <= i < NUM_OUT ==> cpuBufs[i] !in host.Packets() && |outs[i]| <= cpuBufs[i].Length
      requires forall i, j :: 0 <= i < j < NUM_OUT ==> cpuBufs[i] != cpuBufs[j]
      requires Bound(cpuBufs) !! device.Repr
      requires Valid() && Delivered(device, lists)
      modifies this
      ensures Valid() && Delivered(device, lists)
      ensures Pending() && outPacketAddr == host.cpuInPacket && cpuBuffers == cpuBufs && results == outs
      ensures Bound(cpuBufs) !! device.Repr && forall i :: 0 <= i < NUM_OUT ==> cpuBufs[i] !in host.Packets()
      ensures !refresh && sent == lists
    {
      outPacketAddr, cpuBuffers, results := host.cpuInPacket, cpuBufs, outs;
      refresh, sent := false, lists;
    }

    /** wait_for_offload: unpackdata from the recorded out packet into the
        recorded host buffers; each receives its record over its front. */
    method Wait()
      requires Ready() && Pending() && Outside(cpuBuffers)
      modifies cpuBuffers
      ensures Ready()
      ensures forall i :: 0 <= i < NUM_OUT ==> cpuBuffers[i][..] == CopiedInto(old(cpuBuffers[i][..]), results[i])
    {
      Receive();
    }

    /** The unpackdata call of wait_for_offload. */
    method Receive()
      requires Pending()
      modifies cpuBuffers
      ensures forall i :: 0 <= i < NUM_OUT ==> cpuBuffers[i][..] == CopiedInto(old(cpuBuffers[i][..]), results[i])
    {
      forall i | 0 <= i < NUM_OUT
        ensures EntryInPacket(outPacketAddr[..], i) && PayloadOf(outPacketAddr[..], i) == results[i]
      {
        ReadRecord(outPacketAddr[..], results, i);
      }
      UnpackData(outPacketAddr, cpuBuffers);
    }

    /** The offload region: the in packet's transfer, the unpack and
        relink, the kernel, and the out packet's transfer back.  Objects in
        `others` stay outside the coprocessor's buffers. */
    method Execute(withFshift: bool, refresh: bool, inSize: nat, outSize: nat, out: KernelOutput,
                   ghost ins: seq<seq<byte>>, ghost lists: seq<PairList>, ghost others: set<object>)
      requires Valid() && others !! device.Repr
      requires host.cpuInPacket != null && host.cpuOutPacket != null && host.phiInPacket != null && host.phiOutPacket != null
      requires inSize == ComputeRequiredSize(ins) < WordLimit() && |ins| == NumIn(withFshift)
      requires inSize <= host.cpuOutPacket.Length && inSize <= host.phiInPacket.Length
      requires PackedAs(host.cpuOutPacket[..], ins)
      requires Arrived(RefreshedAll(device.data, KeptOf(ins)), lists)
      requires withFshift && !refresh ==> device.nblPtrs != null && |lists| <= device.nblPtrs.Length
      requires Fits(ins, withFshift, out)
      requires outSize == ComputeRequiredSize(OutOf(out)) < WordLimit()
      requires outSize <= host.phiOutPacket.Length && outSize <= host.cpuInPacket.Length
      modifies host.phiInPacket, host.phiOutPacket, host.cpuInPacket, device, device.Repr, device.nblPtrs
      ensures Valid() && others !! device.Repr && Delivered(device, lists)
      ensures host.cpuInPacket != null && PackedAs(host.cpuInPacket[..], OutOf(out))
    {
      var vals, region := DeviceIn(withFshift, refresh, inSize, ins, lists, others);
      Compute(withFshift, vals, outSize, out, ins, region);
    }

    /** Execute, then unpack_data set for wait_for_offload.  Host buffers
        apart from the packets and the coprocessor's buffers stay apart. */
    method Send(withFshift: bool, refresh: bool, inSize: nat, outSize: nat, out: KernelOutput,
                ghost ins: seq<seq<byte>>, ghost lists: seq<PairList>, cpuBufs: seq<array<byte>>)
      requires Valid()
      requires host.cpuInPacket != null && host.cpuOutPacket != null && host.phiInPacket != null && host.phiOutPacket != null
      requires inSize == ComputeRequiredSize(ins) < WordLimit() && |ins| == NumIn(withFshift)
      requires inSize <= host.cpuOutPacket.Length && inSize <= host.phiInPacket.Length
      requires PackedAs(host.cpuOutPacket[..], ins)
      requires Arrived(RefreshedAll(device.data, KeptOf(ins)), lists)
      requires withFshift && !refresh ==> device.nblPtrs != null && |lists| <= device.nblPtrs.Length
      requires Fits(ins, withFshift, out)
      requires outSize == ComputeRequiredSize(OutOf(out)) < WordLimit()
      requires outSize <= host.phiOutPacket.Length && outSize <= host.cpuInPacket.Length
      requires |cpuBufs| == NUM_OUT && forall i, j :: 0 <= i < j < NUM_OUT ==> cpuBufs[i] != cpuBufs[j]
      requires Bound(cpuBufs) !! device.Repr
      requires forall i :: 0 <= i < NUM_OUT ==> cpuBufs[i] !in host.Packets() && |OutOf(out)[i]| <= cpuBufs[i].Length
      modifies this, host.phiInPacket, host.phiOutPacket, host.cpuInPacket, device, device.Repr, device.nblPtrs
      ensures Valid() && Delivered(device, lists)
      ensures Bound(cpuBufs) !! device.Repr && forall i :: 0 <= i < NUM_OUT ==> cpuBufs[i] !in host.Packets()
      ensures Pending() && outPacketAddr == host.cpuInPacket && cpuBuffers == cpuBufs && results == OutOf(out)
      ensures !this.refresh && sent == lists
    {
      Execute(withFshift, refresh, inSize, outSize, out, ins, lists, Bound(cpuBufs));
      Record(cpuBufs, OutOf(out), lists);
    }

    /** The whole offload call on this slot: Prepare, Execute, and
        unpack_data set for wait_for_offload.  Host buffers apart from the
        packets and the coprocessor's buffers stay apart. */
    method Offload(withFshift: bool, inp: Inputs, lists: seq<PairList>, out: KernelOutput,
                   cpuBufs: seq<array<byte>>) returns (os: nat)
      requires Ready() && InputsFit(withFshift, refresh, inp) && OutputShaped(inp.atoms, out)
      requires refresh ==> SetWellFormed(ListSet(inp.setBytes, lists))
      requires !refresh ==> lists == sent
      requires RequiredSize(SizesAfter(withFshift, refresh, lists, host.bufferSizes, inp.atoms)) < WordLimit()
      requires RequiredSize(OutSizes(inp.atoms)) < WordLimit()
      requires |cpuBufs| == NUM_OUT && forall i, j :: 0 <= i < j < NUM_OUT ==> cpuBufs[i] != cpuBufs[j]
      requires Bound(cpuBufs) !! device.Repr
      requires forall i :: 0 <= i < NUM_OUT ==> cpuBufs[i] !in host.Packets() && |OutOf(out)[i]| <= cpuBufs[i].Length
      modifies this, host, host.cpuOutPacket, host.phiInPacket, host.phiOutPacket, host.cpuInPacket
      modifies device, device.Repr, device.nblPtrs
      ensures Ready() && !refresh && sent == lists && os == id
      ensures Bound(cpuBufs) !! device.Repr && forall i :: 0 <= i < NUM_OUT ==> cpuBufs[i] !in host.Packets()
      ensures Pending() && outPacketAddr == host.cpuInPacket && cpuBuffers == cpuBufs && results == OutOf(out)
    {
      var sending := refresh;
      var fshift, forces := cpuBufs[0][..FshiftBytes()], cpuBufs[3][..ForceBytes(inp.atoms)];
      var inSize, outSize, ins := Prepare(withFshift, sending, inp, lists, fshift, forces, out, cpuBufs);
      Send(withFshift, sending, inSize, outSize, out, ins, lists, cpuBufs);
      os := id;
    }
  }
}
