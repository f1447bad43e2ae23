/** The descriptor lists of the offload call: which byte regions go into the
    in packet (ibuffers) and which come back in the out packet (obuffers),
    and how long each is.  The .cpp version has 21 input descriptors, the
    .c version 22 (it also sends fshift, at index 19).  Sizes are in bytes,
    as the packet_buffer size field holds them.

    sizeof(nbnxn_atomdata_t), sizeof(interaction_const_t) and
    sizeof(gmx_bitmask_t) are not part of this model; the constants below
    are stand-ins.  real is single precision. */
module Descriptors {
  import opened Bytes
  import opened PairLists
  import opened HostSide

  const REAL_BYTES: nat := 4
  /** sizeof(rvec): three reals. */
  const RVEC_BYTES: nat := 3 * REAL_BYTES
  /** SHIFTS (the number of periodic shift vectors) and DIM. */
  const SHIFTS: nat := 45
  const DIM: nat := 3
  const ATOMDATA_BYTES: nat := 512
  const IC_BYTES: nat := 1024
  const BITMASK_BYTES: nat := 8

  /** NUM_OFFLOAD_BUFFERS in each file. */
  const NUM_IN_CPP: nat := 21
  const NUM_IN_C: nat := 22
  const NUM_OUT: nat := 4

  /** The scalars of the host's atom data (nbat) and energy data (enerd)
      that size the descriptors. combRule is false for ljcrNONE. */
  datatype AtomData = AtomData(natoms: nat, ntype: nat, combRule: bool, nenergrp: nat, naC: nat,
                               xstride: nat, fstride: nat, flagNalloc: nat, nener: nat)

  /** The source divides natoms by na_c only when there are several energy
      groups. */
  predicate Sizable(a: AtomData)
  {
    a.nenergrp > 1 ==> a.naC > 0
  }

  /** Indices whose size depends on the refresh flag: the set struct, the
      five flattened buffers, and type, lj_comb and q. */
  predicate Structural(i: nat)
  {
    i <= 5 || 10 <= i <= 12
  }

  /** NUM_OFFLOAD_BUFFERS of the .c file (withFshift) or of the .cpp file. */
  function NumIn(withFshift: bool): nat
  {
    if withFshift then NUM_IN_C else NUM_IN_CPP
  }

  /** The size of ibuffers[i].  Entries 0 to 18 are the same in both files;
      the .c file then sends fshift, and both end with Vc and Vvdw.  caps
      are the host capacities in Kind order (nbl_buffer_size,
      ci_buffer_size, ...). */
  function InSize(withFshift: bool, refresh: bool, caps: seq<nat>, a: AtomData, i: nat): nat
    requires |caps| == 5 && Sizable(a)
  {
    if i == 0 then PAIRLIST_SET_BYTES * (if refresh then 1 else 0)
    else if i == 1 then ElemAt(Nbl, if refresh then caps[0] else 0)
    else if i == 2 then ElemAt(Ci, if refresh then caps[1] else 0)
    else if i == 3 then ElemAt(Sci, if refresh then caps[2] else 0)
    else if i == 4 then ElemAt(Cj, if refresh then caps[3] else 0)
    else if i == 5 then ElemAt(Cj4, if refresh then caps[4] else 0)
    else if i == 6 then ATOMDATA_BYTES
    else if i == 7 then REAL_BYTES * (a.ntype * a.ntype * 2)
    else if i == 8 then REAL_BYTES * (if a.combRule then a.ntype * 2 else 0)
    else if i == 9 then REAL_BYTES * (a.ntype * a.ntype * 4)
    else if i == 10 then INT_BYTES * (if refresh then a.natoms else 0)
    else if i == 11 then REAL_BYTES * (if refresh then a.natoms * 2 else 0)
    else if i == 12 then REAL_BYTES * (if refresh then a.natoms else 0)
    else if i == 13 then INT_BYTES * (if a.nenergrp > 1 then a.natoms / a.naC else 0)
    else if i == 14 then RVEC_BYTES * SHIFTS
    else if i == 15 then REAL_BYTES * (a.natoms * a.xstride)
    else if i == 16 then BITMASK_BYTES * a.flagNalloc
    else if i == 17 then IC_BYTES
    else if i == 18 then RVEC_BYTES * SHIFTS
    else if withFshift && i == 19 then REAL_BYTES * (DIM * SHIFTS)
    else REAL_BYTES * a.nener
  }

  /** The sizes of ibuffers in each file. */
  function InSizes(withFshift: bool, refresh: bool, caps: seq<nat>, a: AtomData): (r: seq<nat>)
    requires |caps| == 5 && Sizable(a)
    ensures |r| == NumIn(withFshift)
    ensures forall i :: 0 <= i < |r| ==> r[i] == InSize(withFshift, refresh, caps, a, i)
  {
    seq(NumIn(withFshift), i requires 0 <= i => InSize(withFshift, refresh, caps, a, i))
  }

  /** With the refresh flag clear, the structural descriptors are empty. */
  lemma InSizesIdle(withFshift: bool, caps: seq<nat>, a: AtomData)
    requires |caps| == 5 && Sizable(a)
    ensures forall i :: 0 <= i < NumIn(withFshift) && Structural(i) ==> InSizes(withFshift, false, caps, a)[i] == 0
  {
  }

  /** The other descriptors do not depend on the refresh flag. */
  lemma InSizesUnconditional(withFshift: bool, caps: seq<nat>, a: AtomData)
    requires |caps| == 5 && Sizable(a)
    ensures forall i :: 0 <= i < NumIn(withFshift) && !Structural(i) ==>
              InSizes(withFshift, true, caps, a)[i] == InSizes(withFshift, false, caps, a)[i]
  {
  }

  /** When refreshing, the set struct goes whole and each flattened buffer
      goes with its full capacity (not just the part the lists use). */
  lemma InSizesRefreshing(withFshift: bool, caps: seq<nat>, a: AtomData, k: Kind)
    requires |caps| == 5 && Sizable(a)
    ensures InSizes(withFshift, true, caps, a)[0] == PAIRLIST_SET_BYTES
    ensures InSizes(withFshift, true, caps, a)[1 + KindIndex(k)] == ElemAt(k, caps[KindIndex(k)])
  {
    match k
    case Nbl =>
    case Ci =>
    case Sci =>
    case Cj =>
    case Cj4 =>
  }

  /** Index of the Vc descriptor in ibuffers (Vvdw follows it). */
  function VcIndex(withFshift: bool): nat
  {
    if withFshift then 20 else 19
  }

  /** The first size bytes of each source region: what packdata reads
      through each packet_buffer {p, s}. */
  function Payloads(srcs: seq<seq<byte>>, sizes: seq<nat>): (r: seq<seq<byte>>)
    requires |srcs| == |sizes| && forall i :: 0 <= i < |sizes| ==> sizes[i] <= |srcs[i]|
    ensures |r| == |sizes|
    ensures forall i :: 0 <= i < |sizes| ==> |r[i]| == sizes[i] && r[i] == srcs[i][..sizes[i]]
  {
    seq(|sizes|, i requires 0 <= i < |sizes| => srcs[i][..sizes[i]])
  }

  /** Size of the fshift and force output records. */
  function FshiftBytes(): nat
  {
    REAL_BYTES * SHIFTS * DIM
  }

  function ForceBytes(a: AtomData): nat
  {
    REAL_BYTES * a.natoms * a.fstride
  }

  /** obuffers: fshift, then the Vc and Vvdw input descriptors again, then
      the forces.  The energy outputs are not described twice: they are the
      input records themselves.  On the coprocessor, phi_buffers is the
      same list over the in packet the kernel wrote its energies into. */
  function OutBuffers(fshift: seq<byte>, ins: seq<seq<byte>>, withFshift: bool, f: seq<byte>): seq<seq<byte>>
    requires VcIndex(withFshift) + 1 < |ins|
  {
    [fshift, ins[VcIndex(withFshift)], ins[VcIndex(withFshift) + 1], f]
  }

  /** The .cpp and .c in lists agree on the shared part, and the energies
      sit one place later in the .c list, behind fshift. */
  lemma InSizesFilesAgree(refresh: bool, caps: seq<nat>, a: AtomData)
    requires |caps| == 5 && Sizable(a)
    ensures InSizes(false, refresh, caps, a)[..19] == InSizes(true, refresh, caps, a)[..19]
    ensures InSizes(true, refresh, caps, a)[19] == FshiftBytes()
    ensures InSizes(false, refresh, caps, a)[VcIndex(false)] == InSizes(true, refresh, caps, a)[VcIndex(true)]
    ensures InSizes(false, refresh, caps, a)[VcIndex(false) + 1] == InSizes(true, refresh, caps, a)[VcIndex(true) + 1]
  {
  }
}
