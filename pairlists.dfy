/** The neighbour pair lists that the offload code flattens on the host and
    re-links on the coprocessor.

    The struct definitions (nbnxn_pairlist_set_t, nbnxn_pairlist_t and the
    ci/sci/cj/cj4 element types) are not part of this model.  Their sizes
    below are stand-ins, and a pair list's header keeps its four element
    counts as int fields at fixed stand-in positions.  Nothing proved here
    depends on the particular values. */
module PairLists {
  import opened Bytes

  const PAIRLIST_SET_BYTES: nat := 48
  const PAIRLIST_BYTES: nat := 256
  const CI_BYTES: nat := 16
  const SCI_BYTES: nat := 16
  const CJ_BYTES: nat := 8
  const CJ4_BYTES: nat := 32

  /** Byte positions of nnbl in the set struct and of nci, nsci, ncj, ncj4
      in a pair list header. */
  const NNBL_AT: nat := 0
  const NCI_AT: nat := 0
  const NSCI_AT: nat := 4
  const NCJ_AT: nat := 8
  const NCJ4_AT: nat := 12

  /** The five contiguous buffers of the flattened lists: nbl_buffer (the
      list headers), ci_buffer, sci_buffer, cj_buffer and cj4_buffer. */
  datatype Kind = Nbl | Ci | Sci | Cj | Cj4

  function ElemBytes(k: Kind): (r: nat)
    ensures r > 0
  {
    match k
    case Nbl => PAIRLIST_BYTES
    case Ci => CI_BYTES
    case Sci => SCI_BYTES
    case Cj => CJ_BYTES
    case Cj4 => CJ4_BYTES
  }

  datatype Counts = Counts(nci: nat, nsci: nat, ncj: nat, ncj4: nat)

  /** nbl->nci, nbl->nsci, nbl->ncj, nbl->ncj4 of a list header. */
  function CountsOf(header: seq<byte>): Counts
    requires |header| == PAIRLIST_BYTES
  {
    Counts(IntField(header, NCI_AT), IntField(header, NSCI_AT),
           IntField(header, NCJ_AT), IntField(header, NCJ4_AT))
  }

  /** nbl_lists->nnbl of a set struct. */
  function Nnbl(setBytes: seq<byte>): nat
    requires |setBytes| >= PAIRLIST_SET_BYTES
  {
    IntField(setBytes, NNBL_AT)
  }

  /** Elements of kind k one list owns: its own header, or its count. */
  function Count(c: Counts, k: Kind): nat
  {
    match k
    case Nbl => 1
    case Ci => c.nci
    case Sci => c.nsci
    case Cj => c.ncj
    case Cj4 => c.ncj4
  }

  /** One host pair list: its header bytes and its four element arrays. */
  datatype PairList = PairList(header: seq<byte>, ci: seq<byte>, sci: seq<byte>, cj: seq<byte>, cj4: seq<byte>)

  function Part(l: PairList, k: Kind): seq<byte>
  {
    match k
    case Nbl => l.header
    case Ci => l.ci
    case Sci => l.sci
    case Cj => l.cj
    case Cj4 => l.cj4
  }

  /** Bytes taken by n elements of kind k, which is also the byte position
      of element n: the pointer arithmetic of `ci_buffer + n`. */
  function ElemAt(k: Kind, n: nat): nat
  {
    ElemBytes(k) * n
  }

  /** Offsets add up: a + b elements take the bytes of a, then of b. */
  lemma ElemAtAdd(k: Kind, a: nat, b: nat, sum: nat)
    requires sum == a + b
    ensures ElemAt(k, sum) == ElemAt(k, a) + ElemAt(k, b)
  {
    var e := ElemBytes(k);
    assert e * (a + b) == e * a + e * b;
  }

  lemma ElemAtMonotone(k: Kind, a: nat, b: nat)
    requires a <= b
    ensures ElemAt(k, a) <= ElemAt(k, b)
  {
    ElemAtAdd(k, a, b - a, b);
  }

  /** A list whose arrays have the lengths its header's counts say. */
  predicate WellFormed(l: PairList)
  {
    && |l.header| == PAIRLIST_BYTES
    && |l.ci| == ElemAt(Ci, CountsOf(l.header).nci)
    && |l.sci| == ElemAt(Sci, CountsOf(l.header).nsci)
    && |l.cj| == ElemAt(Cj, CountsOf(l.header).ncj)
    && |l.cj4| == ElemAt(Cj4, CountsOf(l.header).ncj4)
  }

  predicate AllWellFormed(lists: seq<PairList>)
  {
    forall i :: 0 <= i < |lists| ==> WellFormed(lists[i])
  }

  lemma PartLength(l: PairList, k: Kind)
    requires WellFormed(l)
    ensures |Part(l, k)| == ElemAt(k, Count(CountsOf(l.header), k))
  {
  }

  /** Every header has the header size (all the requirement sums need). */
  predicate HeadersSized(lists: seq<PairList>)
  {
    forall i :: 0 <= i < |lists| ==> |lists[i].header| == PAIRLIST_BYTES
  }

  /** Elements of kind k the first i lists own (for Nbl, one per list):
      the running sum of the requirement loop, and the running offset of
      the flattening loop. */
  function Counted(lists: seq<PairList>, i: nat, k: Kind): nat
    requires i <= |lists| && HeadersSized(lists)
  {
    if i == 0 then 0 else Counted(lists, i - 1, k) + Count(CountsOf(lists[i - 1].header), k)
  }

  /** The host's *_buffer_size_req: elements of kind k over all lists (for
      Nbl, the number of lists). */
  function Required(lists: seq<PairList>, k: Kind): nat
    requires HeadersSized(lists)
  {
    Counted(lists, |lists|, k)
  }

  /** The first i lists' parts of kind k, back to back. */
  function Flattened(lists: seq<PairList>, i: nat, k: Kind): seq<byte>
    requires i <= |lists|
  {
    if i == 0 then [] else Flattened(lists, i - 1, k) + Part(lists[i - 1], k)
  }

  /** The flattened buffer of kind k: every list's part, back to back. */
  function Flatten(lists: seq<PairList>, k: Kind): seq<byte>
  {
    Flattened(lists, |lists|, k)
  }

  lemma WellFormedSized(lists: seq<PairList>)
    requires AllWellFormed(lists)
    ensures HeadersSized(lists)
  {
  }

  lemma {:induction false} CountedNbl(lists: seq<PairList>, i: nat)
    requires i <= |lists| && HeadersSized(lists)
    ensures Counted(lists, i, Nbl) == i
  {
    if i > 0 {
      CountedNbl(lists, i - 1);
    }
  }

  /** One list header per list. */
  lemma RequiredNbl(lists: seq<PairList>)
    requires HeadersSized(lists)
    ensures Required(lists, Nbl) == |lists|
  {
    CountedNbl(lists, |lists|);
  }

  /** The first i lists' parts end at the byte position of their element
      count. */
  lemma {:induction false} FlattenedLength(lists: seq<PairList>, i: nat, k: Kind)
    requires i <= |lists| && AllWellFormed(lists)
    ensures |Flattened(lists, i, k)| == ElemAt(k, Counted(lists, i, k))
  {
    if i > 0 {
      FlattenedLength(lists, i - 1, k);
      var l := lists[i - 1];
      var c := Count(CountsOf(l.header), k);
      PartLength(l, k);
      assert |Flattened(lists, i, k)| == |Flattened(lists, i - 1, k)| + |Part(l, k)|;
      ElemAtAdd(k, Counted(lists, i - 1, k), c, Counted(lists, i, k));
    }
  }

  /** A flattened buffer holds exactly the required number of elements. */
  lemma FlattenLength(lists: seq<PairList>, k: Kind)
    requires AllWellFormed(lists)
    ensures |Flatten(lists, k)| == ElemAt(k, Required(lists, k))
  {
    FlattenedLength(lists, |lists|, k);
  }

  /** The flattened headers: one PAIRLIST_BYTES block per list. */
  lemma {:induction false} FlattenedNblLength(lists: seq<PairList>, i: nat)
    requires i <= |lists| && HeadersSized(lists)
    ensures |Flattened(lists, i, Nbl)| == ElemAt(Nbl, i)
  {
    if i > 0 {
      FlattenedNblLength(lists, i - 1);
    }
  }

  /** Flattening more lists only appends. */
  lemma {:induction false} FlattenedGrows(lists: seq<PairList>, i: nat, j: nat, k: Kind)
    requires i <= j <= |lists|
    ensures |Flattened(lists, i, k)| <= |Flattened(lists, j, k)|
    ensures Flattened(lists, j, k)[..|Flattened(lists, i, k)|] == Flattened(lists, i, k)
    decreases j
  {
    if i < j {
      FlattenedGrows(lists, i, j - 1, k);
      var front, whole := Flattened(lists, j - 1, k), Flattened(lists, j, k);
      assert whole[..|front|] == front;
      SliceOfPrefix(whole, front, 0, |Flattened(lists, i, k)|);
    }
  }

  /** List i's part of kind k sits in the flattened buffer right after the
      parts of the earlier lists. */
  lemma FlattenSlice(lists: seq<PairList>, k: Kind, i: nat)
    requires i < |lists|
    ensures |Flattened(lists, i, k)| + |Part(lists[i], k)| <= |Flatten(lists, k)|
    ensures Flatten(lists, k)[|Flattened(lists, i, k)|..|Flattened(lists, i, k)| + |Part(lists[i], k)|]
            == Part(lists[i], k)
  {
    var front, next := Flattened(lists, i, k), Flattened(lists, i + 1, k);
    FlattenedGrows(lists, i + 1, |lists|, k);
    SliceOfPrefix(Flatten(lists, k), next, |front|, |next|);
    assert next[|front|..] == Part(lists[i], k);
  }

  // ---------------------------------------------------------------------
  // Re-linking on the coprocessor

  /** Header i ends inside the first n headers when i < n. */
  lemma HeaderFits(i: nat, n: nat)
    requires i < n
    ensures ElemAt(Nbl, i) + PAIRLIST_BYTES <= ElemAt(Nbl, n)
  {
    ElemAtMonotone(Nbl, i + 1, n);
  }

  /** Header of list i in a received nbl_buffer (nbl_buffer[i]). */
  function HeaderAt(nbl: seq<byte>, i: nat): (h: seq<byte>)
    requires ElemAt(Nbl, i) + PAIRLIST_BYTES <= |nbl|
    ensures |h| == PAIRLIST_BYTES
  {
    nbl[ElemAt(Nbl, i)..ElemAt(Nbl, i) + PAIRLIST_BYTES]
  }

  /** Every header has the header size. */
  predicate Sized(hs: seq<seq<byte>>)
  {
    forall i :: 0 <= i < |hs| ==> |hs[i]| == PAIRLIST_BYTES
  }

  /** The first n headers of a received nbl_buffer. */
  function Headers(nbl: seq<byte>, n: nat): (hs: seq<seq<byte>>)
    requires ElemAt(Nbl, n) <= |nbl|
    ensures |hs| == n && Sized(hs)
  {
    seq(n, i requires 0 <= i < n => HeaderFits(i, n); HeaderAt(nbl, i))
  }

  /** Elements of kind k owned by lists 0..i-1 of the received headers:
      the running offset the re-linking loop keeps. */
  function PrefixCount(hs: seq<seq<byte>>, i: nat, k: Kind): nat
    requires i <= |hs| && Sized(hs)
  {
    if i == 0 then 0 else PrefixCount(hs, i - 1, k) + Count(CountsOf(hs[i - 1]), k)
  }

  /** The pointers re-linking stores in list i's header: nbl->ci =
      ci_buffer + ci, and so on, in elements. */
  datatype Link = Link(ci: nat, sci: nat, cj: nat, cj4: nat)

  /** The links of list i: the running offsets over lists 0..i-1. */
  function LinkFor(hs: seq<seq<byte>>, i: nat): Link
    requires i <= |hs| && Sized(hs)
  {
    Link(PrefixCount(hs, i, Ci), PrefixCount(hs, i, Sci), PrefixCount(hs, i, Cj), PrefixCount(hs, i, Cj4))
  }

  /** Each list's links are the previous list's, moved on by its counts. */
  lemma LinkForNext(hs: seq<seq<byte>>, i: nat)
    requires i < |hs| && Sized(hs)
    ensures var l, c := LinkFor(hs, i), CountsOf(hs[i]);
            LinkFor(hs, i + 1) == Link(l.ci + c.nci, l.sci + c.nsci, l.cj + c.ncj, l.cj4 + c.ncj4)
  {
  }

  /** The link pointer of kind k (not Nbl), in elements. */
  function LinkOffset(link: Link, k: Kind): nat
  {
    match k
    case Nbl => 0
    case Ci => link.ci
    case Sci => link.sci
    case Cj => link.cj
    case Cj4 => link.cj4
  }

  /** The five received buffers, as long as the device allocated them. */
  datatype Flat = Flat(nbl: seq<byte>, ci: seq<byte>, sci: seq<byte>, cj: seq<byte>, cj4: seq<byte>)

  function Buf(f: Flat, k: Kind): seq<byte>
  {
    match k
    case Nbl => f.nbl
    case Ci => f.ci
    case Sci => f.sci
    case Cj => f.cj
    case Cj4 => f.cj4
  }

  /** nbl[i] = nbl_buffer + ptr lies inside nbl_buffer, and that header's
      link of kind k, for the count the header holds, inside its buffer. */
  predicate PartInBounds(f: Flat, ptr: nat, link: Link, k: Kind)
  {
    && ElemAt(Nbl, ptr) + PAIRLIST_BYTES <= |f.nbl|
    && ElemAt(k, LinkOffset(link, k) + Count(CountsOf(HeaderAt(f.nbl, ptr)), k)) <= |Buf(f, k)|
  }

  predicate LinkInBounds(f: Flat, ptr: nat, link: Link)
  {
    PartInBounds(f, ptr, link, Ci) && PartInBounds(f, ptr, link, Sci) &&
    PartInBounds(f, ptr, link, Cj) && PartInBounds(f, ptr, link, Cj4)
  }

  /** The elements of kind k the kernel reads for the header at ptr: from
      the link pointer on, as many as that header counts. */
  function DerefPart(f: Flat, ptr: nat, link: Link, k: Kind): seq<byte>
    requires PartInBounds(f, ptr, link, k)
  {
    var at := LinkOffset(link, k);
    var n := Count(CountsOf(HeaderAt(f.nbl, ptr)), k);
    ElemAtMonotone(k, at, at + n);
    Buf(f, k)[ElemAt(k, at)..ElemAt(k, at + n)]
  }

  /** The list the kernel reads through nbl[i] = nbl_buffer + ptr and the
      header's link pointers. */
  function Deref(f: Flat, ptr: nat, link: Link): PairList
    requires LinkInBounds(f, ptr, link)
  {
    PairList(HeaderAt(f.nbl, ptr), DerefPart(f, ptr, link, Ci), DerefPart(f, ptr, link, Sci),
             DerefPart(f, ptr, link, Cj), DerefPart(f, ptr, link, Cj4))
  }

  /** Received buffers that start with the host's flattened lists. */
  predicate Covers(f: Flat, lists: seq<PairList>)
  {
    forall k: Kind :: |Flatten(lists, k)| <= |Buf(f, k)| &&
                      Buf(f, k)[..|Flatten(lists, k)|] == Flatten(lists, k)
  }

  /** A received nbl_buffer that starts with the host's flattened headers. */
  predicate HeadersReceived(nbl: seq<byte>, lists: seq<PairList>)
  {
    |Flatten(lists, Nbl)| <= |nbl| && nbl[..|Flatten(lists, Nbl)|] == Flatten(lists, Nbl)
  }

  lemma CoversHeaders(f: Flat, lists: seq<PairList>)
    requires Covers(f, lists)
    ensures HeadersReceived(f.nbl, lists)
  {
    assert Buf(f, Nbl) == f.nbl;
  }

  lemma HeaderReceived(nbl: seq<byte>, lists: seq<PairList>, i: nat)
    requires AllWellFormed(lists) && HeadersReceived(nbl, lists) && i < |lists|
    ensures ElemAt(Nbl, i) + PAIRLIST_BYTES <= |nbl|
    ensures HeaderAt(nbl, i) == lists[i].header
  {
    FlattenedNblLength(lists, i);
    FlattenSlice(lists, Nbl, i);
    var lo := ElemAt(Nbl, i);
    assert |Part(lists[i], Nbl)| == PAIRLIST_BYTES;
    SliceOfPrefix(nbl, Flatten(lists, Nbl), lo, lo + PAIRLIST_BYTES);
  }

  /** The coprocessor reads back exactly the host's headers. */
  lemma HeadersAreHost(nbl: seq<byte>, lists: seq<PairList>)
    requires AllWellFormed(lists) && HeadersReceived(nbl, lists)
    ensures ElemAt(Nbl, |lists|) <= |nbl|
    ensures forall i :: 0 <= i < |lists| ==> Headers(nbl, |lists|)[i] == lists[i].header
  {
    FlattenedNblLength(lists, |lists|);
    forall i | 0 <= i < |lists| ensures Headers(nbl, |lists|)[i] == lists[i].header {
      HeaderReceived(nbl, lists, i);
    }
  }

  /** From the host's headers the coprocessor's running offsets are the
      host's requirement sums. */
  lemma {:induction false} PrefixCountIsCounted(hs: seq<seq<byte>>, lists: seq<PairList>, i: nat, k: Kind)
    requires AllWellFormed(lists) && |hs| == |lists| && Sized(hs) && i <= |lists|
    requires forall j :: 0 <= j < |lists| ==> hs[j] == lists[j].header
    ensures PrefixCount(hs, i, k) == Counted(lists, i, k)
  {
    if i > 0 {
      PrefixCountIsCounted(hs, lists, i - 1, k);
    }
  }

  /** A part appended after front, inside the prefix whole of buf, reads
      back from buf at front's end. */
  lemma ReadBack(buf: seq<byte>, whole: seq<byte>, front: seq<byte>, part: seq<byte>, next: seq<byte>)
    requires next == front + part
    requires |next| <= |whole| && whole[..|next|] == next
    requires |whole| <= |buf| && buf[..|whole|] == whole
    ensures |front| <= |next| <= |buf|
    ensures buf[|front|..|next|] == part
  {
    SliceOfPrefix(buf, whole, |front|, |next|);
    SliceOfPrefix(whole, next, |front|, |next|);
  }

  /** What DerefPart reads, once its start and end element are known. */
  lemma DerefPartSlice(f: Flat, ptr: nat, link: Link, k: Kind, lo: nat, hi: nat, part: seq<byte>)
    requires ElemAt(Nbl, ptr) + PAIRLIST_BYTES <= |f.nbl|
    requires LinkOffset(link, k) == lo && lo + Count(CountsOf(HeaderAt(f.nbl, ptr)), k) == hi
    requires ElemAt(k, lo) <= ElemAt(k, hi) <= |Buf(f, k)| && Buf(f, k)[ElemAt(k, lo)..ElemAt(k, hi)] == part
    ensures PartInBounds(f, ptr, link, k)
    ensures DerefPart(f, ptr, link, k) == part
  {
  }

  /** Part k of list i, read at the offset re-linking computes, is the
      host's part. */
  lemma DerefPartIsPart(f: Flat, lists: seq<PairList>, i: nat, k: Kind)
    requires AllWellFormed(lists) && Covers(f, lists) && i < |lists| && k != Nbl
    ensures ElemAt(k, Counted(lists, i, k)) <= ElemAt(k, Counted(lists, i + 1, k)) <= |Buf(f, k)|
    ensures Buf(f, k)[ElemAt(k, Counted(lists, i, k))..ElemAt(k, Counted(lists, i + 1, k))] == Part(lists[i], k)
  {
    FlattenedLength(lists, i, k);
    FlattenedLength(lists, i + 1, k);
    FlattenedGrows(lists, i + 1, |lists|, k);
    ReadBack(Buf(f, k), Flatten(lists, k), Flattened(lists, i, k), Part(lists[i], k), Flattened(lists, i + 1, k));
  }

  /** The link of kind k re-linking computes for list i is the host's
      running sum before list i, and it plus list i's count the sum after. */
  lemma LinkIsCounted(nbl: seq<byte>, lists: seq<PairList>, i: nat, k: Kind)
    requires AllWellFormed(lists) && HeadersReceived(nbl, lists) && i < |lists| && k != Nbl
    ensures ElemAt(Nbl, |lists|) <= |nbl|
    ensures ElemAt(Nbl, i) + PAIRLIST_BYTES <= |nbl|
    ensures LinkOffset(LinkFor(Headers(nbl, |lists|), i), k) == Counted(lists, i, k)
    ensures LinkOffset(LinkFor(Headers(nbl, |lists|), i), k) + Count(CountsOf(HeaderAt(nbl, i)), k)
            == Counted(lists, i + 1, k)
  {
    HeadersAreHost(nbl, lists);
    HeaderReceived(nbl, lists, i);
    var hs := Headers(nbl, |lists|);
    PrefixCountIsCounted(hs, lists, i, k);
  }

  /** Through the link re-linking computes, the kernel reads list i's
      part of kind k as the host held it. */
  lemma DerefPartRecovers(f: Flat, lists: seq<PairList>, i: nat, k: Kind)
    requires AllWellFormed(lists) && Covers(f, lists) && i < |lists| && k != Nbl
    ensures ElemAt(Nbl, |lists|) <= |f.nbl|
    ensures PartInBounds(f, i, LinkFor(Headers(f.nbl, |lists|), i), k)
    ensures DerefPart(f, i, LinkFor(Headers(f.nbl, |lists|), i), k) == Part(lists[i], k)
  {
    CoversHeaders(f, lists);
    LinkIsCounted(f.nbl, lists, i, k);
    DerefPartIsPart(f, lists, i, k);
    DerefPartSlice(f, i, LinkFor(Headers(f.nbl, |lists|), i), k,
                   Counted(lists, i, k), Counted(lists, i + 1, k), Part(lists[i], k));
  }

  /** The end-to-end re-linking theorem: after the host's buffers reach the
      coprocessor, the kernel, following nbl[i] = nbl_buffer + i and the
      running-offset links, reads every host list unchanged. */
  lemma DerefRecovers(f: Flat, lists: seq<PairList>, i: nat)
    requires AllWellFormed(lists) && Covers(f, lists) && i < |lists|
    ensures ElemAt(Nbl, |lists|) <= |f.nbl|
    ensures LinkInBounds(f, i, LinkFor(Headers(f.nbl, |lists|), i))
    ensures Deref(f, i, LinkFor(Headers(f.nbl, |lists|), i)) == lists[i]
  {
    CoversHeaders(f, lists);
    HeadersAreHost(f.nbl, lists);
    HeaderReceived(f.nbl, lists, i);
    DerefPartRecovers(f, lists, i, Ci);
    DerefPartRecovers(f, lists, i, Sci);
    DerefPartRecovers(f, lists, i, Cj);
    DerefPartRecovers(f, lists, i, Cj4);
  }

  // ---------------------------------------------------------------------
  // The pair-list set

  /** nbl_lists: the set struct's bytes and the lists its nbl array points at. */
  datatype ListSet = ListSet(setBytes: seq<byte>, lists: seq<PairList>)

  predicate SetWellFormed(s: ListSet)
  {
    && |s.setBytes| == PAIRLIST_SET_BYTES
    && Nnbl(s.setBytes) == |s.lists|
    && AllWellFormed(s.lists)
  }
}
