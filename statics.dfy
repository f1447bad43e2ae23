/** The file-scope state of the two offload files and the entry points that
    work on it: the refresh flags' initial values, setRefreshNblForOffload,
    and wait_for_offload.  The .cpp file keeps one slot per nbat->id (0 and
    1); the .c file keeps a single one. */
module Statics {
  import opened Bytes
  import opened PackData
  import opened PairLists
  import opened Descriptors
  import opened DeviceSide
  import opened Offload

  /** bRefreshNbl_array[2] = {TRUE} as written: an aggregate initializer
      sets only the first element, the other is zero (FALSE). */
  const CPP_INITIAL_REFRESH_AS_WRITTEN: seq<bool> := [true, false]

  /** The initial flags the .cpp file needs: both ids start by refreshing. */
  const CPP_INITIAL_REFRESH: seq<bool> := [true, true]

  /** bRefreshNbl = TRUE in the .c file. */
  const C_INITIAL_REFRESH: bool := true

  /** No set struct has arrived in empty kept buffers. */
  lemma NothingArrivedAtStart(lists: seq<PairList>)
    ensures !Arrived(seq(NUM_KEPT, _ => []), lists)
  {
    var data: seq<seq<byte>> := seq(NUM_KEPT, _ => []);
    assert |data[0]| == 0;
  }

  /** A slot whose kept buffers are still empty but whose flag is clear is
      not ready: the offload call would read lists that were never sent. */
  lemma ClearAtStartNotReady(s: Slot)
    requires s.device.data == seq(NUM_KEPT, _ => []) && !s.refresh
    ensures !s.Ready()
  {
    NothingArrivedAtStart(s.sent);
  }

  /** The .cpp slots as the initializer sets them: id 1 starts with its
      flag clear and is not ready, so no offload call on it is allowed. */
  method NewCppSlotsAsWritten() returns (s0: Slot, s1: Slot)
    ensures s0.id == 0 && s1.id == 1 && s0.refresh == CPP_INITIAL_REFRESH_AS_WRITTEN[0]
    ensures s0.Ready() && !s1.refresh && !s1.Ready()
    ensures s0.Valid() && s1.Valid() && s0 != s1
    ensures fresh(s0) && fresh(s0.host) && fresh(s0.device) && fresh(s1) && fresh(s1.host) && fresh(s1.device)
  {
    s0 := new Slot(0, CPP_INITIAL_REFRESH_AS_WRITTEN[0]);
    s1 := new Slot(1, CPP_INITIAL_REFRESH_AS_WRITTEN[1]);
    ClearAtStartNotReady(s1);
  }

  /** The .cpp slots with both flags set: both ready, apart from each other. */
  method NewCppSlots() returns (s0: Slot, s1: Slot)
    ensures s0.id == 0 && s1.id == 1 && s0.refresh && s1.refresh
    ensures s0.Ready() && s1.Ready() && s0 != s1
    ensures fresh(s0) && fresh(s0.host) && fresh(s0.device) && fresh(s1) && fresh(s1.host) && fresh(s1.device)
  {
    s0 := new Slot(0, CPP_INITIAL_REFRESH[0]);
    s1 := new Slot(1, CPP_INITIAL_REFRESH[1]);
  }

  /** The .c file's single slot, refreshing on its first call. */
  method NewCSlot() returns (s: Slot)
    ensures s.refresh == C_INITIAL_REFRESH && s.Ready()
    ensures fresh(s) && fresh(s.host) && fresh(s.device)
  {
    s := new Slot(0, C_INITIAL_REFRESH);
  }

  /** setRefreshNblForOffload: both ids refresh on their next call.  A set
      flag asks nothing of the coprocessor's copy, so both slots are ready
      afterwards whatever they held, and nothing but the flags changes. */
  method SetRefreshNblForOffload(s0: Slot, s1: Slot)
    requires s0.Valid() && s1.Valid()
    modifies s0, s1
    ensures s0.refresh && s1.refresh && s0.Ready() && s1.Ready()
    ensures s0.sent == old(s0.sent) && s1.sent == old(s1.sent)
    ensures s0.outPacketAddr == old(s0.outPacketAddr) && s1.outPacketAddr == old(s1.outPacketAddr)
    ensures s0.cpuBuffers == old(s0.cpuBuffers) && s1.cpuBuffers == old(s1.cpuBuffers)
    ensures s0.results == old(s0.results) && s1.results == old(s1.results)
  {
    s0.refresh := true;
    s1.refresh := true;
  }

  /** The .cpp slots as the initializer sets them, then
      setRefreshNblForOffload before any offload call: both ids are ready,
      so the cleared flag of id 1 matters only to an id-1 offload call made
      before the first setRefreshNblForOffload. */
  method StartAsWrittenThenSetRefresh() returns (s0: Slot, s1: Slot)
    ensures s0.id == 0 && s1.id == 1 && s0.refresh && s1.refresh
    ensures s0.Ready() && s1.Ready() && s0 != s1
    ensures fresh(s0) && fresh(s0.host) && fresh(s0.device) && fresh(s1) && fresh(s1.host) && fresh(s1.device)
  {
    s0, s1 := NewCppSlotsAsWritten();
    assert !s1.Ready();
    SetRefreshNblForOffload(s0, s1);
  }

  /** wait_for_offload(os) of the .cpp file: the unpack data of the id the
      offload call returned. */
  method WaitForOffload(s0: Slot, s1: Slot, os: nat)
    requires os < 2
    requires var s := if os == 0 then s0 else s1; s.Ready() && s.Pending() && s.Outside(s.cpuBuffers)
    modifies if os == 0 then s0.cpuBuffers else s1.cpuBuffers
    ensures var s := if os == 0 then s0 else s1;
            && s.Ready()
            && forall i :: 0 <= i < NUM_OUT ==> s.cpuBuffers[i][..] == CopiedInto(old(s.cpuBuffers[i][..]), s.results[i])
  {
    if os == 0 {
      s0.Wait();
    } else {
      s1.Wait();
    }
  }
}
