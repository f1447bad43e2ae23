# Offloaded non-bonded kernel: packets, refresh and re-linking

This project models how GROMACS ships a Verlet-buffer non-bonded step to a
coprocessor and brings the results back. It also models one small labelling
routine from the configuration reader.

Modules:

- **Bytes**: bytes and the little-endian `size_t`/`int` fields stored in
  packets.
- **Memory**: host byte buffers, `memcpy`, the mirrored allocation `mmalloc`,
  and the copy an offload `in`/`out` clause makes.
- **PackData** (`packdata.h`): a packet is a table of two-word entries,
  `[size][offset from the packet base]`, followed by the payloads. It covers:
  - `packet_iter` (a class whose cursor `ptr` is updated in place by
    `next`, `anext` and `cnext`);
  - `packdata`, `unpackdata`, `compute_required_size` and `get_buffer`. The
    header only declares these; the model fixes a layout (each payload
    aligned up to `PACK_BUFFER_ALIGN`), and its contracts state only what
    any faithful layout gives: every payload lies inside the required size,
    no two overlap, and reading an entry gives back the buffer that was
    packed.
- **Refresh**: `refresh_buffer`. An empty record is skipped. A record that
  fits is copied over the front of the buffer. A larger one replaces the
  buffer by a fresh one of twice its size.
- **PairLists**: pair-list headers and their `ci`/`sci`/`cj`/`cj4` arrays,
  the flattened buffers, and the pointer re-linking read back on the
  coprocessor. The end-to-end lemma `DerefRecovers` states that re-linking
  is the inverse of flattening.
- **HostSide** (`offload_buffer`, host half): the host buffers and their
  capacities, the requirement sums, the grow step, the flattening loop and
  the packet sizing that doubles on growth.
- **Descriptors**: the `ibuffers` list (21 entries in
  `nb_verlet_simd_offload.cpp`, 22 in `nb_verlet_simd_offload.c`, where
  `fshift` is entry 19) and the `obuffers` list.
- **DeviceSide** (`offload_buffer`, coprocessor half): the nine kept
  buffers, the unpack sequence over the in-packet with `refresh_buffer` and
  `next`, the restore or allocation of `nbl_lists->nbl`, and the re-linking
  loop.
- **Offload**: one offload call end to end, as the class `Slot` (one per
  `nbat->id`). A slot holds the host and device halves, the refresh flag
  (`bRefreshNbl_array[id]`, or the single `bRefreshNbl` of the .c file) and
  the unpack record (`unpack_data_array[id]`).
  - `Slot.Offload`: grows and flattens when refreshing, packs the in-packet,
    sizes the out-packet, and transfers. It then unpacks and re-links on the
    coprocessor, lets the kernel write its outputs, packs and returns the
    out-packet, clears the flag and records where the results go.
  - `Slot.Wait` (`wait_for_offload`): unpacks the out-packet into the
    recorded host buffers.
  - The invariant `Ready()` ties the two calls together. Either the flag is
    set, or the coprocessor already holds, re-linked, the lists sent last
    time.
- **Statics**: the file-scope flags' initial values, `setRefreshNblForOffload`
  and `wait_for_offload(os)` over the two slots of the .cpp file.
- **Chains**: `tpx_make_chain_identifiers` of `confio.cpp`. The molecule
  loop gives each atom's residue a chain number and a letter. Molecules of at
  least 15 atoms get `'A'` to `'Z'` in order, the rest a blank. All letters
  are blanked when only one was given out.

The kernel, the force reduction and the device runtime are external to this
code, so they are parameters.

- `KernelOutput` carries the values the kernel and the tree reduction write:
  `fshift`, `Vc`, `Vvdw` and `f`.
- `Memory.Transfer` stands for the offload clauses. `Memory.Mmalloc` stands
  for `mmalloc`, which returns a zeroed host buffer and its mirror.

The .cpp and .c files differ, among other places, in these, and the model
keeps each:

- Descriptor list: `withFshift` selects the .c list, which sends `fshift` as
  entry 19 and moves `Vc` and `Vvdw` one place later
  (`Descriptors.InSizesFilesAgree`). The .c kernel also writes shift forces
  through that record; see the "Offload.Slot.Offload:" lines under
  "## Left out".
- Providing `nbl_lists->nbl`: `DeviceBuffers.RelinkCpp` and
  `DeviceBuffers.RelinkC` are the two ways. For the .cpp file the model runs
  the corrected restore. The restore as written is
  `DeviceBuffers.RelinkCppAsWritten` (see Findings).
- Refresh flags: the .cpp file keeps one per id, `bRefreshNbl_array[2]`
  (`Statics.NewCppSlotsAsWritten`, `Statics.NewCppSlots`). The .c file keeps a
  single `bRefreshNbl` (`Statics.NewCSlot`).
- Only the .cpp file has `setRefreshNblForOffload`
  (`Statics.SetRefreshNblForOffload`). In the .c file the flag is cleared
  after the first call, as in `Offload.Slot.Record`, and nothing in the file
  sets it again.
- Entry point: the .cpp `wait_for_offload(os)` picks the slot by id
  (`Statics.WaitForOffload`). The .c `wait_for_offload()` is `Slot.Wait` on
  the single slot.

## Model

| member | source | states |
|---|---|---|
| Bytes.DecodeEncode | src/gromacs/mdlib/packdata.h:71-76 | a word stored in a table entry reads back as the stored value whenever the value fits the field |
| Bytes.EncodeDecode | src/gromacs/mdlib/packdata.h:71-76 | every field's bytes are the store of the value they read as, so a field is determined by its value |
| Memory.Memcpy | src/gromacs/mdlib/nb_verlet_simd_offload.cpp:275-283 | the destination holds the source bytes at the offset and is unchanged elsewhere; a zero-byte copy may name a null destination |
| Memory.Mmalloc | src/gromacs/mdlib/nb_verlet_simd_offload.cpp:123-134 | two fresh, distinct, zero-filled buffers of the requested size: the host buffer and its mirror |
| Memory.Transfer | src/gromacs/mdlib/nb_verlet_simd_offload.cpp:405-407 | the first n bytes of the destination become those of the source; the rest of the destination is untouched |
| Memory.DisjointUpdate | src/gromacs/mdlib/nb_verlet_simd_offload.cpp:359-368 | replacing one of the packet pointers by a new allocation keeps the packet ends pairwise distinct |
| Refresh.GrownCapacity | src/gromacs/mdlib/nb_verlet_simd_offload.cpp:150-170 | the capacity never decreases, always covers the record, and grows exactly when the record exceeds it |
| Refresh.GrownCapacityIdempotent | src/gromacs/mdlib/nb_verlet_simd_offload.cpp:156-159 | a record arriving again with the same size causes no second reallocation |
| Refresh.CapacityAfterCovers | src/gromacs/mdlib/nb_verlet_simd_offload.cpp:160-167 | over any run of refreshes the capacity is at least its start and at least every record seen |
| Refresh.RefreshedShape | src/gromacs/mdlib/nb_verlet_simd_offload.cpp:152-167 | the buffer afterwards is as long as the grown capacity and starts with the payload; an empty record leaves it unchanged; a fitting record keeps its tail |
| Refresh.RefreshBuffer | src/gromacs/mdlib/nb_verlet_simd_offload.cpp:150-170 | the three cases of refresh_buffer: the contents are the refreshed ones and the capacity is the grown one; the same pointer is kept when the record fits, and a fresh one exists when it does not; the iterator moves one entry and the packet is unchanged |
| PackData.AlignUp | src/gromacs/mdlib/packdata.h:44 | the result is a multiple of PACK_BUFFER_ALIGN (64), at least x and less than x + 64 |
| PackData.ComputeRequiredSize | src/gromacs/mdlib/packdata.h:57 | the size covers the table and every payload byte, and every payload lies between the table's end and the size |
| PackData.PlaceWithin | src/gromacs/mdlib/packdata.h:53 | each payload lies between the start of the payload area and its end |
| PackData.PlaceOrdered | src/gromacs/mdlib/packdata.h:53 | packed payloads never overlap: an earlier one ends before a later one starts |
| PackData.RecordWithinRequired | src/gromacs/mdlib/packdata.h:57 | each payload's offset is past the table, and its end is within compute_required_size |
| PackData.WriteFromHolds | src/gromacs/mdlib/packdata.h:53 | writing the records one by one into a separated layout leaves every record, earlier ones included, in place |
| PackData.PackedHolds | src/gromacs/mdlib/packdata.h:53 | packdata leaves a packet of exactly the given buffers and writes nothing at or beyond compute_required_size |
| PackData.PackedAsPrefix | src/gromacs/mdlib/nb_verlet_simd_offload.cpp:405-407 | a packet is determined by its first compute_required_size bytes, so transferring that many bytes carries the whole packet |
| PackData.ReadRecord | src/gromacs/mdlib/packdata.h:53-55 | entry k of a packet lies inside it and gives back the size, the offset and the bytes of the k-th buffer packed |
| PackData.GetBufferOfPacked | src/gromacs/mdlib/packdata.h:59 | get_buffer(packet, n) is the offset and size of the n-th packed buffer, and those bytes are that buffer, so the device can send an input record back out |
| PackData.PackData | src/gromacs/mdlib/packdata.h:53 | the packet becomes the packed region, which by PackedHolds is a packet of exactly these buffers |
| PackData.PacketIter.constructor | src/gromacs/mdlib/packdata.h:69 | create_packet_iter: the cursor is at the first entry of the given packet |
| PackData.PacketIter.Next | src/gromacs/mdlib/packdata.h:79-84 | next returns what value would have returned, advances ptr by exactly two words, and leaves the packet's bytes unchanged |
| PackData.PacketIter.ANext | src/gromacs/mdlib/packdata.h:90-98 | anext allocates size*multiplier bytes, with size taken before advancing; the first size bytes are the payload and the rest are zero; the cursor moves one entry |
| PackData.PacketIter.CNext | src/gromacs/mdlib/packdata.h:103-108 | cnext copies exactly size bytes to the front of a destination at least that large, which is a precondition; the rest of the destination is kept and the cursor moves one entry |
| PackData.CopiedIntoShape | src/gromacs/mdlib/packdata.h:103-108 | a copy into a buffer keeps its length, puts the payload at its front and keeps its tail |
| PackData.IterAtEntry | src/gromacs/mdlib/packdata.h:71-76 | an iterator at entry k reads entry k's size, its offset and its payload |
| PackData.UnpackData | src/gromacs/mdlib/packdata.h:55 | unpackdata copies the payload of entry i to the front of the i-th destination, for every i in order |
| PackData.UnpackFrom | src/gromacs/mdlib/packdata.h:55 | the walk behind unpackdata: from entry k on, each destination receives its entry's payload |
| PairLists.RequiredNbl | src/gromacs/mdlib/nb_verlet_simd_offload.cpp:209 | the header requirement is the number of lists |
| PairLists.FlattenedLength | src/gromacs/mdlib/nb_verlet_simd_offload.cpp:273-284 | the first i lists' parts end at the byte position of their summed element count |
| PairLists.FlattenLength | src/gromacs/mdlib/nb_verlet_simd_offload.cpp:209-222 | a flattened buffer holds exactly the required number of elements |
| PairLists.FlattenedGrows | src/gromacs/mdlib/nb_verlet_simd_offload.cpp:273-284 | flattening more lists only appends to what the earlier lists left |
| PairLists.FlattenSlice | src/gromacs/mdlib/nb_verlet_simd_offload.cpp:273-284 | list i's part of each kind sits in the flattened buffer right after the earlier lists' parts |
| PairLists.HeadersAreHost | src/gromacs/mdlib/nb_verlet_simd_offload.cpp:485-487 | the headers read back from the received nbl_buffer are exactly the host's list headers |
| PairLists.PrefixCountIsCounted | src/gromacs/mdlib/nb_verlet_simd_offload.cpp:485-497 | the running offsets the re-linking loop computes from the received headers are the host's prefix sums |
| PairLists.LinkForNext | src/gromacs/mdlib/nb_verlet_simd_offload.cpp:489-497 | each list's links are the previous list's links, moved on by that list's counts |
| PairLists.LinkIsCounted | src/gromacs/mdlib/nb_verlet_simd_offload.cpp:489-497 | the link of each kind for list i is the element count before list i, and the link plus list i's count is the count after it |
| PairLists.DerefPartIsPart | src/gromacs/mdlib/nb_verlet_simd_offload.cpp:273-284 | the elements between the prefix sums before and after list i are list i's part, as the host held it |
| PairLists.DerefPartRecovers | src/gromacs/mdlib/nb_verlet_simd_offload.cpp:485-497 | through the link re-linking computes, the kernel reads list i's part of each kind unchanged and in bounds |
| PairLists.DerefRecovers | src/gromacs/mdlib/nb_verlet_simd_offload.cpp:485-497 | re-linking inverts flattening: following nbl[i] = nbl_buffer + i and its links, the kernel reads every host list unchanged |
| HostSide.NewCapacity | src/gromacs/mdlib/nb_verlet_simd_offload.cpp:223-231 | a capacity never shrinks and covers the requirement; it stays the same exactly when the requirement fits, and otherwise becomes exactly the requirement |
| HostSide.GrownPacket | src/gromacs/mdlib/nb_verlet_simd_offload.cpp:360-368 | a packet size covers the requirement; it is unchanged exactly when the requirement fits, and otherwise is twice the requirement |
| HostSide.CapacityOverIsMax | src/gromacs/mdlib/nb_verlet_simd_offload.cpp:223-266 | over a run of refreshes the capacity is the starting capacity or the largest requirement seen, whichever is larger |
| HostSide.CapacitiesFor | src/gromacs/mdlib/nb_verlet_simd_offload.cpp:223-266 | after the refresh block, each kind's capacity is its old capacity grown to that kind's summed requirement |
| HostSide.SumRequired | src/gromacs/mdlib/nb_verlet_simd_offload.cpp:216-222 | the requirement loop yields, for each element kind, its count summed over all lists |
| HostSide.RoundStep | src/gromacs/mdlib/nb_verlet_simd_offload.cpp:273-284 | in each round of the flattening loop the five memcpys stay inside their buffers, and the loop state moves to the next round |
| HostSide.ProgressCovers | src/gromacs/mdlib/nb_verlet_simd_offload.cpp:273-284 | after the last round every buffer starts with the flattened lists |
| HostSide.FlattenLists | src/gromacs/mdlib/nb_verlet_simd_offload.cpp:269-284 | the flattening loop keeps every buffer's length and leaves each one starting with all lists' parts at their prefix-sum offsets |
| HostSide.HostBuffers.constructor | src/gromacs/mdlib/nb_verlet_simd_offload.cpp:87-107 | offload_buffer(): every capacity and packet size zero, every buffer empty, every packet pointer null |
| HostSide.HostBuffers.Grow | src/gromacs/mdlib/nb_verlet_simd_offload.cpp:223-231 | one growth step: exactly the requirement, zero-filled, when it exceeds the capacity, else unchanged; nothing else changes |
| HostSide.HostBuffers.GrowAll | src/gromacs/mdlib/nb_verlet_simd_offload.cpp:209-267 | every capacity becomes NewCapacity of its kind's summed requirement; packets and packet sizes are unchanged |
| HostSide.HostBuffers.FitsAll | src/gromacs/mdlib/nb_verlet_simd_offload.cpp:266-284 | once grown, each buffer is long enough for its flattened lists |
| HostSide.HostBuffers.RefreshNbl | src/gromacs/mdlib/nb_verlet_simd_offload.cpp:207-285 | the refresh block: capacities grown to the requirements, every buffer starting with the flattened lists, packets untouched |
| HostSide.HostBuffers.PrepareInPacket | src/gromacs/mdlib/nb_verlet_simd_offload.cpp:359-368 | the in-packet size becomes GrownPacket of the requirement; on growth both mirrored ends are fresh, otherwise no pointer changes; the out-packet state is kept |
| HostSide.HostBuffers.PrepareOutPacket | src/gromacs/mdlib/nb_verlet_simd_offload.cpp:380-389 | the same sizing for the out-packet, keeping the in-packet state |
| Descriptors.InSizesIdle | src/gromacs/mdlib/nb_verlet_simd_offload.cpp:287-328 | with the refresh flag clear, descriptors 0-5 and 10-12 have size zero |
| Descriptors.InSizesUnconditional | src/gromacs/mdlib/nb_verlet_simd_offload.cpp:307-353 | the other descriptors have the same size whether or not the flag is set |
| Descriptors.InSizesRefreshing | src/gromacs/mdlib/nb_verlet_simd_offload.cpp:287-305 | with the flag set, the set struct goes whole and each flattened buffer goes with its stored capacity, not only the used part |
| Descriptors.InSizesFilesAgree | src/gromacs/mdlib/nb_verlet_simd_offload.c:248-274 | the .c list has the .cpp list's entries 0-18, fshift at 19, and Vc and Vvdw one place later |
| DeviceSide.KeptEntry | src/gromacs/mdlib/nb_verlet_simd_offload.cpp:441-454 | the nine kept buffers are refreshed from structural entries, all before entry 19 |
| DeviceSide.NextEntries | src/gromacs/mdlib/nb_verlet_simd_offload.cpp:448-466 | the entries read in place with next are 6-9 and then 13 onwards, one per descriptor that is not kept |
| DeviceSide.NextRun | src/gromacs/mdlib/packdata.h:79-84 | k successive next calls move the cursor exactly k entries and return those entries' offsets, in order |
| DeviceSide.LinkLoop | src/gromacs/mdlib/nb_verlet_simd_offload.cpp:485-498 | the re-linking loop: pointer slot i names header i for i < nnbl, the links are the running prefix sums over the received headers, and the other slots are unchanged |
| DeviceSide.DeviceBuffers.RelinkCppAsWritten | src/gromacs/mdlib/nb_verlet_simd_offload.cpp:477-498 | the .cpp relink as written: the saved nbl array is kept whenever there is one and a fresh one of nnbl is made only when there is none; the loop overruns exactly when the kept array is shorter than nnbl, and otherwise every list is re-linked |
| DeviceSide.OneListThenTwo | src/gromacs/mdlib/nb_verlet_simd_offload.cpp:433-498 | a first relink of a set struct counting one list, then a refresh whose set struct counts two: the first relink fits, and the second restores the one-pointer array and overruns |
| DeviceSide.RestoredRoom | src/gromacs/mdlib/nb_verlet_simd_offload.cpp:477-483 | the corrected restore always has room for nnbl pointers, uses either the saved array or a fresh one of exactly nnbl, and reuses the saved array whenever it is large enough |
| DeviceSide.DeviceBuffers.constructor | src/gromacs/mdlib/nb_verlet_simd_offload.cpp:87-107 | every kept buffer null with capacity zero, and no nbl array |
| DeviceSide.DeviceBuffers.RefreshSlot | src/gromacs/mdlib/nb_verlet_simd_offload.cpp:441 | one refresh_buffer call on kept buffer j: only buffer j and its capacity change, and they change as refresh_buffer does; the iterator moves on one entry |
| DeviceSide.DeviceBuffers.RefreshRange | src/gromacs/mdlib/nb_verlet_simd_offload.cpp:441-447 | consecutive refresh_buffer calls refresh each slot of the range once, from consecutive entries, and leave the other slots alone |
| DeviceSide.DeviceBuffers.UnpackFront | src/gromacs/mdlib/nb_verlet_simd_offload.cpp:441-451 | the six pair-list buffers are refreshed and the atom data and its three tables are read in place |
| DeviceSide.DeviceBuffers.UnpackBack | src/gromacs/mdlib/nb_verlet_simd_offload.cpp:452-466 | type, lj_comb and q are refreshed, so every kept buffer has had its refresh, and the remaining entries are read in place |
| DeviceSide.DeviceBuffers.UnpackInputs | src/gromacs/mdlib/nb_verlet_simd_offload.cpp:433-466 | the whole unpack sequence: each kept buffer refreshed from its entry's payload, with capacities grown; every other entry read at its offset; the nbl array untouched |
| DeviceSide.DeviceBuffers.RelinkCpp | src/gromacs/mdlib/nb_verlet_simd_offload.cpp:477-498 | the .cpp relink as corrected: the saved nbl array is reused when it has room and a fresh one is made otherwise, so it always has room for nnbl; then every list is re-linked |
| DeviceSide.DeviceBuffers.RelinkC | src/gromacs/mdlib/nb_verlet_simd_offload.c:400-415 | the .c relink: a fresh nbl array of nnbl pointers on every refresh, the old one otherwise, then every list re-linked |
| Offload.Ins | src/gromacs/mdlib/nb_verlet_simd_offload.cpp:287-353 | the in list's records have exactly the descriptor sizes, one per descriptor |
| Offload.InSizesPastBuffers | src/gromacs/mdlib/nb_verlet_simd_offload.cpp:307-353 | descriptors from 6 on do not depend on the host capacities |
| Offload.PacketReads | src/gromacs/mdlib/nb_verlet_simd_offload.cpp:369 | every entry of the packed in-packet lies inside it and reads back as its input record |
| Offload.PackedKept | src/gromacs/mdlib/nb_verlet_simd_offload.cpp:441-454 | the payloads the nine refresh_buffer calls receive are the kept input records |
| Offload.KeptFromInputs | src/gromacs/mdlib/nb_verlet_simd_offload.cpp:287-305 | when refreshing, the kept records are the set struct and the host's five flattened buffers |
| Offload.RefreshedArrive | src/gromacs/mdlib/nb_verlet_simd_offload.cpp:441-447 | refreshing from those records leaves on the coprocessor a set struct and buffers that hold the host's lists |
| Offload.ListsArrive | src/gromacs/mdlib/nb_verlet_simd_offload.cpp:287-305 | a refreshing offload call delivers the host's lists into the kept buffers |
| Offload.IdleKeeps | src/gromacs/mdlib/nb_verlet_simd_offload.cpp:441-447 | with the flag clear, the six pair-list buffers are untouched, so lists that arrived earlier are still there |
| Offload.InputsArrive | src/gromacs/mdlib/nb_verlet_simd_offload.cpp:433-454 | either way, after the unpack the coprocessor holds the lists: the new ones when refreshing, the old ones otherwise |
| Offload.KernelEnergies | src/gromacs/mdlib/nb_verlet_simd_offload.cpp:527-528 | the kernel's Vc and Vvdw, written into their in-packet records, are what those entries read back |
| Offload.EnergyOffsets | src/gromacs/mdlib/nb_verlet_simd_offload.cpp:464-465 | the last two offsets next returns are those of the Vc and Vvdw entries |
| Offload.Unpack | src/gromacs/mdlib/nb_verlet_simd_offload.cpp:433-466 | the unpack sequence on a received packet leaves the lists delivered to the kept buffers and returns the in-place offsets |
| Offload.Relink | src/gromacs/mdlib/nb_verlet_simd_offload.cpp:477-498 | re-linking leaves the lists delivered and re-linked, with the .c file's policy (a fresh nbl array on every refresh) for the .c file and the corrected .cpp relink (see Findings) for the .cpp file |
| Offload.Deliver | src/gromacs/mdlib/nb_verlet_simd_offload.cpp:433-498 | unpack then relink: the coprocessor holds the host's lists, re-linked, and the in-place offsets are those of the packet |
| Offload.OffloadIn | src/gromacs/mdlib/nb_verlet_simd_offload.cpp:405-498 | the in transfer, the unpack and the relink: the lists are delivered and the received packet is the host's in-packet |
| Offload.WriteEnergies | src/gromacs/mdlib/nb_verlet_simd_offload.cpp:505-517 | the kernel's Vc and Vvdw written through the in-place pointers are the payloads of the packet's Vc and Vvdw entries |
| Offload.PackOut | src/gromacs/mdlib/nb_verlet_simd_offload.cpp:523-532 | the device out-packet is a packet of fshift, the Vc and Vvdw records taken by get_buffer, and the forces; that is obuffers over the in list with the kernel's energies in place of its Vc and Vvdw records |
| Offload.OutBuffersSized | src/gromacs/mdlib/nb_verlet_simd_offload.cpp:371-380 | obuffers built on the host from its fshift and force regions and the Vc and Vvdw records of the in list has the out descriptor sizes, and its compute_required_size is the out-packet size |
| Offload.PhiBuffersAreOutBuffers | src/gromacs/mdlib/nb_verlet_simd_offload.cpp:523-531 | phi_buffers is obuffers over the coprocessor's outputs and the in list with the kernel's energies written in, and its records have the lengths of the host's obuffers, so the out-packet the host sized is the one the coprocessor packs |
| Offload.SendOut | src/gromacs/mdlib/nb_verlet_simd_offload.cpp:523-532 | after the out transfer, the host's in-packet is that packet |
| Offload.ShapedOutput | src/gromacs/mdlib/nb_verlet_simd_offload.cpp:371-380 | the output records have the obuffers sizes, so the host-sized out-packet fits what the device packs |
| Offload.OffloadOut | src/gromacs/mdlib/nb_verlet_simd_offload.cpp:505-532 | the kernel step, the device-side packdata and the out transfer: the host's in-packet is the packet of the four outputs |
| Offload.Slot.constructor | src/gromacs/mdlib/nb_verlet_simd_offload.cpp:87-107 | a slot with the given id and flag, empty buffers, no unpack record and nothing sent |
| Offload.Slot.RefreshHost | src/gromacs/mdlib/nb_verlet_simd_offload.cpp:207-285 | when refreshing, capacities grow to the requirements and the buffers start with the flattened lists; otherwise nothing changes |
| Offload.Slot.PackIn | src/gromacs/mdlib/nb_verlet_simd_offload.cpp:287-369 | the in list is built from the host buffers and the inputs; the in-packet is sized to hold it and then packs exactly it |
| Offload.Slot.SizeOut | src/gromacs/mdlib/nb_verlet_simd_offload.cpp:371-389 | the out-packet is sized to compute_required_size of obuffers, built from the host's fshift and force regions and the in list's Vc and Vvdw records, and both of its ends hold that many bytes |
| Offload.Slot.PrepareIn | src/gromacs/mdlib/nb_verlet_simd_offload.cpp:207-369 | the refresh block and the packed in-packet: it holds the in list for the capacities after the refresh, and the lists will arrive when it is unpacked |
| Offload.Slot.Prepare | src/gromacs/mdlib/nb_verlet_simd_offload.cpp:207-389 | the host side of the call: the in-packet holds the in list, the lists will arrive when it is unpacked, and the out-packet ends hold the outputs |
| Offload.Slot.DeviceIn | src/gromacs/mdlib/nb_verlet_simd_offload.cpp:405-498 | the device's in half: the lists delivered and re-linked, the received packet opened |
| Offload.Slot.Compute | src/gromacs/mdlib/nb_verlet_simd_offload.cpp:505-532 | the device's out half: the host's in-packet ends as the packet of the four outputs |
| Offload.Slot.Execute | src/gromacs/mdlib/nb_verlet_simd_offload.cpp:405-532 | the offloaded body: lists delivered and the outputs packed back on the host |
| Offload.Slot.Record | src/gromacs/mdlib/nb_verlet_simd_offload.cpp:518-543 | the flag is cleared and the lists are recorded as sent; the unpack record names the host's in-packet, the four host buffers and the outputs |
| Offload.Slot.Send | src/gromacs/mdlib/nb_verlet_simd_offload.cpp:405-543 | the offloaded body and the unpack record: flag clear, lists delivered, a result pending for the given buffers |
| Offload.Slot.Offload | src/gromacs/mdlib/nb_verlet_simd_offload.cpp:173-543 | nbnxn_kernel_simd_2xnn_offload, with the corrected .cpp relink (see Findings): from a ready slot to a ready slot with the flag clear, the lists sent, a pending unpack record for the four host buffers, and the slot's id returned |
| Offload.Slot.Wait | src/gromacs/mdlib/nb_verlet_simd_offload.cpp:546-551 | wait_for_offload: each recorded host buffer receives its output at its front, and the slot stays ready |
| Offload.Slot.Receive | src/gromacs/mdlib/nb_verlet_simd_offload.cpp:549-550 | unpackdata of the recorded out-packet into the recorded buffers: buffer i starts with output i |
| Statics.NothingArrivedAtStart | src/gromacs/mdlib/nb_verlet_simd_offload.cpp:87-107 | the zero-initialised kept buffers hold no set struct, so no lists have arrived |
| Statics.ClearAtStartNotReady | src/gromacs/mdlib/nb_verlet_simd_offload.cpp:53 | a slot with empty kept buffers and its flag clear is not ready |
| Statics.NewCppSlotsAsWritten | src/gromacs/mdlib/nb_verlet_simd_offload.cpp:53 | with the initializer as written, two fresh well-formed slots: id 0 starts ready, but id 1 starts with its flag clear and is not ready |
| Statics.NewCppSlots | src/gromacs/mdlib/nb_verlet_simd_offload.cpp:53 | with both flags set, both slots start ready and are distinct |
| Statics.NewCSlot | src/gromacs/mdlib/nb_verlet_simd_offload.c:53 | the .c file's single slot starts refreshing and ready |
| Statics.SetRefreshNblForOffload | src/gromacs/mdlib/nb_verlet_simd_offload.cpp:553-557 | on any two well-formed slots, ready or not: both flags are set, both slots are then ready, and nothing else of either slot changes |
| Statics.StartAsWrittenThenSetRefresh | src/gromacs/mdlib/nb_verlet_simd_offload.cpp:53-557 | the initializer as written followed by setRefreshNblForOffload leaves both ids ready, so the cleared flag of id 1 only matters to an id-1 offload call before the first setRefreshNblForOffload |
| Statics.WaitForOffload | src/gromacs/mdlib/nb_verlet_simd_offload.cpp:546-551 | wait_for_offload(os) unpacks the record of the slot the offload call returned, into that slot's buffers |
| Chains.Lettered | src/gromacs/fileio/confio.cpp:265-274 | the letters handed out before molecule m are at most 26 and at most m |
| Chains.MakeChainIdentifiers | src/gromacs/fileio/confio.cpp:253-295 | the residue records end as ChainIdentifiers of the old ones, which the lemmas below characterise |
| Chains.LabelAtoms | src/gromacs/fileio/confio.cpp:279-283 | the inner loop labels the residues of atoms a0..a1-1 and no others |
| Chains.BlankAll | src/gromacs/fileio/confio.cpp:288-294 | the blanking loop blanks every residue's chain id |
| Chains.ChainIdRange | src/gromacs/fileio/confio.cpp:270-278 | a chain id is a blank or a letter 'A'..'Z', and a molecule gets a letter exactly when it has at least 15 atoms and letters remain |
| Chains.LetteredGrows | src/gromacs/fileio/confio.cpp:270-274 | after a lettered molecule, every later molecule has seen more letters handed out |
| Chains.LettersDistinct | src/gromacs/fileio/confio.cpp:265-274 | letters go out consecutively from 'A': two lettered molecules never share a letter, and the earlier one has the earlier letter |
| Chains.WriteAtomsAt | src/gromacs/fileio/confio.cpp:279-283 | the inner loop sets the chain number and id of exactly the residues of the molecule's atoms, and only those fields |
| Chains.LabelledUntouched | src/gromacs/fileio/confio.cpp:266-285 | molecules without an atom in residue r leave its record alone |
| Chains.LabelledKeeps | src/gromacs/fileio/confio.cpp:279-283 | the molecule loop changes no residue field except chainnum and chainid |
| Chains.LastMoleculeWins | src/gromacs/fileio/confio.cpp:264-285 | every atom's residue carries the chain number m and chain id of the last molecule m holding one of its atoms; chainnum counts every molecule |
| Chains.NoneLettered | src/gromacs/fileio/confio.cpp:265-278 | chainid is still 'A' exactly when every molecule so far got a blank |
| Chains.OneLettered | src/gromacs/fileio/confio.cpp:287-288 | chainid is 'B' at the end exactly when a single molecule got a letter |
| Chains.ChainIdentifiersAt | src/gromacs/fileio/confio.cpp:264-294 | a residue of molecule m that no later molecule shares ends with chain number m, and with m's chain id unless only one letter was given out |
| Chains.ChainIdentifiersUntouched | src/gromacs/fileio/confio.cpp:266-294 | a residue no molecule touches keeps its chain number, and keeps its whole record unless the ids are blanked |
| Chains.ChainIdentifiersKeep | src/gromacs/fileio/confio.cpp:279-294 | every residue keeps all fields but its chain number and id; with a single lettered molecule no residue keeps a letter |

## Left out

- Integer widths: sizes and offsets are unbounded naturals. `size_t` words
  are 8 bytes and `int` fields 4 bytes. Requirements that a packet fits
  `size_t` are stated as bounds against `WordLimit`.
- The layouts of `nbnxn_pairlist_set_t`, `nbnxn_pairlist_t`,
  `nbnxn_atomdata_t`, `interaction_const_t` and `gmx_bitmask_t` are not part
  of this model. Their sizes are stand-in constants, and the list counts are
  read from fixed positions of the stand-in headers. `real` is single
  precision.
- The packet format behind `packdata`, `unpackdata`, `compute_required_size`,
  `get_buffer` and `create_packet_iter` is only declared. The model fixes one
  layout (a table, then payloads aligned to 64), and its contracts promise
  fit, non-overlap and read-back, never a byte-exact size.
- Element sizes of `ci`, `sci`, `cj` and `cj4` are stand-ins, for the same
  reason.
- `nbnxn_kernel_simd_2xnn`, `nbnxn_atomdata_add_nbat_f_to_f_treereduce`,
  `get_nbat_for_offload` and `nbnxn_atomdata_init_simple_exclusion_masks` are
  floating-point kernels outside this code. Their effect is the `KernelOutput`
  parameter, and the output sizes are a precondition (`OutputShaped`).
- `mmalloc`, `mfree`, `sfree_aligned`, `snew_aligned` and the `#pragma
  offload` clauses belong to the device runtime. They are modelled as fresh
  zeroed allocations and as `Transfer`. Freeing and 64-byte alignment are not
  modelled.
- Both files address kept device buffers through the offload runtime's
  address mapping. The model holds these buffers in a separate `DeviceBuffers`
  object. Apartness of the packets from the destination buffers is a
  precondition.
- The PFun worker thread, the `signal`, `offload_wait` and the atomic run
  flag are left out, because concurrency is not modelled. Submit-then-wait is
  the sequential pair `Slot.Offload` then `Slot.Wait`.
- Offload.Slot.Offload: the two slots of the .cpp file are two `Slot`
  objects. Nothing states that an offload call on one leaves the other
  alone, beyond Dafny's frames.
- Offload.Slot.Offload: the .c file's `fshift` input record (entry 19) is
  sized, packed and read in place. The .c kernel also writes shift forces
  through that record, and that write is not modelled. In both files the
  `fshift` sent back is `nbat->out[0].fshift`, the first output record.
- Offload.Slot.Offload: for the .cpp file it runs the corrected relink
  (`RelinkCpp`, see Findings), not the restore of lines 477-483 as written.
  The saved `nbl_ptr`, its overwrite by `refresh_buffer` and its restore
  through the set struct in kept buffer 0 (lines 435-439 and 478) are not
  rendered byte for byte: the pointer array is the field `nblPtrs`, outside
  the received set struct.
- DeviceSide.LinkLoop: the loop's writes of `nbl->ci`, `sci`, `cj` and `cj4`
  into the headers inside `nbl_buffer` (.cpp lines 489-492, .c lines
  406-409) are not modelled. The pointers are kept in the separate `links`,
  and the header bytes stay as the host sent them. In the source these
  pointer fields are disjoint from the counts `nci`, `nsci`, `ncj` and
  `ncj4` that the loop reads, so the links computed are the same.
- DeviceSide.DeviceBuffers.RelinkCpp, DeviceSide.DeviceBuffers.RelinkC: for
  the same reason, `PairLists.HeadersAreHost` and `PairLists.DerefRecovers`
  are about the received headers before those pointer writes. After the
  writes, only the counts (and not the whole header bytes) are the host's.
- Offload.Unpack: the writes of the pointers that `next` and
  `refresh_buffer` hand back into the atom-data record inside
  `phi_in_packet` (`nbat->nbfp`, `nbfp_comb`, `nbfp_s4`, `type`, `lj_comb`,
  `q`, `energrp`, `shift_vec`, `x`, `out` and the SIMD tables, and
  `buffer_flags.flag`; .cpp lines 448-464, .c lines 373-384) are not
  modelled. The in-packet stays as the host packed it until
  `WriteEnergies`. Those writes fall in the payload of entry 6, which
  `PlaceOrdered` keeps apart from the Vc and Vvdw payloads that the kernel
  writes and `get_buffer` reads back. So the out-packet is the same.
- Timers, `_rdtsc`, walltime accounting and `dprintf` are left out; they do
  not affect the data.
- `gmxmpi.cpp` and `lrutil.h` are not part of this model. The rest of
  `confio.cpp` (file-type dispatch and I/O) is also left out.
- Chains.ChainIdentifiers: `t_atoms` and `t_block` are reduced to the fields
  the routine reads and writes. `ResInfo` carries name, number and insertion
  code as its other fields.
- Chains.MakeChainIdentifiers: `mols->index` is taken to hold valid atom
  indices (`Indexed`). A molecule whose end index is below its start labels
  nothing, as the loop does.

## Findings

| source | as written | input that shows it | evidently intended | confidence | as-written member | corrected member |
|---|---|---|---|---|---|---|
| src/gromacs/mdlib/nb_verlet_simd_offload.cpp:477-483 | the saved `nbl_lists->nbl` array is put back whenever one exists, whatever its length, and `nbl` is allocated only when none was saved | a first refresh with one list, then a refresh with two: the saved array has one pointer and the re-linking loop writes `nbl[1]` | reuse the saved array only if it has room for `nnbl` pointers, else allocate one of `nnbl` (the .c file allocates on every refresh) | not executed | DeviceSide.OneListThenTwo | DeviceSide.DeviceBuffers.RelinkCpp |
| src/gromacs/mdlib/nb_verlet_simd_offload.cpp:53 | `bRefreshNbl_array[2] = {TRUE}` sets only element 0; element 1 starts FALSE | the first offload call with `nbat->id` 1 skips the refresh, so the coprocessor's `nbl_lists` is still null when re-linking reads `nnbl` | both flags start TRUE, as the single flag of the .c file does | not executed | Statics.NewCppSlotsAsWritten | Statics.NewCppSlots |
