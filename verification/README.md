# Solarflare ESXi driver: a verified model

This project models the parts of the Solarflare ESXi network driver, and of its
command line extension, in which one wrong step shows up far from where it was
made, and proves what they keep. `dafny verify dfyconfig.toml` checks all of it.

**Transmit path** (`Words`, `Rings`, `TxSizes`, `TxFix`, `TxPacket`,
`TxDescriptors`, `TxHardware`, `TxRing`, `TxBuild`, `TxPrepare`, `TxFlow`,
`TxQueue`). The driver compiles packets to hardware descriptors over a ring with
free-running 32-bit counters. `TxHardware` is the hardware: an interpreter of
the descriptor stream that keeps the last VLAN tag and checksum flags it was
given. `TxDescriptors` specifies the stream; `TxBuild` and the class `Txq`
build it in place in the arrays of the class `DescRing`, and a ghost history
says that what the hardware makes of everything posted so far is exactly what
the accepted packets ask for, that everything taken over is in the ring or was
given back once, and that the reserved room is never exceeded.

**Proxy authorisation** (`ProxyProtocol`, `ProxyInvariant`, `ProxyCount`,
`ProxyRequests`, `ProxyTimeouts`, `ProxyTeardown`, `ProxySafety`, `ProxyPairs`,
`ProxyProgress`, `ProxyShutdown`, `ProxyTermination`, `ProxyCounterexamples`).
Firmware events, the handlers and timeouts of a helper with one world
(native_drv/sfvmk_driver.c:659-660), hypervisor callbacks and teardown
interleave freely. Each step reads or writes one shared variable, or makes one
call: the event world (native_drv/sfvmk_mcdi.c:548-612,
native_drv/sfvmk_proxy.c:1759-1825), the handler
(native_drv/sfvmk_proxy.c:1626-1746), the timeout (618-671), acting on a request
(1165-1255, 1362-1421), answering it (494-606), callbacks
(native_drv/sfvmk_sriov.c:1375-1585) and teardown
(native_drv/sfvmk_proxy.c:355-479). The theorems are about every state of every
run: what always holds, and what can always be brought to its end.

**Virtual functions** (`VfBits`, `VfConfig`). VLAN ranges, receive modes, and
the pending request that they answer.

**Receive ring** (`RxRing`, `RxFlow`, `RxQueue`). Batched refill, events,
completion, discard and delivery, delayed refill, and the end of a stopped
queue; `RxFlow` is what keeps the hardware supplied.

**Interface groups** (`NicGroups`, `NicList`, `NicHeap`, `NicRun`). Doubly
linked nodes are sorted into masters with their slaves, and freed.

**Adapter lists** (`AdapterLists`, `AdapterRuns`) and **non-volatile memory**
(`Nvram`): attaching and detaching in any order; reading, writing and flashing
in chunks over a device that may fail or corrupt.

`Seqs` holds facts about sequences that other proofs share.

## Where the code does not do what it is meant to

Each is a theorem with the exact condition, or a concrete run.

- A packet for segmentation with headers of an unexpected type is not turned
  away: the status is still success, the header length stays zero, and the
  first descriptor is empty (native_drv/sfvmk_tx.c:1146-1150 and 1516-1519). Of
  the packets that the driver takes the hardware sends what was asked for if
  and only if headers were found or there is no segmentation
  (`SentIffHeadersFound`), and such a packet fits the room reserved for it if
  and only if it needs at most 24 data descriptors (`HeadlessFitsIff`).
- A failed mapping leaves option descriptors queued that the queue already
  believes in (native_drv/sfvmk_tx.c:1571-1580 and 983-993 undo the packet's own
  part only). What is sent later is still right, but slots and descriptors stay
  in step exactly if no option had to change (`UsableAfterFailure`,
  `SendAfterFailure`), and the copy of a repaired packet is lost
  (`TransmitPkt`).
- A stopped queue can stay stopped for ever exactly if some packet's estimate
  is beyond the limit (`StuckIffTooLarge`).
- When the firmware does not take the first completion that a handler makes, the
  handler completes the index again: the request is answered twice, or a later
  request on the index is answered before its own handler runs
  (native_drv/sfvmk_proxy.c:1713-1731; `AnsweredTwice`, `LaterRequestAnswered`).
  Answers are in order exactly as long as this does not happen (`AnsweredOnce`,
  `RefusalBreaksAnsweredOnce`).
- A timeout that meets STOPPING frees the event its index points to, even when
  that is the event of a newer request (native_drv/sfvmk_proxy.c:641-646). Then
  teardown cannot find that request's timeout, and if it goes on with that job
  left it waits for ever (`LeftOverForever`); this can happen if and only if
  such a timeout is waiting when STOPPING is set (`LeftOverIffStale`,
  `StaleTimeoutLeavesJob`).
- In the same way a handler that meets STOPPING may find no event at its index,
  where the code reads the event's tag without looking
  (native_drv/sfvmk_proxy.c:1655-1660): a null pointer. This can happen if and
  only if, besides, the newer request's handler is still queued
  (`NoEventIffHandlerAtRisk`, `HandlerFindsNoEvent`).
- A pending request is forgotten, and not answered by the hypervisor but only by
  its timeout, when callbacks do not come in the order that the code expects: a
  VLAN callback before the receive mode, or one that does not allow the VLAN,
  clears everything that is pending (native_drv/sfvmk_sriov.c:844-871).
  `AnsweredIff` is the exact condition.
- Interfaces are grouped without looking at the last digit of the device number
  (esxcli_ext/sf_firmware.c:768-774; `NeighboursAreGrouped`). Groups are those
  of the whole address if and only if no two interfaces differ just there
  (`WholeIffNoNeighbours`).
- A receive queue can starve for ever exactly if a refill request may fail to
  be submitted (native_drv/sfvmk_rx.c:391-420 and 825-829;
  `StarvesIffSubmitFails`).
- When a query about an adapter fails, nodes are lost: all of them are freed
  exactly if the first master failed, for want of memory or with one interface
  only (esxcli_ext/sf_firmware.c:926-935; `SalvagedIsAll`).
- Adapter lists stop being determined by the set of attached adapters exactly
  when some adapter gets two primaries of its serial number
  (`AttachIsCanonicalIff`, `OrderMatters`).
- An unsigned image that is too long, one of unknown format, and a missing
  buffer for the chunks are reported as a successful update although nothing
  is written (native_drv/sfvmk_update.c:185-204 and 215-219; `PerformUpdate`,
  `QuietEndings`).
- An access to the memory that cannot be started reports the size asked for as
  the size transferred (native_drv/sfvmk_nvram.c:69-72; `NvramRead`).

## Model

| member | source | states |
|---|---|---|
| Words.MaskIsRingSlot | native_drv/sfvmk_tx.c:759-760 | Masking any counter with ring size minus one gives its place in the ring, for every power of two |
| Words.SlotOfWrapped | native_drv/sfvmk_tx.c:759-760 | The 32-bit word a counter has wrapped to selects the same slot as the counter that never wraps |
| Words.DistinctSlots | native_drv/sfvmk_ev.c:142-146 | Two counters less than a ring apart never share a slot, which is why the event loops that stop at a slot do not stop early |
| Words.DistanceOfWrapped | native_drv/sfvmk_tx.c:788-791 | Subtracting two wrapped counters gives the true distance whenever it fits a word, and they are equal words only if equal counters |
| Words.DeltaCountsCompletions | native_drv/sfvmk_ev.c:212-217 | The delta computed from an event's slot is the true number of descriptors newly done, also across 2^32, and zero for a repeated report |
| Words.SlotAfter | native_drv/sfvmk_ev.c:125-146 | Stepping on from a masked slot reaches the slot of the counter stepped on |
| Words.SlotOf | native_drv/sfvmk_tx.c:758-760 | The masked 32-bit counter is the slot of the unbounded counter |
| Rings.RotatedUpdate | native_drv/sfvmk_tx.c:1525-1546 | Writing the slot of the j-th counter in flight changes entry j of the ring as read from its oldest slot, and no other entry |
| Rings.RotatedNext | native_drv/sfvmk_tx.c:756-783 | When the oldest counter moves on, the ring as read from its oldest slot is rotated by one |
| TxSizes.NeededIsLeast | native_drv/sfvmk_tx.c:35 | The descriptor count of a buffer is the least number of pieces of at most the maximum size that cover it |
| TxSizes.NeededIsSubadditive | native_drv/sfvmk_tx.c:35 | Merging two buffers never needs more descriptors than keeping them apart |
| TxFix.HwTsoFixPkt | native_drv/sfvmk_tx.c:1302-1358 | Both violations are cleared if and only if the packet as a whole allows it (a segment violation needs ceil(total/max)+1 <= 24, and total >= header length); then the estimate covers the merged packet's descriptors, is at most 24 and not above the initial one |
| TxFix.EstimateFalls | native_drv/sfvmk_tx.c:1302-1358 | Once the first element is settled the running estimate never grows as more elements are merged |
| TxFix.SplitWithinEstimate | native_drv/sfvmk_tx.c:1224-1251 | At every point of the merging the running estimate is at least the number of DMA descriptors the merged packet is split into, with the correction for a first element that is exactly the headers |
| TxFix.RepairLenIs | native_drv/sfvmk_tx.c:1302-1358 | The merging stops at the first length at which both flags are clear |
| TxPacket.TciCarriesBothFields | native_drv/sfvmk_tx.c:1022-1026 | The tag word carries VLAN id and priority, each recoverable, and is zero only if both are |
| TxPacket.CopyPrefixKeepsFrame | native_drv/sfvmk_tx.c:1360-1372 | The partial copy carries the same frame bytes, in element lengths that are those of the merging loop |
| TxDescriptors.WantedMeans | native_drv/sfvmk_tx.c:1687-1706 | Checksums are asked for of all headers that the hardware segments, and otherwise as the packet says, of inner headers only on an adapter that knows tunnels; the tag carries the fields of the packet, or is zero |
| TxDescriptors.BodyIsTiled | native_drv/sfvmk_tx.c:1481-1556 | The data descriptors of a packet concatenate to exactly its bytes, and with segmentation the first one holds exactly the headers, be they empty |
| TxDescriptors.BodyIsBody | native_drv/sfvmk_tx.c:1498-1546 | No data descriptor is longer than the maximum, and none is empty except when the header piece of a split has length zero |
| TxDescriptors.BodyRecorded | native_drv/sfvmk_tx.c:1525-1546 | Each mapped element is recorded in exactly one slot, in order |
| TxDescriptors.MappingsAreWhole | native_drv/sfvmk_tx.c:1525-1546 | A slot that records a mapping records both address and length of an element used |
| TxDescriptors.BodyHasCount | native_drv/sfvmk_tx.c:1481-1556 | The number of data descriptors, computed from element lengths alone |
| TxDescriptors.BodyWithinLengths | native_drv/sfvmk_tx.c:1481-1560 | The descriptors used never exceed those of the whole elements, although elements are cut at the frame length |
| TxHardware.PacketMeaning | native_drv/sfvmk_tx.c:1671-1746 | The hardware that runs one packet's descriptors from the sticky state the driver believes in sends exactly the intended frame and ends with the new sticky state |
| TxHardware.StreamMeaning | native_drv/sfvmk_tx.c:1671-1746 | For every list of packets whose headers were found the hardware sends exactly those frames, in order, each with its own tag, checksum flags and bytes, and refuses nothing |
| TxHardware.FullStreamMeaning | native_drv/sfvmk_tx.c:1671-1746 | The same for the simple stream that sends every option with every packet |
| TxHardware.DroppingOptionsIsInvisible | native_drv/sfvmk_tx.c:1008-1064 | Leaving out options already in force leaves the outcome of every stream unchanged |
| TxHardware.TaggedUnlessZero | native_drv/sfvmk_tx.c:1008-1064 | A packet is sent tagged if and only if a tag is asked for and its id and priority are not both zero |
| TxHardware.EmptyHeaderIsRefused | native_drv/sfvmk_tx.c:1516-1519 | The hardware refuses every packet for segmentation whose first descriptor is empty, which the code makes when no header length was found |
| TxRing.DescRing.constructor | native_drv/sfvmk_tx.c:582-603 | A ring with nothing in flight, every slot empty |
| TxRing.DescRing.Append | native_drv/sfvmk_tx.c:866-879 | One descriptor and its slot are added behind what is being built; nothing else in the ring changes |
| TxRing.DescRing.UndoSlots | native_drv/sfvmk_tx.c:986-993 | Exactly the mappings recorded in the slots from the given one on are undone, whatever the wrap-around; the slots that recorded one are cleared if asked for (986-993), and left as they are otherwise (1571-1580) |
| TxRing.DescRing.Rollback | native_drv/sfvmk_tx.c:983-993 | A rollback restores the ring, its mappings and the pending descriptors to what they were before the given cells |
| TxRing.DescRing.Post | native_drv/sfvmk_tx.c:1606-1624 | Posting hands over exactly the descriptors built, in order, and their slots join the window in flight |
| TxRing.DescRing.Retire | native_drv/sfvmk_tx.c:758-782 | Retiring gives the oldest slot and clears it; the window loses just that slot |
| TxBuild.BuildElem | native_drv/sfvmk_tx.c:1498-1546 | The loop over one element makes exactly the cells that the specification of an element gives, from any start in the ring |
| TxBuild.HwTso | native_drv/sfvmk_tx.c:1431-1585 | Succeeds if and only if all mappings do; then the ring holds the option and data cells of the specification, else it is as before |
| TxBuild.NonTso | native_drv/sfvmk_tx.c:890-998 | Succeeds if and only if all mappings do and each element fits a descriptor; then one descriptor an element, else the ring is as before |
| TxBuild.GiveUp | native_drv/sfvmk_tx.c:1571-1580 | A failed mapping undoes every mapping and slot of the packet, however far it had got |
| TxPrepare.Prepare | native_drv/sfvmk_tx.c:1844-1869 | Whatever the packet: the status that headers and copy determine (unexpected headers are a success with no header length), and the packet itself or the copy with the fewest elements merged. For a packet the driver can repair, that asks for the same, fits the estimates and, where headers were found, obeys both rules of the hardware |
| TxPrepare.VerdictMeans | native_drv/sfvmk_tx.c:1100-1205 | Exactly when a packet is turned away: an inner segmentation without inner offload, headers that cannot be read, a TCP header beyond the limit or with SYN or URG; or a copy that is needed and cannot be made |
| TxPrepare.CopiedIffTooMany | native_drv/sfvmk_tx.c:1228-1251 | A packet is copied if and only if its headers reach beyond its first element, or its elements, and one descriptor more unless the first holds just the headers, are more than 24; so always if it would be built with more than 24, and never if with fewer |
| TxPrepare.RepairsMeans | native_drv/sfvmk_tx.c:1324-1345 | Merging stops at a copy that holds all headers in its first element and, if there were too many, has at most 23 descriptors besides that of the headers |
| TxPrepare.BuiltWithinEstimate | native_drv/sfvmk_tx.c:1558-1559 | What the driver asserts: option and data descriptors built for a segmented packet are within the running estimate that preparation ends with |
| TxPrepare.FitsEstimate | native_drv/sfvmk_tx.c:809-853 | Option, segmentation and data descriptors of a prepared packet together never exceed the estimate reserved |
| TxPrepare.ReservationIsTight | native_drv/sfvmk_tx.c:809-853 | The reservation is neither too small nor too large: two options, and the descriptors that all elements give; with segmentation two more options, a descriptor for the headers, and at most 24 in all |
| TxPrepare.HeadlessFitsIff | native_drv/sfvmk_tx.c:836-839 | A packet for segmentation with unexpected headers fits the estimate reserved for it if and only if its data descriptors are at most 24 |
| TxFlow.RunsStayValid | native_drv/sfvmk_tx.c:1820-1838 | In every run reports stay within what is in flight and that within the limit, and with estimates within the limit no state is stuck |
| TxFlow.StuckIffTooLarge | native_drv/sfvmk_tx.c:1820-1838 | Some run gets stuck if and only if some packet's estimate is beyond the limit |
| TxFlow.StuckForever | native_drv/sfvmk_tx.c:785-795 | A stopped queue with nothing in flight never leaves that state |
| TxFlow.StoppedQueueRestarts | native_drv/sfvmk_tx.c:785-795 | With estimates within the limit, a stopped queue restarts as soon as what is in flight is done |
| TxQueue.OneMoreSent | native_drv/sfvmk_tx.c:1671-1746 | If the descriptors posted so far make the hardware send what the accepted packets ask for, so do those posted with one packet more, in terms of the packet handed over |
| TxQueue.SentIffHeadersFound | native_drv/sfvmk_tx.c:1146-1150 | Of every packet the driver takes, the hardware sends exactly what was asked for if and only if it is not for segmentation or its headers were found; otherwise it refuses the descriptors |
| TxQueue.CopyIffNeeded | native_drv/sfvmk_tx.c:1844-1869 | What is transmitted is a copy, with the original behind it, if and only if the packet breaks one of the rules of the hardware |
| TxQueue.SendAfterFailure | native_drv/sfvmk_tx.c:1671-1746 | After a failed mapping the next packet posted is sent as asked for, but its packet is given back with its own last descriptor if and only if no option was left queued; otherwise slots and descriptors are out of step |
| TxQueue.PacketOwned | native_drv/sfvmk_tx.c:1525-1546 | The slots of a packet own the packet once, the original behind a copy once, and each mapping once |
| TxQueue.PacketAccepted | native_drv/sfvmk_tx.c:1671-1746 | Ownership and meaning together for one accepted packet |
| TxQueue.ReservationSuffices | native_drv/sfvmk_tx.c:1820-1838 | What the reservation checks is enough to build the packet: ring space and pending descriptors never run out |
| TxQueue.Txq.constructor | native_drv/sfvmk_tx.c:539-605 | A started queue: counters agree with the hardware's descriptor index, nothing owned, sticky state as of a reset |
| TxQueue.Txq.MaybeInsertTag | native_drv/sfvmk_tx.c:1008-1064 | A VLAN option is added if and only if the tag differs from the one in force, and the queue then believes in the new tag |
| TxQueue.Txq.MaybeSetCsum | native_drv/sfvmk_tx.c:1687-1715 | A checksum option is added if and only if one of the two flags differs from those in force |
| TxQueue.Txq.Build | native_drv/sfvmk_tx.c:1671-1746 | What is built is the specification's cells for the packet; after a failed mapping only the options are left queued |
| TxQueue.Txq.ListPost | native_drv/sfvmk_tx.c:1593-1629 | Everything pending is posted in order and added moves by as much |
| TxQueue.Txq.UsableAfterFailure | native_drv/sfvmk_tx.c:1571-1580 | After a failed mapping the queue is valid for the next send if and only if no option had to change for the packet; completions need only `Live`, which always holds |
| TxQueue.Txq.Populate | native_drv/sfvmk_tx.c:1671-1746 | A prepared packet is posted and owned, within the estimate; or, after a failed mapping, only options are left |
| TxQueue.Txq.Dispatch | native_drv/sfvmk_tx.c:1844-1884 | With room reserved: each status exactly when, from headers, copy and mappings; what is accepted, owned, posted and lost in each case |
| TxQueue.Txq.Reserve | native_drv/sfvmk_tx.c:1820-1838 | There is room if and only if what is in flight and the options and descriptors that the packet may need are within the limit; otherwise the queue stops |
| TxQueue.Txq.TransmitPkt | native_drv/sfvmk_tx.c:1782-1884 | Every status, exactly when: busy if and only if there is no room, then the status of headers and copy, then success if and only if every element used is mapped (and fits, without segmentation); a success owns the packet, or its copy and the original; a failed mapping loses the copy if and only if there is one |
| TxQueue.Txq.CompleteOne | native_drv/sfvmk_tx.c:758-782 | One completion undoes the mapping of the oldest slot and gives back the packets it owns |
| TxQueue.Txq.CompleteSlots | native_drv/sfvmk_tx.c:756-783 | Every slot up to pending is visited exactly once, although the counters wrap |
| TxQueue.Txq.Unblock | native_drv/sfvmk_tx.c:717-733 | A started queue restarts with reaped equal to completed; any other is left alone |
| TxQueue.Txq.Complete | native_drv/sfvmk_tx.c:744-799 | Exactly the packets reported are given back, in order; the queue restarts if and only if it is started and at most a quarter of the limit is left |
| TxQueue.Txq.CountOne | native_drv/sfvmk_ev.c:217-223 | Pending moves over one slot and counts the packets that slot owns |
| TxQueue.Txq.Report | native_drv/sfvmk_ev.c:212-223 | A completion event moves pending to one past the descriptor named and counts exactly the packets in between |
| TxQueue.Txq.EvTx | native_drv/sfvmk_ev.c:171-235 | A queue that is not started ignores the event; otherwise pending moves to one past the descriptor named, the packets in between are counted, and everything reported is given back if and only if a batch has gathered |
| TxQueue.Txq.FlushAndReset | native_drv/sfvmk_tx.c:366-381 | At the end of a stopped queue every packet ever taken over has been given back exactly once, in order, and no mapping is left |
| RxRing.Judge | native_drv/sfvmk_rx.c:538-675 | What is passed up is within the size limits, not marked for discard, not both kinds of IP, and never claims a checksum the hardware or the configuration did not; exactly what, says the next row |
| RxRing.DeliveredAsReported | native_drv/sfvmk_rx.c:538-655 | Whichever way a length is reported, by the event with the prefix or in the prefix: exactly when the packet is passed up, with exactly that length, padded to 60 if it is short, and with which checksum flags |
| RxRing.UnreadableIsDiscarded | native_drv/sfvmk_rx.c:545-556 | A packet whose length is in a prefix that cannot be read is discarded; every other has a length reported |
| RxRing.RxMem.Add | native_drv/sfvmk_rx.c:789-796 | A buffer goes into the next free slot of the ring as read from the oldest |
| RxRing.RxMem.Record | native_drv/sfvmk_ev.c:142-146 | Size and flags are written to one slot; the packets in the ring stay |
| RxRing.RxMem.Retire | native_drv/sfvmk_rx.c:657-675 | The oldest slot leaves the ring without its packet, marked for discard if the packet was passed up; no other slot changes |
| RxQueue.StopsAtGot | native_drv/sfvmk_rx.c:731-787 | The refill loop stops at the first buffer that cannot be had or used, or when the room is filled |
| RxQueue.NoBufferIsLost | native_drv/sfvmk_rx.c:731-787 | Every buffer that a refill gets goes into the ring or is given back, and it stops at the first that cannot be had or used |
| RxQueue.JudgedAt | native_drv/sfvmk_rx.c:527-675 | Each packet of a completion is judged by its own slot and its own contents |
| RxQueue.Rxq.constructor | native_drv/sfvmk_rx.c:846-940 | A start: the empty ring is filled as far as buffers can be had, others are given back, and a refill is asked for if the hardware got none |
| RxQueue.Rxq.AddBuffer | native_drv/sfvmk_rx.c:789-796 | A buffer posted with its batch goes into the ring once and is marked for discard until an event reports it |
| RxQueue.Rxq.FillSlots | native_drv/sfvmk_rx.c:724-813 | Exactly the buffers that can be had enter the ring, batch by batch, across the wrap of the counters |
| RxQueue.Rxq.Fill | native_drv/sfvmk_rx.c:698-836 | The ring is filled up to the limit as far as buffers can be had, others are given back, and if the hardware then has none a refill is asked for, if it can be submitted |
| RxQueue.Rxq.Push | native_drv/sfvmk_rx.c:818-819 | Nothing already pushed is taken back, and no more is left unpushed than allowed |
| RxQueue.Rxq.CompleteOne | native_drv/sfvmk_rx.c:527-675 | The oldest packet leaves the ring, delivered or released as judged, and its slot is left without it |
| RxQueue.Rxq.CompleteSlots | native_drv/sfvmk_rx.c:526-681 | Every slot up to pending is visited exactly once, each packet leaves once |
| RxQueue.Rxq.Complete | native_drv/sfvmk_rx.c:510-688 | Everything reported leaves the ring as judged, in order; then, if and only if the queue is started and the ring is low, it is filled as far as buffers can be had |
| RxQueue.Rxq.Advance | native_drv/sfvmk_ev.c:125-128 | Pending moves past the buffer an event names |
| RxQueue.Rxq.Note | native_drv/sfvmk_ev.c:85-146 | An event writes size, in 16 bits, and flags into exactly the slots between the last report and the buffer it names; it is an exception if and only if it repeats the last report or names too many |
| RxQueue.Rxq.EvRx | native_drv/sfvmk_ev.c:85-159 | An event that is noted changes the slots it names, and everything reported is completed if and only if a batch has gathered; any other event leaves the ring alone |
| RxQueue.Rxq.RecordAll | native_drv/sfvmk_ev.c:142-146 | The loop over slots visits each slot of the range once, although slots wrap around |
| RxQueue.Rxq.RefillHelper | native_drv/sfvmk_rx.c:350-381 | A refill request becomes an event of a started queue, and nothing of a queue that is not |
| RxQueue.Rxq.EvSoftware | native_drv/sfvmk_ev.c:550-580 | The refill event is used up and the ring filled |
| RxQueue.Rxq.FlushAndReset | native_drv/sfvmk_rx.c:1112-1119 | After a stop the ring holds nothing; every packet that ever entered has left it exactly once, and unreported ones were released |
| RxFlow.RunsAreSupplied | native_drv/sfvmk_rx.c:698-836 | When refill requests can be submitted: in every state of every run of a started queue the hardware has a buffer, or a refill request or event is on its way |
| RxFlow.StarvesIffSubmitFails | native_drv/sfvmk_rx.c:391-420 | Some run leaves the hardware without a buffer and nothing on its way if and only if a refill request may fail to be submitted |
| RxFlow.StarvedForever | native_drv/sfvmk_rx.c:825-829 | No step changes such a state |
| ProxyInvariant.StepKeepsLock | native_drv/sfvmk_proxy.c:1165-1250 | Every step of every party keeps authState a lock: RUNNING exactly while its one holder is inside |
| ProxyCount.StepKeepsCount | native_drv/sfvmk_proxy.c:387-475 | Every step keeps numRequests equal to the jobs queued and running and callbacks in flight, up to the count each thread still owes |
| ProxyRequests.StepKeepsRequests | native_drv/sfvmk_proxy.c:493-554 | Every step keeps, for each index, what the request state, the firmware and the holder of the lock say about it in agreement |
| ProxyTimeouts.TimeoutClaimsItsOwn | native_drv/sfvmk_proxy.c:617-672 | A timeout that finds its index OUTSTANDING finds the request it was queued for |
| ProxyPairs.RunsArePaired | native_drv/sfvmk_proxy.c:1759-1825 | Until STOPPING is set, in every state of every run: no two indices point to one event, every event has its timeout queued, starting or just claimed or cancelled, and every INCOMING request has its handler queued or starting, or about to be queued |
| ProxyProgress.RaisedIsTaken | native_drv/sfvmk_proxy.c:1759-1825 | From every state of the invariant in which events are handled, a request that the firmware raises is taken: INCOMING with a new tag, its timeout and its handler queued and counted |
| ProxyProgress.QueuedHandlerBegins | native_drv/sfvmk_proxy.c:1626-1700 | A queued handler gets to its request, and moves it to OUTSTANDING, when the helper and the lock are free |
| ProxyProgress.RespondAnswers | native_drv/sfvmk_proxy.c:1362-1421 | A thread that responds to an OUTSTANDING request answers it: IDLE, one answer more, the firmware told, event and timeout gone, and nothing else changed |
| ProxyProgress.ExecuteAnswers | native_drv/sfvmk_proxy.c:1165-1255 | The same for a thread that executes the operation and answers then |
| ProxyProgress.RefuseAnswers | native_drv/sfvmk_proxy.c:1700-1731 | A handler whose authorisation fails answers its request too, and does not do so again |
| ProxyProgress.TimeoutAnswers | native_drv/sfvmk_proxy.c:617-672 | A timeout that finds its request OUTSTANDING answers it |
| ProxyProgress.QueuedTimeoutAnswers | native_drv/sfvmk_proxy.c:617-672 | A queued timeout does, when the helper and the lock are free |
| ProxyProgress.CallbackAnswers | native_drv/sfvmk_sriov.c:1375-1585 | A callback that finds the lock free answers a request that waits for it |
| ProxyProgress.StoppingHandlerEnds | native_drv/sfvmk_proxy.c:1649-1672 | A handler that meets STOPPING cancels and discounts its timeout and frees its event; the release that follows, of a lock it does not hold, changes nothing |
| ProxyProgress.StoppingTimeoutEnds | native_drv/sfvmk_proxy.c:636-650 | A timeout that meets STOPPING frees the event of its index and leaves |
| ProxyTermination.RunsCanSettle | native_drv/sfvmk_proxy.c:493-672 | From every state of every run, until something is refused or stopped, the protocol can go on to a state without jobs, threads or events under way, in which every request taken was answered once and numRequests is zero |
| ProxyTermination.RunsCanEnd | native_drv/sfvmk_proxy.c:355-479 | From every state of every run, unless something was refused or teardown stopped over a stale timeout, teardown can come to its end |
| ProxySafety.StepIsSafe | native_drv/sfvmk_proxy.c:355-672 | The whole invariant is kept by every enabled step |
| ProxySafety.RunsAreSafe | native_drv/sfvmk_proxy.c:355-672 | The invariant holds in every state of every run |
| ProxySafety.MutualExclusion | native_drv/sfvmk_proxy.c:1643-1745 | authState is RUNNING if and only if somebody is between acquiring and releasing it, and never two are |
| ProxySafety.NobodyInsideAfterStop | native_drv/sfvmk_proxy.c:387-399 | After teardown has set STOPPING nobody is inside, and no step leaves STOPPING |
| ProxySafety.StoppingStays | native_drv/sfvmk_utils.c:529-563 | No step changes STOPPING to anything else |
| ProxySafety.OnlyStopStops | native_drv/sfvmk_proxy.c:387-399 | Only teardown sets STOPPING |
| ProxySafety.NumRequestsCounts | native_drv/sfvmk_sriov.c:1383-1402 | numRequests is the number of jobs queued or running and callbacks in flight, up to changes that are some thread's next step |
| ProxySafety.AnsweredOnce | native_drv/sfvmk_proxy.c:493-554 | On each index accepted minus answered requests is 1 when the request state is not IDLE and 0 otherwise, as long as the firmware takes the first completion that a handler makes |
| ProxySafety.NoRequestDropped | native_drv/sfvmk_mcdi.c:574-582 | An event taken by the event world always finds its index IDLE, under the same condition |
| ProxySafety.BlindWritesAreRight | native_drv/sfvmk_proxy.c:1235-1245 | The unconditional writes of COMPLETED overwrite COMPLETING or OUTSTANDING only, and the claim that follows finds COMPLETED |
| ProxySafety.TimeoutsCompleteTheirOwn | native_drv/sfvmk_proxy.c:617-672 | A timeout dequeued before its request was answered never completes a later request on the index |
| ProxyShutdown.TeardownLeavesNothing | native_drv/sfvmk_proxy.c:401-475 | When request states are freed callbacks only wait or leave, and no job is left unless teardown stopped over a stale timeout; when the proxy state is freed there is no job and nobody left, in every run |
| ProxyShutdown.LeftOverIffStale | native_drv/sfvmk_proxy.c:401-475 | For every run and every state in which teardown sets STOPPING: it can go on to free the request states with a job left if and only if the helper then runs a timeout that waits for the lock while its index points to the event of another request |
| ProxyShutdown.LeftOverForever | native_drv/sfvmk_proxy.c:460-475 | A job left then stays in every later state of every run, and numRequests stays above zero, so that the rest is never freed |
| ProxyShutdown.StoppingHandlersFindEvents | native_drv/sfvmk_proxy.c:1649-1672 | In every run: a handler that meets STOPPING finds the event of its own request, if when STOPPING was set no queued handler was at risk of losing its event to a stale timeout |
| ProxyShutdown.NoEventIffHandlerAtRisk | native_drv/sfvmk_proxy.c:1655-1660 | From the same states: a handler can come to read the tag of an event that is not there if and only if there is such a timeout and the handler of that other request is still queued; otherwise every handler that meets STOPPING finds its own event |
| ProxyCounterexamples.AnsweredTwice | native_drv/sfvmk_proxy.c:1713-1731 | Without the condition: a run in which one request is taken and answered twice, because the firmware refused the completion that its handler made |
| ProxyCounterexamples.LaterRequestOverwritten | native_drv/sfvmk_proxy.c:1713-1731 | A run in which the refused call had reached the firmware, a second request was taken on the index, and the first handler is about to write COMPLETED over its INCOMING |
| ProxyCounterexamples.LaterRequestAnswered | native_drv/sfvmk_proxy.c:1713-1731 | And a run in which that second request is then answered by the first handler, while its own handler is still queued |
| ProxyCounterexamples.RefusalBreaksAnsweredOnce | native_drv/sfvmk_proxy.c:1713-1731 | The condition of AnsweredOnce is needed: from any state of the invariant, a refusal of a handler's first completion and the handler's next step make its conclusion false |
| ProxyCounterexamples.StaleTimeoutLeavesJob | native_drv/sfvmk_proxy.c:641-646 | A run in which a timeout of an answered request frees the event of a newer one as teardown starts, so that a job is left and the count never reaches zero |
| ProxyCounterexamples.HandlerFindsNoEvent | native_drv/sfvmk_proxy.c:1655-1660 | A run in which a handler that meets STOPPING finds no event at its index |
| VfBits.SetBitSets | native_drv/sfvmk_proxy.c:883 | Setting a bit of a byte sets that bit and no other |
| VfBits.FirstBitSet | native_drv/sfvmk_utils.c:473-484 | The 1-based position of the lowest set bit, zero for a zero byte |
| VfConfig.Vf.RequestVlan | native_drv/sfvmk_proxy.c:864-889 | Every status of the VLAN part of a filter operation, exactly when, and its effect on active set, pending change and bitmap |
| VfConfig.Vf.RequestRxMode | native_drv/sfvmk_proxy.c:895-1001 | The receive-mode part of a filter operation: which destinations are refused; whoever grants the modes asked for covers what is required of them; and if nothing is pending afterwards they are granted already |
| VfConfig.Vf.AskedMeans | native_drv/sfvmk_proxy.c:980-987 | For the older hypervisors all-multicast is asked for together with multicast, or instead of it |
| VfConfig.AskThenGrant | native_drv/sfvmk_sriov.c:991-1120 | A receive mode is asked for and then granted: the request gets exactly one answer, which authorises it and covers what it needs |
| VfConfig.AskThenAllow | native_drv/sfvmk_sriov.c:818-981 | A VLAN is asked for and then allowed: the request gets exactly one answer, which authorises it, covers what it needs, and gives the receive modes that the function has |
| VfConfig.Vf.FilterOp | native_drv/sfvmk_proxy.c:864-1009 | Both parts together: every status, exactly when, the VLAN part first and kept even if the other is refused; otherwise each part is pending if and only if it is not granted yet |
| VfConfig.AskForBoth | native_drv/sfvmk_proxy.c:864-1009 | One filter operation can leave both a VLAN and a receive mode pending |
| VfConfig.Vf.SetVid | native_drv/sfvmk_proxy.c:883 | Adds one VLAN id to the bitmap, and no other |
| VfConfig.Vf.PendingVid | native_drv/sfvmk_sriov.c:779-808 | The least VLAN id in the bitmap, or unspecified when there is none or no VLAN is pending |
| VfConfig.RequestAndDecode | native_drv/sfvmk_proxy.c:864-889 | For every id below 4096, requesting it and decoding the bitmap gives it back |
| VfConfig.Vf.AllowRange | native_drv/sfvmk_sriov.c:942-957 | The allowed set becomes old plus the range; the flag is set if and only if an active VLAN other than the pending one became allowed |
| VfConfig.Vf.DisallowRange | native_drv/sfvmk_sriov.c:958-969 | The allowed set becomes old minus the range; the flag is set if and only if an active VLAN ceased to be allowed |
| VfConfig.Vf.RespondVlanRange | native_drv/sfvmk_sriov.c:818-873 | Answers the pending request if and only if its VLAN is allowed and nothing else is pending; what else was pending is forgotten |
| VfConfig.Vf.SetVlanRange | native_drv/sfvmk_sriov.c:927-981 | A reset is asked for if and only if the permission of an active VLAN changed, other than by allowing the pending one; with a reset that works, no active VLAN but the pending one has a permission other than before |
| VfConfig.Vf.SetRxMode | native_drv/sfvmk_sriov.c:1091-1120 | A reset is asked for if and only if the answer failed, or did not meet a shutdown and a mode was revoked |
| VfConfig.AnsweredAtMostOnce | native_drv/sfvmk_sriov.c:818-1080 | However the callbacks come, a pending request gets at most one answer, when answers are delivered |
| VfConfig.AnsweredIff | native_drv/sfvmk_sriov.c:818-1080 | For every pending request and every list of callbacks: it is answered if and only if nothing but a VLAN and a mode is pending and the callbacks come as needed - the mode first, when one is pending, and, for a VLAN, the first VLAN callback allows it |
| VfConfig.AuthorisedIffCovered | native_drv/sfvmk_sriov.c:1024-1063 | An answer to a receive-mode change authorises if and only if the mask that is sent covers every privilege the request needs, and the mask never gives receive modes that the function does not have |
| VfConfig.VlanAnswers | native_drv/sfvmk_sriov.c:844-868 | Every answer to a VLAN change authorises, carries the VLAN privilege, and gives the receive modes of the function and no others; there is one if and only if the VLAN is allowed and nothing else is pending |
| VfConfig.RxEndingMeans | native_drv/sfvmk_sriov.c:991-1080 | Dealing with a receive mode ends as sending the answer does, if one is sent, and fails over a change that is neither VLAN nor mode |
| VfConfig.ModeForMeans | native_drv/sfvmk_proxy.c:895-965 | Which receive mode a destination needs: multicast for 224.0.0.0 to 239.255.255.255, for IPv6 addresses that start with 0xff and for odd MAC addresses, broadcast for all ones |
| VfConfig.PrivMaskMeans | native_drv/sfvmk_proxy.c:774-807 | A privilege goes with every receive mode, and multicast with all-multicast where that is worked around |
| VfConfig.PackRoundTrip | native_drv/sfvmk_proxy.c:1127-1128 | Packing handle and index into 64 bits and splitting them gives both back if and only if the index fits 16 bits |
| NicGroups.Unlink | esxcli_ext/sf_firmware.c:769-788 | Taking a node out of a doubly linked list leaves the rest well linked in both directions |
| NicGroups.Move | esxcli_ext/sf_firmware.c:769-788 | A node leaves the list and ends the master's chain |
| NicGroups.UpdateSlaves | esxcli_ext/sf_firmware.c:756-794 | The master's chain becomes the master and every node of its adapter in original order; the list keeps the other nodes in order, well linked |
| NicHeap.MakeGroup | esxcli_ext/sf_firmware.c:871-915 | The head becomes a master with its slaves; what is left is a well formed list |
| NicHeap.CreateMasters | esxcli_ext/sf_firmware.c:869-921 | One master for each group, in order, each with its chain, up to the first that cannot be made; the list left is well formed; the loop ends because the list shrinks |
| NicList.GroupsArePermutation | esxcli_ext/sf_firmware.c:869-921 | The groups hold every node of the list exactly once |
| NicList.GroupsAreExact | esxcli_ext/sf_firmware.c:756-794 | For addresses of one format each group is exactly the nodes of the whole list with the master's prefix, in original order |
| NicList.NeighboursAreGrouped | esxcli_ext/sf_firmware.c:768-771 | The last digit of the device number is not compared: addresses that differ only there are one group |
| NicList.SameUnlessNeighbours | esxcli_ext/sf_firmware.c:768-771 | Two addresses of one width count as the same if and only if they agree before the dot or differ just in the last character before it, and never both |
| NicList.WholeIffNoNeighbours | esxcli_ext/sf_firmware.c:768-771 | For every list of addresses of one width: each group is exactly the nodes with the whole address of its master if and only if no two nodes differ just in the last character before the dot |
| NicRun.BuildList | esxcli_ext/sf_firmware.c:815-845 | One node for each interface, in order, well linked, up to the first that fails; a node whose addresses cannot be had is in the list already |
| NicRun.Find | esxcli_ext/sf_firmware.c:850-852 | The first node of the given name |
| NicRun.MakeHead | esxcli_ext/sf_firmware.c:854-866 | The chosen node is first, the others keep their order, and the list is well linked |
| NicRun.WantedAll | esxcli_ext/sf_firmware.c:869-921 | For all interfaces: the groups are all the nodes, each once |
| NicRun.WantedOne | esxcli_ext/sf_firmware.c:915-920 | For one interface: the group and the nodes freed at once are all the nodes, each once |
| NicRun.CleanUp | esxcli_ext/sf_firmware.c:926-935 | When a master cannot be made, exactly the groups made are freed, or, if there are none, what hangs on the current node |
| NicRun.SalvagedIsAll | esxcli_ext/sf_firmware.c:926-935 | Then every node is freed if and only if it was the first master and there was no memory for it or only one node; no node is freed twice in any case |
| NicRun.SalvagedHas | esxcli_ext/sf_firmware.c:926-935 | Which nodes are freed: all those of the groups made, or, if there are none, the rest of the list or just its head |
| NicRun.GroupNamed | esxcli_ext/sf_firmware.c:847-921 | One interface: its adapter's nodes in one chain with it in front, the others freed; or the clean-up |
| NicRun.GroupAll | esxcli_ext/sf_firmware.c:869-935 | All interfaces: succeeds if and only if every master can be made; then the groups are those of the list |
| NicRun.CreateNicList | esxcli_ext/sf_firmware.c:796-935 | From the interfaces to masters with chains, every node exactly once in a chain or freed; a list that cannot be built is freed whole; if a master cannot be made, everything is freed if and only if it was the first and either there was no memory or only one interface |
| NicRun.FreeSlaves | esxcli_ext/sf_firmware.c:726-737 | Every node of a chain is freed once, in order |
| NicRun.FreeMasters | esxcli_ext/sf_firmware.c:739-754 | Every master and every node of its chain is freed once, in order |
| NicRun.FreeAll | esxcli_ext/sf_firmware.c:739-754 | After freeing the masters, the nodes freed are exactly the nodes made, each once |
| AdapterLists.AttachIsCanonicalIff | native_drv/sfvmk_driver.c:996-1059 | Attaching keeps the lists what the attached set says if and only if no adapter gets two primaries to choose from |
| AdapterLists.DetachIsCanonical | native_drv/sfvmk_driver.c:1069-1105 | Detaching always keeps the lists what the attached set says |
| AdapterLists.AttachKeepsOrder | native_drv/sfvmk_driver.c:996-1059 | A new adapter goes to the rear of its list, those that waited for it to the rear of its own, in order, and nothing else moves |
| AdapterLists.DetachKeepsOrder | native_drv/sfvmk_driver.c:1069-1105 | Taking an adapter away leaves every list in order, with its own adapters behind those that wait |
| AdapterLists.CanonicalIsUnique | native_drv/sfvmk_driver.c:996-1106 | Lists that agree with the same attached set agree with each other, in membership and in primary pointers |
| AdapterRuns.DriverLists.Gather | native_drv/sfvmk_driver.c:1006-1023 | The walk moves exactly the waiting adapters of the serial number, in order |
| AdapterRuns.DriverLists.Find | native_drv/sfvmk_driver.c:1032-1036 | The first primary of the serial number |
| AdapterRuns.DriverLists.Add | native_drv/sfvmk_driver.c:996-1059 | The lists in place become what the specification of an attach gives |
| AdapterRuns.DriverLists.Attach | native_drv/sfvmk_driver.c:1424-1430 | Port 0 is its own primary; then the adapter is put in its list |
| AdapterRuns.DriverLists.Orphan | native_drv/sfvmk_driver.c:1084-1097 | Every secondary moves to the waiting list and loses its primary |
| AdapterRuns.DriverLists.Remove | native_drv/sfvmk_driver.c:1069-1106 | The lists in place become what the specification of a detach gives |
| AdapterRuns.RunsAreCanonical | native_drv/sfvmk_driver.c:996-1106 | After every run without a conflict each attached adapter is in exactly the list that the attached set says |
| AdapterRuns.OrderDoesNotMatter | native_drv/sfvmk_driver.c:996-1106 | Two such runs that leave the same adapters attached leave them grouped alike, whatever their order |
| AdapterRuns.OrderMatters | native_drv/sfvmk_driver.c:1030-1047 | With two port-0 adapters of one serial number the order of attaching decides the primary of every other adapter |
| Nvram.NvramRead | native_drv/sfvmk_nvram.c:43-100 | On success everything was read; on failure exactly the reported prefix was, and the rest of the buffer beyond the failing chunk is untouched; a read that cannot start reports the size asked for |
| Nvram.NvramWriteAll | native_drv/sfvmk_nvram.c:112-173 | On success everything was written; on failure exactly the reported prefix was, and nothing beyond the failing chunk changed |
| Nvram.WriteThenRead | native_drv/sfvmk_nvram.c:69-169 | For any positive chunk sizes, what is written and read with success is the same, when the firmware does not report a bad write as good; and both succeed when no access fails |
| Nvram.FlashChunk | native_drv/sfvmk_update.c:231-259 | When a chunk is reported good the partition holds it, even if writes corrupt their range, and nothing outside the range changed; and with a sound device every chunk within the partition is |
| Nvram.Flash | native_drv/sfvmk_update.c:227-260 | When the loop completes the chunks tile the image exactly and the partition equals the image there, whatever the writes did; with a sound device and room it completes |
| Nvram.PerformUpdate | native_drv/sfvmk_update.c:162-300 | Success means the image was flashed, except if and only if the format is unknown, an unsigned image is too long, or there is no memory for the chunk buffer: then success is reported and nothing is written. With a sound device, room, and all other steps good there is success |
| Nvram.QuietEndings | native_drv/sfvmk_update.c:185-219 | Inputs of each of the three kinds, and that with a chunk buffer no other image ends so |

## Left out

What these members leave open, or take for granted:

- TxPrepare.Prepare: what it says of estimates and of the rules of the hardware is for a packet that the driver can repair: with unexpected headers at most 24 data descriptors, with too many segments that merging all of them is enough, which the code asserts (native_drv/sfvmk_tx.c:1352-1358), and a header length within the frame; `HeadlessFitsIff` and `HwTsoFixPkt` say exactly what happens otherwise.
- TxQueue.Txq.TransmitPkt: a packet that is built is one that the driver can repair; nothing is pending before, which the code asserts (native_drv/sfvmk_tx.c:1682) and which after a failed mapping holds only under the condition of `UsableAfterFailure`, a send otherwise being the matter of `SendAfterFailure`; posting itself does not fail, as the reservation rules out its only cause.
- TxQueue.Txq.Report: an event names a descriptor that is in flight, or repeats the last report; an event out of order is a fault of the hardware.
- TxHardware.StreamMeaning: bytes are those handed to the DMA mapping; a copy made by the VMkernel holds the copied bytes in its first element and shares the rest.
- RxQueue.Rxq.Fill: retries of one allocation count as one outcome; the push may leave fewer than the refill threshold unpushed; the delay of a refill request is not modelled.
- RxQueue.Rxq.Complete: RSS hash, statistics and the packet's contents after delivery are not modelled.
- ProxySafety.AnsweredOnce: a failed allocation of an event, a failed submission to the helper and a world that dies while sleeping are not steps; a request's timeout, which is delayed by seconds, is not dequeued before its handler; one event is handled at a time; taking an event and reading authState are one step.
- ProxyShutdown.TeardownLeavesNothing: events are stopped before teardown starts, so that no event is being handled then.
- ProxyShutdown.NoEventIffHandlerAtRisk: after a handler has found no event the model goes on as if there were nothing to cancel, where the driver would have read a null pointer.
- ProxySafety.NumRequestsCounts: the counter is an integer that may be one behind for a moment, where the driver's is an unsigned word.
- VfConfig.Vf.SetVlanRange: ranges end below 4096; with a last id of 65535 the 16-bit loop of the driver would not end.
- VfConfig.Vf.FilterOp: the operation code and the port, which are checked before, are those of an insert on the assigned port.
- NicRun.CreateNicList: the list of interfaces itself is given. A master object whose queries fail is never linked and never freed.
- NicRun.Find: the interface asked for is in the list, as the driver takes for granted.
- AdapterRuns.DriverLists.Add: adapters are values with an identity, their links and primary pointers are fields of the lists; a serial number is the part that is compared.
- Nvram.NvramRead: the offset does not exceed 32 bits, and the chunk size given by the firmware is not zero, with which the loop would not end.
- Nvram.PerformUpdate: checks of the image before its format is looked at, and the steps after the flash, are given as outcomes.

What is not modelled at all:

- VMkernel and libefx calls beyond the outcomes above; the queue limit is a parameter below the number of descriptors, which is a power of two.
- Management callbacks, argument parsing, printing and statistics: plumbing without a property over runs.
- Init and fini sequences, interrupts, tunnel ports, module load, logging.
- The filter database: the code that fills its hash is in a file that is not part of this model.
- FEC masks, link speeds and module decoding: finite tables.
- Resource limits of queues: linear arithmetic.
- The panic path, locks around the queues, real time and memory barriers.
