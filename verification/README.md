# Bristlemouth core: verified models

This project models the protocol and algorithm core of the Bristlemouth C stack in Dafny and proves what
that core is for. Code that changes state step by step is modelled as classes and methods with loops. Each
such method is tied to a function of the old state, and the theorems are about those functions.

| cluster | files |
|---|---|
| Firmware update between a host and a client over a lossy network | `dfu_model`, `dfu_node`, `dfu_session`, `dfu_safety`, `dfu_theorems`, `dfu_progress`, `dfu_lossless`, `dfu_callbacks`, `crc` |
| Topology walk over the neighbor tables of a network | `topology_model`, `topology_list`, `topology_task`, `topology_runs`, `topology_walk` |
| Link layer: receive policy, port stamps, flooding, checksums | `l2_policy`, `l2_stamp`, `l2_node`, `wiring`, `flood`, `flood_theorem`, `checksum`, `bcmp_checksum` |
| CRC-32 by table, by nibble and by bit | `crc32`, `crc32_table`, `crc32_ieee`, `crc32_burst` |
| Wildcards, dates, IPv6 text | `wildcard`, `calendar`, `ipv6_text` |
| Queues and buffers in circular storage | `ring`, `record_queue`, `posix_queue`, `stream_buffer` |
| Configuration partition, service requests | `config_store`, `service_request` |
| Fixed-width integers and byte strings | `bytes` |

How the source's world appears here:

- Every call into the operating system, a driver or the network answers through an `Env` value or a
  parameter with one field for each call that can fail, so a theorem that quantifies over it covers every
  pattern of failures. Timers may fire at any time.
- C integers are unbounded integers with the wrap-around written out, or bit vectors where the bits are the
  point (the CRCs). A 16-bit port mask is the set of its bit positions. Pointers to buffers are sequences,
  or arrays where the source changes the buffer in place.
- A host's byte order is little endian, as on every platform the stack is built for.
- The firmware update uses the host's internal image path. The descriptor in front of the image takes 18
  bytes, its packed size.

Findings, each stated as a theorem below:

- The wildcard matcher is right about a text for all patterns if and only if the text has no `*`.
- A BCMP message is accepted after its port stamp if and only if adding the port to the complemented
  checksum does not overflow 16 bits. Every message with a free payload word has a variant that is rejected
  on every port.
- The callback of a finished host is never unregistered, so a later error of the same node as a client calls
  it again.
- A configuration key of exactly 32 characters can be set but is never found.
- A service request whose sending fails is reported as failed, yet stays on the list and is called back when
  it expires.
- `network/l2_policy.h` says that a forwarded copy keeps its egress nibble. The code clears both nibbles, and
  the model follows the code.

## Model

| member | source | states |
|---|---|---|
| `DfuSafety.ProcessPayloadConserves` | bcmp/dfu_client.c:155-219 | a stored chunk is appended to pages plus page buffer, a refused one leaves no more than before, the flash offset moves by whole pages, and exactly when the chunk is stored |
| `DfuSafety.ProcessEndConserves` | bcmp/dfu_client.c:222-240 | after the last page is written the flash alone holds everything received |
| `DfuSafety.PagesHoldChunks` | bcmp/dfu_client.c:155-240 | for every cutting into chunks of 1 to 1024 bytes with successful writes, flash and page buffer hold the concatenation in order, whole pages in flash, and the end of the image leaves it all in flash |
| `DfuSafety.StoreChunkKeeps` | bcmp/dfu_client.c:371-400 | a chunk taken from the image past the watermark keeps the received bytes short of it, or equal to the image up to it |
| `DfuSafety.ReceivesChunk` | bcmp/dfu_client.c:362-443 | the same over the whole receiving state on a payload, including the early validation after the last chunk and the pending error it overwrites |
| `DfuSafety.LengthCheck` | bcmp/dfu_client.c:452-473 | a client that passes the length check holds the whole image: the bytes came in order from the image and are as many |
| `DfuSafety.TransitionKeeps` | common/lib_state_machine.c:35-66 | taking the one-slot pending transition keeps the client invariant in every state |
| `DfuSafety.TransitionKeepsHistory` | bcmp/dfu_client.c:548-610 | what was confirmed and reported stays earned across transitions and resets |
| `DfuSession.FeedsLose` | bcmp/dfu_host.c:143-199 | losing any frame leaves the payloads in flight as ordered pieces of the image |
| `DfuSession.FeedsSend` | bcmp/dfu_host.c:143-199 | a further piece sent at the host's position keeps them so |
| `DfuTheorems.SendsPiece` | bcmp/dfu_host.c:143-199 | the host sends the next piece of the image by its own running remainder, whatever was asked for, or fails without moving on |
| `DfuTheorems.HostIterates` | bcmp/dfu_host.c:228-393 | one iteration of the host sends at most one frame, keeps its remainder consistent, calls back at most once and only on leaving, and with success only on the client's End |
| `DfuTheorems.ClientIterates` | bcmp/dfu_client.c:340-610 | one iteration of the client on any event keeps its invariant, its history and the images it activated |
| `DfuTheorems.NextKeeps` | bcmp/dfu_core.c:526-545 | every action of either node, the network and the resets keeps the session invariant |
| `DfuTheorems.UpdateIsSafe` | bcmp/dfu_client.c:362-499 | over every run with losses, timeouts, restarts and failed writes: a client in the reboot request holds the host's image, and so does every image handed to the bootloader; no CRC is assumed |
| `DfuTheorems.SuccessIsEarned` | bcmp/dfu_host.c:354-381 | over every run the host reports exactly once when it leaves the session, and reports success only if the client activated the image, rebooted into the requested version and confirmed it |
| `DfuProgress.ReceivingIsBounded` | bcmp/dfu_client.c:362-443 | from any receiving state the remaining accepted chunks and timeouts are bounded by the retries and chunks left |
| `DfuProgress.ReceivingEndsWithoutRestart` | bcmp/dfu_client.c:281-287 | without restarts at most five accepted chunks or timeouts for each chunk of the image |
| `DfuLossless.ChunksCover` | bcmp/dfu_client.c:281-287 | the chunk count is the rounded-up quotient, and that many chunks cover the image exactly |
| `DfuLossless.NextAt` | common/lib_state_machine.c:35-66 | in a run without loss or timeouts every action that finds something to do takes the session to the next stage, any other leaves it where it is |
| `DfuLossless.LosslessUpdateSucceeds` | bcmp/dfu_client.c:340-541 | however the actions of a run without loss or timeouts are ordered: nothing fails, a client past the receiving state took exactly the chunk count of payloads and holds the image and the host has nothing left to send, the run has at most `2 * ChunkCount + 10` moves, and when nothing is left to do the image was activated once, the version confirmed and success reported once |
| `DfuCallbacks.CallbacksCountErrors` | bcmp/dfu_core.c:181-235 | outside the host states callbacks and entries into the error state are equally many, as long as a callback is registered |
| `DfuCallbacks.StaleCallback` | bcmp/dfu_core.c:225-228 | a finished host that is offered an update with too large a chunk reports a second, failed outcome |
| `DfuNode.DfuNode.ProcessUpdateRequest` | bcmp/dfu_client.c:249-328 | the registers after an update request in each of its seven outcomes |
| `DfuNode.DfuNode.ProcessPayload` | bcmp/dfu_client.c:155-219 | filling the page buffer and writing it out, as the function the conservation lemmas are about |
| `DfuNode.DfuNode.ProcessEnd` | bcmp/dfu_client.c:222-240 | writing out the partial page |
| `DfuNode.DfuNode.ReceivingRun` | bcmp/dfu_client.c:362-443 | the receiving state on every event |
| `DfuNode.DfuNode.ValidatingEntry` | bcmp/dfu_client.c:452-473 | length first, then CRC |
| `DfuNode.DfuNode.RebootDoneRun` | bcmp/dfu_client.c:581-610 | confirmation on the host's End, retries, and the abort that resets |
| `DfuNode.DfuNode.SendChunk` | bcmp/dfu_host.c:143-199 | the next chunk by the host's remainder, and its failures |
| `DfuNode.DfuNode.ReqUpdateRun` | bcmp/dfu_host.c:265-306 | acknowledgement, retry and abort of the request |
| `DfuNode.DfuNode.HostUpdateRun` | bcmp/dfu_host.c:326-393 | the host's update state on every event |
| `DfuNode.DfuNode.ErrorEntry` | bcmp/dfu_core.c:181-235 | callback, and return to idle unless the error is fatal |
| `DfuNode.DfuNode.SmRun` | common/lib_state_machine.c:35-66 | one iteration: run, then the pending transition, then the entry, on the node's fields |
| `Crc.Ccitt16Buffer` | third_party/crc/crc16.c:9-17 | the loop computes the left fold of the byte step |
| `Crc.Ccitt16Concat` | bcmp/dfu_client.c:376-378 | the running CRC over chunks is the CRC of their concatenation |
| `TopologyList.NetworkTopology.Append` | integrations/topology.c:461-477 | the node becomes the last of the chain with inverse links; on an empty list the cursor is not set |
| `TopologyList.NetworkTopology.Prepend` | integrations/topology.c:438-458 | the node becomes the first; on an empty list the index moves twice |
| `TopologyList.NetworkTopology.InsertAfter` | integrations/topology.c:480-494 | the chain with the node behind the cursor, links inverse, length and index consistent |
| `TopologyList.NetworkTopology.InsertBefore` | integrations/topology.c:497-512 | the chain with the node before the cursor, which stays on its node |
| `TopologyList.NetworkTopology.MovePrev` | integrations/topology.c:418-425 | the cursor is the entry of the smaller index, and stays at the front |
| `TopologyList.NetworkTopology.MoveNext` | integrations/topology.c:427-434 | the cursor is the entry of the larger index, and stays at the back |
| `TopologyList.NetworkTopology.NodeIdInTopology` | integrations/topology.c:561-574 | true exactly for the ids in the chain |
| `TopologyList.NetworkTopology.CheckNeighborNodeIds` | integrations/topology.c:576-595 | the first neighbor of the cursor that is not in the chain, or 0 |
| `TopologyList.NetworkTopology.CheckAllPortsExplored` | integrations/topology.c:597-627 | compares the neighbors on ports that are up with the explored count |
| `TopologyTask.Task.ProcessCheck` | integrations/topology.c:207-245 | the check event on list, flags and queue |
| `TopologyTask.Task.ProcessAdd` | integrations/topology.c:272-296 | a new table goes beside the cursor on the side being explored, a known one is dropped |
| `TopologyTask.Task.ProcessEvent` | integrations/topology.c:256-340 | one turn of the event loop on the linked list, as the function the theorems are about |
| `TopologyTask.Task.NeighborRequestCallback` | integrations/topology.c:100-140 | a reply counts a port, clears the retries and queues its table |
| `TopologyRuns.AddKeepsList` | integrations/topology.c:272-292 | adding an unknown node keeps ids distinct and the root single |
| `TopologyRuns.EveryRunKeepsTheList` | integrations/topology.c:207-340 | over every run of start, check, add and timeout events with lost, late and repeated replies: distinct ids, exactly one root, the cursor on the list, also in every list handed to a callback |
| `TopologyWalk.FindsNext` | integrations/topology.c:207-245 | on a daisy chain the next neighbor asked for is the unknown one on the side being explored |
| `TopologyWalk.Completes` | integrations/topology.c:207-340 | from every position the walk can be in, it ends with the whole chain |
| `TopologyWalk.WalkFindsTheLine` | integrations/topology.c:256-340 | for every daisy chain of at most 255 nodes, every root position and every order in the neighbor tables: the walk ends and calls back once with exactly the chain in physical order, up to its direction |
| `L2Policy.RxApply` | network/l2_policy.c:52-114 | the in-place mark and the routing decision for every frame |
| `L2Policy.PrepareForwardedCopy` | network/l2_policy.c:116-127 | both nibbles of the ports byte are cleared in place |
| `L2Policy.IngressReadsBack` | network/l2_policy.c:38-44 | the ingress port can be read back and nothing but the upper nibble of one byte changes |
| `L2Policy.ForwardedCopyForgetsPorts` | network/l2_policy.c:116-127 | a forwarded copy is the received frame with an empty ports byte, whatever ports it passed |
| `L2Policy.PortsOfMask` | network/l2.c:319-325 | the transmit loop visits exactly the ports of the mask, each once, in order |
| `L2Stamp.AddEgressPort` | network/l2.c:270-293 | stamps port and checksum in place for UDP and BCMP frames |
| `L2Stamp.AdjustUndone` | network/l2.c:246-293 | reverting a checksum undoes the adjustment for every frame and port, with wrap-around |
| `L2Stamp.RevertGivesOriginal` | network/l2.c:346-355 | after each port the buffer is the original frame with an empty ports byte |
| `L2Stamp.SendLinkLocal` | network/l2.c:346-355 | the multi-port loop over one buffer sends the stamped copies, each made from the original |
| `L2Stamp.EachPortGetsItsStamp` | network/l2.c:346-355 | a frame with an empty ports byte goes out once on each port of the mask with that port's stamp |
| `L2Node.L2.SendGlobalMulticast` | network/l2.c:306-326 | the same copies go out whether the device or the loop serves the ports |
| `L2Node.L2.ProcessTx` | network/l2.c:336-359 | which copies go out for a frame and a mask |
| `L2Node.L2.ProcessRx` | network/l2.c:370-413 | the forwarded copy queued and the marked frame submitted, in place |
| `L2Node.L2.HandleEvent` | network/l2.c:432-453 | one turn of the thread on its queue |
| `Wiring.WalksAreUnique` | network/l2_policy.c:94-100 | in acyclic wiring a walk that never turns back is determined by its ends |
| `Wiring.AcyclicIsTree` | network/l2_policy.c:94-100 | acyclic wiring is a tree around every node: each link leads to the origin from exactly one of its ends |
| `Flood.RxOutcome` | network/l2.c:370-413 | a node that gets the frame submits it marked and forwards it on all links but the one it came by |
| `Flood.ArriveKeeps` | network/l2.c:215-234 | an arrival keeps the flood invariant and makes progress |
| `Flood.RxKeeps` | network/l2.c:370-413 | so does handling a received frame |
| `Flood.TxKeeps` | network/l2.c:306-359 | so does sending the copies |
| `FloodTheorem.FloodReachesEachNodeOnce` | network/l2.c:306-413 | on every acyclic wiring and under every interleaving: at most four steps for each node, queues never longer than one, no frame submitted twice, no link crossed twice, what is submitted is the origin's frame but for its ports byte; at the end exactly the connected nodes have submitted it and each of their links was crossed |
| `Checksum.Ipv6PseudoChecksum` | network/bm_linux.c:158-193 | the loop computes the swapped complement of the folded sum of words, length and next header |
| `Checksum.FoldIsResidue` | network/bm_linux.c:188-191 | folding keeps the sum modulo 0xFFFF, and is zero only for zero (RFC 1071 section 2) |
| `BcmpMessageChecksum.Seal` | bcmp/packet.c:545-573 | the sender's checksum over the message with the field at zero |
| `BcmpMessageChecksum.Accept` | bcmp/packet.c:447-465 | the receiver's clearing, recomputation and comparison, and what it leaves in the frame |
| `BcmpMessageChecksum.StampedMessageVerifies` | network/l2.c:270-293 | a sealed message, stamped with a port and marked by the receiving node, is accepted if and only if the complemented checksum plus the port stays within 16 bits |
| `BcmpMessageChecksum.SomeMessageIsLost` | network/l2.c:286-291 | every message with a free payload word has a variant that is rejected on every port |
| `Wildcard.WildcardMatch` | common/util.c:128-156 | the loop with one backtrack point ends and computes the scan |
| `Wildcard.ScanDecides` | common/util.c:134-148 | from every reachable loop state the scan decides what is left to decide, for texts without `*` |
| `Wildcard.MatcherIsRight` | common/util.c:128-156 | for texts without `*`: true exactly when the pattern denotes the text, or has no `*` and denotes a prefix |
| `Wildcard.MatcherIsRightWithoutStars` | common/util.c:135-141 | the matcher is right for all patterns if and only if the text has no `*` |
| `Calendar.UtcFromDateTime` | common/util.c:186-213 | the loops compute the seconds of the date modulo 2^32 |
| `Calendar.DateTimeFromUtc` | common/util.c:233-268 | the loops compute the date of the time, and the year fits 16 bits |
| `Calendar.DateOfIsDate` | common/util.c:233-268 | the fields are a valid date whose microseconds are the input |
| `Calendar.DateRoundTrip` | common/util.c:186-268 | every valid date from 1970 on is recovered from its number |
| `Calendar.SecondsRoundTrip` | common/util.c:186-268 | for every time below 2^32 seconds the seconds of its date are the seconds of the time |
| `Calendar.DateOfIsMonotone` | common/util.c:233-268 | a time is earlier if and only if its date is |
| `Crc32Table.EntryIsSteps` | drivers/adin2111/adi_fcs.c:13-57 | each of the 256 entries is eight division steps of its index |
| `Crc32Table.LookUp` | drivers/adin2111/adi_fcs.c:77-78 | a look-up and a shift do the work of eight division steps |
| `Crc32Table.FcsCalculate` | drivers/adin2111/adi_fcs.c:71-80 | for every buffer the table form is the division one bit at a time (IEEE 802.3 section 3.2.9) |
| `Crc32.StepsLinear` | drivers/adin2111/adi_fcs.c:77-78 | one, two, four and eight steps distribute over exclusive or |
| `Crc32Ieee.Crc32IeeeUpdate` | third_party/crc/crc32.c:14-34 | the nibble form continues the same division |
| `Crc32Ieee.Crc32Ieee` | third_party/crc/crc32.c:9-12 | the partition checksum is the same function as the frame check sequence |
| `Crc32Burst.DamageIsCaught` | bcmp/configuration.c:144-149 | messages that differ only within four neighboring bytes have different checksums |
| `RecordQueue.Q.GetFreeSpace` | common/q.c:15-25 | the free bytes, also when head and tail meet |
| `RecordQueue.Q.Enqueue` | common/q.c:136-163 | succeeds exactly when the lengths and headers of all records fit, appends the record, and a refused call changes nothing |
| `RecordQueue.Q.Dequeue` | common/q.c:181-216 | returns the oldest record intact across the wrap-around, in each error case changes nothing |
| `RecordQueue.DecodeEncode` | common/q.c:145-158 | the bytes between tail and head determine the records |
| `PosixQueue.PosixQueue.Receive` | common/bm_posix.c:84-114 | takes the first item of the deque, or reports that there is none |
| `PosixQueue.PosixQueue.Send` | common/bm_posix.c:116-146 | appends to the deque when there is room, else changes nothing |
| `PosixQueue.PosixQueue.SendToFront` | common/bm_posix.c:148-167 | puts the item before the others when there is room |
| `StreamBuffer.StreamBuffer.Send` | common/bm_posix.c:212-261 | whatever the receiver does at each wait, what was written is a prefix of the data, all of it exactly on success; bytes received and bytes buffered are the bytes written |
| `StreamBuffer.StreamBuffer.Receive` | common/bm_posix.c:263-309 | whatever the sender does at each wait, the bytes come in the order written, at most as many as asked |
| `Ipv6Text.LongestRun` | network/bm_linux.c:116-130 | the leftmost of the longest runs of zero words |
| `Ipv6Text.FormatIpv6` | network/bm_linux.c:109-151 | only a best run of at least two words is left out (RFC 5952 sections 4.2.2 and 4.2.3), and a reader gets the address back |
| `Ipv6Text.ParseFormat` | network/bm_linux.c:134-150 | a reader recovers all eight words from the text, whichever run was left out |
| `Ipv6Text.TextDetermines` | network/bm_linux.c:109-151 | addresses with the same text are the same |
| `ConfigStore.Partition.SetConfigCbor` | bcmp/configuration.c:572-625 | the entries after a set in each outcome, over the packed arrays |
| `ConfigStore.Partition.GetConfigCbor` | bcmp/configuration.c:345-377 | succeeds exactly when the key is stored and the caller's buffer is large enough, and returns the slot |
| `ConfigStore.Partition.RemoveKey` | bcmp/configuration.c:680-709 | the shift loop removes one entry and keeps the others in order |
| `ConfigStore.Partition.ClearPartition` | bcmp/configuration.c:747-762 | no entries are left |
| `ConfigStore.Partition.SaveConfig` | bcmp/configuration.c:764-786 | the image carries its checksum and exactly the stored entries |
| `ConfigStore.Partition.Load` | bcmp/configuration.c:134-168 | an image whose checksum holds gives its entries back, any other gives an empty partition |
| `ConfigStore.FindIsView` | bcmp/configuration.c:22-38 | for keys that fit their buffer the search is the look-up in a finite map |
| `ConfigStore.SetIsUpdate` | bcmp/configuration.c:572-625 | a set changes the map at its key only, to a value that starts with the bytes set, and keeps keys distinct |
| `ConfigStore.RemoveIsRemoval` | bcmp/configuration.c:680-709 | a remove takes its key out of the map and nothing else |
| `ConfigStore.GetAfterSet` | bcmp/configuration.c:345-377 | what was set can be got, for every key that fits its buffer |
| `ConfigStore.LongKeyIsLost` | bcmp/configuration.c:583-608 | a key of 32 characters can be set again and again, and is never found |
| `ConfigStore.DamagedImageIsRejected` | bcmp/configuration.c:144-149 | an image damaged within four neighboring bytes is not loaded |
| `ServiceRequest.TimeRemainingIs` | common/util.c:40-50 | across clock wrap-around only the time gone by counts, for timeouts below 2^31 |
| `ServiceRequest.RequestList.Request` | middleware/bm_service_request.c:85-152 | the request goes to the end of the list, and stays there when sending it fails |
| `ServiceRequest.RequestList.Remove` | middleware/bm_service_request.c:154-181 | the walk unlinks exactly that node |
| `ServiceRequest.RequestList.ExpiryPass` | middleware/bm_service_request.c:207-226 | the pass that starts again after every removal ends, removes exactly the expired requests with one callback each, and keeps the others in order |
| `ServiceRequest.RequestList.Reply` | middleware/bm_service_request.c:284-322 | the first request of the id is called back and removed |
| `ServiceRequest.ExpiredCount` | middleware/bm_service_request.c:207-226 | every request of the list survives the pass or is called back by it |
| `ServiceRequest.RequestsResolveOnce` | middleware/bm_service_request.c:183-322 | as long as ids have not wrapped, each request that got onto the list is on it or has been called back, and only once; nothing else is called back |

## Left out

- `bm_dfu_process_message`: the filter on node addresses and the event queue are not modelled; frames come from the peer only, and a full queue is a lost frame.
- Update sessions that overlap: one session starts from two idle nodes and quiet channels. A frame left over from an earlier session could mix sessions, and only the CRC guards against that.
- A chunk size of 0: the source divides by it, so the descriptor's type excludes it.
- The external image path of the host, whose short reads change the payload length after the header is filled.
- The branch of the page copy that the chunk limit makes unreachable, and the version fields that are only logged.
- Flash erase blocks: an area reads back what was written and erasing sets it to 0xFF.
- `DfuProgress.ReceivingEndsWithoutRestart`: counts events of work, so it does not say when the timer fires.
- `TopologyWalk.WalkFindsTheLine`: every request is answered before the task takes its next event, all ports are up and all tables are truthful. Dead and silent neighbors are covered by `TopologyRuns.EveryRunKeepsTheList` only.
- Neighbor tables with port 0 or more neighbors than the 8-bit count can say: the source reads out of bounds, so tables are well formed.
- A list of more than 255 nodes: the 8-bit length would wrap, so runs are cut off there.
- `TopologyTask.Task.NeighborRequestCallback`: the queue holds the table, and the list node is made when it is handled.
- Freeing of list nodes, `network_topology_delete_back` and printing.
- The routing callback of the link layer may rewrite the source address through its pointer; here it only answers with a decision.
- `FloodTheorem.FloodReachesEachNodeOnce`: one frame floods at a time, links do not change meanwhile, and forwarding buffers are always to be had.
- UDP checksums: only the stamp and its undoing are modelled; the hosted receiver does not check them.
- Interrupt events, renegotiation timers, link change callbacks beyond the enabled mask.
- `Wildcard.WildcardMatch`: the pattern that misleads the matcher is one character longer than the text, so for a text of 65535 characters it does not fit the 16-bit length.
- Byte order other than little endian, where the stamp would act on the other half of the checksum.
- Null pointer arguments, which every call answers with an invalid-argument error, and allocation of the queues.
- `RecordQueue.Q.Enqueue`: the sum of record size and header does not wrap, as with 64-bit sizes.
- `PosixQueue.PosixQueue.Send` and `PosixQueue.PosixQueue.Receive`: nobody else uses the queue during a call, so a wait ends with its timeout.
- `StreamBuffer.StreamBuffer.Send`: when the list of wake-ups is used up the wait counts as timed out, also for a sender without a timeout.
- The CBOR library is a function from bytes to a type. Typed getters and setters, which write the slot before success is known, are not part of this model.
- The layout of a partition in memory is a function, so its fields' widths are not modelled.
- `ServiceRequest.RequestsResolveOnce`: all requests have a callback; those without one leave the list silently. Ticks are milliseconds.
- Ping, time, information, device and resource messages, pub/sub, MAVLink, lwIP and FreeRTOS ports: plumbing, or one-branch facts.
- The generic linked list, aligned allocation and callback queue, whose facts are simpler than those of the structures above.
