# RackBlox vSSD and switch: a verified model

RackBlox lets vSSDs on open-channel flash and a programmable switch coordinate garbage
collection (GC) and I/O scheduling. This project models the vSSD side and the switch ingress in
Dafny and proves what their state keeps over every run.

Code that changes things in place is modelled in place: the linked lists, the ring queue, the
mapping tables, the register arrays and the worker are classes whose methods are proved against
functions on values; the laws are lemmas about those functions.

| file | what it models |
|---|---|
| `Options.dfy` | the optional value all modules share |
| `RingQueue.dfy`, `BlkList.dfy` | LBA queue and sorted block lists, spliced through `next` |
| `Ppas.dfy`, `BlockStore.dfy` | packed page addresses and the page loops that step them |
| `BadBlocks.dfy`, `FreeScan.dfy` | bad-block scanner, its readers, bulk erase, set-up of the free lists |
| `Allocator.dfy`, `Device.dfy`, `Lookup.dfy`, `DeviceCalls.dfy`, `DeviceStore.dfy`, `Channel.dfy` | the block allocator: one channel, all channels, LBA lookup, what every call does and which devices can be reached, data over allocations and erases, and its in-place form |
| `Vssd.dfy`, `History.dfy`, `Ftl.dfy` | the vSSD's blocks and the log-structured flash translation layer |
| `CommList.dfy`, `Scheduler.dfy`, `LatencyWindow.dfy`, `Pipeline.dfy`, `Admission.dfy` | thread queues, I/O scheduling, the sliding window, request conservation, and the scheduling bounds in raw latencies |
| `Switch.dfy`, `GcProtocol.dfy`, `GcExclusion.dfy`, `GcCollision.dfy`, `GcWitness.dfy` | switch ingress and the GC protocol |

## Where the code falls short of its promise

Each of these is a lemma with a concrete run or an exact condition; the code is modelled as it is.

- A replica pair can collect at the same time. There are three ways, each with a run that ends with
  both sides collecting: `run_gc` sends again on every turn without waiting, and the first finish
  clears the bit of a vSSD that was granted twice (`GcWitness.ResentRequestBreaksExclusion`); two
  requests pass the check before either recirculated grant sets its bit
  (`GcWitness.OverlapBreaksExclusion`); a hard GC does not look at the bit
  (`GcWitness.HardGcBreaksExclusion`). Exactly when, over every run: both sides collect only if some
  grant began while the peer was entitled to collect (`GcCollision.CollisionNeedsContest`), and
  wherever one did, deliveries alone can bring both sides to collect
  (`GcCollision.ContestCanCollide`). The same is exact for outstanding grants, finish messages
  included (`GcExclusion.ExclusionIffNoContest`).
- A GC bit can be clear while its vSSD collects: the bits are exact if and only if no finish passes
  the switch while another grant of its vSSD is outstanding (`GcExclusion.BitsExactIffNoLostBit`).
- The sliding window mixes real and integer division, so it is the moving average only when every
  latency is a multiple of 100 (`LatencyWindows.AverageIffMultiples`). A steady 99 ns drives it
  below zero and makes the stored latency undefined (`LatencyWindows.SteadyLatencyDrifts`).
- `ret_blks_v` returns a block without its LBA (`Vssds.ReturnedBlockHasNoLba`), so allocation can
  end for want of an LBA while blocks are free (`Vssds.BlocksConserved`). This is behaviour of the
  library: the program itself returns blocks only when the worker ends
  (`vssd_code/rb_nexus.c:295`), after its last allocation.
- The comment at `vssd_code/vssd.c:166` says the bitmap starts all ones; the `memset` reaches 128 of
  1024 pages (`History.BitmapIsTrueIff`). The model follows the code.
- `rev_mapping` uses 0 for "nothing here" although 0 is also an address (`History.ZeroIsAmbiguous`).
- The address update after page 255 carries into the block field (`BlockStores.LastUpdateSpills`);
  no access uses that address.
- A negative page number passes the range check. The access stays in the block meant if and only if
  the number sets no bit that the block number lacks (`BlockStores.StartsInBlockIff`); from -256 to -1 that
  is the last block of the device only (`BlockStores.SmallPageStartsInBlockIff`).
- The bulk erase ignores the channel mask on perfect LUNs (`BadBlocks.BulkEraseIsExact`).

`get_lba_addr` does better than its table suggests: later channels start with zeroed slices and 0
is also the address of a block, yet the lookup inverts the table for every mapped LBA
(`Lookups.LookupInverts`), because an LBA whose entry still holds 0 was never taken and the queue
gives LBAs out in order.

## Model

| member | source | states |
|---|---|---|
| RingQueues.RingQueue.constructor | vssd_code/queue.c:6-18 | a new queue is empty |
| RingQueues.RingQueue.Dequeue | vssd_code/queue.c:20-38 | the ring buffer answers the oldest element of a FIFO sequence, -1 exactly when that is empty |
| RingQueues.RingQueue.Enqueue | vssd_code/queue.c:40-56 | the element is appended, or -1 exactly when the FIFO sequence has the queue's capacity |
| RingQueues.FillQueue | vssd_code/channel.c:111-118 | the queue of a channel starts with its LBAs in order |
| BlkLists.BlkList.AddDesc | vssd_code/blklist.c:131-161 | the node is spliced before the first block that is no more worn; all other nodes keep their order |
| BlkLists.BlkList.AddAsc | vssd_code/blklist.c:17-48 | the same for the ascending list |
| BlkLists.BlkList.Pop | vssd_code/blklist.c:164-177 | the head is detached, null on an empty list |
| BlkLists.BlkList.Find | vssd_code/blklist.c:65-94 | the first node with the address is detached, null exactly when there is none |
| BlkLists.InsertDescSorted | vssd_code/blklist.c:131-161 | insertion keeps the free list in descending order of wear |
| BlkLists.InsertAscSorted | vssd_code/blklist.c:17-48 | insertion keeps the allocated list in ascending order of wear |
| BlkLists.InsertDescMultiset | vssd_code/blklist.c:131-161 | insertion adds the block and keeps every other one |
| BlkLists.InsertAscMultiset | vssd_code/blklist.c:17-48 | insertion adds the block and keeps every other one |
| Ppas.BlockAddress | vssd_code/channel.c:261-264 | unpacking a built address gives its fields back; it has no page or EP bits and is not the unmapped mark |
| Ppas.BlockAddressInjective | vssd_code/channel.c:889-893 | distinct blocks have distinct addresses and distinct erase counters |
| BlockStores.StepVisitsPage | vssd_code/channel.c:567-572 | on a block address, loop step i names page pageId + i of that block |
| BlockStores.LastUpdateSpills | vssd_code/channel.c:567-572 | wherever the loop starts, the update after page 255 sets the low block bit: it leaves the block if and only if the block number is even |
| BlockStores.StartsInBlockIff | vssd_code/channel.c:664-671 | for every int page number the access starts in the block meant if and only if the page register adds no block bit |
| BlockStores.SmallPageStartsInBlockIff | vssd_code/channel.c:664-671 | from -256 to 255: if and only if it is not negative or the block is the last one |
| BlockStores.OutOfRangeNamesLastBlock | vssd_code/channel.c:148-159 | an access through an LBA outside the table, whose address reads -1, is to the last block number at every step |
| BlockStores.PageAddrInjective | vssd_code/channel.c:561-572 | two page addresses coincide only for the same block and page |
| BlockStores.AddressLayout | vssd_code/channel.c:889-893 | the bit fields of a page address: channel, EP, plane, LUN, page and block at bits 0, 4, 6, 8, 10 and 18 |
| BlockStores.WritePagesCell | vssd_code/channel.c:657-682 | a write changes exactly the requested pages of its block, to the buffer's pages |
| BlockStores.ReadPagesAt | vssd_code/channel.c:550-576 | a read brings back the requested pages in order |
| BlockStores.Store.WriteData | vssd_code/channel.c:657-682 | the loop writes the requested pages; a missing buffer or a range past the last page changes nothing |
| BlockStores.Store.ReadData | vssd_code/channel.c:550-576 | the loop reads the requested pages and changes nothing |
| BlockStores.Store.WriteBlock | vssd_code/channel.c:621-640 | all 256 pages are written from page 0 |
| BlockStores.Store.WriteThenRead | vssd_code/channel.c:550-682 | what was written is read back, and no page that was not named changes |
| BlockStores.Store.WriteMany | vssd_code/channel.c:657-682 | any number of calls has the effect of the specified run of writes |
| BlockStores.WritesRefineMap | vssd_code/channel.c:657-682 | after any run of writes through LBAs that name distinct blocks, every page of every such LBA holds what its last write put there |
| BadBlocks.PerfectLunIsAllGood | vssd_code/parser_nexus.c:380-424 | is_perfect_lun holds if and only if skip_badblk accepts every channel |
| BadBlocks.BulkEraseIsExact | vssd_code/parser_nexus.c:444-501 | bulk erase equals the per-PPA loop if and only if the mask has all channels or the block has no perfect LUN |
| BadBlocks.Nand.EraseLunSlow | vssd_code/parser_nexus.c:477-497 | one command per good channel and plane erases just the wanted blocks of the LUN |
| BadBlocks.Nand.EraseRaidBlock | vssd_code/parser_nexus.c:444-501 | whichever of the three levels is taken, the erased blocks are the perfect LUNs whole and the good blocks of the others |
| BadBlocks.CoversLun | vssd_code/parser_nexus.c:473-476 | one command over all planes and channels erases exactly one LUN |
| BadBlocks.CoversBlock | vssd_code/parser_nexus.c:461-465 | one command over everything erases exactly the block |
| BadBlocks.ScanChannel | vssd_code/parser_nexus.c:4214-4327 | a channel is marked if and only if, on some plane, the first marker byte that is not 0xFF reads as another byte; the scan stops if and only if that marker cannot be read |
| BadBlocks.ScanWord | vssd_code/parser_nexus.c:4207-4327 | the word has exactly the scanned channels with such a plane |
| BadBlocks.ScanBlock | vssd_code/parser_nexus.c:4205-4327 | the words of one block are filled and no other |
| BadBlocks.Scan | vssd_code/parser_nexus.c:4203-4327 | a table results if and only if every marker looked at can be read; then word (last block - block) * LUNs + LUN has a channel if and only if it is scanned and some plane of the block is marked bad there |
| BadBlocks.ReaderMatchesScan | vssd_code/parser_nexus.c:399-424 | skip_badblk rejects a block of a scanned channel if and only if a plane is marked bad there |
| BadBlocks.PerfectLunMatchesScan | vssd_code/parser_nexus.c:380-397 | is_perfect_lun holds if and only if no scanned channel has a plane marked bad |
| BadBlocks.ProbeReadsMarkers | vssd_code/parser_nexus.c:4216-4327 | the probe of a plane answers for the first of the vendor's markers, (0, 0), (0, 3), (255, 0), (255, 3) or (0, 3) alone, that does not read 0xFF |
| BadBlocks.SkipPpaReadsMarkers | vssd_code/parser_nexus.c:363-442 | end to end from the bytes read: skip_ppa accepts a block of a scanned channel if and only if the mask has the channel and no plane is marked bad there |
| FreeScan.BlockScanFacts | vssd_code/channel.c:868-913 | the set-up scan finds exactly the good blocks, each once |
| FreeScan.SuperScanFacts | vssd_code/channel.c:915-941 | the second scan finds exactly the good superblocks, each once |
| FreeScan.BlocksFitLbas | vssd_code/channel.c:868-941 | good blocks and superblocks never exceed the channel's LBAs |
| FreeScan.InitialFreeList | vssd_code/channel.c:1010-1041 | the initial free list is exactly the addresses skip_ppa accepts, each once, unworn |
| FreeScan.BuildFreeList | vssd_code/channel.c:868-913 | the nested loops build that list |
| FreeScan.BuildSuperList | vssd_code/channel.c:915-941 | the nested loops build the superblock list |
| Allocator.AllocKeepsInv | vssd_code/channel.c:179-233 | allocation succeeds whenever a block is free and keeps queue, lists, table and counters consistent |
| Allocator.FreeKeepsInv | vssd_code/channel.c:236-283 | find_alloc_list never misses, the queue has room, and the invariant holds again with the block's new 8-bit wear |
| Allocator.AllocTakesMostWorn | vssd_code/blklist.c:131-177 | allocation hands out a block that was in no use, and none of the free blocks is more worn |
| Allocator.LbaAvailable | vssd_code/channel.c:220-227 | the "cannot get LBA" exit is unreachable while any block or superblock is free |
| Allocator.CountsAfterFree | vssd_code/channel.c:266-277 | freeing changes one counter, and every node still records its block's counter |
| Allocator.TableAfterAlloc | vssd_code/channel.c:220-231 | mapped LBAs and allocated blocks stay one to one when an LBA leaves the queue |
| Allocator.TableAfterFree | vssd_code/channel.c:269-272 | ... and when one comes back |
| Devices.SetupValid | vssd_code/channel.c:868-941 | what the scans find on any geometry is a valid set-up: disjoint, named by its channel, no more than the LBAs |
| Devices.OpenKeepsDInv | vssd_code/channel.c:27-56 | opening a channel sets it up consistently and disturbs no other |
| Devices.ChanFrame | vssd_code/channel.c:100-122 | a channel is unaffected by what happens outside its slice and counters |
| Devices.StepKeepsDInv | vssd_code/channel.c:179-519 | every legal call keeps all channels consistent; it ends badly only when the free list is empty |
| Devices.RunKeepsDInv | vssd_code/channel.c:27-519 | the same over every run of openings, allocations and releases on all channels |
| Devices.ReachableIsConsistent | vssd_code/channel.c:125-283 | in every reachable state each LBA is queued once or mapped, mapped LBAs and allocated blocks are one to one, each good block is on one list, and every node records its counter |
| Devices.RunNeverFails | vssd_code/channel.c:206-283 | no run of legal calls ever lacks an LBA, misses a node or leaves the table |
| Lookups.GetLbaAddr | vssd_code/channel.c:161-175 | the first LBA with the address, -1 if and only if there is none |
| Lookups.LookupInverts | vssd_code/channel.c:148-175 | in every reachable state get_lba_addr inverts get_ppa_addr on all mapped LBAs |
| Lookups.MappedBlocksApart | vssd_code/channel.c:550-682 | in every reachable state distinct mapped LBAs, of any channels, share no page address |
| Lookups.DeviceRefinesMap | vssd_code/channel.c:148-233 | in every reachable state, with its mapping table held fixed, the paged store over the mapping table refines a map from (LBA, page) to data, for any run of writes through live LBAs of any channels |
| DeviceCalls.OpenSetsUp | vssd_code/channel.c:27-122 | opening a channel queues all its LBAs in order, frees exactly the blocks skip_ppa accepts (the last 100 of each LUN as superblocks), zeroes its counters, sets up its slice of the table and leaves every other channel as it was; an open channel stays as it is |
| DeviceCalls.AllocTakes | vssd_code/channel.c:179-233 | an allocation ends the program if and only if no block is free; otherwise the oldest waiting LBA gets the first free block and nothing else changes |
| DeviceCalls.ReleaseGives | vssd_code/channel.c:236-283 | a legal release always goes through: the LBA waits last with its entry marked, the block is free with one more erase (modulo 256, for a superblock what its counter reads), and no other counter or channel changes |
| DeviceCalls.AllocMakesLive | vssd_code/channel.c:179-233 | with a free block, an allocation makes an LBA live that was waiting |
| DeviceCalls.AnyChannelsCanBeOpen | vssd_code/channel.c:27-56 | every set of channels is the set of open channels of some reachable device |
| DeviceCalls.EveryGoodBlockCanBeUsed | vssd_code/channel.c:179-233 | every block skip_ppa accepts is the block of a live LBA in some reachable device |
| DeviceCalls.ReachableGoesOn | vssd_code/channel.c:27-519 | what a legal call leads to from a reachable device is reachable |
| DeviceCalls.WearCountsErasures | vssd_code/channel.c:266-277 | over any run, the wear every node of an open channel records is the number of times the run has released its block, modulo 256 |
| DeviceStores.ErasesOnlyItself | vssd_code/channel.c:266-266 | the erase of a good block or superblock reaches no page of any other, on any channel |
| DeviceStores.SuperEraseReach | vssd_code/channel.c:498-501 | a superblock erase reaches the pages of its block in every plane and of no other block |
| DeviceStores.ActionKeepsFaith | vssd_code/channel.c:27-682 | every opening, allocation, release and write keeps live LBAs equal to the reference map and free blocks blank |
| DeviceStores.DataSurvives | vssd_code/channel.c:27-682 | over any run of openings, allocations, releases (which erase) and writes, on all channels and whatever the cells held before, a live LBA reads exactly what was written through it since it was allocated |
| DeviceStores.NewLbaReadsBlank | vssd_code/channel.c:179-233 | in every state of such a run, with a free block, an allocation goes through and its LBA reads blank at every page |
| DeviceStores.WriteSetsItsPages | vssd_code/channel.c:657-682 | ... a write through a live LBA sets the pages it names and leaves every other page of every live LBA |
| DeviceStores.CallsKeepData | vssd_code/channel.c:27-519 | ... no opening, allocation or release changes what an LBA reads that is live before and after |
| DeviceStores.PlayedGoesOn | vssd_code/channel.c:27-682 | such runs start from any content of the cells, and every allowed action that does not end the program goes on with one |
| Channels.AllocFrom | vssd_code/channel.c:206-231 | the in-place pop, dequeue, map and insert, with both exits |
| Channels.FreeTo | vssd_code/channel.c:269-281 | the in-place enqueue, unmap, find and insert |
| Channels.InitMappingTable | vssd_code/channel.c:103-109 | the first channel fills the whole table with the unmapped mark, a later one zeroes its slice only |
| Channels.Channel.constructor | vssd_code/channel.c:27-56 | a new channel is the one the specification opens |
| Channels.Channel.AllocBlock | vssd_code/channel.c:179-233 | refines the specification's allocation, answer and exits included |
| Channels.Channel.AllocSuperblock | vssd_code/channel.c:419-465 | the same for superblocks |
| Channels.Channel.FreeBlock | vssd_code/channel.c:236-283 | refines the specification's release; its two requirements are what Allocator.FreeKeepsInv proves |
| Channels.Channel.FreeSuperblock | vssd_code/channel.c:468-519 | the same for superblocks |
| Vssds.Vssd.constructor | vssd_code/vssd.c:12-97 | one channel: all LBAs queued, the good blocks free, the block counter off by a constant |
| Vssds.Vssd.AllocBlockV | vssd_code/vssd.c:137-174 | the first free block and the oldest LBA are mapped, 1024 pages count as valid, the bitmap is fresh; both exits |
| Vssds.Vssd.InvalidatePage | vssd_code/vssd.c:224-231 | one valid page less for the block of the slot (with 32-bit wrap-around) and exactly its bit flipped |
| Vssds.Vssd.RetBlksV | vssd_code/vssd.c:279-303 | up to lim blocks move back to the free list, counter included |
| Vssds.ReturnedConserves | vssd_code/vssd.c:286-302 | the move loses and duplicates no block, and moves lim of them or all |
| Vssds.ReturnedSorted | vssd_code/vssd.c:300-300 | the free list stays in order |
| Vssds.BlocksConserved | vssd_code/vssd.c:137-303 | over any run the blocks and the counter's offset are conserved; the process ends for want of an LBA exactly when a block is free but all LBAs have been taken |
| Vssds.HandsOutGoodBlocks | vssd_code/channel.c:1010-1041 | every block ever handed out was accepted by skip_ppa at set-up |
| Vssds.ReturnedBlockHasNoLba | vssd_code/vssd.c:279-303 | a returned block cannot be taken again once the LBAs are used up |
| History.MapStep | vssd_code/rb_nexus.c:278-278 | after a write, mapping is again base plus the index of the last write, 0 for an unwritten address |
| History.RevStep | vssd_code/rb_nexus.c:275-279 | after a write, rev_mapping again names exactly the live slots |
| History.ValidStep | vssd_code/vssd.c:227-227 | superseding a write takes one page from its own block only, and that block's counter is positive |
| History.BitsFlip | vssd_code/vssd.c:228-230 | superseding a write flips the bit of its slot and no other |
| History.DeadForever | vssd_code/rb_nexus.c:273-276 | a superseded slot is never revived |
| History.GivenUpOnce | vssd_code/rb_nexus.c:273-276 | over any history the slots given up are exactly the superseded ones, each once |
| Ftl.InvalidatedOnce | vssd_code/rb_nexus.c:273-276 | in every state of a run, invalidate_page has been called for exactly the superseded slots, once each |
| History.NoUnderflow | vssd_code/vssd.c:227-227 | the block of a live slot has fewer superseded pages than pages |
| History.ValidPagesMeaning | vssd_code/vssd.c:164-164 | valid_pages_v is the number of addresses mapped into the block plus its unwritten slots |
| History.MappingIsInjective | vssd_code/rb_nexus.c:231-287 | mapping and rev_mapping are inverse on the written addresses; no slot is the mark 0 |
| History.ZeroIsAmbiguous | vssd_code/rb_nexus.c:275-279 | a written slot reads 0 in rev_mapping if and only if it is superseded or holds address 0 |
| History.BitmapIsTrueIff | vssd_code/vssd.c:165-167 | the bits of a block all tell current pages from superseded ones if and only if malloc left ones wherever memset does not reach |
| Ftl.Worker.Prepare | vssd_code/rb_nexus.c:230-244 | the read-prep loop uses up LBAs 0 to prep - 1 and opens the first block, if and only if there are more free blocks than that |
| Ftl.Worker.Write | vssd_code/rb_nexus.c:272-287 | one page write keeps all four tables equal to functions of the write history; it exits exactly when a block fills and none is free |
| Ftl.Worker.Run | vssd_code/rb_nexus.c:248-293 | any run of writes goes through if and only if the free list covers the blocks it fills, and then the tables are what the whole history says |
| CommLists.CommList.constructor | vssd_code/rb_nexus.h:112-132 | two linked sentinels hold an empty queue |
| CommLists.CommList.InsertHead | vssd_code/rb_nexus.c:53-60 | the node becomes the first; next and prev stay mutually inverse |
| CommLists.CommList.InsertSorted | vssd_code/rb_nexus.c:63-75 | the node is spliced before the first key not below its own |
| CommLists.CommList.RemoveTail | vssd_code/rb_nexus.c:77-90 | the last node is detached; the error exit is unreachable under the callers' guard |
| Scheduler.KeyIsExact | vssd_code/rb_nexus.c:159-161 | the 64-bit key equals latency minus clock if and only if that fits |
| Scheduler.KeyIsResidue | vssd_code/rb_nexus.c:159-161 | in any case it is the signed 64-bit value congruent to the difference modulo 2^64 |
| Scheduler.NodeAges | vssd_code/rb_nexus.c:159-161 | the node of a packet carries the packet, and its key is latency less arrival time whenever that fits |
| Scheduler.TailIsMostUrgent | vssd_code/rb_nexus.c:159-161 | at every instant the tail has the largest latency plus time waited, and is the oldest of those |
| Scheduler.OvertakingIsBounded | vssd_code/rb_nexus.c:63-90 | on every run with latencies at most L, a request is served before an earlier one only if it arrived less than L after it |
| Scheduler.WaitingIsPaidFor | vssd_code/rb_nexus.c:254-258 | while a request waits, the number of services is bounded by its place and the arrivals of one L-window |
| Scheduler.WaitingIsBounded | vssd_code/rb_nexus.c:151-171 | with at most K arrivals per L-window, a request that meets n others is served within n + K + 1 removals |
| Scheduler.CountsAddUp | vssd_code/rb_nexus.c:151-171 | the services and the arrivals of a window, which the two bounds count, are counted one by one |
| Scheduler.ListRefinesPriorityQueue | vssd_code/rb_nexus.c:63-90 | on every run the sorted list serves what a stable priority queue serves |
| LatencyWindows.SlidingIdentity | vssd_code/rb_nexus.c:152-157 | 100 times the figure is the sum of the last 100 latencies less all remainders so far |
| LatencyWindows.AverageIffMultiples | vssd_code/rb_nexus.c:152-157 | it is the moving average if and only if all latencies are multiples of 100, and lags by at most 0.99 per request |
| LatencyWindows.SteadyLatencyDrifts | vssd_code/rb_nexus.c:152-157 | at a steady 99 ns it is negative after request 100 and the stored latency undefined from request 202 |
| LatencyWindows.CombinedAtMost | vssd_code/rb_nexus.c:152-157 | raw latencies at most M combine to at most 2 * M |
| LatencyWindows.CombinedIsTruncatedSum | vssd_code/rb_nexus.c:157-157 | the stored latency is the packet's latency plus the running figure, truncated, and undefined if and only if the sum is -1 or less |
| Admissions.RawOvertakingIsBounded | vssd_code/rb_nexus.c:151-168 | bounded overtaking for the threads as a whole, in the latencies the packets bring: less than 2 * M |
| Admissions.RawWaitingIsBounded | vssd_code/rb_nexus.c:151-168 | bounded waiting in the latencies the packets bring |
| LatencyWindows.NextSlotIsLeaving | vssd_code/rb_nexus.c:153-156 | the slot about to be overwritten holds the latency that leaves the window |
| LatencyWindows.LatencyWindow.Update | vssd_code/rb_nexus.c:152-156 | the circular array and the running figure stay functions of the history |
| LatencyWindows.LatencyWindow.Admit | vssd_code/rb_nexus.c:152-157 | ... and so does the latency stored in the message |
| Pipelines.RunKeepsPInv | vssd_code/rb_nexus.c:137-293 | every accepted request is in exactly one of dev queue, worker, reply queue and sent, with one reply of its type, in service order |
| Pipelines.WorkerSeesIo | vssd_code/rb_nexus.c:271-288 | the worker's else-branch only ever sees writes |
| Pipelines.TakenIsServed | vssd_code/rb_nexus.c:254-258 | the requests taken are those the scheduler serves for the same events |
| Pipelines.RepliesInPriorityOrder | vssd_code/rb_nexus.c:137-293 | end to end, the replies sent are a prefix of the answers of a stable priority queue |
| Pipelines.TakenWithBoundedOvertaking | vssd_code/rb_nexus.c:137-293 | bounded overtaking in the order the worker takes requests, on every interleaving of the threads |
| Pipelines.DrainedIsAnswered | vssd_code/rb_nexus.c:178-192 | when nothing waits, every accepted request has been answered once |
| Pipelines.EveryRequestIsAccepted | vssd_code/rb_nexus.c:150-171 | on every run the accepted requests are the reads and writes received, in order |
| Pipelines.EveryGcAnswerIsKept | vssd_code/rb_nexus.c:172-177 | the GC response queue holds exactly the deny, success and finish answers received |
| Pipelines.RepliesAnswerRequests | vssd_code/rb_nexus.c:262-292 | reply k is a read reply if the k-th request taken was a read, a write reply if it was a write, and otherwise as the request |
| Pipelines.StepDoesWork | vssd_code/rb_nexus.c:178-293 | a step of worker or sender does nothing or one piece of the waiting work |
| Pipelines.EveryRequestCanBeAnswered | vssd_code/rb_nexus.c:137-293 | the threads never get stuck: after any run, a stated number of worker and sender steps answers every read and write received |
| Pipelines.Threads.Receive | vssd_code/rb_nexus.c:148-178 | refines the receiving step on the linked queues |
| Pipelines.Threads.Fetch | vssd_code/rb_nexus.c:253-258 | refines the worker's removal |
| Pipelines.Threads.Complete | vssd_code/rb_nexus.c:262-292 | the request's own node becomes its reply at the head of the reply queue |
| Pipelines.Threads.Send | vssd_code/rb_nexus.c:181-195 | refines the sending step |
| Switches.SwitchIngress.Apply | p4_code/basic_switch/basic_rackblox.p4:347-410 | one pass through ingress: registers, header and port |
| Switches.RegistersTrackLastGc | p4_code/basic_switch/basic_rackblox.p4:386-407 | both register arrays always hold the effect of the vSSD's last GC or finish packet |
| Switches.ReadAvoidsCollector | p4_code/basic_switch/basic_rackblox.p4:356-367 | a read goes to its target or the replica, and meets a set bit only when both are set |
| Switches.AnsweredOnce | p4_code/basic_switch/basic_rackblox.p4:356-407 | each GC, request and finish packet gets one answer for the same vSSD, on the port installed for it, after at most one recirculation; when it is denied |
| Switches.DataPassesThrough | p4_code/basic_switch/basic_rackblox.p4:348-384 | writes leave on the port of their vSSD and replies on its reply port, or the client's; headers and registers stay as they are |
| Switches.UnknownVssdChangesNothing | p4_code/basic_switch/basic_rackblox.p4:347-408 | a packet for a vSSD outside the rack changes no register, and its answer goes back where it came from |
| GcProtocol.SwitchEffect | p4_code/basic_switch/basic_rackblox.p4:368-407 | what a pass does to the bits and to the message it handles |
| GcProtocol.StepKeepsInv | vssd_code/rb_nexus.c:310-363 | every step keeps the protocol invariant |
| GcProtocol.NoLeakedBit | vssd_code/rb_nexus.c:334-363 | in every reachable state a set bit is owed to an outstanding grant |
| GcProtocol.NothingGoesAstray | p4_code/basic_switch/basic_rackblox.p4:368-407 | in every reachable state, no answer has left on a port that is not its vSSD's |
| GcProtocol.EnteredIsAnsweredOrRecirculating | p4_code/basic_switch/basic_rackblox.p4:356-407 | packets entered = answered + recirculating |
| GcProtocol.RunsDown | vssd_code/rb_nexus.c:334-363 | once triggers stop, only finitely many steps remain |
| GcProtocol.StuckIsQuiescent | vssd_code/rb_nexus.c:334-363 | the protocol stops only with every message consumed and every bit clear |
| GcExclusion.ExclusionIffNoContest | p4_code/basic_switch/basic_rackblox.p4:356-407 | for every run, re-sent and hard requests included: a pair is never granted twice at once if and only if no request passes the check while the peer's grant recirculates or is outstanding with its bit cleared, and no hard GC arrives while the peer is granted |
| GcExclusion.ClearedByAFinish | p4_code/basic_switch/basic_rackblox.p4:397-407 | a granted vSSD whose bit is clear lost it to an earlier finish of its own |
| GcExclusion.PairsFreeIffNoHeldContest | p4_code/basic_switch/basic_rackblox.p4:356-396 | for every run: a pair never has both sides set or pending if and only if no request is looked at while the peer's grant recirculates with its bit clear, and no hard GC while the peer is set or pending |
| GcExclusion.SoftPairsFreeIff | p4_code/basic_switch/basic_rackblox.p4:368-373 | the same for soft requests, where only the recirculating grant is left |
| GcExclusion.SoftRequestsExclude | p4_code/basic_switch/basic_rackblox.p4:356-396 | soft requests without overlap never leave both sides of a pair set or pending |
| GcExclusion.BitsExactIffNoLostBit | p4_code/basic_switch/basic_rackblox.p4:386-407 | for every run: the bits tell the outstanding grants if and only if no finish passes the switch while another grant of its vSSD is outstanding |
| GcExclusion.BitIsExact | vssd_code/rb_nexus.c:334-363 | corollary with one request at a time, soft or hard: the bit is set exactly while a grant is outstanding |
| GcExclusion.CollectorIsEngaged | vssd_code/rb_nexus.c:344-347 | a collecting vSSD is one that has been granted, so exclusion of grants is exclusion of collections |
| GcExclusion.ExclusionIffNoOverlap | p4_code/basic_switch/basic_rackblox.p4:368-396 | corollary for soft requests sent one at a time, which run_gc does not do: the condition is that no request is looked at while its peer's grant recirculates |
| GcExclusion.ReadMeetsNoCollector | p4_code/basic_switch/basic_rackblox.p4:356-367 | end to end: on every run that loses no bit and contests no grant, no read is sent to a vSSD that is collecting |
| GcCollision.OneTitleIffNoContest | p4_code/basic_switch/basic_rackblox.p4:356-407 | for every run: a pair is never entitled to collect on both sides if and only if no grant begins while the peer is entitled |
| GcCollision.TitlesCollide | vssd_code/rb_nexus.c:334-349 | from any reachable state with both sides entitled, deliveries alone can make both collect at once |
| GcCollision.CollisionNeedsContest | vssd_code/rb_nexus.c:334-349 | both sides collect only after a contested grant |
| GcCollision.ContestCanCollide | p4_code/basic_switch/basic_rackblox.p4:356-396 | every run with a contested grant has a prefix that goes on, by deliveries alone, to both sides collecting |
| GcWitness.ResentRequestBreaksExclusion | vssd_code/rb_nexus.c:310-333 | a run without overlap in which re-sent requests make both sides of a pair collect |
| GcWitness.OverlapBreaksExclusion | p4_code/basic_switch/basic_rackblox.p4:368-373 | a run with one request at a time in which an overlap makes both sides collect with both bits set |
| GcWitness.HardGcBreaksExclusion | p4_code/basic_switch/basic_rackblox.p4:386-396 | a run with one request at a time and no overlap in which a hard GC makes both sides collect |
| GcWitness.TwoVssdsArePaired | p4_code/basic_switch/basic_rackblox.p4:115-222 | a rack of two vSSDs meets the hypotheses on the tables |

## Left out

- Constants of `nexus.h` and `channel.h`, which are not part of this model: field widths are those
  the shifts in `channel.c` imply; blocks, LUNs and planes are parameters (at most 16384, 4, 4).
- Superblock plane loops (`vssd_code/channel.c:499`, `928`) use `=` for `<` and never end; a
  superblock erase is one step, and what `superblk_ers_cnt` reads is a parameter (its index exceeds
  the array).
- `do_gc` (`vssd_code/vssd.c:233-277`): collection is one abstract step of the protocol; it indexes
  LBA tables by PPA, tests `1L << 64` and never advances its counter.
- Channels.Channel.FreeSuperblock: what the superblock erase counter reads is a parameter, and its erase
  is one step, for the reasons above.
- `get_gc_thresh` and `idle_time`: when and how hard a vSSD triggers GC is a free choice.
- Ftl.Worker.Write: no `do_gc` between the writes, and slots are unbounded integers, bounded by the
  vSSD's LBAs times 1024. Addresses lie inside the mapping table; the source indexes its 2^30 entries
  with any 32-bit address of a packet, unchecked (`vssd_code/rb_nexus.c:274-278`).
- Ftl.Worker.Run: the same two limits.
- Vssds.Vssd.RetBlksV: the lists and the counter only; the bitmap is released through
  `ppa & max_addr`, which is not an index of the block.
- Vssds.Vssd.constructor: one channel, as the worker uses; the uninitialised block counter starts from a
  parameter.
- Pipelines.Threads.Receive: the latency in the request is the combined one; `LatencyWindow.Admit`
  computes it.
- LatencyWindows.LatencyWindow.Update: `double` is `real`; rounding is not modelled.
- BadBlocks.Scan: 16-bit channel words are sets of bit numbers, and the result file is the
  returned value; the SK hynix branch, which looks at the wrong byte, is left out.
- CommLists.CommList.constructor: the source also leaves `head->prev` and `tail->next` unset; the model
  never reads them.
- GC messages travel in any order: `gc_q` is first-in first-out and `gcresp_q` unordered (its nodes
  never get a priority), and every order of both is covered. The network loses nothing.
- Switches.SwitchIngress.Apply: register indices are wide enough for vSSD ids although the P4
  declaration says one bit; wire layout, parsers, latency tables and routing are left out.
- `free_channel` and opening a channel again after it: list heads are left dangling.
- The worker's read path, `read_page_v`, `write_block_v` and `write_page`: reads go to the prepared
  blocks, and page numbers above 255 leave the page field.
- DeviceStores.DataSurvives: writes name a live LBA and no negative page; a negative page can land in
  another block (`BlockStores.StartsInBlockIff`), and an unmapped LBA has no block of its own.
- Thread expiry, sockets, device files, the command-line parsers, `usage.c`, `cmd.c`, the DPDK client
  and server, and the scripts: plumbing.
