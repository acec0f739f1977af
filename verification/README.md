# Verification of the block layer and of the libcutils containers

A Dafny model of the parts of a Linux 5.4 block layer and of Android's libcutils that are hardest to get right, with proofs of what they are for. `dafny verify dfyconfig.toml` checks it.

Each part is a module or a few:

- **Flush sequencing** (`FlushSequencing`, `ListWalks`, `FlushProofs`, `FlushRuns`, `FlushPromises`, `FlushTimes`, `FlushCondition`, `FlushQueues`). The PREFLUSH, DATA and POSTFLUSH steps of all requests over one double-buffered flush queue. The state is a value with a history of events; the kernel functions are step functions on it, and the class `FlushQueue` performs them in place. The flush lock makes each event atomic; the kicks inside the completion loop are not hidden, they happen in the middle of the walk over a list that changes. Clock readings are arbitrary; `FlushTimes` says what the deferral of flushes does with them, and `FlushPromises` what a submitter gets, in terms of the flags of its request. The environment may insert any fresh request and complete anything the device was given; the only requests excluded are those that need both flushes and carry no data. The header of the file excludes a few more; `FlushCondition` proves that this condition is the exact one, with a run that breaks the ordering otherwise.
- **Segments, splitting, scatterlists** (`Segments`, `SegmentCounting`, `SgMapping`, `BioSplitting`, `SplitMaximal`, `Discards`). Memory is byte addresses; the reference is a greedy cutting of address ranges. The counter, the mapper and the splitter are separate loops, all related to it; a bio is not split earlier than it has to be. Devices with a virt boundary, which cannot take gaps between scatterlist entries, are covered: from splitting through merging and partial completion to the mapping. Boundary masks of the form 2^k - 1 are remainders.
- **Requests** (`Requests`). Merging, partial completion, the end of a request and its mapping keep one invariant of a class `Request`. The segment count can go wrong after a partial completion on a queue with a virt boundary and limited segments; the exact condition is proved, with a family of examples.
- **Bad blocks** (`BadBlocks`, `BadBlocksSet`, `BadBlocksAck`, `BadBlockTable`). A class over an array updated in place, against sets of sectors. `badblocks_set` does not always do what its comment says; the exact condition is proved for every length, with two counterexamples. Nor does it always acknowledge the right sectors: what an acknowledged range pushes out of an unacknowledged one becomes acknowledged, and an unacknowledged range does not reset a range of maximal length, nor ranges behind the one it is combined with; these conditions are proved exact too.
- **Queue usage, freezing, runtime PM** (`QueueUsage`), **throttle tokens** (`Throttling`). Protocols of any number of threads as state machines, one atomic access per step; the classes `RequestQueue` and `RqWait` perform the calls as runs of the machines, with their exact effect when nobody interferes.
- **Chained bios** (`BioChains`, `BioChainRuns`, `BioChainFates`). Any number of bio_endio calls climb a forest of chained bios at once, one access per step. The counting is right in every interleaving; the status is not always, since the parent's status is read and written without protection. `BioChainFates` proves which forests and outcomes are safe in every interleaving, and constructs the losing run for all the others.
- **generic_make_request** (`MakeRequest`), **dispatch** (`Dispatch`), where the environment's answers are a parameter and the outcome is a function of them.
- **libcutils**: the hash table (`HashTable`), parameter strings on top of it (`StrParms`), the record stream (`RecordStream`).
- `Arith` and `Lists` hold the facts about remainders and about lists without repetitions that several parts need.

Where a loop or an object of the source changes things in place, a method or a class does so here, and its postcondition ties the result to the mathematical description the lemmas are about.

Three comments in the source do not agree with the code; the model follows the code. The comment on `record_stream_get_next` speaks of a 16-bit length, the code reads 32 bits. The comment on `badblocks_clear` promises 1 on failure, the code returns -ENOSPC. The comment on `blk_flush_complete_seq` describes a return value, the function has none.

## Model

| member | source | states |
|---|---|---|
| `FlushRuns.EveryRun` | src/kernel/mediatek/mt8169/5.4/block/blk-flush.c:156-325 | for every run: a PREFLUSH or POSTFLUSH step is finished without error only by a successful device flush issued after the request joined the pending list; at most one flush is in flight; every request performs exactly the steps of its policy, in order, and is ended once; every unfinished request is on exactly one of the three lists, the one of its lowest unset step; nobody is stranded; no `BUG_ON` of a later event can fire, at any visit of the completion loop |
| `FlushRuns.BugsUnreachable` | src/kernel/mediatek/mt8169/5.4/block/blk-flush.c:167-253 | in every state satisfying the invariant, no insertion or completion the environment can deliver meets a failing `BUG_ON`: step already done, indices equal, running list empty, and, at every single visit of the loop in flush_end_io, after all that earlier visits and their kicks changed, a request that is not at a flush step |
| `FlushRuns.StepKeepsInv` | src/kernel/mediatek/mt8169/5.4/block/blk-flush.c:156-420 | insertion, data completion and flush completion all keep the invariant |
| `FlushRuns.RunKeepsInv` | src/kernel/mediatek/mt8169/5.4/block/blk-flush.c:156-420 | the invariant holds after every run |
| `FlushRuns.IdleMeansEmpty` | src/kernel/mediatek/mt8169/5.4/block/blk-flush.c:255-325 | once the device holds nothing of the queue, both flush lists and the in-flight list are empty and no request is left |
| `FlushRuns.CompletionsAreBounded` | src/kernel/mediatek/mt8169/5.4/block/blk-flush.c:156-253 | without insertions every completion uses up work, so only a bounded number of completions is possible |
| `FlushRuns.Drains` | src/kernel/mediatek/mt8169/5.4/block/blk-flush.c:204-325 | any run of completions is bounded, and when the device has delivered them all every list is empty |
| `FlushPromises.EveryPromise` | src/kernel/mediatek/mt8169/5.4/block/blk-flush.c:12-26 | for every request with PREFLUSH, or with FUA where the device does not do that itself, on a queue with a write cache, in every run: with PREFLUSH its data is not handed out before a flush issued after it had asked has completed; when it is ended without error its data has been transferred and, for FUA, a flush issued after that has completed |
| `FlushPromises.EveryoneEnds` | src/kernel/mediatek/mt8169/5.4/block/blk-flush.c:156-253 | each of them has been ended, with an error if and only if one of its steps failed, once the device has completed all it was given |
| `FlushPromises.Disposed` | src/kernel/mediatek/mt8169/5.4/block/blk-flush.c:97-114 | a request is ended at once if and only if it needs no flush and has no data, passed on if and only if it needs no flush and has data, and sequenced otherwise; said in terms of its flags and those of the queue |
| `FlushTimes.FlushTiming` | src/kernel/mediatek/mt8169/5.4/block/blk-flush.c:36-50 | in every run, with a scheduler: a flush is issued while DATA is in flight only if the request that had waited longest had waited for the timeout; and whenever requests wait and no flush is under way, there is a scheduler, DATA is in flight, and at the last kick nobody had waited that long |
| `FlushCondition.SafeIff` | src/kernel/mediatek/mt8169/5.4/block/blk-flush.c:12-17 | for each policy: in all runs whose requests have that policy, flush steps are finished only by flushes issued after they were asked for, if and only if the policy is not to flush before and after no data |
| `FlushCondition.BareIsUnsafe` | src/kernel/mediatek/mt8169/5.4/block/blk-flush.c:12-17 | a run of five events in which requests that need both flushes and have no data have a POSTFLUSH finished by a flush issued before it was asked for |
| `ListWalks.WalkVisitsSnapshot` | src/kernel/mediatek/mt8169/5.4/block/blk-flush.c:240-252 | a loop with a cursor that reads the successor before the visit, over a list from which each visit takes the visited entry and to which it brings nobody, visits exactly the entries that were on the list at the start, each once and in order; every visit finds the entry as it checks it, and the bound on the visits is not reached |
| `FlushProofs.FlushEndVisitsSnapshot` | src/kernel/mediatek/mt8169/5.4/block/blk-flush.c:207-253 | the flush completion equals completing, in order, the snapshot of the running list taken when the flush completed, although the loop is re-entered by kicks; each visited request is at a flush step |
| `FlushProofs.FlushEndKeepsInv` | src/kernel/mediatek/mt8169/5.4/block/blk-flush.c:207-253 | the flush completion keeps the invariant |
| `FlushProofs.InsertKeepsInv` | src/kernel/mediatek/mt8169/5.4/block/blk-flush.c:360-420 | inserting a fresh request of any policy but flushing before and after no data keeps the invariant, including the kick that may issue a flush at once |
| `FlushProofs.DataEndKeepsInv` | src/kernel/mediatek/mt8169/5.4/block/blk-flush.c:327-349 | the completion of a data step keeps the invariant |
| `FlushProofs.KickBase` | src/kernel/mediatek/mt8169/5.4/block/blk-flush.c:268-325 | a kick, whether or not it issues a flush, keeps what holds inside the completion loop, and leaves nobody stranded |
| `FlushProofs.AfterIsNext` | src/kernel/mediatek/mt8169/5.4/block/blk-flush.c:116-119 | finishing the current step moves a request to the next step of its policy, or to the end on an error |
| `FlushQueues.FlushQueue.constructor` | src/kernel/mediatek/mt8169/5.4/block/blk-flush.c:475-510 | a new flush queue is the initial state |
| `FlushQueues.FlushQueue.KickFlush` | src/kernel/mediatek/mt8169/5.4/block/blk-flush.c:268-325 | the in-place kick does what the step function says, including when it issues and when it waits |
| `FlushQueues.FlushQueue.CompleteSeq` | src/kernel/mediatek/mt8169/5.4/block/blk-flush.c:156-205 | the in-place sequence step (list moves, seq mask, kick) does what the step function says |
| `FlushQueues.FlushQueue.WalkList` | src/kernel/mediatek/mt8169/5.4/block/blk-flush.c:240-252 | the cursor loop over the list completes exactly the snapshot |
| `FlushQueues.FlushQueue.FlushEnd` | src/kernel/mediatek/mt8169/5.4/block/blk-flush.c:207-253 | flush_end_io does what the run-level step says |
| `FlushQueues.FlushQueue.DataEnd` | src/kernel/mediatek/mt8169/5.4/block/blk-flush.c:327-349 | mq_flush_data_end_io does what the run-level step says |
| `FlushQueues.FlushQueue.Insert` | src/kernel/mediatek/mt8169/5.4/block/blk-flush.c:360-420 | blk_insert_flush ends, bypasses or sequences a request exactly as its flags, its data and the write cache call for; without a flush to do the queue stays as it is, else it becomes what the run-level step says |
| `Segments.MaxSegmentSize` | src/kernel/mediatek/mt8169/5.4/block/blk-merge.c:160-174 | the size is positive, within the maximum segment size and the boundary window of its start, and reaches one of the two |
| `Segments.GetMaxSegmentSize` | src/kernel/mediatek/mt8169/5.4/block/blk-merge.c:160-174 | the 64-bit computation, which wraps to zero for a full mask, gives that size |
| `Segments.OnePageIsOneSegment` | src/kernel/mediatek/mt8169/5.4/block/blk-merge.c:254-262 | a vector within one page is one segment, so the fast paths of counter and mapper are right |
| `Segments.CutIsSectors` | src/kernel/mediatek/mt8169/5.4/block/blk-merge.c:160-174 | segments of sector-aligned data are whole sectors, unless segments are not limited in size |
| `SegmentCounting.BvecSplitSegs` | src/kernel/mediatek/mt8169/5.4/block/blk-merge.c:196-223 | the loop computes the reference counting of segments and sectors within the limits |
| `SegmentCounting.SplitLoopTakes` | src/kernel/mediatek/mt8169/5.4/block/blk-merge.c:196-223 | the bytes taken and those left are the vector, the segment limit is kept, and below it some bytes are taken |
| `SegmentCounting.SplitLoopCounts` | src/kernel/mediatek/mt8169/5.4/block/blk-merge.c:196-223 | the segments counted are exactly those of the greedy cutting of the bytes taken, with or without a virt boundary |
| `SegmentCounting.TakesAllIff` | src/kernel/mediatek/mt8169/5.4/block/blk-merge.c:196-223 | below the segment limit the whole vector is taken if and only if every cut but the last ends at the virt boundary |
| `SegmentCounting.SplitLoopSmooth` | src/kernel/mediatek/mt8169/5.4/block/blk-merge.c:196-223 | in what is taken of a vector no segment but the last ends off the virt boundary |
| `SegmentCounting.EvenSmooth` | src/kernel/mediatek/mt8169/5.4/block/blk-settings.c:749-761 | with the limits blk_queue_virt_boundary sets up, and a boundary that divides a page, that is so for every vector |
| `SegmentCounting.SplitLoopSectors` | src/kernel/mediatek/mt8169/5.4/block/blk-merge.c:196-223 | the bytes taken are whole sectors |
| `SegmentCounting.RecalcRqSegments` | src/kernel/mediatek/mt8169/5.4/block/blk-merge.c:360-383 | the count of a request is at most the sum of the greedy segment counts of its vectors, and equal to it if and only if no vector is broken off at the virt boundary; always equal without a virt boundary and with one set up by blk_queue_virt_boundary |
| `SgMapping.GrowFits` | src/kernel/mediatek/mt8169/5.4/block/blk-merge.c:447-465 | an entry that is grown by a mergeable vector still fits the maximum size and does not cross the boundary |
| `SgMapping.BvecMapSg` | src/kernel/mediatek/mt8169/5.4/block/blk-merge.c:402-435 | exactly one entry per segment, each within the limits, covering the vector in order |
| `SgMapping.EntriesGapless` | src/kernel/mediatek/mt8169/5.4/block/blk-merge.c:402-435 | the entries of a vector leave no gap between them, nor to those before if the vector does not |
| `SgMapping.MapOne` | src/kernel/mediatek/mt8169/5.4/block/blk-merge.c:437-501 | a vector adds no entry if and only if it is the first of a bio, meets the last vector within one window and fits the last entry; otherwise it adds exactly one entry per segment; the entries cover its bytes |
| `SgMapping.MapBio` | src/kernel/mediatek/mt8169/5.4/block/blk-merge.c:467-501 | the same for all vectors of a bio |
| `SgMapping.BiosMapSg` | src/kernel/mediatek/mt8169/5.4/block/blk-merge.c:467-501 | for every list of bios the entries cover exactly their bytes in order, every entry is within the size limit and one boundary window, there are at most as many as the vectors have segments, and if bios and limits leave no gaps then only the first entry starts and only the last entry ends off the virt boundary |
| `BioSplitting.ChunkRoom` | src/kernel/mediatek/mt8169/5.4/include/linux/blkdev.h:1016-1024 | the room is positive and reaches max_sectors or the next chunk boundary, whichever comes first |
| `BioSplitting.MaxIoSize` | src/kernel/mediatek/mt8169/5.4/block/blk-merge.c:143-158 | the aligned size never exceeds the room |
| `BioSplitting.MaxIoSizeIs` | src/kernel/mediatek/mt8169/5.4/block/blk-merge.c:143-158 | if the room reaches a physical block boundary, the size is positive and ends at the last one reached; otherwise it is all the logical blocks that fit |
| `BioSplitting.RoomEverywhere` | src/kernel/mediatek/mt8169/5.4/block/blk-merge.c:143-158 | a bio gets a positive size wherever it starts if and only if a logical block is one sector, or a logical block fits max_sectors and chunks are whole physical blocks |
| `BioSplitting.SegmentSplit` | src/kernel/mediatek/mt8169/5.4/block/blk-merge.c:244-282 | the loop computes the reference decision where to split |
| `BioSplitting.ScanTakes` | src/kernel/mediatek/mt8169/5.4/block/blk-merge.c:244-282 | the sectors taken are within the limit and the bio, and all are taken if there is no split |
| `BioSplitting.ScanCounts` | src/kernel/mediatek/mt8169/5.4/block/blk-merge.c:244-282 | the count of a front part is its number of segments, with or without a virt boundary |
| `BioSplitting.ScanSmooth` | src/kernel/mediatek/mt8169/5.4/block/blk-merge.c:244-282 | the front part has no gaps, and no segment within one of its vectors ends off the virt boundary |
| `BioSplitting.CutBytes` | src/kernel/mediatek/mt8169/5.4/block/bio.c:1897-1920 | front and rest after a split are together exactly the bytes of the bio, in order |
| `BioSplitting.SplitIsAccepted` | src/kernel/mediatek/mt8169/5.4/block/bio.c:1897-1920 | bio_split is called with a sector count its `BUG_ON` checks accept if and only if the bio is empty or get_max_io_size leaves it some room |
| `BioSplitting.PiecesTile` | src/kernel/mediatek/mt8169/5.4/block/blk-merge.c:297-339 | repeated splitting terminates; the pieces tile the bio on the device and in memory, in order, each within max sectors and max segments, without gaps, and such that blk_recalc_rq_segments counts it right, virt boundary or not |
| `SplitMaximal.SplitIsLongest` | src/kernel/mediatek/mt8169/5.4/block/blk-merge.c:244-282 | a bio is split if and only if it exceeds a limit, has a gap or is broken at the virt boundary, and then after the longest front part that does not |
| `SplitMaximal.ScanIsGreedy` | src/kernel/mediatek/mt8169/5.4/block/blk-merge.c:244-282 | no longer part than the one taken could be added within the sector and segment limits and without gaps |
| `Discards.MaxDiscard` | src/kernel/mediatek/mt8169/5.4/block/blk-merge.c:73-83 | the discard limit is a multiple of the granularity and within max_discard_sectors |
| `Discards.DiscardSplit` | src/kernel/mediatek/mt8169/5.4/block/blk-merge.c:61-103 | a discard is split exactly when it is longer than a positive limit; its first part ends at the discard alignment, less than a granule short of the limit |
| `Discards.DiscardPiecesTile` | src/kernel/mediatek/mt8169/5.4/block/blk-merge.c:61-103 | repeated splitting of a discard terminates, the pieces tile the range, each is within the limit and each but the first starts at the alignment modulo the granularity; if rounding leaves no limit the discard goes out whole |
| `Discards.DiscardLaw` | src/kernel/mediatek/mt8169/5.4/block/blk-merge.c:61-103 | if a granule fits the limits, the pieces of a discard tile the range, the device and a bio can take each of them, and each but the first starts where its byte address is the alignment away from a multiple of the granularity |
| `Discards.LimitKeptIff` | src/kernel/mediatek/mt8169/5.4/block/blk-merge.c:76-83 | the limits are kept for all discards if and only if a granule fits them; otherwise a long discard goes out whole |
| `Discards.ShortIsWhole` | src/kernel/mediatek/mt8169/5.4/block/blk-merge.c:85-86 | a discard is not split if some multiple of the granularity, within the limits of device and bio, is at least as long |
| `Discards.FirstIsLongest` | src/kernel/mediatek/mt8169/5.4/block/blk-merge.c:88-102 | the first piece is the longest within the limits after which the next starts on a boundary |
| `Discards.MaxDiscardIsLargest` | src/kernel/mediatek/mt8169/5.4/block/blk.h:272-275 | the limit is the largest multiple of the granularity, in bytes, within max_discard_sectors and within what a bio of whole logical blocks can hold |
| `Discards.UnknownGranularity` | src/kernel/mediatek/mt8169/5.4/block/blk-merge.c:73-74 | a granularity of zero, or below two sectors, is treated as one sector |
| `Requests.RestIsSuffix` | src/kernel/mediatek/mt8169/5.4/block/blk-core.c:1458-1478 | what is left after n bytes is a contiguous suffix of the request, on the device and in memory |
| `Requests.LaterNeedsFewer` | src/kernel/mediatek/mt8169/5.4/block/blk-merge.c:196-223 | of two byte ranges with the same end the one that starts later never needs more segments |
| `Requests.DropNeedsFewer` | src/kernel/mediatek/mt8169/5.4/block/blk-core.c:1504-1515 | completing part of a request never raises its segment count |
| `Requests.RoomAfter` | src/kernel/mediatek/mt8169/5.4/include/linux/blkdev.h:1016-1024 | nor does it make the rest exceed the room at its new start |
| `Requests.Joined` | src/kernel/mediatek/mt8169/5.4/block/blk-core.c:604-648 | two coherent runs of bios that meet are one coherent run |
| `Requests.WillGapIff` | src/kernel/mediatek/mt8169/5.4/block/blk-merge.c:15-48 | a merge is refused for a gap when the request does not start at the virt boundary, or the vectors that meet do so off it and are not contiguous; not without a virt boundary, when everything is at it, or when they are contiguous within one window |
| `Requests.RestNoGaps` | src/kernel/mediatek/mt8169/5.4/block/blk-core.c:1458-1478 | what is left after a partial completion has no gaps if the request had none |
| `Requests.Shortened` | src/kernel/mediatek/mt8169/5.4/block/blk-core.c:1436-1517 | the rest after a partial completion is contiguous, without gaps, within its room and needs no more segments |
| `Requests.DefaultLimitsArePlain` | src/kernel/mediatek/mt8169/5.4/block/blk-settings.c:38-62 | the limits a queue starts with, with or without a virt boundary set afterwards, satisfy every assumption on limits made here |
| `Requests.Request.constructor` | src/kernel/mediatek/mt8169/5.4/block/blk.h:110-120 | a request made of one split bio is coherent |
| `Requests.Request.NewHwSegment` | src/kernel/mediatek/mt8169/5.4/block/blk-merge.c:563-618 | the merge checks accept exactly without a gap and within chunk, sector and segment limits, and say exactly when further merges are ruled out |
| `Requests.Request.FittingIff` | src/kernel/mediatek/mt8169/5.4/block/blk-merge.c:563-618 | for a request with a right segment count, the limit checks of a merge pass if and only if the merged request has no more bytes than the room at its start and no more segments than the limit |
| `Requests.Request.BackMerge` | src/kernel/mediatek/mt8169/5.4/block/blk-core.c:604-624 | the bio is taken if and only if it is allowed, leaves no gap and fits the limits; then bios stay contiguous from __sector and without gaps, __data_len is their sum, and a right segment count stays right and within the limit |
| `Requests.Request.FrontMerge` | src/kernel/mediatek/mt8169/5.4/block/blk-core.c:626-648 | the same, with the new start |
| `Requests.Request.AttemptMerge` | src/kernel/mediatek/mt8169/5.4/block/blk-merge.c:743-831 | the same for two requests, taken if and only if moreover the second follows the first; it hands all its bios over |
| `Requests.Request.CompleteFirst` | src/kernel/mediatek/mt8169/5.4/block/blk-core.c:1458-1478 | one round finishes the first bio or advances it |
| `Requests.Request.CompleteBios` | src/kernel/mediatek/mt8169/5.4/block/blk-core.c:1458-1478 | the loop finishes exactly min(n, size) bytes from the front |
| `Requests.Request.Update` | src/kernel/mediatek/mt8169/5.4/block/blk-core.c:1436-1517 | after n bytes the request is the suffix, coherent, with more data if and only if n is below its size; a right segment count is right afterwards if and only if no vector left is broken off at the virt boundary; the request-botched branch is dead |
| `Requests.Request.EndRequest` | src/kernel/mediatek/mt8169/5.4/block/blk-mq.c:566-571 | completing blk_rq_bytes bytes empties every request, so the BUG is unreachable |
| `Requests.Request.MapSg` | src/kernel/mediatek/mt8169/5.4/block/blk-merge.c:507-553 | the entries cover the request; if the segment count is right there are at most nr_phys_segments of them, so the warning does not fire; with even limits the count is always right and the device gets no gaps |
| `Requests.MissedSegment` | src/kernel/mediatek/mt8169/5.4/block/blk-merge.c:507-553 | on a queue with a virt boundary and limited segments, completing the first sector of a page-aligned vector of 130 to 256 sectors leaves a request with more entries than nr_phys_segments |
| `BadBlocks.PackRoundTrip` | src/kernel/mediatek/mt8169/5.4/include/linux/badblocks.h:11-18 | the packed 64-bit word gives back start, length and flag |
| `BadBlocks.MinusHolds` | src/kernel/mediatek/mt8169/5.4/block/badblocks.c:331-423 | the reference subtraction keeps exactly the sectors outside the range, with their acknowledgement |
| `BadBlocks.MinusGood` | src/kernel/mediatek/mt8169/5.4/block/badblocks.c:331-423 | and keeps the table sorted, disjoint and non-empty in every range |
| `BadBlocksSet.SetIsRightIff` | src/kernel/mediatek/mt8169/5.4/block/badblocks.c:163-314 | on a well-formed table with a free entry, setting any number of sectors succeeds with exactly the union and a well-formed table if and only if a condition on the ranges around the insertion point holds |
| `BadBlocksSet.LongIsRightIff` | src/kernel/mediatek/mt8169/5.4/block/badblocks.c:163-314 | when more than 512 sectors are left after the first merge, the call is right if and only if the range ahead is reached, what remains beyond the 512 sectors it is turned into fits one entry, and no other range starts before the end |
| `BadBlocksSet.TwoPiecesAreWrong` | src/kernel/mediatek/mt8169/5.4/block/badblocks.c:283-303 | inserting more than one piece never leaves a well-formed table, since the insertion index stays fixed |
| `BadBlocksSet.SetIsRight` | src/kernel/mediatek/mt8169/5.4/block/badblocks.c:163-314 | in particular whenever no recorded range starts strictly inside the new one |
| `BadBlocksSet.FillsGap` | src/kernel/mediatek/mt8169/5.4/block/badblocks.c:265-282 | setting exactly the gap between two ranges that together fit one entry leaves one range in their place, acknowledged if and only if all three are |
| `BadBlocksSet.SetCanForget` | src/kernel/mediatek/mt8169/5.4/block/badblocks.c:265-282 | a table and a range for which the combine step forgets a sector that was to be recorded |
| `BadBlocksSet.SetTooLong` | src/kernel/mediatek/mt8169/5.4/block/badblocks.c:283-303 | in particular more than 512 sectors into an empty table leave it unsorted |
| `BadBlocksSet.SetKeepsAcked` | src/kernel/mediatek/mt8169/5.4/block/badblocks.c:163-314 | setting an acknowledged range creates no unacknowledged one |
| `BadBlocksAck.NoneTooManyIff` | src/kernel/mediatek/mt8169/5.4/block/badblocks.c:235-303 | when the sectors recorded are right, no sector is acknowledged that was not before and is not in an acknowledged new range, if and only if the call is not one that acknowledges and overlaps an unacknowledged range ahead that reaches beyond it and does not fit one entry with it |
| `BadBlocksAck.SpillExample` | src/kernel/mediatek/mt8169/5.4/block/badblocks.c:235-303 | a table and a range for which a sector outside the range becomes acknowledged |
| `BadBlocksAck.UnackedIff` | src/kernel/mediatek/mt8169/5.4/block/badblocks.c:203-234 | of a range set without acknowledgement no sector is acknowledged afterwards if and only if it does not run over the end of an acknowledged range of 512 sectors, when no range starts strictly inside it |
| `BadBlocksAck.UnackedWhenRightIff` | src/kernel/mediatek/mt8169/5.4/block/badblocks.c:163-314 | whenever the sectors recorded are right: of a range set without acknowledgement no sector is acknowledged afterwards if and only if it does not run over the end of an acknowledged range of 512 sectors, and no acknowledged range behind the one it is combined with starts inside it |
| `BadBlocksAck.CoveredGetAcked` | src/kernel/mediatek/mt8169/5.4/block/badblocks.c:203-264 | an acknowledged range leaves everything acknowledged if what was not is covered by it and merged into it |
| `BadBlockTable.Badblocks.Search` | src/kernel/mediatek/mt8169/5.4/block/badblocks.c:188-201 | the binary search finds the last range that starts before the limit |
| `BadBlockTable.ScanRest` | src/kernel/mediatek/mt8169/5.4/block/badblocks.c:100-120 | stopping the downward scan at the first range that ends before s misses nothing |
| `BadBlockTable.Badblocks.ScanDown` | src/kernel/mediatek/mt8169/5.4/block/badblocks.c:100-120 | the backward loop finds what a full linear scan finds |
| `BadBlockTable.Badblocks.Check` | src/kernel/mediatek/mt8169/5.4/block/badblocks.c:53-125 | 0 if and only if nothing overlaps, -1 if and only if an overlapping range is unacknowledged, 1 otherwise; first_bad and bad_sectors are the lowest overlapping range |
| `BadBlockTable.Badblocks.UpdateAcked` | src/kernel/mediatek/mt8169/5.4/block/badblocks.c:128-146 | the flag says afterwards whether an unacknowledged range exists |
| `BadBlockTable.Badblocks.AckAll` | src/kernel/mediatek/mt8169/5.4/block/badblocks.c:433-455 | all ranges become acknowledged, the flag is cleared and nothing else changes, unless the table changed meanwhile; then nothing changes |
| `BadBlockTable.Badblocks.LowPhase` | src/kernel/mediatek/mt8169/5.4/block/badblocks.c:203-234 | merging in place with the range before |
| `BadBlockTable.Badblocks.HighPhase` | src/kernel/mediatek/mt8169/5.4/block/badblocks.c:235-264 | merging in place with the range after |
| `BadBlockTable.Badblocks.CombinePhase` | src/kernel/mediatek/mt8169/5.4/block/badblocks.c:265-282 | combining two ranges in place |
| `BadBlockTable.Badblocks.InsertPhase` | src/kernel/mediatek/mt8169/5.4/block/badblocks.c:283-303 | the insertion loop, with its memmove, up to a full table |
| `BadBlockTable.Badblocks.Set` | src/kernel/mediatek/mt8169/5.4/block/badblocks.c:163-314 | the table becomes the reference result; the flag says afterwards exactly whether an unacknowledged range exists, or is set by an unacknowledged call; the table counts as changed |
| `BadBlockTable.Badblocks.Trim` | src/kernel/mediatek/mt8169/5.4/block/badblocks.c:394-408 | the loop trims or drops exactly what the range covers |
| `BadBlockTable.Badblocks.SplitTail` | src/kernel/mediatek/mt8169/5.4/block/badblocks.c:366-393 | a range that reaches beyond the cleared one keeps its tail, and its head if it has one; a full table is left untouched |
| `BadBlockTable.Badblocks.ClearTable` | src/kernel/mediatek/mt8169/5.4/block/badblocks.c:349-416 | the table becomes the reference subtraction or, when a range must be split and the table is full, stays untouched |
| `BadBlockTable.Badblocks.Clear` | src/kernel/mediatek/mt8169/5.4/block/badblocks.c:331-423 | exactly the range is removed, survivors keep their flag, the table stays well formed; on -ENOSPC nothing changes |
| `QueueUsage.StepKeepsInv` | src/kernel/mediatek/mt8169/5.4/block/blk-core.c:404-454 | every atomic step of enter, exit, freeze, unfreeze, suspend and resume keeps the invariant |
| `QueueUsage.EveryInterleaving` | src/kernel/mediatek/mt8169/5.4/block/blk-pm.c:61-220 | in every interleaving the reference is live if and only if the freeze depth is zero, the counters are exact and never negative, a drained queue is empty, and no normal caller is inside while the device is not active |
| `QueueUsage.QuietLasts` | src/kernel/mediatek/mt8169/5.4/block/blk-core.c:404-454 | once quiet, the queue stays quiet as long as pm_only stays above zero |
| `QueueUsage.QuietAfterZeroCheck` | src/kernel/mediatek/mt8169/5.4/block/blk-pm.c:61-106 | from the zero check of a successful suspend on, until pm_only falls to zero, no successful blk_queue_enter without PREEMPT is outstanding |
| `QueueUsage.GetsReferenceIff` | src/kernel/mediatek/mt8169/5.4/block/blk-core.c:404-454 | in every interleaving, blk_queue_enter takes a reference if and only if no freezer and no suspend has the queue frozen |
| `QueueUsage.GetsInIff` | src/kernel/mediatek/mt8169/5.4/block/blk-core.c:404-454 | in every interleaving, a caller with a reference gets in if and only if it has PREEMPT, or the device is active, no callback is under way and nobody else restricts the queue; otherwise it gives the reference back |
| `QueueUsage.RequestQueue.Enter` | src/kernel/mediatek/mt8169/5.4/block/blk-core.c:404-454 | one undisturbed round is a run of the machine and succeeds if and only if the queue is not frozen and the caller has PREEMPT or pm_only is zero; on failure nothing has changed |
| `QueueUsage.RequestQueue.PreRuntimeSuspend` | src/kernel/mediatek/mt8169/5.4/block/blk-pm.c:61-103 | undisturbed, it is a run of the machine and succeeds if and only if nobody holds a reference; then the device is suspending with pm_only held, otherwise everything is as before |
| `QueueUsage.RequestQueue.PostRuntimeSuspend` | src/kernel/mediatek/mt8169/5.4/block/blk-pm.c:119-135 | after an error the device is active and pm_only given up, else the device is suspended |
| `QueueUsage.RequestQueue.PreRuntimeResume` | src/kernel/mediatek/mt8169/5.4/block/blk-pm.c:149-157 | only the status changes |
| `QueueUsage.RequestQueue.PostRuntimeResume` | src/kernel/mediatek/mt8169/5.4/block/blk-pm.c:173-184 | after an error the device stays suspended and restricted, else it is active and pm_only given up |
| `QueueUsage.RequestQueue.SetActive` | src/kernel/mediatek/mt8169/5.4/block/blk-pm.c:204-220 | an active device is left alone, any other becomes active and gives pm_only up |
| `QueueUsage.RequestQueue.SuspendAndResume` | src/kernel/mediatek/mt8169/5.4/block/blk-pm.c:61-184 | a whole suspend and resume, or a failed suspend, leaves the queue as it was |
| `Throttling.StepKeepsInv` | src/kernel/mediatek/mt8169/5.4/block/blk-rq-qos.c:212-293 | every step of a waiter, a waker or a release keeps the invariant |
| `Throttling.EveryInterleaving` | src/kernel/mediatek/mt8169/5.4/block/blk-rq-qos.c:212-293 | whoever has returned from rq_qos_wait holds exactly one token, inflight is the number of tokens out, and it never exceeds the limit |
| `Throttling.TwoTokensCanHappen` | src/kernel/mediatek/mt8169/5.4/block/blk-rq-qos.c:264-290 | a run in which a waiter is given a token while it takes one itself |
| `Throttling.OneTokenIsReturned` | src/kernel/mediatek/mt8169/5.4/block/blk-rq-qos.c:264-290 | the check after finish_wait returns one of the two |
| `Throttling.RqWait.TryFirst` | src/kernel/mediatek/mt8169/5.4/block/blk-rq-qos.c:265-267 | a token is taken at once if and only if nobody waits and there is room |
| `Throttling.RqWait.QueueUp` | src/kernel/mediatek/mt8169/5.4/block/blk-rq-qos.c:269-292 | the caller joins the end of the queue; it takes a token if and only if it is alone and there is room, and leaves the queue again, else it sleeps |
| `Throttling.RqWait.WakeUp` | src/kernel/mediatek/mt8169/5.4/block/blk-rq-qos.c:212-231 | a wake-up gives a token, if there is room, to the one that has waited longest, which leaves the queue |
| `Throttling.RqWait.WakeAgain` | src/kernel/mediatek/mt8169/5.4/block/blk-rq-qos.c:271-292 | a sleeper that runs again returns if and only if it was given a token, and takes no other |
| `BioChains.StepKeepsInv` | src/kernel/mediatek/mt8169/5.4/block/bio.c:307-341 | creating, chaining, the report of an owner and every single access of any number of bio_endio calls under way (look at the status of the parent, write it, test the flag, drop the count) keep the invariant |
| `BioChains.RunKeepsInv` | src/kernel/mediatek/mt8169/5.4/block/bio.c:1808-1881 | so does every interleaving of them |
| `BioChainRuns.EveryRun` | src/kernel/mediatek/mt8169/5.4/block/bio.c:1808-1881 | for every forest and every interleaving: end_io of a bio runs at most once, with BIO_CHAIN clear afterwards; it has run if and only if the notices of its owner and of all bios under it have been delivered; the count is positive at each `BUG_ON`; an error status has an owner at or under the bio that reported one; the status of an ended bio is an error if and only if some owner at or under it reported one and no status on the way up was overwritten |
| `BioChainFates.SafeIff` | src/kernel/mediatek/mt8169/5.4/block/bio.c:307-314 | for every forest of chained bios and every choice of failing owners: the status of every bio that ends is right in every interleaving if and only if there is no bio to which one is chained that brings no error while something else at or under it does |
| `BioChainFates.UnmixedIsExact` | src/kernel/mediatek/mt8169/5.4/block/bio.c:307-314 | without such a mixture no interleaving loses an error |
| `BioChainFates.LosingRun` | src/kernel/mediatek/mt8169/5.4/block/bio.c:307-314 | with one, in any forest, some interleaving ends a bio with status OK although an owner under it failed |
| `BioChainRuns.AllExactIff` | src/kernel/mediatek/mt8169/5.4/block/bio.c:307-314 | after every run, all ended bios have a status that tells exactly whether an owner at or under them reported an error if and only if on none of them an OK status was written last over an error |
| `BioChainRuns.CarefulIsExact` | src/kernel/mediatek/mt8169/5.4/block/bio.c:307-314 | the status is exact in every run in which no OK status is written over an error that arrived after the writer looked |
| `BioChainRuns.OneByOneIsExact` | src/kernel/mediatek/mt8169/5.4/block/bio.c:307-314 | the status of every ended bio is exact in every run in which, between reading the status of a parent and writing it, no other notice takes a step there and its owner does not report: the test protects against all that came before it |
| `BioChainRuns.OnlyClobbersLose` | src/kernel/mediatek/mt8169/5.4/block/bio.c:307-314 | no other step loses an error |
| `BioChainRuns.BugsUnreachable` | src/kernel/mediatek/mt8169/5.4/block/bio.c:1808-1825 | whoever is about to drop the count of a bio finds it positive |
| `BioChainRuns.EndsAtRest` | src/kernel/mediatek/mt8169/5.4/block/bio.c:1827-1881 | when every owner at or under a bio has reported and no call is on its way there, the bio has ended |
| `BioChainRuns.NoticesAreBounded` | src/kernel/mediatek/mt8169/5.4/block/bio.c:1841-1881 | the calls under way make only a bounded number of accesses |
| `BioChainRuns.Drains` | src/kernel/mediatek/mt8169/5.4/block/bio.c:1841-1881 | when all owners have reported and no access is left, every bio has ended |
| `BioChainRuns.Bios.RemainingDone` | src/kernel/mediatek/mt8169/5.4/block/bio.c:1808-1825 | the test and the drop are steps of the machine, touch one bio and change no status |
| `BioChainRuns.Bios.ChainEndio` | src/kernel/mediatek/mt8169/5.4/block/bio.c:307-314 | undisturbed, handing the status and the notice to the parent is up to four steps of the machine, leaves nothing under way at the child, and afterwards the parent has an error if and only if it had one or the child has |
| `BioChainRuns.Bios.Endio` | src/kernel/mediatek/mt8169/5.4/block/bio.c:1841-1881 | the goto loop up the parents terminates, is a run of the machine, leaves no notice of its own under way, and undisturbed it takes no error away from anybody |
| `BioChainRuns.ErrorCanBeLost` | src/kernel/mediatek/mt8169/5.4/block/bio.c:307-314 | a legal run of two children that end at once, after which the parent has ended with status OK although a child failed |
| `MakeRequest.GenericMakeRequest` | src/kernel/mediatek/mt8169/5.4/block/blk-core.c:1009-1100 | the loop over two lists deals with the bios in the order of the depth-first recursion, and in that order each bio is followed by all that its driver submitted for other queues, then all it submitted for the same queue, each in the order of submission, then what was waiting |
| `MakeRequest.VisitStep` | src/kernel/mediatek/mt8169/5.4/block/blk-core.c:1056-1092 | handing one bio off and putting its children in front is one step of that recursion |
| `MakeRequest.Sort` | src/kernel/mediatek/mt8169/5.4/block/blk-core.c:1076-1083 | the two lists are the bios for other queues and those for the same queue, and together a shuffle of the list that keeps the order of each |
| `MakeRequest.LowerFirst` | src/kernel/mediatek/mt8169/5.4/block/blk-core.c:1073-1086 | of two bios a driver submitted, the one for another queue is dealt with before the one for its own |
| `MakeRequest.Submit` | src/kernel/mediatek/mt8169/5.4/block/blk-core.c:1023-1037 | the bios that pass the checks go to the list, in order; the others do not |
| `MakeRequest.VisitOnce` | src/kernel/mediatek/mt8169/5.4/block/blk-core.c:1009-1100 | every bio that gets to a queue is dealt with exactly as often as it was submitted |
| `Dispatch.HwQueue.GetDriverTag` | src/kernel/mediatek/mt8169/5.4/block/blk-mq.c:1056-1084 | a tag is got or kept, and nr_active counts the flagged requests |
| `Dispatch.HwQueue.PutDriverTag` | src/kernel/mediatek/mt8169/5.4/block/blk-mq.h:209-227 | giving a tag back keeps nr_active equal to the number of flagged requests |
| `Dispatch.HwQueue.MarkTagWait` | src/kernel/mediatek/mt8169/5.4/block/blk-mq.c:1113-1175 | a tag is got at the second attempt if and only if one is free and the wait entry was not queued already; otherwise a freed tag will start the queue again, by the wait entry if tags are shared and by the restart flag if not |
| `Dispatch.HwQueue.HandleDevResource` | src/kernel/mediatek/mt8169/5.4/block/blk-mq.c:1208-1223 | a refused request and the one looked at ahead of it give their driver tags back |
| `Dispatch.HwQueue.Loop` | src/kernel/mediatek/mt8169/5.4/block/blk-mq.c:1246-1307 | the requests handled, the calls made with their flags and where the loop stops are those that the list, the tags held and the answers of the environment determine; the rest holds no driver tag and no budget |
| `Dispatch.HwQueue.DispatchRqList` | src/kernel/mediatek/mt8169/5.4/block/blk-mq.c:1228-1385 | for every list and every sequence of answers about budgets, tags and requests: request k stops the run exactly if it is the first without budget or tag or refused by the driver; those before it get one call each, in order, flagged `last` exactly if no tag is reserved for the next; the suffix goes to the end of hctx->dispatch in order; every budget is passed on or returned, exactly the accepted requests keep their tags, nr_active is exact; for want of a tag a wake-up is arranged |
| `Dispatch.LeftWaitingIff` | src/kernel/mediatek/mt8169/5.4/block/blk-mq.c:1279-1352 | the driver is left expecting more, without commit_rqs, if and only if all requests get budget and tag and none is refused, the last one accepted has a successor that holds a tag, and all after it fail |
| `Dispatch.LeaveWaiting` | src/kernel/mediatek/mt8169/5.4/block/blk-mq.c:1279-1352 | a dispatch of two requests, the first accepted and told to expect more, the second failed: nothing tells the driver that no more comes |
| `HashTable.EqualKeysIsEquals` | src/system/core/libcutils/hashmap.cpp:181-190 | comparing identity, hash and equality in turn is equality |
| `HashTable.Index` | src/system/core/libcutils/hashmap.cpp:96-98 | an index is a bucket |
| `HashTable.AddUpdates` | src/system/core/libcutils/hashmap.cpp:200-211 | a new entry changes the map at its key only |
| `HashTable.ReplaceUpdates` | src/system/core/libcutils/hashmap.cpp:213-218 | a new value for a key changes the map there only |
| `HashTable.RemoveUpdates` | src/system/core/libcutils/hashmap.cpp:239-259 | dropping an entry changes the map at its key only |
| `HashTable.Hashmap.constructor` | src/system/core/libcutils/hashmap.cpp:43-75 | the smallest power of two of empty buckets above four thirds of the capacity |
| `HashTable.Hashmap.Get` | src/system/core/libcutils/hashmap.cpp:224-237 | what the finite map holds for the key |
| `HashTable.Hashmap.Put` | src/system/core/libcutils/hashmap.cpp:192-222 | the old value is returned, the map is updated at the key only, through every rehash; without memory for the entry nothing changes; the table grows exactly when a new entry takes it past a load of three quarters and memory allows, so that a load within that stays within it |
| `HashTable.Hashmap.Remove` | src/system/core/libcutils/hashmap.cpp:239-259 | the old value is returned, the map loses the key only |
| `HashTable.Hashmap.MoveChain` | src/system/core/libcutils/hashmap.cpp:112-121 | moving a chain puts each entry in the bucket of its hash in the larger table |
| `HashTable.Hashmap.Rehash` | src/system/core/libcutils/hashmap.cpp:110-122 | the doubled table holds the same entries, each in its bucket, once |
| `HashTable.Hashmap.ExpandIfNecessary` | src/system/core/libcutils/hashmap.cpp:100-129 | the table doubles exactly past a load of three quarters if memory allows, and keeps its content |
| `HashTable.Hashmap.Entries` | src/system/core/libcutils/hashmap.cpp:261-274 | every entry is enumerated, once |
| `StrParms.ParseClean` | src/system/core/libcutils/str_parms.cpp:139-204 | every string parses to non-empty keys without `=` and `;` and values without `;` |
| `StrParms.LastWins` | src/system/core/libcutils/str_parms.cpp:156-191 | a key has the value of its last pair |
| `StrParms.Appending` | src/system/core/libcutils/str_parms.cpp:156-191 | one more pair at the end of a string: its value counts; a value may contain `=`; a pair without a key is ignored; a key without `=` gets the empty value |
| `StrParms.ParsePrint` | src/system/core/libcutils/str_parms.cpp:331-359 | printing such entries, in any order, and parsing gives their map |
| `StrParms.PrintJoin` | src/system/core/libcutils/str_parms.cpp:331-352 | entries are printed as key=value, with a semicolon between two of them |
| `StrParms.RoundTrip` | src/system/core/libcutils/str_parms.cpp:331-359 | for entries with unique keys, printing and parsing gives the map back if and only if all keys and values are of that kind |
| `StrParms.Normalises` | src/system/core/libcutils/str_parms.cpp:139-204 | parsing, printing and parsing again gives the same map, for every string |
| `StrParms.NextToken` | src/system/core/libcutils/str_parms.cpp:157-190 | the next maximal run without a semicolon, and the rest |
| `StrParms.CombineStrings` | src/system/core/libcutils/str_parms.cpp:331-352 | the accumulated string is the printed form of the entries visited |
| `StrParms.Parms.constructor` | src/system/core/libcutils/str_parms.cpp:70-82 | no parameters |
| `StrParms.Parms.Load` | src/system/core/libcutils/str_parms.cpp:156-191 | the loop leaves exactly what the string means, later pairs over earlier ones |
| `StrParms.Parms.Get` | src/system/core/libcutils/str_parms.cpp:281-294 | the stored string, if there is one |
| `StrParms.Parms.RemoveInChain` | src/system/core/libcutils/str_parms.cpp:89-117 | removing the current entry inside the for-each walk misses no entry and ends at a match |
| `StrParms.Parms.Del` | src/system/core/libcutils/str_parms.cpp:119-137 | exactly the given key is removed, or everything without one |
| `StrParms.Parms.ToStr` | src/system/core/libcutils/str_parms.cpp:354-359 | what is returned parses back to the parameters if and only if the syntax can express them |
| `RecordStream.HeaderOfLength` | src/system/core/libcutils/record_stream.cpp:84-87 | the four length bytes are determined by the length |
| `RecordStream.NetworkOrder` | src/system/core/libcutils/record_stream.cpp:84-87 | the length is in network byte order: raising byte i by one raises it by 2^24, 2^16, 2^8 or 1 |
| `RecordStream.RecordsOfEncode` | src/system/core/libcutils/record_stream.cpp:74-94 | decoding what was encoded gives the records back, followed by what comes after |
| `RecordStream.RecordsGrow` | src/system/core/libcutils/record_stream.cpp:74-113 | more bytes only add records: how a stream is cut into reads does not matter |
| `RecordStream.HeadersWithinLimit` | src/system/core/libcutils/record_stream.cpp:146-155 | in a stream of records within the limit every header seen is within the limit |
| `RecordStream.EveryStream` | src/system/core/libcutils/record_stream.cpp:128-187 | for any stream of records within the limit and any way to cut it: the records handed out are a first part of those sent, all of them once nothing is left, and no header over the limit is ever held |
| `RecordStream.Reader.constructor` | src/system/core/libcutils/record_stream.cpp:46-63 | nothing received, nothing handed out |
| `RecordStream.Reader.EndOfRecord` | src/system/core/libcutils/record_stream.cpp:74-94 | a record is whole exactly when its header and all the bytes it announces are held, and then it and what follows it are where the code says |
| `RecordStream.Reader.NextRecord` | src/system/core/libcutils/record_stream.cpp:96-113 | the first whole record held is handed out, if there is one; received bytes are always the records handed out plus the bytes held |
| `RecordStream.Reader.Compact` | src/system/core/libcutils/record_stream.cpp:157-168 | the memmove keeps the bytes held |
| `RecordStream.Reader.GetNext` | src/system/core/libcutils/record_stream.cpp:128-187 | a record held is handed out without a read; otherwise there is one read, of exactly the room there is, and the outcome says exactly whether a record is whole; the full-buffer branch is taken exactly when a header over the limit fills the buffer |
| `RecordStream.Reader.GetNextWithinLimit` | src/system/core/libcutils/record_stream.cpp:128-187 | on a stream of records within the limit, however it is cut into reads, the call never reports an oversized record, and the records handed out are a first part of those sent, all of them at the end |

## Left out

- Memory ordering, RCU, per-CPU counters, sbitmaps and interrupt contexts: steps are atomic and sequentially consistent.
- sysfs, debugfs, ioctl, bsg, integrity payloads, DMA drain and padding, WRITE_SAME, zoned devices, cgroup statistics, tracing, inline-encryption internals (its verdict on a merge is a parameter).
- The flags with which blk_insert_flush passes a request on to the driver, timeout references of the flush request, `fq->rq_status`, tag borrowing by the flush request, and the check that a flush request is not on another list.
- Linked lists are sequences; the links inside list heads, bios and hash entries are not modelled, nor is freeing.
- FlushRuns.EveryRun: leaves out requests that need a flush before and after and carry no data; FlushCondition.SafeIff shows that with such requests the property fails, and that no other policy has to be left out.
- FlushProofs.FlushEndVisitsSnapshot: the walk over the running list carries a bound on the number of visits, twice the length of the list; the same lemma shows it is never reached.
- Segments: a maximal segment size is whole sectors, or UINT_MAX as blk_queue_virt_boundary sets it; other sizes are not covered.
- SplitMaximal.SplitIsLongest: under the same assumption on limits as BioSplitting.PiecesTile.
- BioSplitting.PiecesTile: assumes the limits under which BioSplitting.RoomEverywhere shows that there is always room; without them get_max_io_size can be zero.
- Requests.Request.Update: whole sectors of read and write requests; discards, flushes, drivers that fail fast and mixed merges are not covered. Limits are such that a request stays below 4 GiB.
- BadBlocksSet.SetIsRightIff: shift 0 and a table with a free entry.
- Discards.DiscardLaw: granularity and alignment are whole sectors; Discards.UnknownGranularity covers a granularity of zero, and Discards.DiscardPiecesTile says in sectors what holds for the others.
- BadBlockTable.Badblocks.Check: shift 0.
- BadBlocks.PackRoundTrip: the table holds unpacked entries; the lemma says that packing them into words loses nothing.
- QueueUsage.EveryInterleaving: the runtime PM callbacks of one device do not overlap each other and come in the order of the status, suspend only when the device is active and resume only when it is suspended, as the PM core promises; the source warns or does not check. The wake-ups of waiting threads are not modelled, so nothing is said about how long they wait.
- Throttling.EveryInterleaving: the limit is fixed, and nothing is said about how long a waiter waits.
- BioChainRuns.EveryRun: single accesses are sequentially consistent; clearing BIO_CHAIN is one step with the drop of the count to zero; a status is OK or an error, and an owner that reports no error leaves the status alone.
- Dispatch.HwQueue.DispatchRqList: requests without an end_io of their own; a budget that comes with the list comes with a list of one, as the source warns otherwise; no waker takes the wait entry off its queue during the call; the choice to rerun the queue afterwards is not modelled, nor the scheduler.
- MakeRequest.GenericMakeRequest: the verdicts of the checks and of blk_queue_enter are given with each bio, and a bio's driver submits a fixed list.
- HashTable: `hashmapHash`, the lock and `hashmapFree`; masking with a power of two less one is modelled as a remainder.
- StrParms: number conversion, `strlcpy` truncation, the errno bookkeeping of `str_parms_add_str`, and failing allocations other than a failed expansion. Strings are sequences of characters without a terminator.
- RecordStream: address overflow on 32-bit machines. A failed read and the end of the stream are the same outcome, since the buffer is treated alike.
- `blk_try_merge`, plug lists, elevator hooks, `native_handle`, properties, sockets, uevents and the other wrappers of libcutils.
