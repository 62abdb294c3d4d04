# Verified models of the Linux block layer and of skin/molt

This project models, in Dafny 4.11, the parts of the repository whose correctness is hardest to see from
the code: the flush sequencer, the bad-block table, the B-WF2Q+ scheduling engine of BFQ, the completion
and submission of bios, the bookkeeping of requests, BFQ's queue merging, the creation of blkgs, the
iolatency scale cookie, the map from CPUs to hardware queues, and the two programs `skin` and `molt`.

To verify: `dafny verify dfyconfig.toml`.

## How it is organised

Code that changes things in place is a class whose methods are proved against functions on values: a
method's contract says `Model() == F(old(Model()), ...)`. What the source promises is proved about those
functions, step by step and then over every run. A run is any sequence of the operations, with any
results from the device, the allocator, the clock or another CPU; each section held under a lock is one step.

| files | what they model |
|---|---|
| `Flush*.dfy` | blk-flush.c: the double-buffered sequencer, its invariant, progress, history, coverage, timeouts |
| `Badblocks*.dfy` | badblocks.c: table, bisection, merges, splits, rounding to blocks |
| `Active*.dfy` | the active tree of bfq-wf2q.c with the rotations of lib/rbtree.c, and the search in it |
| `Wf2q*.dfy` | the rest of bfq-wf2q.c in its flat configuration: trees, weight sums, next_in_service, eligibility, charging |
| `Bio*.dfy`, `Discard.dfy` | bio.c: chained completions, with every interleaving of running bio_endio calls; blk-lib.c: discard |
| `MakeRequest.dfy`, `Request*.dfy` | blk-core.c: generic_make_request, merging, partial completion |
| `Merge*.dfy` | bfq-iosched.c: the new_bfqq redirections and process references |
| `Skin*.dfy` | skin.c and molt.c |
| `BlkgHierarchy.dfy`, `Iolatency.dfy`, `CpuMap.dfy` | blk-cgroup.c, blk-iolatency.c, blk-mq-cpumap.c |
| `Links.dfy`, `Options.dfy` | pointers that form a forest; absent values |

## Where the code does not do what it says

- blk-flush.c: a request for PREFLUSH and POSTFLUSH without data can have its POSTFLUSH completed by a
  flush issued before it queued. Requests of every other kind cannot (`FlushExact.BackedExactly`).
- badblocks.c: a set that succeeds can forget blocks when it joins two ranges, and needing two insertions
  leaves the table out of order. When it does neither is `BadblocksSet.StoreExact`.
- badblocks.c: a set that fails can have dropped recorded blocks (`BadblocksSet.FailedExact` says when), and
  clearing a range strictly inside one block can leave overlapping ranges (`BadblocksClear.ClearExact`).
- badblocks.c: blocks set unacknowledged can stay acknowledged (`BadblocksAck.NewExact`), and unacknowledged
  blocks outside the new range can become acknowledged (`BadblocksAck.OldExact`).
- badblocks.c: acknowledging blocks can leave them unacknowledged, even a range that is recorded
  (`BadblocksFlags.AckedExact`), and acknowledged blocks can lose their flag to unacknowledged ones set next
  to them (`BadblocksFlags.StaysExact`).
- bfq-wf2q.c: the comment above bfq_first_active_entity says that it finds the smallest eligible finish
  time. It does not when an eligible node lies above a right turn on the way to it and finishes later
  (`ActiveSearch.SearchExact`).
- bfq-wf2q.c: the comment in bfq_forget_idle says that it increases vtime. It can only set it back, which no
  operation does while something of the class is active (`Wf2qEligible.VtimeExact`). A run in which virtual time
  goes back is `Wf2qBack.VtimeGoesBack`.
- blk-core.c: a completion that finishes a request does not move its position, so finishing in two parts
  leaves another position than finishing at once. A completion of no bytes with an error marks the next bio,
  and odd bytes are lost to the position (`RequestProofs.UpdateTwice`).

In each case the model follows the code.

## Model

| member | source | states |
|---|---|---|
| `FlushInvariant.AdvanceHomes` | kernel_management/V1/linux/block/blk-flush.c:156-198 | after a step of a request completes, every live request is again on exactly the one list its current step calls for |
| `FlushInvariant.KickKeeps` | kernel_management/V1/linux/block/blk-flush.c:268-325 | blk_kick_flush toggles the pending index only when no flush is in flight and something is pending, and afterwards nothing waits without a completion still to come |
| `FlushInvariant.WalkStepKeeps` | kernel_management/V1/linux/block/blk-flush.c:237-249 | one turn of the list walk keeps the core invariant and leaves strictly less work on the walked list, although a request may be queued again on that list |
| `FlushInvariant.WalkKeeps` | kernel_management/V1/linux/block/blk-flush.c:237-249 | the whole walk terminates and restores the invariant that holds when the lock is free |
| `FlushInvariant.InsertKeeps` | kernel_management/V1/linux/block/blk-flush.c:360-420 | blk_insert_flush keeps the invariant for every policy: no steps, data only, or a sequence |
| `FlushInvariant.DataEndKeeps` | kernel_management/V1/linux/block/blk-flush.c:327-349 | a data completion keeps the invariant |
| `FlushInvariant.FlushEndKeeps` | kernel_management/V1/linux/block/blk-flush.c:207-253 | a flush completion keeps the invariant |
| `FlushInvariant.RunKeeps` | kernel_management/V1/linux/block/blk-flush.c:156-420 | over every run: each live request on the one list its step calls for, indices different exactly while one flush is in flight, no BUG_ON on the steps done or on the indices, and pending requests with no flush in flight only with an elevator and data in flight |
| `FlushProgress.CompletionProgress` | kernel_management/V1/linux/block/blk-flush.c:36-49 | every data or flush completion, failed or not, leaves strictly fewer steps to do |
| `FlushProgress.NeverStuck` | kernel_management/V1/linux/block/blk-flush.c:276-295 | while a request is live the device still owes a completion |
| `FlushProgress.Drains` | kernel_management/V1/linux/block/blk-flush.c:36-49 | without new submissions only finitely many completions can happen, and once nothing is in flight no request is live |
| `FlushHistory.RunTold` | kernel_management/V1/linux/block/blk-flush.c:156-205 | over every run a request starts its steps in order, none twice, and nothing happens to it after its end |
| `FlushCoverage.RunCov` | kernel_management/V1/linux/block/blk-flush.c:207-253 | over every run a flush step of a request is completed only by a flush command issued after the request queued for that step, and data that completed without error |
| `FlushTheorems.EndedInOrder` | kernel_management/V1/linux/block/blk-flush.c:99-119 | a request that ends without error has started exactly the steps of its policy in the order PREFLUSH, DATA, POSTFLUSH, each done before the next |
| `FlushTheorems.FuaIsDurable` | kernel_management/V1/linux/block/blk-flush.c:8-27 | when a FUA write emulated by POSTFLUSH ends, a flush issued after its data completed has completed |
| `FlushTheorems.PreflushBeforeData` | kernel_management/V1/linux/block/blk-flush.c:12-16 | the data of a PREFLUSH request is dispatched only after a flush issued since the request queued has completed |
| `FlushExact.BackedExactly` | kernel_management/V1/linux/block/blk-flush.c:237-249 | the flush steps of a policy are always backed by flush commands of their own if and only if the policy is not PREFLUSH and POSTFLUSH without data |
| `FlushExact.NotAlwaysBacked` | kernel_management/V1/linux/block/blk-flush.c:237-249 | a concrete run in which a dataless PREFLUSH and POSTFLUSH request has its POSTFLUSH completed by a flush issued before it queued |
| `FlushFlags.OnlyAsAsked` | kernel_management/V1/linux/block/blk-flush.c:99-119 | over every run a request starts no step it did not ask for: it waits for a flush only on a write cache, before its data only with PREFLUSH, after it only with FUA on a queue without FUA, and is passed on only if it has data and needs no flush |
| `FlushFlags.PreflushFirst` | kernel_management/V1/linux/block/blk-flush.c:12-16 | over every run the data of a request submitted with PREFLUSH on a write cache goes to the device only after a flush issued since its submission has completed |
| `FlushFlags.PreflushBeforeEnd` | kernel_management/V1/linux/block/blk-flush.c:8-27 | such a request ends without error only after a flush issued since its submission has completed, with data or without |
| `FlushFlags.FuaBeforeEnd` | kernel_management/V1/linux/block/blk-flush.c:8-27 | over every run a request with data submitted with FUA on a write cache without FUA ends without error only after a flush issued after its data landed has completed |
| `FlushFlags.DataBeforeEnd` | kernel_management/V1/linux/block/blk-flush.c:182-198 | over every run a sequenced request with data ends without error only after its data has landed |
| `FlushFlags.EndedAsAsked` | kernel_management/V1/linux/block/blk-flush.c:99-119 | a request that ended without error started exactly the steps its flags and the queue call for |
| `FlushFlags.AtOnce` | kernel_management/V1/linux/block/blk-flush.c:360-420 | the first thing a submission does, by its flags: wait for a flush, send the data, pass the request on or end it |
| `FlushTimely.ActionTimely` | kernel_management/V1/linux/block/blk-flush.c:268-290 | after every completion and every submission that needs a flush, what is pending with no flush in flight waits for data under an elevator, and not yet as long as the timeout |
| `FlushTimely.NotTooEarly` | kernel_management/V1/linux/block/blk-flush.c:268-290 | a submission or data completion issues at most one flush command, and none while data is in flight under an elevator and the timeout has not come |
| `FlushTimely.ActionCounts` | kernel_management/V1/linux/block/blk-flush.c:174-180 | the waiting time counts from when the pending list became non-empty, through every action, until a flush is issued |
| `FlushTimely.IssuedInTime` | kernel_management/V1/linux/block/blk-flush.c:268-290 | over every run without another flush command, the first completion or sequenced submission at or after the timeout has a flush in flight |
| `FlushQueue.Queue.KickFlush` | kernel_management/V1/linux/block/blk-flush.c:268-325 | touches no request and no list; afterwards no request waits without a completion to come, and the core invariant is kept |
| `FlushQueue.Queue.QueueForFlush` | kernel_management/V1/linux/block/blk-flush.c:174-180 | wherever a request waiting for a flush was before, afterwards every request is where it belongs, if every other one was |
| `FlushQueue.Queue.StartData` | kernel_management/V1/linux/block/blk-flush.c:182-185 | the same for a request whose next step is DATA |
| `FlushQueue.Queue.EndRequest` | kernel_management/V1/linux/block/blk-flush.c:187-198 | the request is no longer live, and every request is where it belongs, if every other one was |
| `FlushQueue.Queue.CompleteStep` | kernel_management/V1/linux/block/blk-flush.c:156-205 | from a state in which only the request is out of place, the core invariant is restored and no request waits without a completion to come; the running index stays |
| `FlushQueue.Queue.FlushEndIo` | kernel_management/V1/linux/block/blk-flush.c:207-253 | the list walk as a loop; new state is the walk of the specification and satisfies the invariant |
| `FlushQueue.Queue.DataEndIo` | kernel_management/V1/linux/block/blk-flush.c:327-349 | the data completion; keeps the invariant |
| `FlushQueue.Queue.InsertFlush` | kernel_management/V1/linux/block/blk-flush.c:360-420 | the insertion with its three cases; keeps the invariant, and the first step is the one the flags and the queue call for |
| `FlushQueue.Queue.constructor` | kernel_management/V1/linux/block/blk-flush.c:475-500 | an idle queue, which satisfies the invariant |
| `BadblocksModel.StartingBeforeIs` | kernel_management/V1/linux/block/badblocks.c:353-365 | the bisection splits a sorted table at the first range that does not start before the given block |
| `Badblocks.Table.FindLast` | kernel_management/V1/linux/block/badblocks.c:78-98 | the bisection loop finds how many ranges start before the given block |
| `Badblocks.Table.Check` | kernel_management/V1/linux/block/badblocks.c:53-125 | the search and the walk back report 0, 1 or -1 and the lowest overlapping range, as the linear definition over all ranges does |
| `Badblocks.CheckMeans` | kernel_management/V1/linux/block/badblocks.c:53-125 | on a non-empty range: 0 iff no block is bad, -1 iff some bad block is not acknowledged |
| `BadblocksSet.BackAt` | kernel_management/V1/linux/block/badblocks.c:190-234 | for every sorted table: after the merge into the range before, the ranges before the spot are those of the old table, that range filled to 512 if the new blocks do not fit in it, and nothing is left to record or everything from the spot on is |
| `BadblocksSet.SpotAt` | kernel_management/V1/linux/block/badblocks.c:190-234 | the ranges before the spot, the blocks still to record and the old ranges after it are together the old blocks and the new ones, sorted and within length 512 |
| `BadblocksSet.ForwardAt` | kernel_management/V1/linux/block/badblocks.c:235-264 | the merge into the range after takes in everything up to the end of the new blocks or of that range, whichever is later, or fills it to 512 and leaves the rest |
| `BadblocksSet.JoinExact` | kernel_management/V1/linux/block/badblocks.c:265-282 | joining a range with one that reaches it keeps order, lengths and blocks if and only if the second ends after the first starts and every block from its end to the end of the first is recorded after it |
| `BadblocksSet.InsertFull` | kernel_management/V1/linux/block/badblocks.c:283-304 | the insertions run out of room if and only if the table has less room than the number of ranges of 512 needed |
| `BadblocksSet.InsertTooMany` | kernel_management/V1/linux/block/badblocks.c:283-304 | when more than one insertion is needed and there is room for it, the table ends up out of order |
| `BadblocksSet.TwoInsertionsOutOfOrder` | kernel_management/V1/linux/block/badblocks.c:283-304 | 600 blocks set in an empty table: the second range is put before the first |
| `BadblocksSet.StoreFull` | kernel_management/V1/linux/block/badblocks.c:163-314 | a set fails if and only if the ranges it needs, counted on the table before the call, do not fit into the page |
| `BadblocksSet.StoreNothing` | kernel_management/V1/linux/block/badblocks.c:163-314 | a set of no blocks succeeds and records the same blocks, sorted, though it may join two ranges |
| `BadblocksSet.StoreExact` | kernel_management/V1/linux/block/badblocks.c:163-314 | for every sorted table and every number of blocks, none included: a set for which there is room leaves a sorted table of exactly the old blocks and the new ones if and only if the range fits, a condition on the table, the range and nothing else |
| `BadblocksSet.FailedExact` | kernel_management/V1/linux/block/badblocks.c:163-314 | a set that fails has lost recorded blocks if and only if the range that took the new blocks in reached further than what there was room to record |
| `BadblocksSet.NoneInsideFits` | kernel_management/V1/linux/block/badblocks.c:163-314 | up to 512 blocks that no recorded range starts inside always fit |
| `BadblocksSet.InsideCanFit` | kernel_management/V1/linux/block/badblocks.c:265-282 | a concrete table in which a range starts inside the new one and the set is right |
| `BadblocksSet.InsideLosesBlocks` | kernel_management/V1/linux/block/badblocks.c:265-282 | a concrete successful call that forgets blocks because a range starts inside the new one |
| `BadblocksSet.FailedSetLosesBlocks` | kernel_management/V1/linux/block/badblocks.c:235-264 | a concrete failing call that has already dropped recorded blocks |
| `Badblocks.StoreAcked` | kernel_management/V1/linux/block/badblocks.c:163-314 | setting acknowledged blocks in an acknowledged table leaves it acknowledged |
| `BadblocksAck.OldExact` | kernel_management/V1/linux/block/badblocks.c:205-300 | a set that fits leaves every block outside the new range acknowledged only if it was, if and only if it does not cut off the end of an unacknowledged range beyond the new one and record it anew as acknowledged |
| `BadblocksAck.NewExact` | kernel_management/V1/linux/block/badblocks.c:205-300 | a set of unacknowledged blocks that fits leaves all of them unacknowledged if and only if it does not begin in a full acknowledged range that it goes past, and no acknowledged range after the two it can join starts inside the new one |
| `BadblocksFlags.AckedExact` | kernel_management/V1/linux/block/badblocks.c:205-300 | a set of acknowledged blocks leaves all of them acknowledged if and only if every range they end up in was acknowledged, or is covered by them and grown |
| `BadblocksFlags.StaysExact` | kernel_management/V1/linux/block/badblocks.c:205-300 | a set leaves every acknowledged block outside the new range acknowledged if and only if no range with such blocks is grown or joined by unacknowledged ones |
| `BadblocksFlags.Reacknowledge` | kernel_management/V1/linux/block/badblocks.c:205-282 | setting a recorded range again, acknowledged, acknowledges it unless the next range meets it, is unacknowledged and short enough to be joined |
| `BadblocksFlags.JoinedStaysUnacked` | kernel_management/V1/linux/block/badblocks.c:265-282 | two unacknowledged ranges that meet: acknowledging the first leaves it unacknowledged |
| `BadblocksFlags.NeighbourLosesFlag` | kernel_management/V1/linux/block/badblocks.c:213-219 | an unacknowledged block set next to an acknowledged range takes its flag away |
| `BadblocksFlags.StoreRight` | kernel_management/V1/linux/block/badblocks.c:163-314 | a set that succeeds and fits records exactly the old and the new blocks, with both flag conditions |
| `BadblocksAck.SpillAcknowledges` | kernel_management/V1/linux/block/badblocks.c:257-260 | a concrete set after which ten old unacknowledged blocks are acknowledged |
| `BadblocksAck.FullStaysAcked` | kernel_management/V1/linux/block/badblocks.c:227-230 | a concrete set of unacknowledged blocks of which twelve stay acknowledged, being in a full range |
| `BadblocksAck.ThirdStaysAcked` | kernel_management/V1/linux/block/badblocks.c:265-282 | a concrete set of unacknowledged blocks over three ranges, of which the last stays acknowledged |
| `Badblocks.Table.UpdateAcked` | kernel_management/V1/linux/block/badblocks.c:128-146 | unacked_exist is cleared exactly when it was set and every range is acknowledged |
| `Badblocks.Table.MergeStart` | kernel_management/V1/linux/block/badblocks.c:190-234 | the in-place merge with the range before is the merge of the specification |
| `Badblocks.Table.MergeEnd` | kernel_management/V1/linux/block/badblocks.c:235-264 | the in-place merge with the range after is the merge of the specification |
| `Badblocks.Table.CombineAt` | kernel_management/V1/linux/block/badblocks.c:265-282 | the in-place join is the join of the specification |
| `Badblocks.Table.InsertLeft` | kernel_management/V1/linux/block/badblocks.c:283-304 | the insertion loop inserts what the specification inserts |
| `Badblocks.Table.Set` | kernel_management/V1/linux/block/badblocks.c:163-314 | the page holds the stored table, 1 is returned iff it was full, blocks and flags of old and new ones are as the exact conditions say, and unacked_exist is kept sound |
| `BadblocksClear.CutBad` | kernel_management/V1/linux/block/badblocks.c:331-423 | cutting a range out of every entry removes exactly its blocks and keeps every other block with its acknowledgement |
| `BadblocksClear.ClearIsCut` | kernel_management/V1/linux/block/badblocks.c:331-423 | a clear that does not fail is that cut |
| `BadblocksClear.ClearFails` | kernel_management/V1/linux/block/badblocks.c:371-393 | a clear fails exactly when one range must be split and the table is full |
| `BadblocksClear.ClearExact` | kernel_management/V1/linux/block/badblocks.c:331-423 | the cleared table is sorted and right if and only if the range is not turned round, or the table is full, or no range spans its end |
| `Badblocks.ClearAcked` | kernel_management/V1/linux/block/badblocks.c:331-423 | clearing an acknowledged table leaves it acknowledged |
| `Badblocks.Table.KeepTail` | kernel_management/V1/linux/block/badblocks.c:371-393 | the split or shortening of the last overlapping range in place |
| `Badblocks.Table.WalkBack` | kernel_management/V1/linux/block/badblocks.c:394-408 | the walk back over ranges that start inside the cleared one |
| `Badblocks.Table.DropBefore` | kernel_management/V1/linux/block/badblocks.c:394-415 | the ranges walked over are removed by moving the rest down |
| `Badblocks.Table.ClearRange` | kernel_management/V1/linux/block/badblocks.c:331-423 | the page holds the cleared table, or is unchanged when the split finds no room |
| `Badblocks.Table.AckAll` | kernel_management/V1/linux/block/badblocks.c:433-455 | acknowledges every range and clears unacked_exist, unless the table has unsaved changes or none is unacknowledged |
| `BadblocksRounding.RoundOut` | kernel_management/V1/linux/block/badblocks.c:63-69 | rounding for check and set covers exactly the blocks that share a sector with the range |
| `BadblocksRounding.RoundIn` | kernel_management/V1/linux/block/badblocks.c:338-350 | rounding for clear covers exactly the blocks that lie within the range |
| `BadblocksRounding.InvertedInside` | kernel_management/V1/linux/block/badblocks.c:338-350 | rounding for clear turns the range round exactly when it lies strictly inside one block |
| `BadblocksRounding.SetSectorsRight` | kernel_management/V1/linux/block/badblocks.c:163-183 | a set by sectors for which there is room marks exactly the blocks that share a sector with the range, beside the old ones, if and only if the blocks it rounds to fit |
| `BadblocksRounding.ClearSectorsRight` | kernel_management/V1/linux/block/badblocks.c:331-423 | a successful clear by sectors frees exactly the blocks within the range, unless it lies inside one block |
| `BadblocksRounding.ClearInsideBlockBreaks` | kernel_management/V1/linux/block/badblocks.c:338-350 | a concrete clear inside one block that leaves two overlapping ranges |
| `BadblocksRounding.CheckSectorsMean` | kernel_management/V1/linux/block/badblocks.c:53-125 | the answer of a check by sectors speaks of exactly the sectors asked about |
| `BadblocksRounding.SetSectors` | kernel_management/V1/linux/block/badblocks.c:163-183 | rounding, the disabled table, and the in-place set together, for any number of sectors |
| `BadblocksRounding.ClearSectors` | kernel_management/V1/linux/block/badblocks.c:331-350 | rounding and the in-place clear together |
| `BadblocksRounding.CheckSectors` | kernel_management/V1/linux/block/badblocks.c:53-75 | rounding and the check together |
| `ActiveTreeProofs.MinIsLeast` | kernel_management/V1/linux/block/bfq-wf2q.c:406-442 | a min_start that agrees with its children is the least start time of the whole subtree |
| `ActiveTreeProofs.UpdateRepairs` | kernel_management/V1/linux/block/bfq-wf2q.c:444-473 | the upward update repairs every stale min_start on the path and on its siblings and moves no entity |
| `ActiveTreeProofs.InsertFixKeeps` | kernel_management/V1/linux/lib/rbtree.c:85-222 | whatever rotations an insertion does at whatever level, the order is kept and only values on the updated path go stale |
| `ActiveTreeProofs.EraseRotateKeeps` | kernel_management/V1/linux/lib/rbtree.c:226-410 | the same for the rotations after an erasure |
| `ActiveTreeProofs.DeepestIsSpot` | kernel_management/V1/linux/block/bfq-wf2q.c:551-575 | the node bfq_find_deepest names before the erasure is the lowest node to update after it, rotations included |
| `ActiveTreeProofs.InsertOk` | kernel_management/V1/linux/block/bfq-wf2q.c:475-510 | an insertion puts the entity after all that finish no later and before all that finish later, and all min_start values are right |
| `ActiveTreeProofs.ExtractOk` | kernel_management/V1/linux/block/bfq-wf2q.c:577-605 | an extraction removes exactly the entity and all min_start values are right |
| `ActiveTreeProofs.AlwaysGood` | kernel_management/V1/linux/block/bfq-wf2q.c:374-605 | after any sequence of insertions and extractions, with any rebalancing, the tree is sorted by finish time and every min_start is exact |
| `ActiveSearch.SearchEligible` | kernel_management/V1/linux/block/bfq-wf2q.c:1350-1376 | in a tree with an eligible entity the walk returns an eligible one |
| `ActiveSearch.SearchFrom` | kernel_management/V1/linux/block/bfq-wf2q.c:1338-1376 | the walk returns the first eligible entity in order, or the node that blocks the way to it: the lowest eligible one above a right turn |
| `ActiveSearch.SearchExact` | kernel_management/V1/linux/block/bfq-wf2q.c:1338-1376 | in every tree with an eligible entity the walk returns one with the smallest eligible finish time if and only if no eligible node lies above a right turn on the way to the first eligible one, or the one that does ties with it |
| `ActiveSearch.SearchMisses` | kernel_management/V1/linux/block/bfq-wf2q.c:1338-1376 | a concrete tree, in order and with right min_start values, in which it returns a later one |
| `ActiveSearch.MissedIsBuilt` | kernel_management/V1/linux/block/bfq-wf2q.c:475-510 | that tree is what insertions into an empty one build |
| `ActiveSearch.BlockedByTie` | kernel_management/V1/linux/block/bfq-wf2q.c:1338-1376 | a concrete tree with equal finish times in which the way is blocked and the result is still the smallest |
| `ActiveTreeLoops.UpdateActiveTree` | kernel_management/V1/linux/block/bfq-wf2q.c:444-473 | the upward loop |
| `ActiveTreeLoops.FindPlace` | kernel_management/V1/linux/block/bfq-wf2q.c:374-397 | the descent to the place of a new entity |
| `ActiveTreeLoops.FirstActive` | kernel_management/V1/linux/block/bfq-wf2q.c:1350-1376 | the search loop; returns an eligible entity whenever the root says there is one |
| `Wf2qInvariant.UpdateWeightExact` | kernel_management/V1/linux/block/bfq-wf2q.c:720-815 | a weight or class update keeps the sums exact if and only if the entity counts in one of them or nothing changes |
| `Wf2qInvariant.ActivateKeeps` | kernel_management/V1/linux/block/bfq-wf2q.c:967-1037 | an activation leaves the entity on an active tree with on_st set, touches no other entity and keeps trees and sums exact |
| `Wf2qInvariant.RequeueKeeps` | kernel_management/V1/linux/block/bfq-wf2q.c:1039-1103 | the same for a requeue of the entity in service or of an active one |
| `Wf2qInvariant.LookupClassFinds` | kernel_management/V1/linux/block/bfq-wf2q.c:1400-1431 | on a non-empty tree the vtime jump makes some entity eligible and the lookup returns an eligible one; on an empty tree it returns none |
| `Wf2qInvariant.LookupFinds` | kernel_management/V1/linux/block/bfq-wf2q.c:1442-1497 | a lookup finds an entity exactly when one is active; it is eligible and of the first class that has any, or of the idle class when that has starved |
| `Wf2qInvariant.UpdateNextInv` | kernel_management/V1/linux/block/bfq-wf2q.c:74-144 | next_in_service afterwards exists, on an active tree, exactly when some entity is active |
| `Wf2qInvariant.ActivateRequeueInv` | kernel_management/V1/linux/block/bfq-wf2q.c:1105-1153 | bfq_activate_requeue_entity keeps the whole invariant |
| `Wf2qInvariant.TakeOffKeeps` | kernel_management/V1/linux/block/bfq-wf2q.c:1165-1206 | __bfq_deactivate_entity takes the entity off its tree, into the idle tree or out of the sums, and touches no other |
| `Wf2qInvariant.DeactivateInv` | kernel_management/V1/linux/block/bfq-wf2q.c:1215-1311 | bfq_deactivate_entity keeps the whole invariant |
| `Wf2qInvariant.GetNextInv` | kernel_management/V1/linux/block/bfq-wf2q.c:1509-1600 | bfq_get_next_queue puts next_in_service in service and keeps the whole invariant |
| `Wf2qInvariant.ResetInv` | kernel_management/V1/linux/block/bfq-wf2q.c:1602-1640 | resetting the entity in service once it is requeued keeps the invariant |
| `Wf2qInvariant.ServedInv` | kernel_management/V1/linux/block/bfq-wf2q.c:827-848 | charging service is defined, as the sum is at least 1, and keeps the invariant |
| `Wf2qInvariant.UpdateWrInv` | kernel_management/V1/linux/block/bfq-iosched.c:4585-4587 | a weight update outside activation keeps the invariant |
| `Wf2qRuns.RunKeeps` | kernel_management/V1/linux/block/bfq-wf2q.c:827-1640 | every run of the operations keeps the invariant |
| `Wf2qRuns.EveryRun` | kernel_management/V1/linux/block/bfq-wf2q.c:1509-1600 | in every reachable state next_in_service exists exactly when some entity is active, and then a selection is possible and serves an active entity |
| `Wf2qRuns.NeverDividesByZero` | kernel_management/V1/linux/block/bfq-wf2q.c:645-692 | in every reachable state each wsum is the sum of the weights of the class with on_st set, so it is at least the weight of any entity charged |
| `Wf2qPriority.LookupFirst` | kernel_management/V1/linux/block/bfq-wf2q.c:1442-1497 | a lookup that does not find the idle class starved picks from the first class that has anything active |
| `Wf2qPriority.StrictPriority` | kernel_management/V1/linux/block/bfq-wf2q.c:74-144 | over every run without starvation of the idle class next_in_service belongs to the first class that has anything active, also where the changed entity takes over without a lookup |
| `Wf2qEligible.RunFair` | kernel_management/V1/linux/block/bfq-wf2q.c:74-144 | over every run next_in_service is eligible or the first of its class to become so |
| `Wf2qEligible.ServesEligible` | kernel_management/V1/linux/block/bfq-wf2q.c:1509-1600 | in every reachable state the entity a selection puts in service is eligible if and only if any active entity of its class is |
| `Wf2qEligible.VtimeExact` | kernel_management/V1/linux/block/bfq-wf2q.c:667-692 | whatever the operation, the virtual time of a class goes back if and only if the class is charged while nothing of it is active and the last of its idle entities has an earlier finish time |
| `Wf2qBack.VtimeGoesBack` | kernel_management/V1/linux/block/bfq-wf2q.c:667-692 | a run of a scheduler just set up after which a charge of the queue in service sets virtual time back |
| `Wf2qEligible.StaysEligible` | kernel_management/V1/linux/block/bfq-wf2q.c:1039-1103 | over every run an eligible entity stays eligible for as long as it waits, whatever is activated, requeued, reweighed, deactivated, selected or charged |
| `Wf2qEligible.FinishPassed` | kernel_management/V1/linux/block/bfq-wf2q.c:895-1037 | an activated entity has its whole budget before it at the rate of the weight it asked for; its finish time has already passed if and only if it did not block, is weight-raised, stays in its class and its budget counted from its last finish time falls short of the virtual time |
| `Wf2qEligible.RaisedFinishPassed` | kernel_management/V1/linux/block/bfq-wf2q.c:933-961 | in a concrete state that satisfies the invariant, a weight-raised queue activated with a finish time that has passed |
| `Wf2qCharge.RequeueCharges` | kernel_management/V1/linux/block/bfq-wf2q.c:1039-1103 | the entity in service is charged for its service at the rate of its weight, within one unit of rounding, and has its budget before it at the rate of the weight it asked for; a new class takes it on at its virtual time |
| `Wf2qCharge.RequeueLaysOut` | kernel_management/V1/linux/block/bfq-wf2q.c:1039-1103 | a waiting entity keeps its start and is laid out anew for its budget |
| `Wf2qCharge.ResumesAt` | kernel_management/V1/linux/block/bfq-wf2q.c:967-1037 | idling gains nothing: an entity resumes at its last finish time or the virtual time, whichever is later, and one not on the idle tree at the virtual time |
| `Wf2qCharge.ResumesLate` | kernel_management/V1/linux/block/bfq-wf2q.c:895-1037 | an entity that did not block and is late resumes at its last finish time, pushed up by how far its finish time would be in the past divided by its weight-raising factor |
| `Wf2qCharge.AskedFor` | kernel_management/V1/linux/block/bfq-wf2q.c:720-815 | the weight becomes the nearest allowed to the one asked for, times the weight-raising factor; a class change takes effect only where allowed and stays pending otherwise |
| `Wf2qCharge.TakesEffect` | kernel_management/V1/linux/block/bfq-wf2q.c:720-815 | a change of weight, class or weight-raising factor asked for is in effect after the next enqueueing |
| `Wf2qCharge.DeactivateCharges` | kernel_management/V1/linux/block/bfq-wf2q.c:1165-1206 | a deactivated entity is charged for its service; it goes to the idle tree exactly if it may and its finish time is to come, and is forgotten otherwise |
| `Wf2qCharge.ServeAdvances` | kernel_management/V1/linux/block/bfq-wf2q.c:827-848 | serving moves virtual time on at the rate of the weight sum; with nothing active, not past the last idle finish time |
| `Wf2qCharge.ForgetsPassed` | kernel_management/V1/linux/block/bfq-wf2q.c:676-692 | a visit to the idle tree forgets the entity that finishes first, exactly if virtual time has reached its finish time, and no other |
| `Wf2qBest.LookupBest` | kernel_management/V1/linux/block/bfq-wf2q.c:1400-1497 | a lookup returns an entity that finishes no later than any eligible one of its class, if in no tree an eligible node that finishes later lies above a right turn on the way |
| `Wf2qBest.UpdateNextBest` | kernel_management/V1/linux/block/bfq-wf2q.c:74-144 | under the same condition next_in_service afterwards finishes no later than any eligible entity of its class, the changed one included |
| `Wf2qScheduler.Scheduler.ActiveInsertEntity` | kernel_management/V1/linux/block/bfq-wf2q.c:475-510 | insertion into the active tree by its two loops |
| `Wf2qScheduler.Scheduler.ActiveExtractEntity` | kernel_management/V1/linux/block/bfq-wf2q.c:577-605 | extraction from the active tree |
| `Wf2qScheduler.Scheduler.IdlePlace` | kernel_management/V1/linux/block/bfq-wf2q.c:374-397 | the place of an entity in the idle tree |
| `Wf2qInvariant.IdleInsertCore` | kernel_management/V1/linux/block/bfq-wf2q.c:612-628 | inserting an entity that is on no tree into the idle tree keeps that tree in order of finish time and in agreement with the entities, and the weight sums exact |
| `Wf2qInvariant.IdleExtractCore` | kernel_management/V1/linux/block/bfq-wf2q.c:344-364 | extracting an entity from the idle tree keeps the trees, first_idle and last_idle in agreement with the entities, and the weight sums exact |
| `Wf2qInvariant.ForgetCore` | kernel_management/V1/linux/block/bfq-wf2q.c:645-655 | forgetting an entity with on_st set keeps the weight sums exact |
| `Wf2qInvariant.ForgetIdleKeeps` | kernel_management/V1/linux/block/bfq-wf2q.c:676-692 | bfq_forget_idle keeps trees, sums and on_st, and leaves what is active, in service and next alone |
| `Wf2qInvariant.UpdateWeightCore` | kernel_management/V1/linux/block/bfq-wf2q.c:720-815 | a weight update of a linked entity keeps trees and sums exact, with a class change too if the entity is on no tree |
| `Wf2qInvariant.EnqueueKeeps` | kernel_management/V1/linux/block/bfq-wf2q.c:895-965 | an entity enqueued from no tree ends up on an active tree, its weight counted where it now belongs, and no other is touched |
| `Wf2qScheduler.Scheduler.ActivateEntity` | kernel_management/V1/linux/block/bfq-wf2q.c:967-1037 | new state as specified; an entity not active and not in service ends up on the active tree of its class and in its weight sum, trees and sums stay exact and no other entity is touched |
| `Wf2qScheduler.Scheduler.RequeueEntity` | kernel_management/V1/linux/block/bfq-wf2q.c:1039-1103 | new state as specified; an entity that is active or in service ends up active, and the one in service is charged for its service at the rate of its weight |
| `Wf2qInvariant.LookupClassChosen` | kernel_management/V1/linux/block/bfq-wf2q.c:1400-1431 | a lookup in a class finds nothing exactly when nothing of it is active, and otherwise an active entity eligible at the virtual time it jumps to; trees, sums and what is active stay |
| `Wf2qScheduler.Scheduler.LookupNext` | kernel_management/V1/linux/block/bfq-wf2q.c:1442-1497 | the loop over the classes |
| `Wf2qScheduler.Scheduler.UpdateNextInService` | kernel_management/V1/linux/block/bfq-wf2q.c:74-144 | new state as specified; the whole invariant holds afterwards, whatever next_in_service was before, and the new one is the best of its class if a lookup can find that |
| `Wf2qScheduler.Scheduler.ActivateRequeueEntity` | kernel_management/V1/linux/block/bfq-wf2q.c:1105-1153 | new state as specified; keeps the invariant |
| `Wf2qScheduler.Scheduler.TakeOffEntity` | kernel_management/V1/linux/block/bfq-wf2q.c:1165-1206 | new state as specified; a linked entity is no longer active, trees, sums and on_st stay exact and no other entity is touched |
| `Wf2qScheduler.Scheduler.DeactivateEntity` | kernel_management/V1/linux/block/bfq-wf2q.c:1215-1311 | new state as specified; keeps the invariant |
| `Wf2qScheduler.Scheduler.GetNextQueue` | kernel_management/V1/linux/block/bfq-wf2q.c:1509-1600 | returns and serves the active entity that was next; keeps the invariant |
| `Wf2qScheduler.Scheduler.Serve` | kernel_management/V1/linux/block/bfq-wf2q.c:827-848 | new state as specified; keeps the invariant |
| `BioInvariant.LinkKeeps` | kernel_management/V1/linux/block/bio.c:312-337 | chaining a live bio to another that is not below it keeps the counts and makes no cycle |
| `BioInvariant.LastArrival` | kernel_management/V1/linux/block/bio.c:1805-1822 | bio_remaining_done says yes only to the last arrival: the bio has completed, no chained bio is open, and its parent has not ended |
| `BioInvariant.CompleteKeeps` | kernel_management/V1/linux/block/bio.c:1838-1845 | a completion starts one more call of bio_endio and keeps the invariant |
| `BioInvariant.PassKeeps` | kernel_management/V1/linux/block/bio.c:1805-1874 | one pass of bio_endio keeps the invariant; the BUG_ON never fires |
| `BioTheorems.RunKeeps` | kernel_management/V1/linux/block/bio.c:304-337 | every interleaving keeps the invariant and only adds bios and chainings |
| `BioTheorems.EndedExactly` | kernel_management/V1/linux/block/bio.c:1838-1874 | a bio that has ended has its whole subtree completed, and with no bio_endio under way every such bio has ended |
| `BioTheorems.StatusExactly` | kernel_management/V1/linux/block/bio.c:304-312 | the status of an ended bio is non-zero if and only if some bio of its subtree failed, and is then the error of one that did |
| `BioTheorems.EveryRun` | kernel_management/V1/linux/block/bio.c:1805-1874 | over every interleaving: no BUG_ON, each end_io exactly once, only after and as soon as the subtree has completed, with zero or the error of a failed bio of the subtree |
| `BioTheorems.OwnError` | kernel_management/V1/linux/block/bio.c:304-312 | a bio whose own I/O failed keeps the driver's error as its status, whatever fails below it |
| `BioOrder.EndsInOrder` | kernel_management/V1/linux/block/bio.c:1805-1874 | over every interleaving the end_io of a chained bio runs before that of the bio it is chained to, and a bio carries BIO_CHAIN exactly while it has not ended and some bio is chained to it |
| `BioForest.Forest.constructor` | kernel_management/V1/linux/block/bio.c:268-280 | no bios; satisfies the invariant |
| `BioForest.Forest.AllocBio` | kernel_management/V1/linux/block/bio.c:268-280 | a bio with one arrival to come |
| `BioForest.Forest.SubmitBio` | kernel_management/V1/linux/block/bio.c:1019-1030 | the bio belongs to its driver |
| `BioForest.Forest.Chain` | kernel_management/V1/linux/block/bio.c:329-337 | the parent counts one more arrival |
| `BioForest.Forest.CompleteBio` | kernel_management/V1/linux/block/bio.c:1838-1845 | the status of a failed bio is set and bio_endio is called |
| `BioForest.Forest.RemainingDone` | kernel_management/V1/linux/block/bio.c:1805-1822 | counts an arrival and says whether it was the last |
| `BioForest.Forest.ChainEndio` | kernel_management/V1/linux/block/bio.c:304-312 | the parent carries an error afterwards exactly when it or the child did, and the first error is the one it keeps |
| `BioForest.Forest.OnePass` | kernel_management/V1/linux/block/bio.c:1838-1874 | one pass of the loop |
| `BioForest.Forest.Endio` | kernel_management/V1/linux/block/bio.c:1838-1874 | the loop up the chain; it terminates, is the climb of the specification and keeps the invariant |
| `Discard.NextBio` | kernel_management/V1/linux/block/blk-lib.c:13-23 | a new bio to which the previous one is chained before it is submitted |
| `Discard.RefusedBecause` | kernel_management/V1/linux/block/blk-lib.c:34-58 | each error code is returned exactly for what it stands for, in their order, and none exactly if the range is whole blocks on a device that can do it |
| `Discard.IssueDiscard` | kernel_management/V1/linux/block/blk-lib.c:25-83 | the error returns in order with nothing changed; otherwise bios that are aligned, within the size limit, adjacent and cover exactly the range, each chained to the next, whatever completes meanwhile |
| `Discard.StripExact` | kernel_management/V1/linux/block/blk-lib.c:57-81 | adjacent bios cover exactly the range from the first to the last, no sector twice |
| `Discard.WaitingForTheLast` | kernel_management/V1/linux/block/blk-lib.c:97-116 | over every further interleaving, once the last bio has ended all bios of the discard have completed, they cover the range, and a zero status means none failed |
| `MakeRequest.ExactlyOnce` | kernel_management/V1/linux/block/blk-core.c:1006-1095 | every bio of a submission tree that gets submitted is handled, rejected or failed exactly once |
| `MakeRequest.EventsDeserved` | kernel_management/V1/linux/block/blk-core.c:1042-1092 | whatever happens to a bio is what its checks, its queue and its flags call for |
| `MakeRequest.InOrder` | kernel_management/V1/linux/block/blk-core.c:1006-1095 | everything a child leads to happens before anything a later one does: those for other queues first, and alike ones in order of submission |
| `MakeRequest.Expands` | kernel_management/V1/linux/block/blk-core.c:1058-1081 | handling one bio replaces it at the head of the work by its children for other queues, then those for its own, and leaves fewer nodes to handle |
| `MakeRequest.Task.Submit` | kernel_management/V1/linux/block/blk-core.c:1006-1095 | the loop does what the recursion "the bio, then its children for other queues in order, then those for its own" does; called while active it only queues |
| `MakeRequest.Task.HandleOne` | kernel_management/V1/linux/block/blk-core.c:1053-1092 | one turn of the outer loop, also when the queue cannot be entered |
| `MakeRequest.Task.SortNew` | kernel_management/V1/linux/block/blk-core.c:1068-1077 | the inner loop splits the new bios by queue, in order |
| `MakeRequest.Task.Drive` | kernel_management/V1/linux/block/blk-core.c:1061-1066 | a driver that submits its children one by one, while the outer call is active |
| `RequestProofs.MergeBackKeeps` | kernel_management/V1/linux/block/blk-core.c:599-619 | a back merge blk_try_merge allows leaves contiguous bios and exact position and length |
| `RequestProofs.MergeFrontKeeps` | kernel_management/V1/linux/block/blk-core.c:621-643 | the same for a front merge |
| `RequestProofs.TryMergeExact` | kernel_management/V1/linux/block/blk-merge.c:898-907 | a bio is for the back exactly if it starts where the last one ends, and otherwise for the front exactly if it ends where the first starts |
| `RequestProofs.UpdateKeeps` | kernel_management/V1/linux/block/blk-core.c:1430-1511 | a completion of whole sectors keeps the bios contiguous and position and length exact, and never takes the "request botched" branch |
| `RequestProofs.BotchedExactly` | kernel_management/V1/linux/block/blk-core.c:1430-1511 | on any request: it is botched exactly if what is left is too short for the next segment, and then has the length of that segment; special payloads and requests without bios are left alone |
| `RequestProofs.EndsInOrder` | kernel_management/V1/linux/block/blk-core.c:229-243 | the bios that ended, then those left, are those there were, in order |
| `RequestProofs.UpdateTwice` | kernel_management/V1/linux/block/blk-core.c:1430-1511 | for any numbers of bytes: completing m and then n is completing m + n, bios, ends and length alike, if and only if the first completion finishes the request, or m is whole sectors or its odd bytes and those of n make no sector of the bio they are in, or that bio ends unreported, and n is not 0 or no bio that starts at m is still without the error; the position agrees if and only if the request is passthrough or finished by the first completion, or the odd bytes make no sector, or the second finishes it and m is less than a sector |
| `RequestProofs.OddBytesDiffer` | kernel_management/V1/linux/block/blk-core.c:1430-1511 | a concrete bio completed by half a sector twice or by a sector at once, left at different sectors |
| `RequestProofs.NothingMarksNext` | kernel_management/V1/linux/block/blk-core.c:1430-1511 | a concrete request in which a further completion of no bytes marks a bio with the error |
| `RequestProofs.HalvesDiffer` | kernel_management/V1/linux/block/blk-core.c:1475-1488 | a concrete request whose position differs when it is finished in two halves |
| `RequestProofs.PositionSplits` | kernel_management/V1/linux/block/blk-core.c:1484-1488 | for any byte counts that leave something, the positions agree if and only if the odd bytes of both make no whole sector |
| `RequestProofs.EveryRun` | kernel_management/V1/linux/block/blk-core.c:599-643 | over every run of merges and completions the request stays in order and each bio ever merged is exactly once among those ended or those left |
| `RequestObject.Request.constructor` | kernel_management/V1/linux/block/blk-core.c:599-619 | a request of one bio, in order |
| `RequestObject.Request.AttemptBackMerge` | kernel_management/V1/linux/block/blk-core.c:599-619 | merging a bio that blk_try_merge places at the back keeps the request whole: consecutive sectors, right position and length |
| `RequestObject.Request.AttemptFrontMerge` | kernel_management/V1/linux/block/blk-core.c:621-643 | the same for a bio placed at the front |
| `RequestObject.Request.EatBios` | kernel_management/V1/linux/block/blk-core.c:1453-1470 | the loop takes off or advances bios as the specification says |
| `RequestObject.Request.UpdateRequest` | kernel_management/V1/linux/block/blk-core.c:1430-1511 | new state as specified; returns whether anything is left |
| `MergeForest.RedirectKeeps` | kernel_management/V1/linux/block/bfq-iosched.c:2487-2528 | redirecting a root to a different root keeps a forest and every process reference count exact |
| `MergeForest.MoveKeeps` | kernel_management/V1/linux/block/bfq-iosched.c:2740-2811 | a process that moves on along new_bfqq keeps every count exact |
| `MergeForest.LeaveKeeps` | kernel_management/V1/linux/block/bfq-iosched.c:4903-4933 | a process that leaves drops exactly the references it held |
| `MergeForest.ChainIsAlive` | kernel_management/V1/linux/block/bfq-iosched.c:2478-2485 | every queue reached from one with process references has at least as many, so none can have been freed |
| `MergeQueues.Queues.FollowChain` | kernel_management/V1/linux/block/bfq-iosched.c:2487-2492 | the walk ends, at the root of the chain, or reports that the chain leads back |
| `MergeQueues.Queues.SetupMerge` | kernel_management/V1/linux/block/bfq-iosched.c:2473-2529 | a merge is scheduled if and only if both queues have process references and the chain does not lead back; the target is a different root |
| `MergeQueues.Queues.SetupCooperator` | kernel_management/V1/linux/block/bfq-iosched.c:2581-2675 | returns the queue already scheduled, or schedules a merge with the first candidate that allows it, never with the queue itself |
| `MergeQueues.Queues.MoveOn` | kernel_management/V1/linux/block/bfq-iosched.c:2740-2811 | the process and one reference move on |
| `MergeQueues.Queues.PutCooperator` | kernel_management/V1/linux/block/bfq-iosched.c:4903-4920 | the walk ends and drops one reference on every queue after the given one |
| `MergeQueues.Queues.GiveUp` | kernel_management/V1/linux/block/bfq-iosched.c:4922-4934 | the end of a process, or a split: new state as specified |
| `MergeQueues.Queues.GetQueue` | kernel_management/V1/linux/block/bfq-iosched.c:5124-5187 | a new queue with one process reference |
| `MergeQueues.EveryRun` | kernel_management/V1/linux/block/bfq-iosched.c:2473-2529 | over every run the redirections form a forest and no queue a process leads to is without references |
| `SkinProofs.SkinShape` | 3-3/src/comp_kernel/skin.c:79-110 | the skin has a file exactly where the tree has one, holding that file's record |
| `SkinProofs.AllButGit` | 3-3/src/comp_kernel/molt.c:166-170 | the files the two programs see are all but those at or below a `.git` |
| `SkinProofs.RecordRoundTrip` | 3-3/src/comp_kernel/skin.c:112-128 | the record is read back as it was written |
| `SkinProofs.WalkReaches` | 3-3/src/comp_kernel/molt.c:93-124 | the two-index walk reaches every name in both listings |
| `SkinProofs.WalkOnly` | 3-3/src/comp_kernel/molt.c:93-124 | what the walk copies comes from a name in both listings |
| `SkinProofs.SkinThenMolt` | 3-3/src/comp_kernel/molt.c:70-164 | skinning two trees and molting the skins copies a file if and only if it is a regular file in both trees and the digests differ |
| `SkinMolt.SkinNode` | 3-3/src/comp_kernel/skin.c:79-128 | the directory walk that writes the records |
| `SkinMolt.MoltNodes` | 3-3/src/comp_kernel/molt.c:70-164 | the two-index walk over two skins |
| `SkinMolt.SkinAndMolt` | 3-3/src/comp_kernel/molt.c:70-164 | both programs one after the other copy exactly the differing files |
| `BlkgHierarchy.ParentIsClosest` | kernel_management/V1/linux/block/blk-cgroup.c:344-357 | what the inner loop remembers is the closest blkg |
| `BlkgHierarchy.Blkgs.Create` | kernel_management/V1/linux/block/blk-cgroup.c:222-313 | a blkg is created with its parent's blkg as parent, or nothing changes |
| `BlkgHierarchy.Blkgs.FindTop` | kernel_management/V1/linux/block/blk-cgroup.c:344-357 | the inner loop ends at the topmost missing blkg |
| `BlkgHierarchy.Blkgs.LookupCreate` | kernel_management/V1/linux/block/blk-cgroup.c:328-367 | terminates by the missing ancestors, keeps the set of cgroups with a blkg closed under parent, and returns the own blkg or, exactly if a creation failed, that of the closest ancestor; nothing but the path to it was created |
| `Iolatency.MovedOk` | kernel_management/V1/linux/block/blk-iolatency.c:323-358 | the cookie stays within twice the depth below the default and never above it |
| `Iolatency.ClimbExact` | kernel_management/V1/linux/block/blk-iolatency.c:336-343 | moving up reaches the default after exactly the computed number of moves, and not before |
| `Iolatency.ClimbBound` | kernel_management/V1/linux/block/blk-iolatency.c:336-343 | that number is at most the depth plus the depth divided, rounded up, by the amount of one move |
| `Iolatency.RecoversWithin` | kernel_management/V1/linux/block/blk-iolatency.c:336-343 | from every reachable state that many moves up in a row reach the default |
| `Iolatency.AmountIs` | kernel_management/V1/linux/block/blk-iolatency.c:309-312 | a move is a sixteenth of the depth up and a quarter down, rounded down and at least 1 |
| `Iolatency.DownLowers` | kernel_management/V1/linux/block/blk-iolatency.c:344-357 | a move down lowers the cookie exactly until it is twice the depth below the default |
| `Iolatency.DropExact` | kernel_management/V1/linux/block/blk-iolatency.c:344-357 | exactly so many moves down put the cookie more than the depth below the default; from then on it sinks by one at a time to the floor |
| `Iolatency.FloorExact` | kernel_management/V1/linux/block/blk-iolatency.c:344-357 | the floor is reached after exactly the computed number of moves down |
| `Iolatency.DownIsFaster` | kernel_management/V1/linux/block/blk-iolatency.c:309-312 | five moves down undo what takes sixteen or more moves up |
| `Iolatency.FollowsDown` | kernel_management/V1/linux/block/blk-iolatency.c:365-458 | a group that sees the cookie go down halves its depth, down to 1, exactly if it is to blame |
| `Iolatency.FollowsUp` | kernel_management/V1/linux/block/blk-iolatency.c:365-458 | a group that sees the cookie go up gains a sixteenth of the depth unless a delay holds it at 1, and is not throttled at the default |
| `Iolatency.PartsIsCeiling` | kernel_management/V1/linux/block/blk-iolatency.c:309-312 | the number of parts is division rounded up |
| `Iolatency.CheckedOk` | kernel_management/V1/linux/block/blk-iolatency.c:391-458 | a group's depth stays in 1..qd or UINT_MAX, and is UINT_MAX once it has seen the default cookie |
| `Iolatency.EveryRun` | kernel_management/V1/linux/block/blk-iolatency.c:309-458 | over every run the cookie and every group stay in range |
| `Iolatency.BackToDefault` | kernel_management/V1/linux/block/blk-iolatency.c:449-455 | a group that checks at the default cookie is unthrottled |
| `Iolatency.Latency.MoveCookie` | kernel_management/V1/linux/block/blk-iolatency.c:323-358 | scale_cookie_change in place: the new state is the move of the specification, in range; up raises it exactly if it is below the default, down lowers it exactly if it is above the floor |
| `Iolatency.Latency.ScaleDepth` | kernel_management/V1/linux/block/blk-iolatency.c:365-388 | the depth stays in range; scaling up never lowers it, scaling down lowers it unless it is 1 |
| `Iolatency.Latency.CheckScale` | kernel_management/V1/linux/block/blk-iolatency.c:391-458 | check_scale_change in place: the new state is the check of the specification, and the invariant is kept |
| `CpuMap.InWindow` | kernel_management/V1/linux/block/blk-mq-cpumap.c:18-22 | every possible CPU has an index in its queue window; no unset entry was ever copied |
| `CpuMap.Onto` | kernel_management/V1/linux/block/blk-mq-cpumap.c:35-75 | with at least as many possible CPUs as queues every queue is used |
| `CpuMap.OneToOne` | kernel_management/V1/linux/block/blk-mq-cpumap.c:35-75 | with no more possible CPUs than queues no two share one |
| `CpuMap.PresentOneToOne` | kernel_management/V1/linux/block/blk-mq-cpumap.c:44-52 | with no more present CPUs than queues no two present ones share one |
| `CpuMap.MapQueues` | kernel_management/V1/linux/block/blk-mq-cpumap.c:35-75 | the present CPUs take turns first, then the others; when all queues are given out a CPU shares with its core |
| `CpuMap.SpreadPresent` | kernel_management/V1/linux/block/blk-mq-cpumap.c:44-52 | the loop over present CPUs |
| `CpuMap.FillRest` | kernel_management/V1/linux/block/blk-mq-cpumap.c:54-72 | the loop over the other possible CPUs |

## Left out

- FlushInvariant.RunKeeps: the BUG_ONs at blk-flush.c:194 and :393, that an ended request is on no other list and that a sequenced one has at most one bio, are not modelled, as requests have neither here; the flush request's own tag, driver tag and reference count are not modelled; a flush completion is one event with a status.
- FlushQueue.Queue.InsertFlush: the BUG_ON at blk-flush.c:393, that a sequenced request has at most one bio, is not modelled, as requests have no bios here; jiffies do not wrap around.
- Badblocks.Table.Set: the packing of a range into 64 bits is not modelled, because include/linux/badblocks.h is not part of this model, and the size of the page is a parameter.
- Badblocks.Table.Check: the seqlock retry is not modelled, as nothing changes the table during a check.
- ActiveTreeProofs.AlwaysGood: colours and balance of the red-black tree are not modelled; the rotations happen at any level and in any of the combinations the library has, which covers the ones it chooses.
- Wf2qRuns.EveryRun: flat configuration only, as the early exit in bfq_get_next_queue leaves upper levels stale by design; virtual times are unbounded integers, so the wrap-around comparison of bfq_gt is plain order.
- Wf2qScheduler.Scheduler.GetNextQueue: the count of busy queues is not modelled; it is called when next_in_service exists.
- Wf2qInvariant.IdleInsertCore: last_idle follows the code, ties included; that it is the maximum is not claimed.
- Wf2qScheduler.Scheduler.ActivateRequeueEntity: the references an entity holds on its queue and the group statistics are not modelled.
- BioForest.Forest.Endio: integrity payloads, tracing, throttling and the release of a chained bio's memory are not modelled; the invariant says that an ended bio is not touched again.
- Discard.IssueDiscard: while it loops only completions of bios happen, not submissions by others, which touch other bios; the logical block size is a whole number of sectors.
- Discard.WaitingForTheLast: that blkdev_issue_discard turns EOPNOTSUPP into success is not modelled.
- MakeRequest.Task.Submit: the value returned by make_request_fn is not modelled; what a driver submits is given by a finite tree.
- RequestProofs.UpdateKeeps: completions of whole sectors on bios that hold data; accounting, failfast flags and segment counts are not modelled.
- RequestObject.Request.AttemptBackMerge: whether the queue limits allow the merge is a parameter.
- MergeQueues.Queues.SetupCooperator: the heuristics that choose candidates are parameters; async queues and the out-of-memory queue, which never merge, are left out.
- SkinMolt.SkinAndMolt: MD5 is any function to 32 characters; listings are in strcmp order, as in the C locale; fixed buffer sizes, unreadable files and the shell commands that do the copying are not modelled.
- BlkgHierarchy.Blkgs.LookupCreate: the policies' init and online hooks and the lookup hint are not modelled.
- Iolatency.EveryRun: nr_requests is fixed and at most half the default cookie; the counters of blkcg_use_delay are not modelled.
- CpuMap.MapQueues: the first CPU of a core is a possible CPU and not after the others of the core; where the topology gives none it is the CPU itself.
- Everything under 3-3/public, start.js, ssu_diff.c, prompt.c: user interface and process plumbing.
- BFQ's heuristics (weight raising, bursts, injection, idling) and their counters: tuning without an invariant to prove.
- Recursive cgroup statistics, write-same and zero-out, plugging, integrity, debugfs, user-memory mapping: would add members but no harder property.
