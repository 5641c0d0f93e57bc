# Replay determinism, modelled and proved

The repository makes one promise: a single-device replay recomputes exactly the bits a training
cluster produced. This project models the algorithms that promise rests on and proves, for each, that
the fast, distributed or lazy form equals a simple one. `dafny verify dfyconfig.toml` checks it all.

## What is modelled

**Fixed-order gradient reduction.** Elements belong to an abstract type with an addition that is
assumed commutative and nothing else, and an opaque scaling by a count, so the grouping of the
additions is itself the theorem. `ReduceTree` has the binary-blocks tree and the loops that compute it;
`Rendezvous` is a network of processes with blocking send, receive and exchange, in which any transfer
whose two sides are ready may happen next; `RecursiveDoubling` and `AllReduce` derive each rank's
operations from the butterfly, the cross-block combine and the binomial broadcast, and prove that every
schedule ends with the tree's value on every rank and that no schedule can get stuck. `TreeFold` is the
audit's streaming binary-carry fold, with its spill files and the gradients it has in memory,
`GradientReduce` composes the two levels, counts what the audit's loop has in memory and compares cluster
and audit element by element, `CoalescedHook` is the replicate hook in both its modes, down to the protocol.

**Canonical data stream.** `SourceWalker` serves documents from a per-epoch permutation,
`BatchSchedule` is the world-size-independent step layout, `StreamModel` follows the stream as cells
that say where each token comes from, `StreamOrder` says which documents those are, `GlobalStream` and
`ShardedView` are the plain and the lazy classes, `StepStream` deals windows to ranks, `DocMap` is the
document map, `FetchInterval` the minimal fetch. The source-mix generator is an abstract deterministic
machine.

**Corpus builder.** `OrderedDrain` is the concurrent fetch pool with its in-order writer; an
item yields any number of lines, of which the source-code pull is the case of at most one (a failed or
blank fetch yields none). `RoundRobin` is the work order over directories, `LineSplit` and `LineOrder`
the byte-range line splitter over one and several files, `IndexedDataset` the shard format down to its
bytes, `ShardWriter` and `CorpusShards` the sharder, the merge of the workers' manifests and the way back.

**State-tree codec.** `StateCodec` flattens a nested state into named tensors and a skeleton, with the
dictionary shared between calls and trees.

**Run-level machines.** `SpikeProtocol` is the skip, cooldown and halt protocol with the loop that
drives it, `HashChain` the chained state hash of the training loop and of the audit.

`Wrappers`, `Arithmetic`, `Powers`, `Sequences`, `Sets` and `Bytes` are shared helpers.

## What callers must provide

These are the demands the code makes, stated as `requires` or as assumptions of the theorems.

- Source names are distinct, because a saved stream state is keyed by name (`StreamModel.Index.Valid`),
  and every source has at least one document.
- A walker's source has at least as many documents as there are ranks; the canonical stream uses one
  rank.
- An auditable step has a micro-batch count divisible by the number of ranks
  (`src/pretrain/train/loop.py:809`); the loop refuses others. The stream theorems do not need it.
- The document map is made with the micro-batch size of the view it walks.
- The drain limit is at least one. Below one, what is written depends on the schedule: at most one line.
- The segment reader's worker lies inside its team, or the call is refused.
- Buffers stashed by the reduction hook do not alias, all ranks agree on install indices and sizes, and
  between two flushes each module's hook fires once. Without buckets all ranks must fire in one order:
  `CoalescedHook.ImmediateAgreesExactly`. Buckets need no order.
- Scaling by one changes nothing: with one replicate the audit does it and the cluster does not
  (`GradientReduce.OneIsNeutral`).
- Shard basenames are distinct within a source, and source basenames are distinct, so that a shard is
  one file.
- A file on the local disk that hashes to a shard's recorded hash is that shard's payload.
- A resumed session keeps the checkpoint's chain and training state, so an optimizer reset on resume is
  outside the hash-chain theorems.

## Where the code and its words differ

- The class documentation of the replicate all-reduce says it relies on a power-of-two degree
  (`src/pretrain/parallel/deterministic_reduce.py:325-327`). The code and its other comments support every
  degree, and the theorems hold for every degree.
- `_binary_blocks(0)` shifts by a negative count and raises; the model requires at least one rank, and
  `tree_reduce_sum` refuses the empty list before it gets there.
- The schema's check of the spike settings uses the configured skip length, the protocol a clamped one.
  `SpikeProtocol.AcceptedCanHalt` says exactly for which accepted settings a halt is possible, and
  `SpikeProtocol.AcceptedButNeverHalts` gives settings that pass the check and never halt.
- The audit's comment (`src/pretrain/cli/audit_replay.py:2557-2558`) says the cluster hashed a halting step;
  the loop raises before hashing it (`src/pretrain/train/loop.py:993`). `HashChain.HaltAgreement` says
  exactly when the audit of a halted interval still reports a hash the loop recorded. The difference never
  shows between two saved checkpoints, as `HashChain.AuditMatchesLoop` proves.
- With periodic hashing off the loop still stamps checkpoints with a chained hash, of the writing rank's
  shard alone; the audit reports the chain it started from or an unchained hash of all ranks without
  gradients. `HashChain.HashingOffMatchesExactly` says when they are the same all the same: one rank, no
  chain, and gradients left out of the hash (`src/pretrain/config/schema.py:364-367`).
- With several input files the workers' outputs in worker order are a rearrangement of the one-worker
  output, not always the same sequence. `LineOrder.OrderIsKeptExactly` says exactly when it is the same;
  for one file it always is.
- The fold's documentation (`src/pretrain/cli/audit_replay.py:326-338`, `1675-1698`) says about two gradients
  are in memory at once, for any number of replicates. The loop keeps the last gradient it read bound while
  the next is read, through every push and through the result (`src/pretrain/cli/audit_replay.py:2468-2517`).
  `GradientReduce.AuditInTwo` says exactly when two are enough, which is never when the audit spills;
  `GradientReduce.AuditInThree` and `GradientReduce.AuditInFour` say when three are, and that four always are.
- In its immediate mode the hook is said to give the same bits as the bucketed one
  (`src/pretrain/parallel/deterministic_reduce.py:388-394`). `CoalescedHook.OppositeOrders` is an input on which
  it does not, `CoalescedHook.ImmediateAgreesExactly` the exact condition.

## Model

| member | source | states |
|---|---|---|
| ReduceTree.BinaryBlocks | src/pretrain/parallel/deterministic_reduce.py:141-159 | the bit-scanning loop yields the blocks a top-bit recursion gives |
| ReduceTree.BlocksTile | src/pretrain/parallel/deterministic_reduce.py:142-151 | the blocks cover all ranks contiguously and shrink strictly |
| ReduceTree.BlocksAreBits | src/pretrain/parallel/deterministic_reduce.py:144 | a block of size b exists exactly when b is a set bit of the count |
| ReduceTree.ReduceBlock | src/pretrain/parallel/deterministic_reduce.py:179-183 | pairing neighbours level by level gives the balanced tree of the block |
| ReduceTree.TreeReduceSum | src/pretrain/parallel/deterministic_reduce.py:162-186 | the loop's result is the binary-blocks tree of the parts; exactly the empty list is refused |
| ReduceTree.TreeSumRelates | src/pretrain/parallel/deterministic_reduce.py:162-186 | the tree's shape depends on the count alone: any relation kept by the operations is kept by the sums |
| ReduceTree.TreeUsesEveryRankOnce | src/pretrain/parallel/deterministic_reduce.py:162-186 | as an expression over rank numbers, the tree's leaves are all ranks once, in ascending order |
| Rendezvous.TransferIsMatched | src/pretrain/parallel/deterministic_reduce.py:189-192 | in a wired network, whatever transfer is enabled joins a send to the one receive meant for it |
| Rendezvous.MatchUnique | src/pretrain/parallel/deterministic_reduce.py:189-192 | a send has only one matching receive |
| Rendezvous.StepKeeps | src/pretrain/parallel/deterministic_reduce.py:189-192 | every enabled step keeps each rank's buffer at the value its place in the program prescribes |
| Rendezvous.Progress | src/pretrain/parallel/deterministic_reduce.py:189-192 | a reachable state that is not finished has an enabled step: no deadlock |
| Rendezvous.WorkDrops | src/pretrain/parallel/deterministic_reduce.py:189-192 | every step lowers the remaining work, so no schedule runs for ever |
| RecursiveDoubling.PartnerMutual | src/pretrain/parallel/deterministic_reduce.py:261-265 | a butterfly partner is another rank of the same block, and partnership is mutual |
| RecursiveDoubling.SendMeetsReceive | src/pretrain/parallel/deterministic_reduce.py:195-290 | every send of the protocol has a receive from this sender, on the addressed rank, at the same stamp |
| RecursiveDoubling.ReceiveMeetsSend | src/pretrain/parallel/deterministic_reduce.py:195-290 | and every receive has such a send |
| RecursiveDoubling.Exchange | src/pretrain/parallel/deterministic_reduce.py:261-273 | one exchange makes the sums of two neighbouring runs into the sum of their union, lower run on the left |
| RecursiveDoubling.AnyStep | src/pretrain/parallel/deterministic_reduce.py:261-284 | at every stamp of every phase, what a rank computes from what it holds and receives is the prescribed next value |
| AllReduce.FindBlock | src/pretrain/parallel/deterministic_reduce.py:254-257 | the search finds the block that holds the rank |
| AllReduce.Butterfly | src/pretrain/parallel/deterministic_reduce.py:261-273 | the mask loop issues the exchanges of the timetable |
| AllReduce.HeadReport | src/pretrain/parallel/deterministic_reduce.py:276-280 | rank 0 receives the block sums in ascending block order |
| AllReduce.BinomialBroadcast | src/pretrain/parallel/deterministic_reduce.py:195-220 | the receive and send loops issue the broadcast part of the timetable, for every rank count |
| AllReduce.RankProgram | src/pretrain/parallel/deterministic_reduce.py:223-284 | the code of one rank issues exactly the operations the timetable gives it, in its order |
| AllReduce.ProgramsWired | src/pretrain/parallel/deterministic_reduce.py:195-290 | the ranks' programs fit together: every send has its receive and the other way round, for every rank count |
| AllReduce.ProgramsValues | src/pretrain/parallel/deterministic_reduce.py:223-290 | every operation of every rank turns the value prescribed before it into the value prescribed after it |
| AllReduce.AllReduceIsSafe | src/pretrain/parallel/deterministic_reduce.py:223-290 | for every rank count and every schedule: a finished run leaves the tree sum on every rank, so all return the same scaled sum; an unfinished one has a next step; its length is bounded |
| AllReduce.AllReduceFinishes | src/pretrain/parallel/deterministic_reduce.py:223-290 | every legal schedule can be extended to one that finishes |
| TreeFold.StackFoldsToTreeSum | src/pretrain/cli/audit_replay.py:297-323 | what waits on the stack, folded in ascending order, is the tree sum of everything pushed |
| TreeFold.StackSpellsCount | src/pretrain/cli/audit_replay.py:308-314 | the waiting partials are the blocks of the number of pushes |
| TreeFold.DiskTreeFold.constructor | src/pretrain/cli/audit_replay.py:340-343 | a new fold waits for nothing, owns no file and keeps nothing in memory |
| TreeFold.DiskTreeFold.Store | src/pretrain/cli/audit_replay.py:345-351 | a spilled partial goes to a new file, an in-memory one nowhere |
| TreeFold.DiskTreeFold.Fetch | src/pretrain/cli/audit_replay.py:353-358 | a spilled partial comes back into memory equal and its file is gone; one in memory is handed out as it is |
| TreeFold.DiskTreeFold.Merge | src/pretrain/cli/audit_replay.py:363-368 | one carry reads the equal-level partial back and adds to it in place, on the left; the most in memory so far is exact, and the old sum leaves the memory unless the caller still holds it |
| TreeFold.DiskTreeFold.Push | src/pretrain/cli/audit_replay.py:360-369 | a push keeps the invariant: each entry is its block's tree, levels strictly fall, the files are the entries; memory holds what the caller and the stack refer to and nothing else; and it says exactly how many gradients were in memory at the worst moment, for any number the caller holds |
| TreeFold.CarryEnd | src/pretrain/cli/audit_replay.py:361-368 | a push carries as often as the count before it has consecutive low set bits |
| TreeFold.TwoInMemory | src/pretrain/cli/audit_replay.py:326-338 | a spilling push stays within two gradients exactly when the caller holds its operand alone and the count before it is not 3 modulo 4, or one more gradient and that count is even |
| TreeFold.DiskTreeFold.WaitingSpellCount | src/pretrain/cli/audit_replay.py:334-343 | one waiting partial per set bit of the count; in spill mode exactly one file per entry and none in memory, otherwise one gradient in memory per entry |
| TreeFold.DiskTreeFold.Total | src/pretrain/cli/audit_replay.py:371-388 | the result is the tree sum of all pushes in order, summed into the first entry; exactly the empty fold is refused; no spill file is left, and the most in memory at once is exact, what the caller holds included |
| GradientReduce.ReduceScatter | src/pretrain/parallel/deterministic_reduce.py:77-117 | in-place accumulation gives the ascending sum of this rank's chunks, scaled for AVG |
| GradientReduce.LeftSumIsComb | src/pretrain/parallel/deterministic_reduce.py:95-97 | the ascending sum, as an expression: all ranks once in order, each added as a single right operand |
| GradientReduce.ScatterElement | src/pretrain/parallel/deterministic_reduce.py:77-117 | element i of shard d is the ascending sum of the sources' elements d * k + i, scaled by the number of sources exactly for AVG |
| GradientReduce.AuditFold | src/pretrain/cli/audit_replay.py:2348-2517 | the per-rank loop with its inner sum, in place on the first shard's gradient, and the streaming fold computes the audit's two-level gradient, and the most gradients in memory while it spills are exactly the stated peak |
| GradientReduce.AuditInTwo | src/pretrain/cli/audit_replay.py:1675-1698 | the documented two gradients are enough exactly for one shard and fewer than three replicates or two shards of one replicate; so never when the audit spills |
| GradientReduce.AuditInThree | src/pretrain/cli/audit_replay.py:2468-2517 | three are enough exactly below four replicates, or for one shard when the replicates form at most two blocks |
| GradientReduce.AuditInFour | src/pretrain/cli/audit_replay.py:2468-2517 | four are enough for every mesh |
| GradientReduce.TreeSumElement | src/pretrain/parallel/deterministic_reduce.py:244-249 | the reduction is element-wise: element j of the sum is the tree sum of the elements j |
| GradientReduce.ClusterElement | src/pretrain/parallel/deterministic_reduce.py:95-107 | element i of the cluster's shard d: per replicate the ascending sum over its shards scaled by their number, then the tree over the replicates scaled by theirs |
| GradientReduce.AuditElement | src/pretrain/cli/audit_replay.py:2348-2511 | element j of the audit's gradient: the same expression over the same per-rank elements |
| GradientReduce.ShardIsChunk | src/pretrain/cli/audit_replay.py:2239-2249 | shard d of the cluster's gradient is chunk d of the audit's; for one replicate, which the cluster does not scale, if scaling by one changes nothing |
| GradientReduce.ClusterEqualsAudit | src/pretrain/cli/audit_replay.py:2239-2511 | for every mesh and every schedule, each replicate's reduced shard is that chunk of the single-device fold; with one replicate the reduce-scatter's output is, unscaled, if scaling by one changes nothing |
| CoalescedHook.CoalescedPiece | src/pretrain/parallel/deterministic_reduce.py:388-415 | reducing a concatenation and cutting a piece out equals reducing the piece |
| CoalescedHook.ReplicateAllReduce.OnModule | src/pretrain/parallel/deterministic_reduce.py:351-361 | stashes, or writes the reduced value in place, or with one rank does nothing |
| CoalescedHook.ReplicateAllReduce.ReduceBuffers | src/pretrain/parallel/deterministic_reduce.py:388-415 | every buffer ends with the value a reduction of it alone gives |
| CoalescedHook.ReplicateAllReduce.Flush | src/pretrain/parallel/deterministic_reduce.py:363-379 | every stashed buffer ends with the reduction of its own module's shards, nothing else changes, the stash is empty |
| CoalescedHook.StashIgnoresOrder | src/pretrain/parallel/deterministic_reduce.py:374-377 | the stash after any firing order of the same modules is the same |
| CoalescedHook.ReplicateAllReduce.Backward | src/pretrain/parallel/deterministic_reduce.py:351-361 | the hooks of a backward pass, each rank in its own order: with buckets everything is stashed and untouched; without, nothing is stashed and the k-th module to fire holds the reduction of what the ranks fired k-th |
| CoalescedHook.ReplicateAllReduce.ReduceStep | src/pretrain/parallel/deterministic_reduce.py:351-379 | a whole step, each rank firing in its own order: with buckets each buffer ends with the reduction of its own module's shards, whatever the orders; without, with the reduction of the shards that met in its call; the stash is empty |
| CoalescedHook.OneOrderAgrees | src/pretrain/parallel/deterministic_reduce.py:351-361 | when all ranks fire in one order the immediate mode leaves in every buffer what buckets leave |
| CoalescedHook.ImmediateAgreesExactly | src/pretrain/parallel/deterministic_reduce.py:351-361 | and only then: as expressions over distinct shards, a rank's buffers all end with the right sum if and only if every rank fires in that rank's order |
| CoalescedHook.OppositeOrders | src/pretrain/parallel/deterministic_reduce.py:351-361 | two ranks that fire two modules in opposite orders add module 0 of one to module 1 of the other |
| CoalescedHook.ProtocolReturns | src/pretrain/parallel/deterministic_reduce.py:223-290 | every finished run of the ranks' programs on the staged buffers returns, on every rank, the value the hook's collective stands for |
| CoalescedHook.FlushEqualsAudit | src/pretrain/parallel/deterministic_reduce.py:363-415 | hook, protocol and audit together: in every schedule of the coalesced collective, the piece a replicate cuts out for a module is its chunk of the gradient the single-device fold gives for that module |
| CoalescedHook.StashesAre | src/pretrain/parallel/deterministic_reduce.py:337-341 | what the ranks bring to the collective does not depend on their orders |
| SourceWalker.LocationIsUnique | src/pretrain/data/mix_sampler.py:212-214 | the search finds the only shard and position of a document, also with empty shards |
| SourceWalker.BuildGlobalPerm | src/pretrain/data/mix_sampler.py:143-186 | the loop over the shuffled shards builds the epoch's order |
| SourceWalker.EpochAt | src/pretrain/data/mix_sampler.py:143-186 | the order by position: behind the documents of the shards before it in the epoch's shard order, entry j of a shard's run is entry j of that epoch's own shuffle of that shard |
| SourceWalker.EpochIsPermutation | src/pretrain/data/mix_sampler.py:143-150 | for any shard order and any orders within shards, the epoch's order is a permutation of all documents |
| SourceWalker.SourceWalker.NextDocumentRef | src/pretrain/data/mix_sampler.py:194-215 | serves the strided document, rolls the epoch over at its end, and returns a valid location |
| SourceWalker.EpochWalk | src/pretrain/data/mix_sampler.py:204-211 | within an epoch a rank's walk visits every world-size-th entry of the order |
| SourceWalker.WalkedPlace | src/pretrain/data/mix_sampler.py:204-211 | the place after any number of steps, across any number of epochs |
| SourceWalker.WalkServes | src/pretrain/data/mix_sampler.py:194-215 | the document served by any step, named by shard order and document shuffle of the epoch it falls into |
| SourceWalker.EachDocumentOnce | src/pretrain/data/mix_sampler.py:197-211 | in each epoch exactly one rank serves a document, exactly once |
| BatchSchedule.MicrobatchesCover | src/pretrain/train/batch_schedule.py:31-100 | a step has the fewest whole micro-batches that cover its budget: the warm-up one below the first bound, then the main one below the second, then the late one |
| BatchSchedule.GradAccumIsShare | src/pretrain/train/batch_schedule.py:46-66 | the per-rank count of the old schedule is rank 0's share; both agree on the total exactly when the world size divides it |
| BatchSchedule.IndicesAreStrided | src/pretrain/train/batch_schedule.py:131-140 | a rank's micro-batches are rank, rank + ws, and so on, and `accum_for_rank` counts them |
| BatchSchedule.OwnedOnce | src/pretrain/train/batch_schedule.py:134-138 | every micro-batch is listed by exactly its owner, at local index m div ws |
| BatchSchedule.IterStepPlans | src/pretrain/train/batch_schedule.py:180-209 | the generator's plans are those of the cursor moved step by step |
| BatchSchedule.PlanAt | src/pretrain/train/batch_schedule.py:180-209 | plan i has the step number, token count and window count its predecessors lead to, and the micro-batches and tokens of its own step |
| BatchSchedule.StepAccounts | src/pretrain/train/batch_schedule.py:103-116 | after n steps n are counted, and every window emitted is counted with seq_len tokens |
| BatchSchedule.CursorCompose | src/pretrain/train/batch_schedule.py:187-193 | enumerating from a later cursor continues the same enumeration |
| BatchSchedule.PositionIsExact | src/pretrain/train/batch_schedule.py:170-177 | succeeds exactly inside the step, with the one micro-batch and slot that give the window back |
| GlobalStream.GlobalStream.NextWindow | src/pretrain/data/global_stream.py:132-140 | the packing loop emits the stream's next window and moves to the next position |
| GlobalStream.GlobalStream.State | src/pretrain/data/global_stream.py:116-123 | the snapshot of the position |
| StreamModel.ResumeSnapshot | src/pretrain/data/global_stream.py:95-111 | a stream built from a snapshot reads the same tokens as the one that was saved |
| StreamModel.WindowsCompose | src/pretrain/data/global_stream.py:132-140 | the first j + k windows are the first j and then the k from where those end |
| StreamModel.ResumeIsInvisible | src/pretrain/data/global_stream.py:116-140 | saving after j windows and resuming changes no later window and no later snapshot |
| StreamModel.FetchSuffices | src/pretrain/data/fetch_interval.py:1-27 | payloads that agree on the touched shards give the same windows and final state |
| StreamOrder.StreamFollows | src/pretrain/data/global_stream.py:125-140 | document i comes from the source the mix generator picks after i draws and is the next one of that source's own walk; the position left has made all those draws and steps |
| StreamOrder.DrawsNoMore | src/pretrain/data/global_stream.py:132-140 | exactly as many documents are drawn as the windows need |
| StreamOrder.StreamReads | src/pretrain/data/global_stream.py:125-140 | the windows end to end, then the buffer, are the buffered tokens and every drawn document's tokens with one separator after each |
| StreamOrder.FreshStream | src/pretrain/data/global_stream.py:82-131 | a fresh stream's document i from the shuffles alone: source, epoch, shard and document |
| StreamOrder.TouchedIsDrawn | src/pretrain/data/global_stream.py:359-416 | the shards touched are those of the documents drawn and no others |
| StreamOrder.ResumePlaces | src/pretrain/data/global_stream.py:88-111 | a resumed stream takes up each source by name, a source the state does not name from its start |
| StreamOrder.SnapshotNames | src/pretrain/data/global_stream.py:116-123 | a saved state holds every source's count and epoch by name, the generator, the buffered tokens and the window count |
| ShardedView.ShardedWindowView.constructor | src/pretrain/data/global_stream.py:166-234 | a view starts where the plain stream would resume |
| ShardedView.ShardedWindowView.RefillSegs | src/pretrain/data/global_stream.py:248-258 | adds the drawn document and a separator as segments, and notes the reference when asked |
| ShardedView.ShardedWindowView.Take | src/pretrain/data/global_stream.py:260-290 | consumes n cells; when asked, returns their tokens and reads exactly their documents, empty ones aside; otherwise reads no payload; lists exactly the document fragments consumed |
| ShardedView.ShardedWindowView.TakeWindow | src/pretrain/data/global_stream.py:292-300 | the lazy form yields exactly the plain stream's next window |
| ShardedView.ShardedWindowView.Step | src/pretrain/data/global_stream.py:345-355 | one step yields exactly the micro-batches this rank owns of the stream's next windows, in order |
| ShardedView.ShardedWindowView.Iterate | src/pretrain/data/global_stream.py:332-355 | any number of steps: this rank's share of the plain stream and the position of the plain stream; the documents read are exactly those with a token in a window the rank owns, documents without tokens aside |
| ShardedView.ShardedWindowView.MaterializeBuffer | src/pretrain/data/global_stream.py:302-319 | the buffered tokens, read back across partly consumed segments from exactly their documents, empty ones aside |
| ShardedView.ShardedWindowView.State | src/pretrain/data/global_stream.py:321-330 | the snapshot the plain stream would give at this position |
| StepStream.DealtToOwner | src/pretrain/train/batch_schedule.py:131-151 | interleaving the ranks by owner gives every window of the step back |
| StepStream.DealtCount | src/pretrain/train/batch_schedule.py:119-128 | each rank takes `accum_for_rank` micro-batches |
| StepStream.CountersAgree | src/pretrain/data/global_stream.py:336-347 | the stream's window counter and the step plans' stay equal |
| StepStream.RanksInterleave | src/pretrain/data/global_stream.py:332-355 | over any number of steps and any world size, the ranks' micro-batches interleaved by owner are the stream's next windows |
| StepStream.EveryWindowIsDealt | src/pretrain/train/batch_schedule.py:170-209 | every window of these steps has its step, micro-batch and slot |
| StepStream.RankResumeIsInvisible | src/pretrain/data/global_stream.py:197-234 | resuming after any number of steps changes no later micro-batch of any rank, across epochs and partly read documents |
| StepStream.ReplayNeedsOnlyTouched | src/pretrain/data/fetch_interval.py:9-22 | a corpus right on the touched shards replays identically for every virtual rank |
| DocMap.WalkStepSpans | src/pretrain/data/global_stream.py:422-466 | refuses a view being walked or holding carry-over; otherwise lists every step's plan and fragments without reading payload |
| DocMap.StreamTiles | src/pretrain/data/global_stream.py:125-140 | windows and buffer together are the drawn documents whole, each with its separator: nothing lost, repeated or moved |
| DocMap.FragmentsTileDocuments | src/pretrain/data/global_stream.py:427-435 | the fragments of a step, end to end, are the consumed documents from first to last token, without gap or overlap |
| DocMap.WalkTilesDocuments | src/pretrain/data/global_stream.py:422-466 | the same over all steps of a walk |
| DocMap.MappedWindowLength | src/pretrain/data/global_stream.py:430-431 | a mapped window's fragment lengths and its separators sum to the window length |
| DocMap.WindowFacts | src/pretrain/data/global_stream.py:437-441 | without carry-over no window holds a resumed literal, and every window has seq_len + 1 tokens |
| DocMap.StepRows | src/pretrain/data/doc_map.py:47-75 | one row per fragment with its grid cell and running fragment number, or a refusal exactly when a window is outside the step |
| DocMap.FragNext | src/pretrain/data/doc_map.py:40-76 | the fragment number starts at 0 in a window and counts up by one |
| DocMap.WalkedRowTrains | src/pretrain/data/doc_map.py:57-75 | from some offset on, row `slot` of micro-batch m div ws of rank `dp_rank` in that step holds exactly the row's tokens of its document |
| DocMap.WalkedInStep | src/pretrain/train/batch_schedule.py:170-177 | no fragment of a walked step lies outside its plan, so no row is refused |
| DocMap.RowsCoverWindow | src/pretrain/data/doc_map.py:57-75 | for every window of a step, its rows are exactly its document tokens, in order |
| DocMap.IterDocMap | src/pretrain/data/doc_map.py:78-89 | the map up to a step: refused only as the walk is, reads no payload, every row trains where it says and carries its fragment's number within the window, the rows of a window cover it, and all rows together tile the consumed documents |
| FetchInterval.EnumerateTouched | src/pretrain/data/fetch_interval.py:232-288 | finds exactly the shards touched by the steps that start before the target, reading no payload; refuses a view being walked |
| FetchInterval.TouchedUntilIsSteps | src/pretrain/data/global_stream.py:394-410 | the stop condition walks whole steps: the set is that of the steps before it |
| FetchInterval.StepsUntilIsExact | src/pretrain/data/global_stream.py:398-405 | the steps walked are exactly those whose number, or whose consumed tokens, lie below the target |
| FetchInterval.IntervalEnds | src/pretrain/data/global_stream.py:398-405 | the walk ends at the target step, or at the first step boundary that reaches the target tokens |
| FetchInterval.LocalDir.FetchBin | src/pretrain/data/fetch_interval.py:312-333 | keeps a file that verifies or need not, replaces one that fails its hash, and changes no other |
| FetchInterval.LocalDir.FetchBins | src/pretrain/data/fetch_interval.py:296-334 | succeeds exactly when every touched shard is there and kept or on the mirror; then each is as one fetch of it leaves it, every other file is unchanged |
| FetchInterval.LocalDir.StubUntouched | src/pretrain/data/fetch_interval.py:337-373 | every other shard has a file afterwards; existing files and touched shards are unchanged |
| FetchInterval.FetchAuditInterval | src/pretrain/data/fetch_interval.py:393-534 | succeeds exactly when the shards touched by the steps before the target can be had; then exactly those are fetched and all others have some file |
| FetchInterval.RealAfterFetch | src/pretrain/data/fetch_interval.py:314-323 | a touched shard is real afterwards exactly when it was absent, already real, or verified against a recorded hash |
| FetchInterval.TouchedAreReal | src/pretrain/data/fetch_interval.py:314-323 | after any sequence of verified fetches every shard any of them touched is real, never a leftover placeholder |
| FetchInterval.StubSurvivesUnverified | src/pretrain/data/fetch_interval.py:314-323 | an unverified fetch keeps an earlier placeholder under a touched shard's name |
| FetchInterval.PayloadServes | src/pretrain/data/indexed_dataset.py:106-169 | a directory serves a document from the file of its shard, at its place |
| FetchInterval.FetchedReplayIsFullReplay | src/pretrain/data/fetch_interval.py:1-27 | the replay over the fetched tree equals the replay over the full corpus, whatever placeholders hold |
| OrderedDrain.Drain.Submit | scripts/build_corpus.py:615-617 | a submission keeps the window: every unwritten index is in flight or waiting, not both |
| OrderedDrain.Drain.Harvest | scripts/build_corpus.py:595-597 | moves any set of completed futures to the waiting results, in any order |
| OrderedDrain.Drain.DrainPending | scripts/build_corpus.py:599-610 | writes what is ready in submission order until the limit; otherwise nothing ready is left |
| OrderedDrain.Drain.SubmitNext | scripts/build_corpus.py:614-623 | at most the allowed number is in flight after every turn, whatever the pool completes |
| OrderedDrain.Drain.Pull | scripts/build_corpus.py:738-801 | for every completion order the output is exactly the first lines of the items in submission order |
| RoundRobin.Flatten | scripts/build_corpus.py:543-556 | the popping loop builds the round-robin order |
| RoundRobin.RoundIsFair | scripts/build_corpus.py:547-556 | a round takes one file, the next, from each directory that has one and from no other |
| RoundRobin.RoundTurns | scripts/build_corpus.py:547-553 | round r starts r places on in the order the round before left |
| RoundRobin.WorkTurns | scripts/build_corpus.py:543-556 | the whole order in closed form where no directory runs out early: file i of round j comes from directory i + 1 + ... + j modulo their number |
| RoundRobin.WorkIsTheQueues | scripts/build_corpus.py:540-556 | the work order holds every queue completely and in its order: a permutation of all files |
| RoundRobin.PullRoundRobin | scripts/build_corpus.py:540-632 | the pull writes the first lines of the files in round-robin order, whatever the pool does |
| LineSplit.ReadSegment | src/pretrain/data/prepare.py:106-132 | the seek and read loop emits the texts of the worker's lines |
| LineSplit.ReadSegments | src/pretrain/data/prepare.py:100-132 | over a list of files; a worker outside its team is refused |
| LineSplit.WorkerOwnsLine | src/pretrain/data/prepare.py:85-98 | a worker reads a line exactly when the line starts the file or follows a newline byte and that start lies in the worker's share of the bytes; and once |
| LineSplit.BoundIsFloor | src/pretrain/data/prepare.py:110-111 | a bound is the floor of its share of the file size |
| LineSplit.LineShape | src/pretrain/data/prepare.py:118-121 | a line ends with its first newline byte or with the file |
| LineSplit.FilesInOrder | src/pretrain/data/prepare.py:106-129 | a worker's texts over several files come file by file |
| LineSplit.WorkersReadTheFile | src/pretrain/data/prepare.py:95-98 | all workers' lines in worker order are the one-worker lines, for every file and worker count |
| LineSplit.LinesAreTheFile | src/pretrain/data/prepare.py:118-121 | the lines of one worker, joined, are the file |
| LineSplit.TeamReadsTheFile | src/pretrain/data/prepare.py:100-129 | the same for the texts parsed from the lines |
| LineSplit.TeamReadsAllFiles | src/pretrain/data/prepare.py:106-129 | over several files every text comes as often as with one worker |
| LineSplit.OrderMayDiffer | src/pretrain/data/prepare.py:106-129 | two files and two workers whose outputs come in another order |
| LineOrder.OrderIsKeptExactly | src/pretrain/data/prepare.py:106-129 | over any files, the workers' lines in worker order are one worker's lines if and only if no earlier file has a line of a later worker while a later file has one of an earlier worker |
| LineOrder.OrderedTexts | src/pretrain/data/prepare.py:106-129 | under that condition the texts come in the one-worker order too |
| Bytes.LittleEndianDecodes | src/pretrain/data/indexed_dataset.py:218-223 | the packed integers decode to what was packed, within their width |
| Bytes.LittleEndianAt | src/pretrain/data/indexed_dataset.py:218-223 | byte i is the i-th base-256 digit |
| Bytes.EncodeAt | src/pretrain/data/indexed_dataset.py:203-206 | an element's bytes are those of its two's complement, lowest first |
| Bytes.DtypeTable | src/pretrain/data/indexed_dataset.py:37-48 | code, width and range of every integer element type |
| Bytes.DecodesAll | src/pretrain/data/indexed_dataset.py:203-206 | an array's bytes decode to its elements, for every integer element type |
| IndexedDataset.Writer.AddDocument | src/pretrain/data/indexed_dataset.py:200-210 | appends the document to payload and both offset tables; a closed writer or a token out of range is refused and changes nothing |
| IndexedDataset.Writer.Close | src/pretrain/data/indexed_dataset.py:212-225 | writes the index file of exactly the added documents; a second close does nothing |
| IndexedDataset.ByteOffsetsScale | src/pretrain/data/indexed_dataset.py:207-210 | a byte offset is the token offset times the element size |
| IndexedDataset.HeaderDecodes | src/pretrain/data/indexed_dataset.py:72-95 | the index bytes decode to the element type, counts and offsets written |
| IndexedDataset.IndexLayout | src/pretrain/data/indexed_dataset.py:216-224 | the index file byte by byte: magic, version, code, counts, and both tables |
| IndexedDataset.ShardReadsBack | src/pretrain/data/indexed_dataset.py:106-169 | a closed shard serves every length from its index alone and every document with its payload, from either end, and nothing else; a shard without tokens does not open |
| ShardWriter.Sharder.Add | src/pretrain/data/prepare.py:195-222 | counters match the open shard; it is closed exactly when it reaches the target |
| ShardWriter.Sharder.Finish | src/pretrain/data/prepare.py:224-240 | the trailing shard is flushed, or its files removed when it is empty |
| ShardWriter.WriteShards | src/pretrain/data/prepare.py:138-259 | succeeds exactly when tokens and offsets fit; manifest and directory then hold exactly the shards, with their counts and the hashes of both files |
| ShardWriter.NonEmptyKeeps | src/pretrain/data/prepare.py:192-197 | what is kept are all documents that are not empty, in their order |
| ShardWriter.PayloadIsFileSize | src/pretrain/data/prepare.py:205-210 | the size compared with the target is the payload file's |
| CorpusShards.CutKeepsDocuments | src/pretrain/data/prepare.py:192-222 | the shards end to end are the non-empty documents in order |
| CorpusShards.ShardsAreFull | src/pretrain/data/prepare.py:209-240 | every shard but a worker's last reached the target with its last document and not before; none is empty |
| CorpusShards.ListedReads | src/pretrain/data/indexed_dataset.py:140-176 | the listed shards of one worker read back to its documents |
| CorpusShards.MergeManifests | scripts/build_corpus.py:918-942 | refuses no workers and workers that differ in name, tokenizer, element type or filter version; otherwise the first manifest with all shards in worker order and the merged raw-file hashes |
| CorpusShards.RawIsLast | scripts/build_corpus.py:911-915 | a raw file is listed with the hash of the last worker that lists it |
| CorpusShards.RawAgrees | scripts/build_corpus.py:911-915 | workers that hashed the same files alike leave exactly those hashes |
| CorpusShards.BuildShards | scripts/build_corpus.py:901-942 | end to end: the merged manifest's shards read back to the file's non-empty encoded documents in order, for every worker count and target size; every entry records its shard's counts and hashes, no shard is empty, and all but each worker's last are full |
| StateCodec.FlattenAccepts | src/pretrain/cli/dcp_safetensors.py:184-226 | flattening succeeds exactly on states with writable keys and values |
| StateCodec.FlattenKeeps | src/pretrain/cli/dcp_safetensors.py:197-201 | no entry already in the dictionary is changed, also when flattening is refused half way |
| StateCodec.FlattenAdds | src/pretrain/cli/dcp_safetensors.py:595-603 | the skeleton's names are exactly the entries added, one new entry per tensor |
| StateCodec.TensorIsCalled | src/pretrain/cli/dcp_safetensors.py:189-201 | a tensor is called by the keys on its path joined by dots, or _root; if taken, by the first free of name#2, name#3, ...; skeleton and dictionary agree |
| StateCodec.SkeletonMirrors | src/pretrain/cli/dcp_safetensors.py:166-226 | the skeleton has at every place the node of the value there |
| StateCodec.DecimalReads | src/pretrain/cli/dcp_safetensors.py:199-200 | the number in a name is its decimal numeral |
| StateCodec.RoundTrip | src/pretrain/cli/dcp_safetensors.py:229-252 | unflattening gives the state back, from whatever the dictionary held before and gained after |
| StateCodec.TwoTreesShareOneDictionary | src/pretrain/cli/dcp_safetensors.py:457-473 | state and sidecar in one dictionary both read back, and their names do not overlap |
| StateCodec.SearchEnds | src/pretrain/cli/dcp_safetensors.py:197-200 | i taken names mean at least i entries, so the renaming loop ends |
| StateCodec.Packer.PickName | src/pretrain/cli/dcp_safetensors.py:194-200 | the loop picks the first free name of base, base#2, base#3 and so on |
| StateCodec.Packer.Pack | src/pretrain/cli/dcp_safetensors.py:184-226 | the recursion over the shared dictionary gives the skeleton and dictionary of the specification, also when refused |
| SpikeProtocol.Protocol.Skip | src/pretrain/train/spike_protocol.py:62-75 | the skip decision: pathological readings always, the cooldown always, the threshold from the start step on |
| SpikeProtocol.Protocol.Record | src/pretrain/train/spike_protocol.py:77-99 | the whole state after a recorded skip, and whether a halt is raised |
| SpikeProtocol.Protocol.StateDict | src/pretrain/train/spike_protocol.py:101-119 | what is saved loads back to the current state |
| SpikeProtocol.MissingKeys | src/pretrain/train/spike_protocol.py:121-131 | a key an older file does not have is read as a clean protocol's |
| SpikeProtocol.Drive | src/pretrain/train/loop.py:992-994 | the loop's use of the protocol is the run of the specification |
| SpikeProtocol.RunIsHistory | src/pretrain/train/spike_protocol.py:62-99 | a run's whole state is a function of its readings: fresh spikes are the spiking readings outside earlier cooldowns, and it goes on exactly while no step halts |
| SpikeProtocol.SkipIsHistory | src/pretrain/train/spike_protocol.py:62-75 | a step is skipped exactly for a non-finite reading, one above the threshold from the start step on, or in a cooldown |
| SpikeProtocol.QuietRunIsClean | src/pretrain/train/spike_protocol.py:73-75 | a run without such a reading skips nothing and leaves the protocol clean |
| SpikeProtocol.HaltEndsTheRun | src/pretrain/train/spike_protocol.py:93-99 | the first step that halts ends the run, with its reason recorded |
| SpikeProtocol.SaveIsInvisible | src/pretrain/train/spike_protocol.py:101-131 | saving and loading after any step leaves the rest of the run unchanged |
| SpikeProtocol.FreshSpikesAreSpaced | src/pretrain/config/schema.py:305-309 | in every run fresh spikes are at least the skip length apart |
| SpikeProtocol.HaltNeedsEnoughSpikes | src/pretrain/train/spike_protocol.py:88-99 | a run halts at a step exactly when that step is a fresh spike and enough of the run's fresh spikes lie in the window ending there |
| SpikeProtocol.NeverHalts | src/pretrain/config/schema.py:310-316 | when the needed spikes cannot fit in a window no run halts, whatever it reads |
| SpikeProtocol.PersistentSpikeHalts | src/pretrain/config/schema.py:308-312 | when they fit, a persistent spike from a clean protocol halts exactly (K - 1) * k steps later |
| SpikeProtocol.HaltsExactlyWhenItCan | src/pretrain/config/schema.py:303-328 | a persistent spike halts if and only if the needed spikes fit in the window |
| SpikeProtocol.AcceptedCanHalt | src/pretrain/config/schema.py:316-328 | for which settings the schema check and the protocol agree, exactly |
| SpikeProtocol.AcceptedButNeverHalts | src/pretrain/train/spike_protocol.py:52 | settings that pass the check and skip for ever |
| HashChain.TrainLoop.Iterate | src/pretrain/train/loop.py:1106-1180 | one iteration: which hash, log entry and checkpoint it leaves under each gate |
| HashChain.TrainLoop.Train | src/pretrain/train/loop.py:789-1243 | the loop runs the session of the specification to completion, exit or halt |
| HashChain.SessionStaysOnRun | src/pretrain/train/loop.py:1121-1180 | for any cadences and shutdowns every saved checkpoint and logged hash is the one of a completed step on the one run |
| HashChain.LogIsExact | src/pretrain/train/loop.py:1121-1150 | the log is exactly the completed steps that are multiples of the hash cadence; a halting step is never in it |
| HashChain.SavedIsExact | src/pretrain/train/loop.py:1107-1180 | what is saved is exactly: with a step cadence its completed multiples, with a token cadence each first step that reaches it since the save before, and the step of a shutdown and the one that ends the budget |
| HashChain.SessionEnds | src/pretrain/train/loop.py:789-1110 | a session runs through every step without shutdown that leaves budget, and ends at a shutdown, with the budget or in a halting step |
| HashChain.RunStep | src/pretrain/train/loop.py:1134-1142 | one step: state, counters, stamp and chain from the position before it |
| HashChain.ChainIsLastDue | src/pretrain/train/loop.py:1140-1142 | the chain is the hash of the last multiple of the cadence, or the one the run started with |
| HashChain.StampCommits | src/pretrain/train/state_hash.py:492-528 | two runs of any kind that stamp one hash started with one chain and hashed alike at every multiple of the cadence |
| HashChain.ResumedSessionStaysOnRun | src/pretrain/train/loop.py:542-634 | the same for a session resumed from a saved checkpoint |
| HashChain.SessionEndsSaved | src/pretrain/train/loop.py:1107-1110 | a session that ends by its budget or a shutdown ends with its last step saved |
| HashChain.LogMatchesStamp | src/pretrain/train/loop.py:1112-1120 | where the hash log and a checkpoint meet they carry one hash, which is the chain |
| HashChain.AuditReplay | src/pretrain/cli/audit_replay.py:2602-2664 | targets not ahead are refused; otherwise the replay loop gives the verdict of the step-by-step specification, in every case |
| HashChain.ReplayedIsExpected | src/pretrain/cli/audit_replay.py:2602-2664 | with hashing on and no halt on the way it reports and hands off the expected checkpoint |
| HashChain.ReplayedHalts | src/pretrain/cli/audit_replay.py:2555-2664 | for a halt at any step: it reports the halting step's hash if that is due or the target, else the running chain, else the unchained hash, and what it hands off |
| HashChain.HaltedVerdict | src/pretrain/cli/audit_replay.py:2555-2664 | the same written out: the halting step is taken and hashed, its tokens are not counted |
| HashChain.ReplayedUnhashed | src/pretrain/cli/audit_replay.py:2761-2787 | with hashing off it reports the stored chain or the unchained hash and hands off nothing |
| HashChain.AuditMatchesLoop | src/pretrain/cli/audit_replay.py:2761-2771 | from any saved checkpoint to any later one the audit reports the stamped digest, chain link or side-link |
| HashChain.AuditFromInitMatchesLoop | src/pretrain/cli/audit_replay.py:2166-2172 | the same from initialization |
| HashChain.HandOffsEqualDirect | src/pretrain/cli/audit_replay.py:845-857 | the chain of what the audits themselves hand off, through step and token targets that are ahead, ends in what one direct audit to the last target hands off, if no step up to it halts |
| HashChain.HandOffsExactly | src/pretrain/cli/audit_replay.py:845-857 | where no audit of the chain halts, the last one hands off if and only if every target was still ahead where the one before it ended |
| HashChain.StepsAhead | src/pretrain/cli/audit_replay.py:1562-1568 | target steps are ahead when they ascend from beyond the start |
| HashChain.HaltAgreement | src/pretrain/cli/audit_replay.py:2555-2560 | for a session that ends in a halt, an audit from where it started or from any checkpoint it saved reports a hash the session recorded if and only if the halting step is neither due nor the target and something was hashed before it, collisions aside |
| HashChain.HashingOffMatchesExactly | src/pretrain/cli/audit_replay.py:2772-2787 | with periodic hashing off the reported digest is the stamped one if and only if there is one rank, no chain, and gradients are left out, collisions aside |
| HashChain.HashingOffExamples | src/pretrain/train/loop.py:495-524 | one input each way |

## Left out

- Floating-point kernels, rounding, autograd, FSDP wrapping, the loss and the optimizer: one step is an
  opaque deterministic function, addition is commutative and nothing more.
- Hash functions, random generators, the tokenizer and JSON grammar: uninterpreted functions.
- Object storage, the HF and SWH clients, DCP and pickle files, NCCL setup: files are values in maps.
- GradientReduce.AuditFold: gradients are folded as one buffer per rank; the per-parameter dictionary is
  not modelled.
- CoalescedHook.Called: that the k-th calls of the ranks meet is taken from the order of transfers between
  two ranks and not derived in the network model; calls whose buffers differ in size, which fail in the
  collective, are outside it.
- Rendezvous.Progress: a batched send and receive with one partner is one exchange; message buffering,
  which could only allow more schedules, is not modelled.
- ShardedView.ShardedWindowView.RefillSegs: the view holds the walkers' positions and steps them with
  the function `SourceWalker.SourceWalker.NextDocumentRef` is proved against, instead of holding objects.
- SourceWalker.BuildGlobalPerm: the process-wide permutation cache is not modelled; the permutation is a
  function of its keys.
- DocMap.WalkStepSpans: walks a given number of steps; the generator's laziness and its `finally` are
  not modelled beyond the sinks being off afterwards.
- FetchInterval.FetchAuditInterval: manifests and index files are taken as already fetched, and the
  order in which shards are downloaded is arbitrary.
- OrderedDrain.Drain.Pull: for a limit below one only a bound is stated, since the output then depends on
  the schedule; the statistics counters are not modelled.
- IndexedDataset.ReadHeader: the two floating-point element types are refused, and tokens out of range
  are refused as numpy 2 does; older numpy wraps them.
- TreeFold.DiskTreeFold.Push: copies made inside a file read or write come on top of the count.
- StateCodec.Flatten: base64 text is represented by its bytes, and the skeleton's JSON text is not
  modelled; a finite float written as a non-finite node is refused.
- SpikeProtocol.Protocol.LoadStateDict: values are already of their types; the conversions are not
  modelled.
- HashChain.TrainLoop.Train: learning rates, re-warm, QAT toggles and metrics are inside the opaque step.
- MixSampler's per-rank packing: the same loop as the canonical stream, and not used by the audit.
- Memory plans, device gates, evaluation, learning-rate curves, checkpoint listing and clean-up: no hard
  invariant.
