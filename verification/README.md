# A verified model of Ollama's caches, layer placement, tokenizers and parsers

Ollama runs language models on local hardware. Four of its components hold intricate state or promise
strong laws, and this project models them in Dafny and proves those laws for all inputs, all states and
all runs. `dafny verify dfyconfig.toml` checks everything.

**The KV cache** (`KvCells`, `KvLayout`, `Causal`, `CausalRuns`, `CausalAppend`, `CausalRoom`, `DefragRows`, `Rounding`).
The causal cache is an array of cells shared by many sequences. It evicts what has slid out of the
attention window, finds room first-fit, defragments when there is none, shares prefixes, cuts out
positions and re-rotates the keys that move, and builds the attention mask over a padded range. `Causal.Cache`
is the class; its `Valid()` says that the per-sequence range index covers every cell of the sequence, and
every method keeps it, on its error exits too. Over whole runs, the bounded cache shows every token
exactly what a cache that never evicts would show it, and a windowed cache of the size initialisation
chooses never reports that it is full.

**The hybrid cache** (`Slots`, `CheckpointRing`, `RecurrentStore`, `RecurrentTruth`, `Recurrent`, `RecurrentSync`). Next to the KV cache
it keeps one recurrent state per slot. Slots are counted, shared and copied on write, and each has a ring of
checkpoints for rolling back. Rolling back leaves exactly the KV positions below the checkpoint, a slot of
one's own with the checkpoint's state, and nobody else notices. `Recurrent.HybridCache` carries the states every
sequence has had as a ghost field; its `Faithful()` says that rings are in order, that free slots carry no
checkpoints, and that every checkpoint is a state its sequences had at that position, so that a rollback restores a
state the sequence had. Starting a pass, copy on write, rolling back by `Reuse`, and removals from the start and from
the middle keep it always; sharing a prefix exactly under the condition stated; cutting off the end if the noted restore
names a checkpoint of the sequence's present slot; writing states if the plans were made for this pass and every sequence
goes on beyond its past. `RecurrentSync.Synced` relates the two halves: the state of a sequence is the one it had after the
last position that the KV cache holds for it. What each call of the runner does to it is stated exactly.

**Layer placement** (`LayerFit`, `Load`, `MemoryEstimate`). Greedy packing inside a binary search inside a search
against a runner that may answer as it likes; and the byte-budget allocator of the other engine. Packing
is optimal, the search ends whatever the runner answers and fails only for stated reasons, and no byte is counted twice
or lost.

**Tokenizers** (`Text`, `Bytes`, `Vocabulary`, `Fragments`, `MergeList`, `SentencePiece`, `SentencePieceText`,
`BytePair`). Merging by a priority queue with stale entries over a linked list in an array does what
rescanning all pairs would do. Encoding and decoding a text gives it back, with the exact exceptions.

**Parsers** (`Harmony`, `HarmonyHeader`, `Modelfile`, `ModelfileRoundTrip`, `ModelfileLines`). What the incremental message parser
produces does not depend on how the text is cut into pieces, and whole messages are sorted by their headers. Parsing a printed Modelfile gives its commands back, and the
values for which it does are characterized.

## What is not as one would expect

These are properties of the code as it is, each with a lemma.

- Defragmentation batches row copies into runs that are collected downwards and copied upwards. Rows follow
  their cells, if rows differ, exactly when no two consecutive moves are neighbours (`DefragRows.RowsFollowExactly`).
  Key rotation stays equal to position exactly when the row copied into each hole has the rotation of the cell moved
  there (`DefragRows.DefragTurnedExactly`); if moved cells differ in position, that again means that no two consecutive
  moves are neighbours (`DefragRows.DefragTurnedByMoves`). Two free cells before two occupied ones is an input where
  rows do not follow (`DefragRows.RowsSwapped`). The metadata do what the comment at kvcache/causal.go:444-450 describes.
- A removal that is refused because a later cell is shared has stopped half way: the cells before the first shared one
  are dropped or lowered, and no key is turned (`Causal.Cache.Remove`). Rotation still matches position exactly when
  none of them was lowered (`Causal.UnturnedExactly`).
- Cutting positions out of the middle can bring evicted positions back into the window
  (`CausalRuns.MiddleRemovalLosesWindow`); `CausalRuns.MiddleRemovalReady` says exactly when it does not.
- Sharing a prefix leaves a free slot with checkpoints exactly when the destination gives up, as its last user, a
  slot that has some (`RecurrentTruth.SharedClean`). A sequence without checkpoints that copy on write moves into
  such a slot has them from then on; its next checkpoint is out of order unless it lies above those that stay, and it
  can be rolled back to a state it never had (`RecurrentTruth.StaleSlot`, in the store that `RecurrentTruth.StalePlan`
  shows planning to leave; for all stores `RecurrentTruth.StaleDetach`).
- A restore that is noted and not used at once can be applied to a slot that another sequence has got since; it
  then overwrites that sequence's state (`Recurrent.ApplyPending`; `RecurrentTruth.StrayRestore` is such an input). The
  other sequences keep what they have exactly if that was the checkpoint's state and no checkpoint is pruned
  (`RecurrentTruth.StrayExactly`). Noted in the sequence's present slot, it never strays (`Recurrent.OwnRestoreStays`).
- Cutting off the end can report NotSupported after it has cut the KV cache and moved the sequence to a private slot:
  exactly when the sequence shares its slot, one is free, and the noted entry is not in the private copy
  (`Recurrent.ApplyPending`; `RecurrentTruth.LostRestore` is such an input).
- Discarding tokens from the start of a full context gives the recurrent state up and keeps the later KV positions, so
  that the sequence goes on from a zero state (`RecurrentSync.ShiftLosesState`). A shift leaves a sequence with later
  tokens in step exactly if it keeps some at the start or starts over (`RecurrentSync.Shift`).
- A pass that is refused after the KV cache has stored its tokens, for want of slots or because its sequences do not
  have equally many tokens, leaves exactly the sequences of the batch out of step (`RecurrentSync.Pass`).
- The size of a checkpoint ring can exceed the number of its valid entries (`CheckpointRing.OverCount`). Starting from
  an exact size, a record keeps it exact if and only if the entry taken was free or the ring is full
  (`CheckpointRing.RecordedCountsExactly`); valid entries <= size <= capacity always holds.
- The text of a SentencePiece byte token comes back as that byte (`SentencePieceText.ByteTextLost`), a text with
  the mark for spaces comes back with spaces (`SentencePieceText.RoundTrip`), and where the mark is no token a
  space comes back as the mark (`SentencePieceText.SpaceLost`). With all byte tokens, every text without disguised
  byte tokens is decoded right if and only if the mark is a token (`SentencePieceText.DecodesAllExactly`).
- The output layer of the other engine is not tried on every GPU: when some GPU index comes up again, others are left
  out (`MemoryEstimate.ChooseLast`; `MemoryEstimate.LastMissed` is such an input).
- A Modelfile that ends inside a keyword fails with another error than the same file with a newline
  (`ModelfileLines.LastNewline`).
- Byte-level decoding drops NUL bytes (`BytePair.RoundTrip`).

## Model

| member | source | states |
|---|---|---|
| `Causal.InitRoom` | kvcache/causal.go:131-187 | The window is the one asked for, or none; the memory is the least that is at least what was asked for and, with several sequences, more than the window, or unlimited where that is no less than the capacity; the cell count is the least multiple of the padding with room for every sequence and one batch; initialisation panics exactly when a memory size below the capacity is smaller than the window |
| `Causal.Cache.constructor` | kvcache/causal.go:131-187 | A new cache has those sizes, the chunk size, shift function, batch size and paddings it was given (a padding of 0 meaning 1), only free cells, an empty index that is sound, and key rotations that match positions |
| `Causal.FindStartLoc` | kvcache/causal.go:261-276 | Fails exactly when there is no block of the batch size (at least one cell); otherwise finds the first one |
| `Causal.UpdateSlidingWindow` | kvcache/causal.go:278-354 | Evicting through the range index equals evicting by a scan of all cells, keeps the index sound, and leaves a range that contains every cell a batch token can attend to |
| `Causal.Defrag` | kvcache/causal.go:441-542 | The cells are packed by the two-pointer moves, the rebuilt index is sound, the second eviction is the full one, and rows are what the batched copies make of them |
| `Causal.MakeRoom` | kvcache/causal.go:203-220 | Fails exactly when eviction leaves fewer free cells than the batch needs, fragmented or not; otherwise finds the first block that is large enough |
| `Causal.WriteBatch` | kvcache/causal.go:222-239 | Writes position and sequence of each token into the block and extends the index and the current range to cover it |
| `Causal.BuildRows` | kvcache/causal.go:367-403 | Token by token and cell by cell, unmasked means same sequence, causal or excepted, same chunk and inside the window |
| `Causal.Cache.BuildMask` | kvcache/causal.go:367-403 | The range is aligned within bounds, less than one padding wider at either end, the mask is exact over the whole cache, and rebuilding keeps an aligned range |
| `Causal.MaskOver` | kvcache/causal.go:367-403 | Over an aligned range that covers the batch, the mask with its padding rows is exact for all cells, inside the range or not |
| `Causal.Cache.Forward` | kvcache/causal.go:203-251 | Succeeds exactly when eviction leaves enough free cells; then the batch is in the first block found and the mask is exact over all cells, not only those in the range |
| `Causal.Cache.StartForward` | kvcache/causal.go:203-251 | The same, and a reserving pass takes the whole range and touches no metadata; the index is sound on every exit |
| `Causal.Cache.SetCausal` | kvcache/causal.go:555-562 | Rebuilding the mask for new exceptions keeps the range and is exact again |
| `Causal.Cache.Put` | kvcache/causal.go:602-641 | Exactly the rows of the batch's block are replaced, rotated to their positions |
| `Causal.Cache.Pass` | kvcache/causal.go:203-251 | A pass that is placed and then stored keeps key rotation equal to position for every occupied cell if and only if making room copies into each hole a row with the rotation of the cell moved there; so it does if making room moved nothing or made no neighbouring moves, and only then if moved cells differ in position |
| `Causal.Cache.CopyPrefix` | kvcache/causal.go:643-664 | dst holds exactly the cells of src below len and nothing else; no other sequence changes; the index is sound and key rotation still matches position |
| `Causal.Cache.CanResume` | kvcache/causal.go:666-693 | The answer read off the recorded range is that of a scan of all cells |
| `Causal.RemoveScan` | kvcache/causal.go:761-802 | Fails exactly when a cell to be moved is shared; otherwise drops the positions in the interval and lowers the later ones; on failure exactly the cells before the first shared one have been so treated; other sequences keep every cell on both exits |
| `Causal.ShiftRows` | kvcache/causal.go:695-759 | The batched shift turns exactly the keys of the moved tail, once each |
| `Causal.Cache.Remove` | kvcache/causal.go:761-812 | Refused exactly when a cell to be moved is shared, and then exactly the cells before the first such one are dropped or lowered and no key is turned, so that rotation matches position if and only if none of them was lowered; otherwise exactly the interval is dropped and the later positions lowered, on success exactly the moved keys are turned and rotation keeps matching position; no other sequence's cells or rows change on any exit |
| `Causal.UnturnedExactly` | kvcache/causal.go:761-812 | After a removal that stopped at the first shared cell, key rotation matches position if and only if no cell of the sequence was lowered before it, or the interval is empty |
| `Causal.RemoveRange` | kvcache/causal.go:761-812 | The same on cells, index and rows, with a sound index on every exit, and the rows of each error exit |
| `KvCells.EvictSettles` | kvcache/causal.go:278-354 | Evicting again after the occupied cells have been rearranged removes nothing more |
| `KvLayout.DefragPacks` | kvcache/causal.go:441-542 | Defragmentation keeps the multiset of occupied cells and the number of free ones, and moves every occupied cell before every free one |
| `KvLayout.PackedHasBlock` | kvcache/causal.go:261-276 | Packed cells with n free ones have a block of n |
| `DefragRows.RowsFollow` | kvcache/causal.go:405-439 | Without neighbouring moves the batched row copies put every row where its cell went |
| `DefragRows.RowsFollowExactly` | kvcache/causal.go:470-521 | If the rows of occupied cells differ pairwise, rows follow their cells if and only if no two consecutive moves are neighbours |
| `DefragRows.DefragKeepsTurned` | kvcache/causal.go:441-542 | Without neighbouring moves key rotation still equals position after defragmentation |
| `DefragRows.DefragTurnedExactly` | kvcache/causal.go:441-542 | It does so, for every cache, if and only if the row copied into each hole has the rotation of the cell moved there |
| `DefragRows.DefragTurnedByMoves` | kvcache/causal.go:470-521 | If the moved cells differ pairwise in position, that holds if and only if no two consecutive moves are neighbours |
| `DefragRows.CopiedRow` | kvcache/causal.go:405-439 | The batched copies take each row from one place, which depends on the moves alone |
| `DefragRows.RowsSwapped` | kvcache/causal.go:405-439 | Two free cells before two occupied ones: the cells change places, their rows do not |
| `DefragRows.ThreeRows` | kvcache/causal.go:485-500 | A third neighbouring move does not join a run of two: the first two rows are swapped, the third follows its cell |
| `CausalRuns.RunInv` | kvcache/causal.go:203-251 | In every state of every legal run each sequence holds the upper part of what it would hold without eviction, including the window of a sequence that may continue, and each position in one cell |
| `CausalRuns.WindowRefinesUnbounded` | kvcache/causal.go:278-403 | In every legal run of stored batches, shared prefixes, rollbacks and cuts, each token is shown exactly the positions a never-evicting cache would show it, each through one cell |
| `CausalAppend.AppendShows` | kvcache/causal.go:203-403 | In every run that only appends, each token of a stored batch is shown exactly the positions from the start of its window or chunk, whichever is later, to its own, or to the end of the sequence if it is excepted; without window and chunk, everything from 0 to its own |
| `CausalRuns.RemovedPositions` | kvcache/causal.go:761-812 | A sequence's positions after a removal are the old ones without the interval, the later ones lowered |
| `CausalRuns.MiddleRemovalReady` | kvcache/causal.go:761-812 | A sequence stays ready after a middle removal if and only if no position that slides back into the window was evicted |
| `CausalRuns.MiddleRemovalLosesWindow` | kvcache/causal.go:761-812 | A cache and a removal after which the window is incomplete |
| `CausalRoom.EvictionLeavesRoom` | kvcache/causal.go:278-354 | With at most maxSequences sequences, eviction leaves at least maxBatch free cells |
| `CausalRoom.NeverFull` | kvcache/causal.go:174-220 | In every legal run of a windowed cache with that many sequences, no batch up to maxBatch is refused |
| `Slots.NewSound` | kvcache/recurrent.go:124-146 | A new allocator has every slot on the free stack and no counts |
| `Slots.AllocatedSound` | kvcache/recurrent.go:329-336 | Allocating keeps every count equal to the number of sequences mapped to the slot and the stack a duplicate-free list of exactly the unused slots |
| `Slots.DetachedSound` | kvcache/recurrent.go:370-401 | So does leaving a shared slot for a free one |
| `Slots.SharedSound` | kvcache/recurrent.go:424-447 | So does sharing a slot |
| `Slots.ReleasedSound` | kvcache/recurrent.go:535-554 | So does giving a slot up |
| `Slots.CountsAddUp` | kvcache/recurrent.go:124-146 | The counts of the first slots add up to the number of sequences mapped to them |
| `Slots.FullMeansBusy` | kvcache/recurrent.go:329-336 | The stack is empty only with as many sequences as slots, and with a shared slot only with more |
| `CheckpointRing.Record` | kvcache/recurrent_checkpoints.go:53-65 | The entry written, the counters, and that positions stay distinct with the last on top when it goes up |
| `CheckpointRing.RecordedOrdered` | kvcache/recurrent_checkpoints.go:53-65 | Valid entries <= size <= capacity is kept; recording above the last position keeps positions distinct and lastPos their maximum, or -1 if there are none |
| `CheckpointRing.RecordedOrderedExactly` | kvcache/recurrent_checkpoints.go:53-65 | A record keeps a ring in order if and only if it lies above every entry it leaves in place |
| `CheckpointRing.RecordedCountsExactly` | kvcache/recurrent_checkpoints.go:53-65 | A size that is exact stays so through a record if and only if the entry taken was free or the ring is full |
| `CheckpointRing.OverCount` | kvcache/recurrent_checkpoints.go:53-126 | A ring of three with size three and two valid entries, reached by records and a prune |
| `CheckpointRing.SavedKeeps` | kvcache/recurrent_checkpoints.go:271-284 | Saving a state replaces one entry: every checkpoint but the overwritten one is kept |
| `CheckpointRing.RecordsKeepLast` | kvcache/recurrent_checkpoints.go:44-65 | k records into an empty ring of n leave exactly the last min(k, n), each where it belongs |
| `CheckpointRing.BestIndex` | kvcache/recurrent_checkpoints.go:67-84 | Finds the greatest position below the target if and only if there is one |
| `CheckpointRing.PruneAfter` | kvcache/recurrent_checkpoints.go:86-126 | Drops exactly the later checkpoints, recounts, and points at the entry to overwrite next |
| `CheckpointRing.ShiftRange` | kvcache/recurrent_checkpoints.go:128-183 | Drops the checkpoints in the interval, lowers the later ones, recounts; distinct positions stay distinct and lastPos is their maximum |
| `CheckpointRing.ResetSized` | kvcache/recurrent_checkpoints.go:44-51 | A reset ring has no checkpoints and sound counters; the states of its entries stay behind |
| `CheckpointRing.ValidMeansSize` | kvcache/recurrent_checkpoints.go:406-413 | A ring with a valid entry has a positive size, so copying does not skip it |
| `CheckpointRing.CopiedData` | kvcache/recurrent_checkpoints.go:406-442 | A copied entry has the position of the source, and its state if there is one; otherwise it keeps the state the destination had |
| `RecurrentStore.DetachKeeps` | kvcache/recurrent.go:370-401 | Copy on write gives the sequence a private slot with the state it had; every other sequence keeps slot, state and checkpoints |
| `RecurrentStore.Detach` | kvcache/recurrent.go:475-494 | Fails only when there are more sequences than slots |
| `RecurrentStore.DetachedCheckpoints` | kvcache/recurrent_checkpoints.go:406-442 | A sequence that has checkpoints takes all of them along to its private slot |
| `RecurrentStore.Allocate` | kvcache/recurrent.go:329-336 | A new sequence alone owns the top free slot; fails only with as many sequences as slots |
| `RecurrentStore.AssignSlots` | kvcache/recurrent.go:239-263 | Every sequence of the batch gets a slot; old ones keep slot and state, new ones own a zeroed slot; with at most as many sequences as slots it cannot fail |
| `RecurrentStore.EnsureWritable` | kvcache/recurrent.go:370-401 | Every batch sequence solely owns a slot holding its former state; nobody else changes; with at most as many sequences as slots it cannot fail |
| `RecurrentStore.SharedKeeps` | kvcache/recurrent.go:424-447 | After sharing, dst uses src's slot (or none) and all others are as they were |
| `RecurrentStore.ReleasedKeeps` | kvcache/recurrent.go:535-554 | After release the sequence has no slot and all others are as they were |
| `RecurrentTruth.SharedClean` | kvcache/recurrent.go:424-447 | If free slots carry no checkpoints, they carry none after sharing a prefix if and only if dst does not give up a slot of its own that has some |
| `RecurrentTruth.ReleasedTidy` | kvcache/recurrent.go:535-554 | Giving a slot up by removal keeps rings ordered and free slots clean |
| `RecurrentTruth.GrownTidy` | kvcache/recurrent.go:239-263 | So does giving slots to new sequences |
| `RecurrentTruth.DetachedTidy` | kvcache/recurrent.go:370-401 | So does copy on write |
| `RecurrentTruth.DetachedToPlans` | kvcache/recurrent.go:370-401 | With clean free slots, checkpoints planned above what a slot holds are still above after copy on write has moved sequences |
| `RecurrentTruth.UpdatedTidy` | kvcache/recurrent_checkpoints.go:271-284 | Saving such checkpoints keeps every ring in order |
| `RecurrentTruth.DetachedToTruthful` | kvcache/recurrent_checkpoints.go:406-442 | With clean free slots, copy on write gives no sequence a checkpoint that was not its own |
| `RecurrentTruth.UpdatedTruthful` | kvcache/recurrent_checkpoints.go:444-496 | A pass that goes on beyond the past of its sequences leaves every checkpoint a state its sequences had at that position |
| `RecurrentTruth.SharedTruthful` | kvcache/recurrent.go:424-447 | Sharing a slot shares its past |
| `RecurrentTruth.StaleDetach` | kvcache/recurrent_checkpoints.go:406-413 | Moved into a stale slot, a sequence whose own store is empty or missing has the stale checkpoints, and its next checkpoint is in order if and only if it lies above those that stay |
| `RecurrentTruth.StaleStart` | kvcache/recurrent.go:424-447 | A tidy store in which sharing a prefix leaves a stale slot |
| `RecurrentTruth.StalePlan` | kvcache/recurrent_checkpoints.go:215-269 | Planning position 5 for the sequence makes the empty store for its slot and leaves the store of the next row |
| `RecurrentTruth.StaleSlot` | kvcache/recurrent_checkpoints.go:406-413 | From there, in the store that planning leaves, a planned checkpoint that is out of order and a checkpoint the sequence never had |
| `RecurrentStore.PlanCheckpoints` | kvcache/recurrent_checkpoints.go:215-269 | A checkpoint is planned at a sequence's highest position exactly when that reaches the minimum and is an interval above the last position of the slot the sequence has then; it lies above that last position |
| `RecurrentStore.SaveCheckpoint` | kvcache/recurrent_checkpoints.go:271-284 | The state is saved at the position, no checkpoint but the overwritten one is lost and none but this one gained, and a ring stays in order if the position goes up |
| `RecurrentStore.UpdateStates` | kvcache/recurrent_checkpoints.go:444-496 | Every slot of the batch has its new state and its ring with the planned checkpoint saved; every other slot is untouched |
| `RecurrentStore.ApplyRestore` | kvcache/recurrent_checkpoints.go:331-358 | Succeeds exactly when the noted entry is complete; then the slot has the entry's state and exactly the checkpoints up to it |
| `RecurrentStore.DetachForRestore` | kvcache/recurrent.go:503-524 | The slot is private afterwards, the noted restore follows it with the same data and checkpoints, and nobody else changes |
| `RecurrentStore.RestoredOwn` | kvcache/recurrent_checkpoints.go:331-358 | Restoring into one's own slot changes no other sequence; the state is the checkpoint's and exactly the later checkpoints are gone |
| `Recurrent.HybridCache.constructor` | kvcache/recurrent.go:124-146 | A valid and faithful cache with all slots free, no checkpoints and no pending restore |
| `Recurrent.HybridCache.StartForward` | kvcache/recurrent.go:180-307 | Whether the pass starts: the KV cache has room and all sequences have equally many tokens; then every sequence has a slot, new ones a zeroed one, the planned checkpoints are as PlanCheckpoints says, and no state or checkpoint of an old sequence has changed; a faithful cache stays so on every exit |
| `Recurrent.EvenCounts` | kvcache/recurrent.go:205-226 | Every sequence has the average number of tokens if and only if all have equally many |
| `Recurrent.HybridCache.EnsureWritable` | kvcache/recurrent.go:370-401 | Every batch sequence owns its slot, with its state; the others are as they were; it fails only with more sequences than slots; a faithful cache stays so, with its plans above |
| `Recurrent.HybridCache.UpdateStates` | kvcache/recurrent.go:691-762 | The batch's states and planned checkpoints are written and no other slot changes; rings stay in order if plans lie above, and a faithful cache stays so if sequences go on beyond their past |
| `Recurrent.HybridCache.CopyPrefix` | kvcache/recurrent.go:424-447 | KV prefix and slot are shared, checkpoints stay where they are and in order; free slots stay clean exactly when dst leaves no checkpoints behind |
| `Recurrent.HybridCache.PrepareRestore` | kvcache/recurrent_checkpoints.go:302-329 | Succeeds exactly when the slot has a checkpoint below the target, and notes the greatest |
| `Recurrent.HybridCache.Remove` | kvcache/recurrent.go:459-555 | All three branches, with what each does to cells, slots, states, checkpoints and the past on every exit: giving the slot up, cutting out the middle, rolling back to the noted checkpoint; without a complete one NotSupported with nothing changed; no other sequence is affected unless a stale restore names its slot, and then its state is overwritten |
| `Recurrent.HybridCache.RemoveMiddle` | kvcache/recurrent.go:460-494 | The KV positions close up, the sequence owns a slot with the state it had and its checkpoints have moved along; nobody else notices; a faithful cache stays so |
| `Recurrent.HybridCache.RemoveEnd` | kvcache/recurrent.go:496-533 | Rollback to the noted checkpoint, which is the one just before the cut; full with nothing changed; NotSupported with nothing changed if no complete restore to there is noted, and otherwise with the KV positions cut and the sequence detached, exactly if the private copy lacks the noted entry; what happens to others for every noted restore, stale ones included |
| `Recurrent.ApplyPending` | kvcache/recurrent.go:503-533 | The same on the slots: NotSupported if and only if copy on write moves the sequence into a slot in which the noted entry is not complete, and then only the detaching has happened; others are kept unless the restore strays, and then the slot it names has the checkpoint's state; a restore in the present slot gives a state the sequence had |
| `RecurrentTruth.StrayExactly` | kvcache/recurrent_checkpoints.go:331-358 | A restore applied to a slot others use leaves them unchanged if and only if the slot has the checkpoint's state already and no checkpoint is pruned |
| `RecurrentTruth.StrayRestore` | kvcache/recurrent.go:503-533 | A restore noted for a sharing sequence that strays to the other one after copy on write |
| `RecurrentTruth.LostRestore` | kvcache/recurrent.go:503-533 | A complete noted restore that the private copy made for it lacks |
| `Recurrent.OwnRestoreStays` | kvcache/recurrent_checkpoints.go:302-329 | A restore noted in the present slot of its sequence is applied to nobody else |
| `Recurrent.HybridCache.Reuse` | runner/ollamarunner/cache.go:126-149 | PrepareRestore followed by Remove leaves exactly the KV positions below the returned length and a private slot with the state of the greatest checkpoint below the target and no later one, which in a faithful cache is the state the sequence had at that position; with complete checkpoints and at most as many sequences as slots it does so; otherwise the sequence starts over; nobody else notices |
| `RecurrentSync.Pass` | kvcache/recurrent.go:180-307 | A whole pass, from storing tokens to writing states: a sequence in step that the batch takes beyond its positions is in step afterwards if and only if the pass succeeds, or the sequence is not in the batch, or the KV cache had no room; it succeeds with room, equally many tokens per sequence and enough slots; a faithful cache stays so |
| `RecurrentSync.FullPass` | kvcache/recurrent.go:691-762 | After a completed pass the state of each batch sequence is the new one, recorded at the highest position it has in the KV cache |
| `RecurrentSync.HalfPass` | kvcache/recurrent.go:180-307 | After tokens are stored without states, a sequence is in step if and only if it was not in the batch |
| `RecurrentSync.SharedInStep` | kvcache/recurrent.go:424-447 | After sharing a prefix, dst is in step if and only if all positions of src are shared; every position below the length at which dst has a past state is in its KV cache |
| `RecurrentSync.Resume` | runner/ollamarunner/cache.go:126-149 | In a faithful cache, loading a prompt brings the sequence into step even if it was not, provided that the KV cache holds the positions below the target at which it had states; all others are in step exactly if they were |
| `RecurrentSync.Fork` | runner/ollamarunner/cache.go:183-227 | Sharing a prefix and loading a prompt into dst brings dst into step with a faithful cache, if src was in step and dst left no checkpoints behind; all others are in step exactly if they were |
| `RecurrentSync.MiddleCutInStep` | kvcache/recurrent.go:460-494 | Cutting out the middle keeps a sequence in step unless the cut takes its last position; if it does, the sequence is out of step when it had its state at no other position |
| `RecurrentSync.StartCutInStep` | kvcache/recurrent.go:535-554 | After removing from the start a sequence is in step if and only if no position is left |
| `RecurrentSync.Shift` | runner/ollamarunner/cache.go:283-316 | A context shift leaves a sequence in step, of which later tokens remain, in step if and only if it keeps some tokens or starts over; a faithful cache stays so, and all others are in step exactly if they were |
| `RecurrentSync.ShiftLosesState` | runner/ollamarunner/cache.go:298-299 | A sequence in step with two tokens from which one is discarded at the start: it keeps the other position and has no state |
| `LayerFit.GreedyFit` | llm/server.go:1216-1242 | The layers placed are a suffix cut into in-order intervals, each within its GPU's room, as many as Count says |
| `LayerFit.GreedyOptimal` | llm/server.go:1216-1242 | No in-order contiguous assignment under the same request limit places more layers |
| `LayerFit.GreedyFeasible` | llm/server.go:1216-1242 | Some such assignment places exactly that many |
| `LayerFit.CountMonotone` | llm/server.go:1216-1242 | More room never places fewer layers |
| `LayerFit.CountAtMonotone` | llm/server.go:1185-1214 | A larger capacity factor never places fewer layers |
| `LayerFit.FindBestFit` | llm/server.go:1185-1214 | The result places as many layers as the largest factor does, at a factor within a millionth of one that places fewer, or of zero |
| `LayerFit.CanHoldIsCount` | llm/server.go:1147-1183 | Some cut of all layers fits the GPUs exactly when the greedy count at factor 1 is all of them |
| `LayerFit.MoreRoom` | llm/server.go:1216-1242 | An assignment stays one with more memory and with further GPUs, which it leaves empty |
| `LayerFit.Attempt` | llm/server.go:1150-1171 | As many layers are placed as any in-order contiguous assignment to all GPUs could place, with a thousand times their memory if a request is forced, and never more than requested; no capacity factor smaller by more than a millionth places as many; without spreading, no fewer GPUs beyond the last used one could take all layers, or as many as requested; if less is placed, all GPUs were tried |
| `LayerFit.AssignLayers` | llm/server.go:1147-1183 | All layers are kept exactly when some in-order contiguous assignment to all GPUs places them (a request permitting), otherwise all but the output layer; of those, everything Attempt promises: the most that any assignment places, on the smallest number of GPUs, at the smallest factor |
| `Load.Explore` | llm/server.go:851-890 | Exploring ends: with the greatest number of layers that the runner takes and for which its memory then leaves room, all greater ones having been passed over, one call each; with all numbers passed over; or because a layout could not be made or a call failed |
| `Load.Settle` | llm/server.go:819-917 | After an answer the inner loop ends. Each backoff but the last was left because nothing better was offered, nothing in between was taken and the runner refused, with nothing requested; and the last decision is the one that Decide promises |
| `Load.Decide` | llm/server.go:821-917 | A layout is tried next exactly if the memory offers it, it is new and has no more layers; otherwise, with a gap of more than one layer, the numbers in between are explored; then a success is moved on with; giving up means a missing layout, a failed call, or a refusal with a requested number or the backoff used up |
| `Load.Search` | llm/server.go:791-936 | The search ends for every sequence of replies. Its turns form a legal sequence, from the first layout without backoff: what is asked for, which hashes count as tried, and the backoff follow from turn to turn; it loads exactly the layout that the last operation moved on with, after a successful commit; otherwise it fails for one of the reasons in Fails |
| `Load.CommitStands` | llm/server.go:821-917 | The last answer before the commit was a success: for the layout committed, or, with nothing requested, for one explored for as many layers |
| `Load.FailureExcused` | llm/server.go:791-936 | A search fails only if a layout could not be made, a call failed, or the runner refused last: to commit, or with a requested number of layers, or with the backoff used up |
| `Load.WillingRunnerLoads` | llm/server.go:791-936 | If every answer is a success and every layout can be made, it does not fail |
| `MemoryEstimate.FilterGpus` | llm/memory.go:436-478 | The GPUs listed are exactly those with space for overhead, either graph, minimum, layer buffer and one more layer, the first of them for the projector too; the others carry nothing |
| `MemoryEstimate.ChooseGpu` | llm/memory.go:498-507 | The GPU that is its turn among those left in the list, of which only ones without room for the block have been dropped; none exactly if none in the list had room |
| `MemoryEstimate.BlockSizeFinds` | llm/memory.go:480-486 | The size used for a block is that of the first block from it on that the file has |
| `MemoryEstimate.PlaceBlock` | llm/memory.go:487-511 | Each block is on the GPU whose turn it is, which had room for it, unless the request was fulfilled or every usable GPU has given out; then it is in system memory |
| `MemoryEstimate.PlaceLast` | llm/memory.go:513-537 | The output and projector layer is counted exactly once, on the first GPU tried that has room for it; fully loaded means nothing is in system memory |
| `MemoryEstimate.LastMissed` | llm/memory.go:515-526 | Three GPUs of which the first, tried three times, is too small: the last layer goes to system memory although it fits on the others |
| `MemoryEstimate.LedgerConserves` | llm/memory.go:480-537 | Bytes and layers on the GPUs and off them add up to all there are |
| `MemoryEstimate.EstimateLayers` | llm/memory.go:436-603 | Every block and the last layer is counted once in VRAM or overflow; every block is on a usable GPU that had room for it, unless the request was fulfilled before it or every usable GPU had no room for it or for an earlier one; every GPU with a layer ends below its free memory; the split adds up to the layers, which never exceed a requested count |
| `Vocabulary.Vocab.EncodeFinds` | model/vocabulary.go:68-85 | A text has an identifier exactly when it is a token, namely the last one with that text |
| `Vocabulary.Vocab.MergeFinds` | model/vocabulary.go:98-112 | Two texts have a rank exactly when there is a rule for them, namely that of the last such rule |
| `Fragments.SplitAt` | model/sentencepiece.go:57-81 | Splicing fragments in place, past their first part, cuts each at every occurrence of the special token from the left, and ends |
| `Fragments.SplitOneLeftmost` | model/sentencepiece.go:60-78 | Between two cuts, and before the first, the special token does not occur |
| `Fragments.SplitAllKeeps` | model/sentencepiece.go:56-81 | The fragments spell the text; each is one special token with its identifier, or contains none of them |
| `Fragments.SplitSpecials` | model/bytepairencoding.go:130-157 | The loop over all special tokens computes those fragments |
| `MergeList.MergeInPlace` | model/sentencepiece.go:137-142 | The assignments to links and runes make the list that lacks the second piece |
| `MergeList.MergedPieces` | model/sentencepiece.go:137-142 | That list is linked, and its pieces are the old ones with the pair merged |
| `MergeList.Discard` | model/sentencepiece.go:133-135 | Dropping a stale candidate loses no pair that could be merged |
| `MergeList.MergeFresh` | model/sentencepiece.go:137-150 | After a merge and two pushes every candidate is honest and every pair that can be merged is queued |
| `SentencePiece.FrontIsBest` | model/sentencepiece.go:198-219 | A fresh candidate at the front of the queue is the pair with the highest score, leftmost on ties |
| `SentencePiece.MergePieces` | model/sentencepiece.go:97-156 | Every merge joins the adjacent pair whose text is a token with the highest score, leftmost on ties, until no pair forms a token; the result is that of the naive algorithm |
| `SentencePiece.NaiveReaches` | model/sentencepiece.go:97-156 | The naive algorithm makes exactly the merges described by token texts and scores |
| `SentencePiece.ReachesOnce` | model/sentencepiece.go:97-156 | There is only one result of such merging |
| `SentencePieceText.ByteTokenParses` | model/sentencepiece.go:170-175 | The token formatted for a byte is recognized by the decoder and parses to that byte |
| `SentencePieceText.ByteTokenDigits` | model/sentencepiece.go:170-175 | A byte token is the byte in two capital hexadecimal digits |
| `SentencePieceText.ParsesDigits` | model/sentencepiece.go:227-237 | Two hexadecimal digits of either case parse to their byte, and so does one digit after an underscore |
| `SentencePieceText.ParsesNothingElse` | model/sentencepiece.go:227-237 | Nothing else does |
| `Bytes.Utf8Stands` | model/sentencepiece.go:168-183 | The UTF-8 bytes of a rune stand for its number, and are no more than needed |
| `SentencePieceText.EncodeText` | model/sentencepiece.go:90-185 | The loops compute the identifiers: of the whole text, else of its pieces, else of their bytes |
| `SentencePieceText.TextIsCoded` | model/sentencepiece.go:90-185 | Those identifiers are the last token with the text, its spaces marked; or those of the pieces that merging by scores leaves of it, each the last token with that text or else the tokens of its UTF-8 bytes, bytes without a token being dropped |
| `SentencePieceText.FragmentsAreCoded` | model/sentencepiece.go:55-186 | Fragment by fragment: the special token, or the text so encoded |
| `SentencePieceText.Encode` | model/sentencepiece.go:55-186 | The loop over the fragments computes the identifiers of the text |
| `SentencePieceText.Decode` | model/sentencepiece.go:221-249 | The loop computes the bytes, or fails as soon as a token cannot be decoded |
| `SentencePieceText.DecodeTextFails` | model/sentencepiece.go:223-241 | A token fails to decode exactly if, with spaces for marks, it has six bytes, begins with <0x, ends with > and does not parse; otherwise it gives that byte, or its own bytes |
| `SentencePieceText.DecodeEncode` | model/sentencepiece.go:55-249 | With all byte tokens, decoding an encoded text gives its UTF-8 bytes with marks read as spaces, whichever runes and special tokens it has, provided that the mark is a token or the text has neither spaces nor marks, and that no token of byte form occurs in it |
| `SentencePieceText.RoundTrip` | model/sentencepiece.go:55-249 | Under the same provisos the text itself comes back if and only if it does not contain the mark |
| `SentencePieceText.ByteTextLost` | model/sentencepiece.go:227-237 | The text of a byte token comes back as one byte |
| `SentencePieceText.SpaceLost` | model/sentencepiece.go:168-183 | Without a token for the mark, a space comes back as the mark |
| `SentencePieceText.DecodesAllExactly` | model/sentencepiece.go:55-249 | With all byte tokens, every text in which no token of byte form occurs is decoded to its bytes with marks read as spaces if and only if the mark is a token |
| `BytePair.MergePieces` | model/bytepairencoding.go:202-262 | The loop ends, every merge has the lowest rank among the pairs that form a token, and none is left |
| `BytePair.ReachesKeeps` | model/bytepairencoding.go:202-262 | Such merging keeps the text and makes only tokens out of tokens |
| `BytePair.EncodePart` | model/bytepairencoding.go:165-279 | The last token with the text of the part, or the identifiers of the pieces that merging by rules leaves of it, in order; if every byte has a token, they spell all of it |
| `BytePair.RunesBytesInverse` | model/bytepairencoding.go:172-190 | Mapping bytes to runes and back gives the bytes without NULs |
| `BytePair.ByteRuneTable` | model/bytepairencoding.go:172-190 | Printable bytes stand for themselves, and the others, in order, for the runes from 0x100 on |
| `BytePair.RuneBytesTable` | model/bytepairencoding.go:332-363 | What every rune stands for when decoding: nothing, a byte, a space, or its UTF-8 bytes |
| `BytePair.Decode` | model/bytepairencoding.go:332-363 | The loop writes the bytes that the runes of the tokens stand for |
| `BytePair.RoundTrip` | model/bytepairencoding.go:165-363 | Encoding a part and decoding it gives its bytes without NULs, if every byte has a token |
| `Harmony.Overlap` | harmony/harmonyparser.go:244-252 | The longest suffix that is a prefix of the tag |
| `Harmony.HoldIsIndex` | harmony/harmonyparser.go:138-159 | With the tag in the buffer, the first place where a tag could begin is where it is |
| `Harmony.HoldIsOverlap` | harmony/harmonyparser.go:160-178 | Without it, that place is the overlap |
| `Harmony.Parser.Eat` | harmony/harmonyparser.go:113-184 | One step of draining, which shortens the buffer if there may be more |
| `Harmony.Parser.AddContent` | harmony/harmonyparser.go:93-110 | The loop ends and drains the buffer completely, holding back nothing that can be told |
| `Harmony.DrainPrompt` | harmony/harmonyparser.go:93-184 | Nothing is held back that can be told: no complete tag that is waited for, and of content only the beginning of an end tag |
| `Harmony.DrainSplit` | harmony/harmonyparser.go:93-184 | Draining, adding text and draining again is draining it all at once, up to merging adjacent content |
| `Harmony.ChunkingIrrelevant` | harmony/harmonyparser.go:93-184 | Every way of cutting a text into calls leaves the same state, buffer and events with adjacent content merged |
| `Harmony.StreamsIrrelevant` | harmony/harmonyparser.go:289-334 | The concatenated content, thinking and tool streams do not depend on the cutting either |
| `Harmony.StreamsAppend` | harmony/harmonyparser.go:289-334 | The streams one call returns append to the earlier ones |
| `Harmony.CallsIrrelevant` | harmony/harmonyparser.go:289-334 | The results of all calls, concatenated stream by stream, are what one call with the whole text returns |
| `Harmony.Handler.AddAllContent` | harmony/harmonyparser.go:289-334 | The same of the handler object, for any non-empty list of pieces, with mode, tool name, parser state and buffer; pieces of whole messages are sorted into the streams as below |
| `Harmony.Handler.AddContent` | harmony/harmonyparser.go:289-334 | A call with whole messages returns, stream by stream, the contents of those that belong to the stream, and sets the last tool named; in general, the streams, mode and tool name are what the events of the parser say |
| `Harmony.DrainMessages` | harmony/harmonyparser.go:93-184 | Whole messages yield start, header, content and end of each, and leave nothing in the buffer |
| `Harmony.MessagesSorted` | harmony/harmonyparser.go:289-334 | Their contents go to the streams of their headers |
| `Harmony.OneMessage` | harmony/harmonyparser.go:300-325 | Analysis without a recipient is thinking; final, or commentary without one, is content; with a recipient, it is for the tool of that name |
| `HarmonyHeader.HeaderRead` | harmony/harmonyparser.go:186-242 | A header is read word by word, the channel aside, whether or not a constraint behind them is set off by a space |
| `HarmonyHeader.HeaderWithoutChannel` | harmony/harmonyparser.go:186-242 | So is one without a channel tag |
| `HarmonyHeader.HeaderPlain` | harmony/harmonyparser.go:186-242 | Role and channel are what stands before and behind the channel tag |
| `HarmonyHeader.RecipientBefore` | harmony/harmonyparser.go:186-242 | The recipient may stand before the channel |
| `HarmonyHeader.RecipientBehind` | harmony/harmonyparser.go:186-242 | It may stand behind it |
| `HarmonyHeader.RecipientFirst` | harmony/harmonyparser.go:186-242 | It may stand in place of the role, which then is that of a tool |
| `HarmonyHeader.PlainMessage` | harmony/harmonyparser.go:186-334 | From the text of a message without recipient to its stream: analysis is thinking, final and commentary are content |
| `HarmonyHeader.ToolMessage` | harmony/harmonyparser.go:186-334 | From the text of a message for a tool, with the recipient before or behind the channel, to the tool stream and the name of the tool |
| `Modelfile.ParseFile` | parser/parser.go:368-497 | The loop over the runes is the parser run to the end of the text, or to its first error |
| `Modelfile.RunConcat` | parser/parser.go:381-470 | Parsing a text in two parts is parsing it whole |
| `ModelfileLines.CommentIgnored` | parser/parser.go:472-531 | A comment line changes nothing, whatever comes before and after it |
| `ModelfileLines.BlankIgnored` | parser/parser.go:472-531 | Nor do spaces, tabs and newlines between lines |
| `ModelfileLines.LastNewline` | parser/parser.go:470-497 | A file without its last newline parses as the file with it, unless it ends inside a keyword |
| `ModelfileLines.KeywordCase` | parser/parser.go:406-426 | Keywords are read without regard to case, and refused unless they are one of nine |
| `ModelfileLines.RoleRead` | parser/parser.go:429-437 | Roles are refused unless they are one of three |
| `ModelfileRoundTrip.String` | parser/parser.go:33-40 | The loop prints one line per command |
| `ModelfileRoundTrip.QuotedWhen` | parser/parser.go:545-556 | A value is printed in quotes exactly if it has a newline or a space at either end, in triple quotes if it contains one |
| `ModelfileRoundTrip.CutSplits` | parser/parser.go:322-337 | The role of a message is what stands before the first separator; without one, everything |
| `ModelfileRoundTrip.UnquoteQuote` | parser/parser.go:558-589 | Unquoting undoes quoting for every quotable value |
| `ModelfileRoundTrip.ReadsCommand` | parser/parser.go:322-337 | Whatever was read before, a printed line reads back as its command |
| `ModelfileRoundTrip.RoundTrip` | parser/parser.go:368-589 | Parsing a printed list of printable commands gives the list back if it has a FROM, and fails for want of one otherwise |
| `ModelfileRoundTrip.ValueExact` | parser/parser.go:558-589 | Among values of printable runes, spaces, tabs and newlines, exactly the quotable ones are read back: bare values without edge blanks or a leading quote, and quoted values none of whose lines closes the triple quotes |

## Left out

- Tensors are abstract: one value per cell or slot, and for keys the rotation as a number. Backend contexts, views, strides and the number of copies per compute call in `defrag` and `shift` are not modelled.
- A cell's sequences are a set; the order of the slice in the source has no effect.
- Numbers are unbounded. Sequence and cell counts are assumed to fit an int, and byte counts a uint64.
- LayerFit.FindBestFit: capacity factors are reals, so the claim is not about the float32 search of the source.
- Load.Search: every negative request is -1; the backoff grows by exact tenths of a real; layouts, their hashes and the runner's replies are parameters, and hashes are only required to be 64-bit numbers. Layouts are a function of memory, backoff and request; on darwin `verifyLayout` sets the request to zero as a side effect, which is outside this.
- Causal.Defrag: the number of moves per context, which the source computes by dividing by the number of layers with keys (kvcache/causal.go:471) and so needs at least one, is not modelled.
- MemoryEstimate.EstimateLayers: graph sizes, overheads, layer sizes and minimum memory are given numbers; logging is left out.
- Pop in SentencePiece and BytePair: the heap of Go's library is modelled by what popping promises, an element that no other precedes.
- Recurrent.HybridCache.StartForward: the fast path for a single sequence is the general path with one sequence, and the reserving pass, which takes slots 0, 1, ... for sizing only, is not modelled.
- Recurrent.HybridCache.CopyPrefix: the past that dst takes over is that of src's slot; the source shares the slot whatever prefix length is asked for.
- Recurrent.HybridCache.UpdateStates: convolution and recurrent state of all layers are one value per slot, and EnsureWritable is a separate call rather than a once-per-pass guard.
- RecurrentSync.Pass: the new states are a parameter, a function of the sequence; the KV cache has no window, as in NewRecurrentCache (kvcache/recurrent.go:99-101).
- RecurrentSync.MiddleCutInStep: says nothing about a cut that takes the last position of a sequence which had the same state, or a zero state, elsewhere.
- RecurrentSync.Shift: the number of tokens to discard is given; copying the inputs of the slot is not modelled.
- Recurrent.HybridCache.Reuse: models the cache calls of loading a prompt, not the choice of the slot or the comparison of prompts.
- Checkpoint stores are values held by slot; no two slots share a store in the source either.
- SentencePieceText.DecodeEncode: the condition that no token of byte form occurs in the text is sufficient and not necessary, because whether such a token is produced depends on every merge before it.
- Fragments.SplitSpecials: special tokens are non-empty; with an empty one the loop of the source would not end.
- BytePair.EncodePart: starts from a part of the text that is already split; the pre-tokenizer's regular expressions, and the SentencePiece-style normalization of byte-pair encoding, are not modelled. The input is valid UTF-8 where runes matter.
- SentencePieceText.Encode: adding BOS and EOS tokens, and the bookkeeping of vocabulary maps, would only add easy members.
- CausalRuns.WindowRefinesUnbounded: a removal that is refused because a moved cell is shared is not an event of runs; `Causal.Cache.Remove` says what it leaves of the sequence and that no other is affected.
- Harmony.Handler.AddContent: the methods take the parsing of headers as a parameter, of which HarmonyHeader.ParseHeader is the one in the source; tool-call JSON and function names are left out. Tags are non-empty, as the default ones are.
- Modelfile.ParseFile: Unicode tables are parameters that agree with ASCII; byte-order marks and line numbers in messages are left out. Upper and lower case are those of ASCII letters.
- ModelfileRoundTrip.RoundTrip: nothing is stated about commands with unprintable runes, which the parser drops.
- The encoder and wrapper caches, WordPiece, samplers, model conversion, HTTP, subprocess and command-line code, and the bindings to native libraries are not modelled.
