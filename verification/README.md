# A Dafny model of sonar's stateful core

This project models seven pieces of the sonar inference engine and proves what
they promise. Code that updates things in place is modelled by classes, arrays
and loops, each proved against a specification; code that only computes is
modelled by functions; concurrent code is modelled as a state machine over its
atomic steps. `dafny verify dfyconfig.toml` checks everything. The proofs are
about the model; none of the original program is executed.

| files | what they model |
|---|---|
| `Words`, `PhraseMatcher` | the Aho-Corasick automaton of `csrc/phrase_matcher.cpp`: building, linking and scanning, against naive search |
| `PhraseGuard` | the journal of pending tokens in `sonar/v1/phrase_guard/matcher.py`, on top of the automaton |
| `BlockStore`, `BlockIo` | block files of `csrc/fs_io.cpp`: any interleaving of stores, loads, failing system calls and crashing processes, and the code itself |
| `ChunkedScan`, `ChunkMetadata` | the selective scan of `sonar/_xpu_ops.py` cut into chunks with block checkpoints, and the chunk table that `mamba_attn.py` builds for the Mamba-2 backend |
| `GraphPartition` | partition signatures of `sonar/env_override.py`, and what running the partitions by their signatures computes |
| `Chunks`, `DeviceMemory` | the sleeping device allocator of `csrc/cumem_allocator.cpp` and `sonar/device_allocator/cumem.py` (ROCm path) |
| `FlatLogprobs` | the flat logprob container of `sonar/logprobs.py`, against a plain list of dictionaries |
| `MediaDownload` | download limits, shared byte budget and retries of `sonar/connections.py` |
| `Options`, `Products` | the option type and named products, used by the others |

## Where the code falls short of what it is meant to do

Each of these is a theorem with its exact condition, most of them beside a member
at a concrete input or run.

- `csrc/fs_io.cpp`: the comments say a load removes a file only when that file
  is corrupt. It removes whatever has the name by the time of the unlink. Two
  loads that find a short file, and a store between their unlinks, delete a
  complete block (`BlockStore.ShortFileLosesBlock`). No run can lose a complete
  block if and only if no file is shorter than its block at the start
  (`BlockStore.CompleteBlocksAreNeverLostIff`).
- `csrc/cumem_allocator.cpp`, chunk planning: the two sums with the base chunk can
  overflow 64 bits for settings that the parser accepts. The largest setting
  divides by zero (`Chunks.LargestSettingDividesByZero`), the next one plans no
  chunk for a 4 MiB request (`Chunks.NextSettingPlansNothing`); `Chunks.PlanChunks`
  has the exact conditions. Rounding up the request overflows only for negative
  sizes (`Chunks.SizeOverflowsIff`, `Chunks.NegativeSizePlansNothing`).
- `csrc/cumem_allocator.cpp`, failures: a refused access right leaves everything
  mapped, a clean-up call that fails leaves the device changed, and so does an
  error found only after the first handle was made: one left by an earlier call or
  raised by the context. Otherwise a failed `create_and_map` leaves the device
  exactly as it was (`DeviceMemory.Allocator.CreateAndMap`, an if-and-only-if over
  the calls made). A free that gives everything back but whose context failed
  leaves such an error, and the next wake-up then leaks a handle exactly when the
  driver grants one (`DeviceMemory.Allocator.FreeThenWakeUp`). An allocation that
  fails after its record was made leaves that record behind
  (`DeviceMemory.Allocator.MapNew`).
- `csrc/cumem_allocator.cpp` and `cumem.py`, giving memory back: a record is marked
  asleep, or dropped, whatever the driver answers. That is right if and only if
  every unmap and release succeeds and the range is still, or again, reserved at
  its address (`DeviceMemory.Allocator.Sleep`) or was freed
  (`DeviceMemory.Allocator.Free`).
- `sonar/logprobs.py`: a slice with a negative step takes the first selected
  start for the smallest, although it is the largest, and cuts out no entries.
  Reversing any two one-entry positions gives a slice that cannot be read at all
  (`FlatLogprobs.ReversedSliceFails`). The slice reads as the list's slice if and
  only if at most one position is selected or all selected positions are empty
  (`FlatLogprobs.Container.Slice`).
- `sonar/v1/phrase_guard/matcher.py`: rewinding to a token boundary can publish
  text that again begins a phrase, so a later match may start in published bytes.
  With the phrases "abc" and "bx", feeding "a" and then "bx" publishes "a", and
  "bc" would complete "abc" from it (`PhraseGuard.RewindReactivates`). No
  continuation can complete a phrase from published text if and only if the
  pending bytes cover what the automaton remembers
  (`PhraseGuard.PendingText.HeldBackIff`). Published text never contains a banned
  phrase in either case (`PhraseGuard.PendingText.PublishedIsFree`).

## Model

| member | source | states |
|---|---|---|
| `Words.LongestStep` | csrc/phrase_matcher.cpp:27-34 | for a prefix-closed word set, the longest suffix after one more byte depends only on the longest suffix before it |
| `Words.PatternOnLongest` | csrc/phrase_matcher.cpp:136-137 | the longest pattern that ends a text is found on the text's longest trie suffix, so a state's terminal is enough to decide a match |
| `Words.FirstMatchConcat` | csrc/phrase_matcher.cpp:134-142 | the first match of two chunks is the earlier of the first's and the shifted second's, negative starts included |
| `PhraseMatcher.Automaton.Advance` | csrc/phrase_matcher.cpp:27-34 | the next state is the longest suffix of the state's word plus the byte that is in the trie; it terminates and uses right links only up to the current depth; the failure links followed, counted as the walk along them defines, plus the new depth are at most the old depth plus one |
| `PhraseMatcher.Automaton.Add` | csrc/phrase_matcher.cpp:36-49 | the trie holds exactly the prefixes of the patterns added, each once; the pattern set grows by the pattern, the node count by at most its length |
| `PhraseMatcher.ChildSuffix` | csrc/phrase_matcher.cpp:57-59 | a child's longest proper suffix is one automaton step from its parent's failure node |
| `PhraseMatcher.InheritedTerminal` | csrc/phrase_matcher.cpp:60-61 | the longest pattern ending a word is the word itself or the one of its failure word, so taking the maximum is right |
| `PhraseMatcher.UnseenIsDeeper` | csrc/phrase_matcher.cpp:52-64 | in the breadth-first pass every node not yet seen is deeper than the front of the queue, and none is left when the queue is empty |
| `PhraseMatcher.Automaton.LinkChild` | csrc/phrase_matcher.cpp:57-63 | linking one child while the pass is half done keeps every seen node final and every unseen node as added |
| `PhraseMatcher.Automaton.Expand` | csrc/phrase_matcher.cpp:55-63 | expanding one node, its edges in any order, keeps the breadth-first invariant |
| `PhraseMatcher.Automaton.Finish` | csrc/phrase_matcher.cpp:51-65 | every non-root node's failure is the longest proper suffix of its word in the trie, and its terminal the length of the longest pattern ending its word |
| `PhraseMatcher.ReadyIsDetermined` | csrc/phrase_matcher.cpp:36-65 | two finished automata with the same patterns agree on words, terminals, depths, failures and edges, whatever the order of adding and of visiting edges |
| `PhraseMatcher.Compile` | csrc/phrase_matcher.cpp:72-116 | compiles exactly the lists of 1 to 2048 non-empty patterns of at most 262144 bytes in all; the result is finished and has exactly these patterns |
| `PhraseMatcher.Automaton.Scan` | csrc/phrase_matcher.cpp:118-153 | refuses exactly the states out of range; otherwise the state is the longest suffix of all bytes so far that begins a pattern, a match is reported exactly when some occurrence ends in the data, its offset is the smallest start of all of them, and the failure links followed over the whole walk plus the final depth are at most the starting depth plus the data length |
| `PhraseMatcher.ScanIsIndependentOfChunking` | csrc/phrase_matcher.cpp:118-153 | for every cut of the input into calls the final state is that of one whole scan, and the chunk matches shifted by their offsets combine to the whole match |
| `PhraseMatcher.ScanChunks` | csrc/phrase_matcher.cpp:118-153 | scanning chunk by chunk with the carried state, keeping the earliest match, gives the state, depth and match of naive search over the whole input |
| `PhraseMatcher.ScanBothWays` | csrc/phrase_matcher.cpp:118-153 | scanning chunk by chunk and scanning at once return the same result, for every cut |
| `PhraseMatcher.EveryStateHasAHistory` | csrc/phrase_matcher.cpp:128-131 | every state in range is one that some text leads to |
| `PhraseMatcher.DepthIsHoldBack` | csrc/phrase_matcher.cpp:151-152 | for every continuation, an occurrence that straddles the end starts at most depth bytes before it; and depth is the least such number |
| `PhraseGuard.PendingText.constructor` | sonar/v1/phrase_guard/matcher.py:51-64 | a new journal is empty and at the automaton's root; the pending limit is 256 zero-width tokens plus the longest encoding of any phrase, folded or not, so every pattern of the automaton fits in it |
| `PhraseGuard.TokenAt` | sonar/v1/phrase_guard/matcher.py:66-75 | the token where the byte's character begins, counting the zero-width tokens before it; never after the token holding the byte |
| `PhraseGuard.PendingText.Release` | sonar/v1/phrase_guard/matcher.py:77-88 | publishes exactly the first tokens; published plus pending text is unchanged; rebased ends and saved states again fit the shorter journal |
| `PhraseGuard.PendingText.Record` | sonar/v1/phrase_guard/matcher.py:90-101 | the limit is hit exactly when too many tokens are pending or the last 257 fed since the start or a rewind had no text; otherwise the journal has grown by the token and the verdict is naive search over everything fed so far |
| `PhraseGuard.PendingText.Rewind` | sonar/v1/phrase_guard/matcher.py:102-114 | publishes exactly the tokens before the one in which the byte at the start begins, names that token as blocked, empties the journal, forgets the tokens without text, and returns to the state of the published text |
| `PhraseGuard.PendingText.Feed` | sonar/v1/phrase_guard/matcher.py:90-116 | refuses the token exactly when too many tokens are pending or the last 257 fed since the start or a rewind had no text; rewinds exactly when the token completes a banned phrase; the journal is cut exactly at the token of the first byte that the automaton remembers or, if earlier, where the first match starts; without a rewind no token and no byte is lost or reordered; with one, the blocked token is the one after the cut |
| `PhraseGuard.PendingText.Finish` | sonar/v1/phrase_guard/matcher.py:118-120 | publishes everything pending, and the whole text is free of banned phrases |
| `PhraseGuard.PendingText.MatchesStartInJournal` | sonar/v1/phrase_guard/matcher.py:99-116 | for every continuation, while held back, every match starts in the pending bytes, so it can still be rewound in full |
| `PhraseGuard.PendingText.HeldBackIff` | sonar/v1/phrase_guard/matcher.py:101-116 | and conversely: held back if and only if no continuation completes a phrase from published text |
| `PhraseGuard.RewindReactivates` | sonar/v1/phrase_guard/matcher.py:102-114 | an input after which published text begins a phrase that a continuation completes |
| `PhraseGuard.PendingText.PublishedIsFree` | sonar/v1/phrase_guard/matcher.py:48-49 | text that left the engine never contains a banned phrase |
| `BlockStore.CallEffect` | csrc/fs_io.cpp:40-117 | every system call of a store or load has one of a few effects on names and files, each legal for the caller |
| `BlockStore.CallKeepsSafe` | csrc/fs_io.cpp:40-117 | one system call of any process, with any outcome, keeps the invariant of all processes |
| `BlockStore.CrashKeepsSafe` | csrc/fs_io.cpp:40-82 | a process that dies between two calls leaves the invariant intact |
| `BlockStore.RunIsSafe` | csrc/fs_io.cpp:40-117 | in every reachable state of every interleaving of stores, loads, failures and crashes, a file under a destination name holds its whole block |
| `BlockStore.OnlyOversizedLoadsRemove` | csrc/fs_io.cpp:106-111 | a published block loses its name only in the unlink of a load that asked for more bytes than the block has |
| `BlockStore.SizedLoadNeverDeletes` | csrc/fs_io.cpp:99-116 | a load no larger than its block never sees a short read and never unlinks, and when it succeeds it has read the block's bytes |
| `BlockStore.OnlyCreatorTouchesTmp` | csrc/fs_io.cpp:51-80 | a temp name changes or goes only by a call of the one store that created that file, even when stores share the path |
| `BlockStore.TmpHasMaker` | csrc/fs_io.cpp:57-79 | a temp file left in the directory belongs to a store that is still running or crashed, never to one that returned |
| `BlockStore.StoreOutcome` | csrc/fs_io.cpp:42-81 | a store that returned 0 has its block published, whole, in every later state; one that failed after creating its temp file left no name for it |
| `BlockStore.StoreAnswers` | csrc/fs_io.cpp:40-82 | in every interleaving the answer of a store is decided by its own calls: 0 when the check finds the block, when all calls succeed, or when the rename finds it; else the errno of the first call that fails, EIO for a short write |
| `BlockStore.LoadAnswers` | csrc/fs_io.cpp:91-117 | in every interleaving a load whose open and read succeed answers 0 with the leading bytes of the block if it asked for no more than the block has, and EIO otherwise; else the errno of the call that failed |
| `BlockStore.RunKeepsBlocks` | csrc/fs_io.cpp:40-117 | with loads no larger than their blocks, nothing published ever disappears |
| `BlockStore.LongFilesAreSafe` | csrc/fs_io.cpp:91-117 | from any start without short files, no run of sized loads loses a complete block |
| `BlockStore.ShortFileLosesBlock` | csrc/fs_io.cpp:106-111 | from any start with a short file, a run of sized loads and one store deletes a complete, freshly published block |
| `BlockStore.CompleteBlocksAreNeverLostIff` | csrc/fs_io.cpp:84-117 | no run loses a complete block if and only if no file is shorter than its block at the start |
| `BlockIo.FileSystem.StoreBlock` | csrc/fs_io.cpp:40-82 | the calls made are one complete run of the protocol's store and decide the answer; a check that finds the block changes nothing, calls that all succeed put a new file with the block under its name; other names are untouched and no temp file is left |
| `BlockIo.FileSystem.LoadBlock` | csrc/fs_io.cpp:91-117 | the calls made are one complete run of the protocol's load: the errno of an open or read that failed, else 0 with the file's first bytes when it has enough of them, and nothing changed, else EIO; only that removes the name |
| `BlockIo.FileSystem.BatchStoreBlock` | csrc/fs_io.cpp:207-266 | stopping at index f, destinations before f are stored and those after f are untouched; the error is that of a complete store of block f, attempted after the f stores before it and decided by its calls; a length mismatch changes nothing |
| `BlockIo.FileSystem.BatchLoadBlock` | csrc/fs_io.cpp:276-342 | stopping at index f, buffers before f hold their files, buffers after f are untouched, f is the number reported, and the error is that of a complete load of block f: a call that failed or a file too short |
| `BlockIo.BatchStoredIsWhole` | csrc/fs_io.cpp:242-252 | with content-hash names, every block before the failure is in place whole |
| `ChunkedScan.ScanConcat` | sonar/_xpu_ops.py:895-896 | a scan interrupted anywhere and continued from its state is the whole scan |
| `ChunkedScan.TrajectoryOf` | sonar/_xpu_ops.py:895-899 | a scan is a sequence of states, each the step of the one before, and output i is emitted from the state after token i |
| `ChunkedScan.ScanTokens` | sonar/_xpu_ops.py:860-912 | with outputs written over delta and gated outputs over z, every position gets the output of the unchunked scan on the original values, and other positions are untouched |
| `ChunkedScan.ChunkCompletes` | sonar/_xpu_ops.py:924-926 | the block index computed after each chunk but the last is that of the block whose end the chunk reaches |
| `ChunkedScan.FirstPosition` | sonar/_xpu_ops.py:837-845 | when more chunks follow, the starting position plus the first chunk is the end of the first block |
| `ChunkedScan.LastBlock` | sonar/_xpu_ops.py:918-923 | the block of the last token is the first block plus the number of chunks less one |
| `ChunkedScan.StoreState` | sonar/_xpu_ops.py:916-936 | after chunk c the checkpoints of all completed blocks hold, the last chunk's state goes to the block of the last token, and other slots are untouched |
| `ChunkedScan.ScanCached` | sonar/_xpu_ops.py:831-936 | for any number of chunks, outputs are those of the unchunked scan and every completed block's slot holds the unchunked state at that block's end |
| `ChunkedScan.SelectiveScan` | sonar/_xpu_ops.py:668-947 | the same for a whole program instance, with or without gate and cache: it starts from the zero state or from its own slot, with the cache from the slot its row names, each output is emitted from the state after its token, and without the cache the last state goes to its own slot; a row on the null block changes nothing |
| `ChunkedScan.BlocksHoldHistory` | sonar/_xpu_ops.py:916-936 | a call that starts from the state of all earlier tokens leaves in every completed block the state of the whole history up to its end |
| `ChunkedScan.EarlierBlocksKept` | sonar/_xpu_ops.py:924-935 | a later call keeps the checkpoints of earlier blocks that have slots of their own |
| `ChunkedScan.ResumeFromBlock` | sonar/_xpu_ops.py:795-806 | resuming from any checkpoint gives the states and outputs of one uninterrupted scan of the whole history |
| `ChunkedScan.CallIsFaithful` | sonar/_xpu_ops.py:795-936 | a call that resumes from the end of the history or from the end of any of its blocks keeps every completed block and the last one faithful to the new history, and emits the outputs of one uninterrupted scan |
| `ChunkedScan.RunIsFaithful` | sonar/_xpu_ops.py:795-936 | the same over every run of calls on one sequence |
| `ChunkedScan.ScanBatch` | sonar/_xpu_ops.py:764-806 | without the block cache, one more batch of a sequence leaves in its slot the scan of its whole history, emits the outputs of one uninterrupted scan, and changes no other slot |
| `ChunkedScan.ScanBatches` | sonar/_xpu_ops.py:764-947 | the same over every run of batches on several sequences with slots of their own |
| `ChunkMetadata.AddSegment` | sonar/v1/attention/backends/mamba_attn.py:266-291 | the chunks of one sequence cover its tokens, the first finishing the block begun and every later boundary on a multiple of the block size |
| `ChunkMetadata.AddRow` | sonar/v1/attention/backends/mamba_attn.py:257-291 | a checkpoint splits a row's chunks into two shapes, the first ending exactly on it |
| `ChunkMetadata.OneShapeIff` | sonar/v1/attention/backends/mamba_attn.py:257-291 | the two sides of a checkpoint inside a row make one shape, as a scan cut at block boundaries has, if and only if the checkpoint falls on a block boundary |
| `ChunkMetadata.ComputeChunkMetadata` | sonar/v1/attention/backends/mamba_attn.py:227-295 | for every batch and every choice of checkpoints, the chunks of each row with tokens are all its own and cut at block boundaries, in one shape or in one on each side of a checkpoint inside the row, and the table covers exactly the batch |
| `ChunkMetadata.CheckpointIsChunkEnd` | sonar/v1/attention/backends/mamba_attn.py:288-289 | the chunk named for a row's checkpoint ends that many tokens into the row |
| `GraphPartition.Collect` | sonar/env_override.py:283-305 | one pass over a partition gathers exactly the names its nodes produce, touch and free |
| `GraphPartition.GetSignatures` | sonar/env_override.py:282-349 | the reverse pass fails exactly when some returned name has no node, and otherwise gives each partition, with its own flag, the signature for what all later partitions wait for |
| `GraphPartition.UpdateFacts` | sonar/env_override.py:301 | an in-place update reads the buffer it updates, under its current name |
| `GraphPartition.ReadIsInput` | sonar/env_override.py:294-301 | a buffer that a partition reads and does not create is one of its inputs, under its real name, even if it is read by a name given to it inside the partition |
| `GraphPartition.AlwaysResolvable` | sonar/env_override.py:330 | on well-formed graphs no returned name lacks a node, so the pass never fails |
| `GraphPartition.UnmetIsNeeded` | sonar/env_override.py:347 | what is unmet before a suffix of partitions is an allocated buffer, not an alias, and a graph output or needed by one of its nodes |
| `GraphPartition.UnmetIsOlder` | sonar/env_override.py:347 | and it is produced by none of them |
| `GraphPartition.PartRuns` | sonar/env_override.py:290-311 | from its declared inputs a partition finds every buffer it reads, each holding the current version's value in the whole graph, and ends with exactly the unfreed buffers |
| `GraphPartition.SignatureIs` | sonar/env_override.py:313-343 | in terms of buffers, a signature returns what the partition creates for later and the inputs it does not free, and deallocates the inputs it frees |
| `GraphPartition.OnePartition` | sonar/env_override.py:313-343 | called with its declared inputs and constants a partition runs, and its declared outputs are present at the end |
| `GraphPartition.VersionKept` | sonar/env_override.py:301-328 | a buffer that a partition neither creates nor takes is not updated by it |
| `GraphPartition.PartitionsRun` | sonar/env_override.py:282-349 | from any point of the graph, the remaining partitions always find their inputs alive and end with all graph outputs |
| `GraphPartition.PartitionsKeepMeaning` | sonar/env_override.py:251-349 | for every well-formed graph with sound last uses, with in-place updates and layout-free buffers, every cut and every input, the partitioned run on buffers succeeds and delivers each graph output with the value of its last version in the uncut graph |
| `GraphPartition.UpdateIsWellFormed` | sonar/env_override.py:265-301 | a graph with an in-place update across a cut is well-formed |
| `GraphPartition.UpdateLastUses` | sonar/env_override.py:303-305 | and its last uses are exact |
| `GraphPartition.UpdateIsHandedOn` | sonar/env_override.py:301-347 | there the pass waits for the buffer, not the alias, and the updating partition takes it and hands it on |
| `GraphPartition.KeptInputIsUnmet` | sonar/env_override.py:318-326 | with exact last uses, an input that is handed on is still waited for |
| `GraphPartition.PartitionsLeakNothing` | sonar/env_override.py:303-347 | with exact last uses, between any two partitions exactly the buffers still waited for are alive |
| `GraphPartition.OnlyOutputsRemain` | sonar/env_override.py:251-349 | the run ends with the graph outputs and nothing else but buffers that no node ever needed |
| `Chunks.BaseChunk` | csrc/cumem_allocator.cpp:25-43 | a setting of m MiB that is not zero and fits 64 bits in bytes gives m * 1048576, and any other 268435456 |
| `Chunks.AlignedRoundsUp` | csrc/cumem_allocator.cpp:357 | without overflow the aligned size is the next multiple of the granularity |
| `Chunks.AlignedOverflows` | csrc/cumem_allocator.cpp:383-384 | with overflow it is zero |
| `Chunks.FillSizes` | csrc/cumem_allocator.cpp:392-407 | the chunk sizes are positive multiples of the granularity, all but the last a full chunk, and sum to what they cover |
| `Chunks.PlanChunks` | csrc/cumem_allocator.cpp:357-407 | division by zero if and only if rounding the base chunk overflows; the chunks tile the aligned range if and only if neither other sum overflows; no chunk at all if and only if the last sum overflows; every chunk but the last is the aligned base chunk |
| `Chunks.SizeOverflowsIff` | csrc/cumem_allocator.cpp:357 | for granularities up to half the range, rounding a signed size up overflows exactly for negative sizes smaller in magnitude than the granularity |
| `Chunks.LargestSettingDividesByZero` | csrc/cumem_allocator.cpp:39-42 | the largest accepted setting makes every request divide by zero at a 2 MiB granularity |
| `Chunks.NextSettingPlansNothing` | csrc/cumem_allocator.cpp:385-386 | one MiB less, a 4 MiB request is planned with no chunk |
| `Chunks.NegativeSizePlansNothing` | csrc/cumem_allocator.cpp:357 | the size -1 is rounded up to nothing |
| `DeviceMemory.AddressesAscend` | csrc/cumem_allocator.cpp:184-187 | chunks are laid out in order without overlap |
| `DeviceMemory.Allocator.EnsureContext` | csrc/cumem_allocator.cpp:109-117 | one context call or three; the error code afterwards is the last failure or what it was, and nothing stops |
| `DeviceMemory.Allocator.ReserveRocmAddress` | csrc/cumem_allocator.cpp:50-71 | a reported success is a new reservation, apart from all others, aligned as asked, whichever of the two attempts made it; after a failure the device is as before if and only if every free made succeeded, and else has one stray reservation |
| `DeviceMemory.Allocator.CreateHandles` | csrc/cumem_allocator.cpp:174-183 | one create call per chunk; at a failure, at any index, exactly one release call for each handle made, and the device is as before if and only if all of them succeed; with an error pending exactly one create call is made for a nonempty list, and its handle, if made, stays |
| `DeviceMemory.Allocator.MapChunks` | csrc/cumem_allocator.cpp:184-203 | one map call per chunk, in order; at a failure exactly the mapped chunks are unmapped, where they were mapped, and all handles released, and the device is as before if and only if all of that succeeds |
| `DeviceMemory.Allocator.CreateAndMap` | csrc/cumem_allocator.cpp:119-231 | from any error code: it succeeds if and only if none was pending and every context and driver call succeeds; a failure leaves the device exactly as before if and only if, with no error after the context, every unmap and release made succeeds and no access was refused to a chunk, and, with one, the single create call failed or there are no chunks |
| `DeviceMemory.Allocator.UnmapAndRelease` | csrc/cumem_allocator.cpp:233-276 | the context, one unmap call per chunk at the very addresses and sizes of the mapping, then one release per handle, going on past failures; the code left is that of the first unmap that failed, else of the first release, else what the context left; the mappings and handles gone are all of this range if and only if all unmaps and all releases succeed |
| `DeviceMemory.HandlesTakenBack` | csrc/cumem_allocator.cpp:176-182 | taking back the handles made so far restores the live handles |
| `DeviceMemory.MapsTakenBack` | csrc/cumem_allocator.cpp:188-195 | taking back the mappings made so far restores the mapped ranges |
| `DeviceMemory.Allocator.MapNew` | csrc/cumem_allocator.cpp:428-464 | a new allocation is made if and only if context and mapping succeed, and is coherent if and only if its chunks sum to its range; after a failure the range is freed, the device is as before if and only if nothing stays behind and that free succeeds, and the record stays, without a range if it was freed |
| `DeviceMemory.Allocator.Malloc` | csrc/cumem_allocator.cpp:337-465 | each outcome is decided by the calls made, both ways: context and granularity, reservation, overflow of the base chunk, mapping; success gives a new, aligned, large enough, awake allocation and touches no other; it keeps the device coherent if and only if the unguarded sum does not overflow; for every failure it is stated exactly when the device is as before |
| `DeviceMemory.FallAsleep` | csrc/cumem_allocator.cpp:695-696 | unmapping and releasing one awake allocation's chunks keeps handles live exactly for awake allocations |
| `DeviceMemory.WakeUp` | csrc/cumem_allocator.cpp:785-787 | mapping fresh chunks into a range asleep keeps it too |
| `DeviceMemory.OneDevice` | csrc/cumem_allocator.cpp:695-729 | the records determine the device: no two devices are coherent with the same records |
| `DeviceMemory.AsleepIff` | csrc/cumem_allocator.cpp:695-722 | marking an allocation asleep is right if and only if all its chunks and handles were taken back and its range is reserved |
| `DeviceMemory.DroppedIff` | csrc/cumem_allocator.cpp:555-573 | dropping a record is right if and only if all it held was given back and its range freed |
| `DeviceMemory.Allocator.Sleep` | csrc/cumem_allocator.cpp:695-729 | succeeds if and only if no error was pending and every call succeeds with the range reserved again at the same address; the record is asleep either way, and the device coherent with it if and only if every unmap and release succeeded and the range was not freed or came back at its address |
| `DeviceMemory.Allocator.RenewRange` | csrc/cumem_allocator.cpp:704-722 | a range freed and reserved again keeps the reserved ranges as they were if the free failed or the reservation came back at its address, and loses the range otherwise |
| `DeviceMemory.Allocator.WakeUpAt` | csrc/cumem_allocator.cpp:785-797 | succeeds if and only if no error was pending and every context and driver call succeeds, and then keeps address and ranges, with fresh handles; a failure leaves the records alone, and the device as before, equivalently coherent, if and only if nothing stays behind |
| `DeviceMemory.Allocator.Free` | csrc/cumem_allocator.cpp:468-585 | an unknown address changes nothing; no error is left if and only if none was pending and every call succeeds; the device is coherent without the record if and only if every unmap, every release and the free of the range succeeded, for awake and asleep allocations |
| `DeviceMemory.Allocator.FreeThenWakeUp` | csrc/cumem_allocator.cpp:545-573 | a free that gives everything back but whose context failed makes the next wake-up fail after one create call, and the device stays coherent if and only if that call failed |
| `DeviceMemory.Allocator.Serve` | sonar/device_allocator/cumem.py:203-245 | one request succeeds if and only if the calls it makes, of the shape of the request, are granted; a successful one keeps coherence, and the address, range and chunks of every allocation it does not free |
| `DeviceMemory.Allocator.ServeAll` | sonar/device_allocator/cumem.py:203-365 | a run stops at the first request whose calls are not granted and succeeds if and only if there is none; over every successful run of malloc, sleep, wake and free requests, reserved ranges stay disjoint, handles and mappings exist exactly for chunks of awake allocations, and live allocations keep their address |
| `FlatLogprobs.DictIsLastWriteWins` | sonar/logprobs.py:110-117 | a token reads as the last entry that names it, and is absent exactly when none does |
| `FlatLogprobs.Container.Append` | sonar/logprobs.py:63-72 | the container reads as before plus the dictionary, None read as empty |
| `FlatLogprobs.Container.AppendFast` | sonar/logprobs.py:74-90 | the container reads as before plus the dictionary of the four lists cut to the shortest |
| `FlatLogprobs.Container.Extend` | sonar/logprobs.py:92-95 | the container reads as the list extended |
| `FlatLogprobs.Container.ValidReads` | sonar/logprobs.py:107-117 | a valid container reads at every index, negative ones included, as its list would, and fails exactly when the list would |
| `FlatLogprobs.Container.Get` | sonar/logprobs.py:107-117 | reads the position by the lists' own indexing, index -k as the k-th position from the end, and fails exactly when one of these indices is out of bounds |
| `FlatLogprobs.Container.Positions` | sonar/logprobs.py:148-153 | iterating yields every position in order |
| `FlatLogprobs.EveryIsEveryStep` | sonar/logprobs.py:119-120 | a slice selects exactly the indices in range a whole number of steps after the first |
| `FlatLogprobs.EveryBackIsEveryStep` | sonar/logprobs.py:119-120 | and backwards, exactly those a whole number of steps before it |
| `FlatLogprobs.SliceSelects` | sonar/logprobs.py:119-120 | a slice of step 1 or -1 selects the positions between its bounds, a negative bound counting positions from the end |
| `FlatLogprobs.SliceFromEnd` | sonar/logprobs.py:119-120 | [-k:] selects the last k positions and [:-k] all the others, or all and none when there are not so many |
| `FlatLogprobs.ViewSliced` | sonar/logprobs.py:124-135 | the shifted ranges over the cut-out entries read as the selected positions, although skipped positions leave gaps |
| `FlatLogprobs.Container.BackwardReads` | sonar/logprobs.py:124-135 | in a backwards slice of several positions exactly the empty ones can be read, so it reads as the list's slice if and only if all are empty |
| `FlatLogprobs.Container.Slice` | sonar/logprobs.py:118-135 | fails exactly for step 0; a positive-step slice is a new valid container that reads as the list's slice, so [-k:] as its last k positions and [:-k] as the others; a negative-step one reads as the list's slice if and only if at most one position is selected or all selected are empty |
| `FlatLogprobs.AppendForNextPosition` | sonar/logprobs.py:176-205 | the container branch reads as the list branch, for every count of logprobs; the new position names the ids up to the shortest list, and the last entry of each has its logprob and text, the first ranked as sampled and the j-th ranked j |
| `FlatLogprobs.Run` | sonar/logprobs.py:63-205 | any run of appends and positive-step slices, continued on the slice, reads position by position as a plain list would |
| `FlatLogprobs.ReversedSliceFails` | sonar/logprobs.py:118-135 | reversing any two one-entry positions gives a container of which no position can be read |
| `MediaDownload.SizeLimit` | sonar/connections.py:88-99 | a size is within the result if and only if it is within the caller's limit and within the media limit in bytes |
| `MediaDownload.LengthError` | sonar/connections.py:108-120 | an announced length is refused exactly when it parses and passes the limit |
| `MediaDownload.TooLargeIsRight` | sonar/connections.py:95-105 | a size error names the limit passed: the media limit, if that is no looser than the caller's |
| `MediaDownload.Budget.Charge` | sonar/connections.py:72-85 | refuses exactly what would pass the limit and then leaves the budget as it was; a limit that is off charges nothing |
| `MediaDownload.AppendChunk` | sonar/connections.py:123-139 | the chunk, the response limit and the budget are treated as in one step of the machine; only a size error can be raised |
| `MediaDownload.ReadChunks` | sonar/connections.py:156-166 | the loop ends without error if and only if the whole body passes neither the response limit nor the budget, and then has taken every chunk; else it has stopped at the first chunk that passes one |
| `MediaDownload.ReadResponseBytes` | sonar/connections.py:142-167 | a size error, naming the limit, if and only if the announced length or the body passes one, else the transport's failure, else the whole body; the download saw the reply's events in order, all of them unless a limit was passed, as steps of the machine |
| `MediaDownload.OnlyTransportRetries` | sonar/connections.py:194-240 | another attempt starts if and only if one is left and the transport failed by timeout, lost connection, broken payload, disconnection or a status of at least 500; passing a limit always ends the download |
| `MediaDownload.SyncRetry` | sonar/connections.py:285-310 | a reply that fails with a status below 500, no status or any other failure ends the download with that error; one that passes no limit and fails by timeout, lost connection, broken payload, disconnection or a status of at least 500 is tried again while attempts are left; the last reply decides the result exactly, against the budget as the earlier ones left it; at most the set number of attempts, at least one; the first waits the base timeout and each later one four times as long; the budget grew by the bytes of all attempts |
| `MediaDownload.ActKeepsSound` | sonar/connections.py:123-167 | one step moves the budget by exactly what its download accepted and keeps both within their limits |
| `MediaDownload.RunIsAccounted` | sonar/connections.py:65-85 | for every interleaving of downloads and retries, the budget is the total of all attempts of all downloads charged to it |
| `MediaDownload.BodiesAreWithinLimits` | sonar/connections.py:72-167 | so it never passes its limit, and every returned body is what its last attempt accepted, within the caller's and the media limit |
| `MediaDownload.FinishedStays` | sonar/connections.py:292-296 | a download that returned or failed never changes again, so a size error is never retried |
| `MediaDownload.ReplayIsRun` | sonar/connections.py:142-167 | what the code does for one download is a run of the machine |

## Left out

- Python C-API work (reference counts, the interpreter lock, tuples, capsules) in the three C++ files: foreign calls with no algorithm in them.
- Durability across power loss in `csrc/fs_io.cpp`: there is no fsync, so crashes are process crashes. Parent directories, O_DIRECT and permissions are not modelled beyond a call that may fail.
- The model of `csrc/fs_io.cpp` assumes that destination names are content hashes, that an unlink or rename of an existing name works when it reports success, and that a read of a regular file returns fewer bytes than asked only at its end. An unlink that clean-up code ignores is taken to work.
- BlockIo.FileSystem.BatchStoreBlock: stated for one process whose calls are not interleaved with others; interleavings are the subject of `BlockStore`.
- BlockIo.FileSystem.BatchLoadBlock: stated for one process alone, as for the batch store.
- Turning text into bytes (casefold, UTF-8) in `sonar/v1/phrase_guard/matcher.py`: a token comes with its bytes, and a phrase with its two encodings.
- 32-bit node numbers and depths of the automaton: its at most 262145 nodes fit.
- Running out of host memory in `csrc/phrase_matcher.cpp` and `csrc/cumem_allocator.cpp`.
- Floating point, softplus and the gate formula of the scan: the per-token step, output and gate are uninterpreted functions, and stored states are read back as written.
- What the scheduler promises the pass of `sonar/env_override.py` is a condition of the theorems, `GraphPartition.WellFormed`: names are produced once and before use, an in-place update reads the buffer's current version, later reads use the newest name, and last uses name allocated buffers.
- Symbolic inputs of a signature and the order inside ordered sets.
- The CUDA path of `csrc/cumem_allocator.cpp` with one handle per allocation.
- CPU backups, tags and the contents of device memory in `sonar/device_allocator/cumem.py`.
- HTTP, sessions, redirects, logging, sleeping and file downloads of `sonar/connections.py`. The asynchronous reader and retry loop take the same steps as the synchronous ones.
- MediaDownload.SyncRetry: stated for a budget that no other download charges meanwhile; interleavings are the subject of `MediaDownload.RunIsAccounted`.
- Everything else in the repository: kernels, schedulers, bindings, benchmarks and build scripts.
