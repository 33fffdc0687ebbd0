# Bale for Git, modelled in Dafny

Bale for Git keeps large files out of git. A *clean* replaces a file by a small pointer and writes
its content, cut into chunks that are packed into *xorbs* and described by *shards*, to a local
store. The pre-push hook uploads what is staged to a server, `gc` reclaims what was abandoned, and
the server reconstructs files from byte ranges of xorbs. A read-only mount shows one revision.

This project models the parts of Bale that decide whether content survives, and proves properties
of them. `dafny verify dfyconfig.toml` checks everything.

| module | models |
|---|---|
| `CommitWalk` | the reachability walk over first-parent deltas |
| `StagingProtocol`, `StagingSafety`, `StagingHazards` | clean, gc, push-pending and git as one transition system; its safety; what its guards are for |
| `StagingStore` | markers, objects and clean cache on disk, changed in place |
| `CleanCache`, `CleanFilter` | the chunk index and the two ways of checking a payload against it; the whole clean of one file |
| `PktLine`, `Utf8`, `Hex`, `Bytes` | pkt-line framing and draining of a clean payload |
| `ShardFormat`, `ShardCodec`, `ShardRoundTrip`, `ShardLayout` | the binary shard format: cursor parser, serializer, round trips, every field by its offset |
| `XorbFrames`, `XorbRoundTrip`, `Reconstruction` | xorb frames and their encoding, their verification, the ranges and bytes served for a term |
| `FileTerms`, `WriteOnce`, `MetadataStore` | term lists under concurrent transactions, lookup, accounting, quota |
| `UploadProtocol`, `UploadProgress` | xorb and shard uploads interleaved, with crashes; uploads that run to their end |
| `MountVfs`, `BlobLru` | the lazily populated mount and its byte-budgeted cache |
| `Wrappers`, `Sums` | options and results, sums over finite sets |

How the model stands for the code:

- Git objects are content addressed, so a commit is modelled by its value; histories are finite and
  acyclic by construction. A blob carries the verdict of parsing it as a pointer.
- Concurrency is a state machine over the steps in which processes touch shared state. A theorem
  about runs is about every interleaving of these steps and every crash point.
- What is a function of its input but not decided here (xxh3 chunk hashes, decompression, merkle
  hashing, the shuffle's seed) is a parameter. Where a result needs that hashes do not collide, or
  that a hash stands for one body, the lemma says so in its `requires`.
- Positional reads, relaxed flag loads, `LIMIT 1` without an order, and the choice of the next
  thread or path are nondeterministic choices in the methods.

Each operation has a definition that follows the code and that the proofs use, and a statement that
does not mention it: what a repository mentions is said of modes, sizes and lines of parents
(`CommitWalk.LiveIsMentioned`, `StagingSafety.NoFileIsLost`), a xorb by the bytes of its frames
(`XorbRoundTrip`), a shard by the offsets of its fields (`ShardLayout`), a pathspec by the paths it
names (`MountVfs.PathspecSelects`). For the protocols, progress is proved besides safety: a clean, a
push, a gc, a registration and both kinds of upload run to their end when nothing holds them up.

The staging theorems hold for runs in which the environment keeps its side. Content is never lost
(`StagingSafety.NoContentIsLost`) under `StagingProtocol.EnvironmentGuard`:

1. What the index or a local ref comes to mention is safe, and no gc that has read index and refs
   takes it for dead.
2. Commits below `refs/remotes` contain pushed content only. If all that lies below the tips a
   remote has reported is on the server, a finished push lets git keep this
   (`StagingSafety.PushedTipsMayBeRecorded`).
3. When gc reads the clock, no pointer that a clean had promised and git had not recorded when gc
   read the refs is past the grace, unless it is on the server or git has let go of it again.
4. What a clean-cache hit has loaded is still safe when the hit gets the store lock.

For the cache to be good whenever the lock is free (`StagingSafety.CacheNamesSafeContent`),
`StagingProtocol.CacheGuard` asks for two more:

5. A gc that dies leaves no cache entry that it was about to forget and whose content is not safe.
6. A smudge, which fills the cache without the lock, saves an entry only for content that is safe, or
   under a key that a running gc has still to come by and will remove.

All of them are exact: a step that the code allows keeps the invariant if and only if assumptions 1
to 4 hold of it (`StagingSafety.GuardIsExact`), and keeps the cache good if and only if 5 and 6 do
(`StagingSafety.CacheGuardIsExact`). `StagingHazards` proves that content is lost when one of 3 to 6
fails (for a smudge, while the lock is free), and for each gives a run from an empty repository that
keeps all of them up to a state where it does. What one would ask of git and its users implies them:

- 1, if pointers reach the index or a local ref only from a clean or from content already there
  (`KnownContentIsSafe`);
- 3, if gc's walk does not outlast the grace (`YoungIsSpared`), or if pointers are covered until git
  records them, by the server, a young marker, or a git lock while no gc is past its check for such
  locks, and recorded ones are young or on the server (`CoveredIsSpared`);
- 4, together with 5 and 6, if a gc that has found no git lock overlaps no cache hit between its load
  and its lock, unless what is loaded is on the server (`SeenHitsAreSafe`).

Two assumptions are about xet and the other remotes: local deduplication points only at xorbs that
are in the store, also after a sweep that died half way and left shards behind
(`StagingProtocol.CleanAllowed`), and what other remotes hold, they keep.

Where the code and its documentation disagree, the model follows the code: `docs/ARCHITECTURE.md`
(line 330) says that the clean-cache-hit path never locks, but `filter_process.rs` (line 348)
takes the store lock to touch the marker, after it has loaded the cache entry (line 320).

Properties that turned out not to hold in general are shown by a concrete case, and stated with the
exact condition under which they do:

| property | fails in | holds exactly if |
|---|---|---|
| both verifiers give one answer | `CleanCache.VerifiersCanDisagree` | `CleanCache.VerifiersAgree`: no empty chunk starts behind the end of the file, or the parallel one refuses too |
| the quota check adds up what is stored afterwards | `MetadataStore.ChargeCanBeTooLow` | `MetadataStore.ChargeIsExact`: the lists that stand for the shard's files add as many bytes as those it sent |
| a lookup serves the stored list | `MetadataStore.LookupCanBeRefused` | `MetadataStore.ServedForEveryRow`: the last registration in each repo has the first list's size |
| a stored blob has its own layout | `UploadProtocol.MixedUpTermFails` | `UploadProtocol.LayoutIsTheBlobsOwn`: the first body whose layout was written and the last body put have equal layouts |
| only the indexed payload passes the cache | `CleanCache.SomeOtherPayloadPasses` | `CleanCache.IndexDecides`: no other payload of the same length agrees in the hash of every window |
| gc dooms only what may go | `StagingHazards.SlowWalkLosesContent` | `StagingSafety.ReadClockKeepsInv`: every doomed pointer that was promised during the walk is on the server or let go |
| a cache hit promises safe content | `StagingHazards.UnseenHitLosesContent` | `StagingSafety.LockHitKeepsInv`: what it has loaded is safe when it gets the lock |
| a smudge leaves the cache good | `StagingHazards.SmudgeLosesContent` | `StagingSafety.SmudgeKeepsCache`: the content is safe or gc has still to remove the entry |
| a crash does no harm | `StagingHazards.CrashWhileReclaimingLosesContent` | `StagingSafety.CrashKeepsCache`: every cache entry that was about to be forgotten names safe content |
| the cache's byte counter is exact | `BlobLru.PutLeaksOldBytes` | `BlobLru.CounterIsExact`: no put that fits finds its key resident, with data, after the eviction |

## Model

| member | source | states |
|---|---|---|
| CommitWalk.IntroducedOrHidden | crates/git-bale/src/gc.rs:250-274 | a pointer in any tree of the history is introduced, against the first parent, by some walked commit, or a hidden tip reaches a tree that holds it |
| CommitWalk.WalkMissesOnlyHidden | crates/git-bale/src/gc.rs:207-276 | for every DAG: a reachable wanted pointer that the walk misses is reachable from a hidden tip, and what the walk finds is really in the index or reachable |
| CommitWalk.WalkExactWithoutHiding | crates/git-bale/src/gc.rs:207-276 | with nothing hidden the walk finds exactly the wanted pointers of the index and of every reachable tree |
| CommitWalk.BelowIsAncestor | crates/git-bale/src/gc.rs:240-248 | the commits a walk can visit are exactly those at the end of a line of parents from a tip |
| CommitWalk.LiveIsMentioned | crates/git-bale/src/gc.rs:207-276 | said of entries alone: a wanted hash is live if a regular file or an executable of 1 to 4096 bytes holds its pointer in the index or, with nothing hidden, in any tree of the history; and only if such an entry stands in one of them |
| CommitWalk.ConsiderBlob | crates/git-bale/src/gc.rs:358-390 | the seen set and the size filter lose no wanted pointer, and only this blob's pointer can become live |
| CommitWalk.CollectChangedPointers | crates/git-bale/src/gc.rs:321-356 | every wanted pointer a commit introduces becomes live and no other, in any visiting order and with the early exit |
| CommitWalk.ConsiderIndex | crates/git-bale/src/gc.rs:220-232 | exactly the wanted hashes of the index, with the early exit |
| CommitWalk.ConsiderHistory | crates/git-bale/src/gc.rs:240-276 | adds exactly the wanted hashes that a commit below a tip and not below a hidden one introduces |
| CommitWalk.ReachableHashes | crates/git-bale/src/gc.rs:211-276 | seen set, early exits and visiting order never change the result: it is the set of wanted hashes indexed or introduced, and what `LiveIsMentioned` says of entries holds of it |
| CommitWalk.CollectDelta | crates/git-bale/src/push_pending.rs:550-585 | collects exactly the pointers with a size that a regular file or an executable of 1 to 4096 bytes holds where a commit between the hidden and the pushed tips has changed it, each with a size one of them carries |
| CommitWalk.ReachablePointers | crates/git-bale/src/push_pending.rs:516-548 | the same, hiding what the remote reported; if all pointers carry a size, none of the pushed history is missing but below a reported commit, and none at all if the remote reported a commit that is not here |
| CommitWalk.CollectSized | crates/git-bale/src/push_pending.rs:587-640 | the sized pointers of the paths one commit has changed |
| CommitWalk.SizedPointersCoverHistory | crates/git-bale/src/push_pending.rs:503-548 | every pointer of the pushed history is collected or reachable from what the remote reported |
| StagingSafety.LockKept | crates/git-bale/src/store.rs:164-215 | whoever is in a critical section is the one holder of the store lock, through every step and crash |
| StagingSafety.CleanLosesNothing | crates/git-bale/src/filter_process.rs:372-439 | no step of a clean, hit or miss, makes safe content unsafe or breaks that marked content is in the store |
| StagingSafety.GcLosesNothing | crates/git-bale/src/gc.rs:157-203 | gc unprotects only the hash whose marker it drops; its sweep touches nothing that a marker protects |
| StagingSafety.PushLosesNothing | crates/git-bale/src/push_pending.rs:275-295 | the drain unprotects nothing: what it unmarks is on the server, and it sweeps only when no marker is left |
| StagingSafety.UnlistedIsUnreferenced | crates/git-bale/src/gc.rs:126-136 | what the liveness read does not report is on the server, or neither the index nor any ref of the snapshot mentions it |
| StagingSafety.ReadClockKept | crates/git-bale/src/gc.rs:145-155 | the grace filter dooms only hashes that are on the server or abandoned exactly if that holds of those doomed that were promised but unrecorded when the refs were read |
| StagingSafety.ReadClockKeepsInv | crates/git-bale/src/gc.rs:126-155 | hence reading the clock keeps the invariant exactly under that condition |
| StagingSafety.CoveredIsSpared | crates/git-bale/src/gc.rs:101-114 | the condition holds if what is still pending is covered, by the server, a young marker, or a git lock while no gc is past its check, and what was recorded meanwhile is young or on the server |
| StagingSafety.LockHitKeepsInv | crates/git-bale/src/filter_process.rs:320-348 | a cache hit that takes the lock keeps the invariant exactly if what it has loaded is still safe |
| StagingSafety.SeenHitsAreSafe | crates/git-bale/src/filter_process.rs:314-348 | it is, in every run in which a gc that found no git lock overlaps no hit between load and lock, but for content on the server |
| StagingSafety.KeptIsPushed | crates/git-bale/src/gc.rs:167-183 | a dead hash whose cache entry gc keeps is on the server |
| StagingSafety.PushedEntryIsKept | crates/git-bale/src/gc.rs:167-183 | in server mode the cache entry of a dead hash that remote history mentions is kept |
| StagingSafety.DropDoneKeepsCache | crates/git-bale/src/gc.rs:173-190 | when the invalidation begins, every cache entry names safe content or is about to be forgotten |
| StagingSafety.ReferencedKept | crates/git-bale/src/gc.rs:76-205 | every step keeps content that the index or a local ref mentions safe |
| StagingSafety.PendingKept | crates/git-bale/src/filter_process.rs:372-389 | every step keeps content safe that a clean has promised and git has not recorded |
| StagingSafety.CacheKept | crates/git-bale/src/gc.rs:157-190 | every step keeps each clean-cache entry safe, or still to be removed by a gc that has not come by its key |
| StagingSafety.CrashKeepsCache | crates/git-bale/src/gc.rs:157-190 | a process may die at any step: the cache stays good exactly if the entries it was about to invalidate name safe content |
| StagingSafety.SmudgeKeepsCache | crates/git-bale/src/filter_process.rs:821-856 | a smudge may save an entry at any time, without the lock: the cache stays good exactly if its content is safe or gc has still to remove the entry |
| StagingSafety.CacheGuardIsExact | crates/git-bale/src/gc.rs:157-190 | every step that the code allows keeps the cache good exactly if it is no such crash and no such smudge |
| StagingSafety.StepKeepsInv | crates/git-bale/src/gc.rs:76-205 | the whole protocol invariant survives every step of every process, of git and of the clock |
| StagingSafety.GuardIsExact | crates/git-bale/src/gc.rs:76-205 | every step that the code allows keeps it exactly if the environment keeps its side: what git records, when gc reads the clock, what a hit has loaded |
| StagingSafety.RecordKeepsInv | crates/git-bale/src/gc.rs:126-136 | git may change index and refs exactly if they then mention safe content only, and nothing a running gc takes for dead |
| StagingSafety.KnownContentIsSafe | crates/git-bale/src/gc.rs:126-136 | that is so if what is new was promised by a clean or is on the server |
| StagingSafety.RunKeepsInv | crates/git-bale/src/gc.rs:76-205 | ... and hence every run |
| StagingSafety.NoContentIsLost | crates/git-bale/src/gc.rs:76-205 | in every interleaving, each hash that the index or any ref mentions, or that is promised and unrecorded, is on the server or has a marker, a shard and all the xorbs the shard names |
| StagingSafety.NoFileIsLost | crates/git-bale/src/gc.rs:76-205 | the same said of entries: every regular file or executable of 1 to 4096 bytes that holds a pointer, in the index or in any tree below any ref |
| StagingSafety.CacheNamesSafeContent | crates/git-bale/src/gc.rs:147-203 | whenever the store lock is free, every clean-cache entry names content that is on the server or has a marker, a shard and all its xorbs |
| StagingSafety.PushedHistoryIsOnServer | crates/git-bale/src/push_pending.rs:86-303 | when staged files are uploaded and the others are found on the server or on another remote, every pointer of the history about to be pushed is on the server, if that is so for everything below the tips the remote has reported and all pointers carry their size |
| StagingSafety.PushedTipsMayBeRecorded | crates/git-bale/src/push_pending.rs:86-303 | ... and, with the same two premises, moving the remote-tracking refs to the pushed tips keeps the environment's side: they contain pushed content only |
| StagingStore.StagingArea.Clean | crates/git-bale/src/filter_process.rs:319-439 | one undisturbed clean: only a verified payload gets the cached pointer, and then nothing but a marker that is there is touched; any other is staged under its own hash, with xorbs, shard and a marker of now |
| StagingStore.CleanIsARun | crates/git-bale/src/staging.rs:29-70 | the method's effect is that of an uninterrupted clean of the protocol; with a good cache it needs nothing of the environment, and under the invariant the pointer it returns names safe content: a hit may touch a marker but never needs to create one |
| CleanFilter.Filter.Verify | crates/git-bale/src/filter_process.rs:320-346 | in memory or spilled: verified exactly if the length and the hash of every window agree with the payload indexed for the path |
| CleanFilter.Filter.DoClean | crates/git-bale/src/filter_process.rs:302-450 | the whole clean of one file: unless windows collide with those indexed for its path, git gets the pointer of the very payload it sent, so an edited file never comes back with its old pointer; a payload that is not recognized is staged with objects and a marker of now |
| CleanFilter.Filter.SaveIndex | crates/git-bale/src/filter_process.rs:402-450 | the entry saved after a full clean is the index of the payload cleaned |
| StagingStore.StagingArea.ForgetHashes | crates/git-bale/src/clean_cache.rs:103-137 | removes exactly the entries whose pointer names a given hash, and counts them |
| StagingStore.StagingArea.RemoveAllStagedObjects | crates/git-bale/src/staging.rs:130-154 | leaves no xorb and no shard |
| StagingStore.StagingArea.Reconcile | crates/git-bale/src/gc.rs:111-204 | one undisturbed gc, in local and server mode: a marker goes exactly if there is no git lock, it is past the grace, and neither the index nor unpushed (in local mode: any) history mentions its hash; a cache entry exactly if its marker went and no history mentions its hash; the objects exactly if the last marker went |
| StagingStore.ReconciledReclaims | crates/git-bale/src/gc.rs:111-204 | the same of the function that the gc runs of the protocol are compared with |
| StagingStore.StagingArea.Drain | crates/git-bale/src/push_pending.rs:275-295 | removes exactly the uploaded markers, sweeps the objects exactly if no marker is left, and keeps the cache; nothing if nothing was staged |
| StagingStore.DrainIsAPushRun | crates/git-bale/src/push_pending.rs:275-302 | the method's effect is that of the protocol's drain from the lock to the exit, each step one the safety theorem covers |
| StagingStore.PushIsARun | crates/git-bale/src/push_pending.rs:86-303 | an undisturbed push whose other pointers are found elsewhere has a run to its end: everything staged and everything the pushed commits add is on the server, and the store is empty; each step is one the safety theorem covers |
| StagingStore.ReconcileIsAGcRun | crates/git-bale/src/gc.rs:83-204 | the method's effect is that of an uninterrupted gc run of the protocol, in every state; each step is one the safety theorem covers if what is pending is covered by a git lock, a young marker or the server |
| StagingHazards.UnseenHitLosesContent | crates/git-bale/src/filter_process.rs:320-356 | whenever what a hit has loaded is not safe when it takes the lock, it goes on to promise content that is lost |
| StagingHazards.CrashWhileReclaimingLosesContent | crates/git-bale/src/gc.rs:157-190 | whenever a gc dies against its guard, an entry is left whose content nothing protects, and the next hit promises it |
| StagingHazards.SmudgeLosesContent | crates/git-bale/src/filter_process.rs:726-744 | whenever a smudge saves an entry against its guard while the lock is free, the next hit promises what is lost |
| StagingHazards.SlowWalkLosesContent | crates/git-bale/src/gc.rs:126-165 | whenever gc reads the clock against its guard, its next steps lose a hash that git has recorded or was promised |
| StagingHazards.DoomedIsReachable | crates/git-bale/src/gc.rs:157-190 | add, abandon, wait, gc: a state where a crash does harm is reached from an empty repository by permitted steps |
| StagingHazards.UnseenHitIsReachable | crates/git-bale/src/filter_process.rs:320-348 | a hit loads its entry while that gc forgets it: so is a state where a hit does harm |
| StagingHazards.SmudgeIsReachable | crates/git-bale/src/gc.rs:157-203 | in local mode, two files added, one abandoned, gc: so is a state where a smudge of the reclaimed file, which can still be read, does harm |
| StagingHazards.SlowWalkIsReachable | crates/git-bale/src/gc.rs:126-146 | add, gc reads the refs, git records the pointer, 601 seconds pass: so is a state where reading the clock does harm |
| Hex.HexRoundTrip | crates/git-bale/src/pktline.rs:30-40 | parsing undoes fixed-width formatting for every number that fits |
| Hex.FourDigits | crates/git-bale/src/pktline.rs:178-179 | each of the four digits of a header, in lower case, most significant first |
| PktLine.HeaderRoundTrip | crates/git-bale/src/pktline.rs:178-179 | every total below 65536 written as a header is read back |
| PktLine.ControlPackets | crates/git-bale/src/pktline.rs:41-48 | lengths 0, 1 and 2 are flush, delimiter and response end, and length 3 is refused |
| PktLine.PktReader.ReadPacket | crates/git-bale/src/pktline.rs:30-56 | reads the packet that stands at the position, with every error of the code, and moves behind it |
| PktLine.PktReader.ReadTextList | crates/git-bale/src/pktline.rs:74-97 | reads text packets up to the flush, newlines stripped, and stops right behind it |
| Utf8.ValidIsEncoded | crates/git-bale/src/pktline.rs:83-88 | the check of a text line accepts exactly the encodings of sequences of code points without surrogates, each in its shortest form (section 3.9 of the Unicode standard) |
| PktLine.PktReader.ReadBinaryTo | crates/git-bale/src/pktline.rs:99-129 | concatenates data packets up to the flush, refusing as soon as the cap is exceeded |
| PktLine.PktWriter.WriteText | crates/git-bale/src/pktline.rs:167-180 | writes one framed line, or nothing exactly when it is longer than 65515 bytes |
| PktLine.TextFrameBytes | crates/git-bale/src/pktline.rs:176-180 | a framed line byte by byte: four digits of the total length, the line, a newline |
| PktLine.PktWriter.WriteTextList | crates/git-bale/src/pktline.rs:182-187 | writes the lines and a flush, or stops at the first line that does not fit |
| PktLine.PktWriter.WriteBinary | crates/git-bale/src/pktline.rs:189-199 | cuts any payload into full packets and a rest |
| PktLine.PktWriter.WriteAllThenFlush | crates/git-bale/src/pktline.rs:201-204 | the framed payload closed by one flush, with four bytes of header for every 65516 bytes begun |
| PktLine.TextListRoundTrip | crates/git-bale/src/pktline.rs:75-97 | for every list of lines that fit, wherever it stands in a stream, reading undoes writing and stops right behind it |
| PktLine.BinaryRoundTrip | crates/git-bale/src/pktline.rs:101-129 | for every payload and cap, reading undoes writing, or refuses exactly when the payload exceeds the cap |
| PktLine.DrainCleanPayload | crates/git-bale/src/filter_process.rs:253-298 | in memory or spilled, the drained content and length are those of the stream, and it spills exactly above the threshold |
| PktLine.SendAndDrain | crates/git-bale/src/filter_process.rs:253-298 | for every payload and threshold, writing and draining gives back the bytes, whatever follows in the stream |
| CleanCache.DecodeRoundTrip | crates/git-bale/src/clean_cache.rs:47-53 | a formatted chunk hash decodes to itself |
| CleanCache.ComputeChunksFromSlice | crates/git-bale/src/clean_cache.rs:145-166 | the index of a payload in memory, with one empty chunk for an empty payload |
| CleanCache.ComputeChunks | crates/git-bale/src/clean_cache.rs:170-195 | the index of the first bytes of a file, or failure exactly if the file is shorter |
| CleanCache.ChunksAreIndex | crates/git-bale/src/clean_cache.rs:145-195 | such an index has one chunk for each MiB begun, from a multiple of a MiB to the next or to the end, hashed; an empty payload one empty chunk |
| CleanCache.CoveredWraps | crates/git-bale/src/clean_cache.rs:204-207 | the checked sum of the chunk lengths is their total modulo 2^64 |
| CleanCache.VerifyChunksInMemory | crates/git-bale/src/clean_cache.rs:199-223 | accepts exactly if the index is not empty, the lengths add up, and every chunk is in bounds with a hash of sixteen digits that is that of its bytes |
| CleanCache.ReadExactAt | crates/git-bale/src/clean_cache.rs:299-313 | whatever the short reads, delivers the range, or fails exactly if it runs past the end |
| CleanCache.Shuffle | crates/git-bale/src/clean_cache.rs:344-347 | an in-place permutation for every seed |
| CleanCache.PriorityOrder | crates/git-bale/src/clean_cache.rs:317-356 | first, last, then the rest: every index exactly once |
| CleanCache.StripesPartition | crates/git-bale/src/clean_cache.rs:251-254 | the stripes hold exactly the indices of the order |
| CleanCache.StepWorker | crates/git-bale/src/clean_cache.rs:271-295 | a worker passes a chunk only if it matches and raises the flag only for one that does not |
| CleanCache.RunWorkers | crates/git-bale/src/clean_cache.rs:249-268 | for every stripe split, schedule and delayed view of the flag: true exactly if all chunks match |
| CleanCache.VerifyChunks | crates/git-bale/src/clean_cache.rs:227-269 | shuffled, striped, parallel and stopping early, the answer is that of checking every chunk: the index is not empty, the lengths add up, each hash has sixteen digits and is that of the bytes in the file |
| CleanCache.VerifiersAgree | crates/git-bale/src/clean_cache.rs:199-295 | the in-memory verifier accepts exactly what the parallel one accepts, unless an empty chunk starts behind the end of the file; then it refuses |
| CleanCache.VerifiersCanDisagree | crates/git-bale/src/clean_cache.rs:216-218 | for every hash function, one index with such a chunk passes one verifier and not the other |
| CleanCache.IndexDecides | crates/git-bale/src/clean_cache.rs:145-295 | against an index built by the code, either verifier accepts exactly if the length and all window hashes agree |
| CleanCache.OnlyTheIndexedPayloadPasses | crates/git-bale/src/clean_cache.rs:145-295 | if no window of a payload collides with the indexed one at the same place, it passes exactly if it is the indexed payload |
| CleanCache.SomeOtherPayloadPasses | crates/git-bale/src/clean_cache.rs:145-295 | for every 64-bit hash function there are two payloads of nine bytes of which one passes for the other |
| XorbFrames.ParseXorbFrames | crates/bale-server-shard/src/xorb.rs:75-131 | the frames of a body, or the error of the first bad frame with its index |
| XorbFrames.FramesTile | crates/bale-server-shard/src/xorb.rs:87-126 | parsed frames follow each other without gap and end within the body |
| XorbFrames.AcceptedSizes | crates/bale-server-shard/src/xorb.rs:87-126 | the frames of a body are contiguous from 0 and their lengths sum to the last end, at most the body length and below 2^32 |
| XorbFrames.SliceReparses | crates/bale-server-shard/src/xorb.rs:78-131 | for every accepted body and every range of frames, the slice parses to exactly those frames, shifted |
| XorbRoundTrip.XorbParses | crates/bale-server-shard/src/xorb.rs:71-131 | for every non-empty list of frames written as version 0, 3 bytes of payload length, scheme, 3 bytes of unpacked length, payload, with a footer or without: parsing gives exactly these frames, one behind the other, each with its payload |
| XorbRoundTrip.ParsedIsPacked | crates/bale-server-shard/src/xorb.rs:78-131 | conversely, every accepted body is such a list and a rest that starts no frame |
| XorbRoundTrip.BadFrameIsRefused | crates/bale-server-shard/src/xorb.rs:97-117 | behind any such frames, a header with an unknown scheme and one that promises more bytes than there are are refused with the index of the frame |
| XorbRoundTrip.NoFrameIsRefused | crates/bale-server-shard/src/xorb.rs:78-95 | so are a body without a frame and one above 2^32 - 1 bytes |
| XorbFrames.DecompressXorbChunksInto | crates/bale-server-shard/src/xorb.rs:187-226 | appends the chunks of a body in order, or reports the first frame that fails |
| XorbFrames.VerifyXorbBody | crates/bale-server-shard/src/xorb.rs:133-185 | accepts exactly the bodies that unpack and whose aggregated hash is the expected one |
| XorbRoundTrip.ContentsAreUnpacked | crates/bale-server-shard/src/xorb.rs:187-226 | the contents of written frames are given chunks exactly if each payload decompresses to its chunk and that is as long as the header says |
| XorbRoundTrip.VerifiedIsPacked | crates/bale-server-shard/src/xorb.rs:133-185 | a body passes exactly if it is a list of written frames that all decompress to the declared lengths, and the merkle hash over hash and length of each chunk in order is the expected one |
| XorbFrames.SliceHoldsItsChunks | crates/bale-server-shard/src/xorb.rs:187-226 | the slice of frames s to e of an intact body decompresses to exactly the chunks s to e |
| Reconstruction.BuildReconstruction | crates/bale-server-http/src/lib.rs:562-627 | fails exactly if some term has no layout or an invalid range, with the error of the first; otherwise each xorb has the byte ranges of its terms, from the first frame's first byte to the last frame's last, in term order and nothing else |
| Reconstruction.FirstErrorIs | crates/bale-server-http/src/lib.rs:562-574 | the reported error is that of the first term that cannot be served: a missing layout, or a range that is empty, inverted or too long |
| Reconstruction.FetchAndDecompressTerm | crates/bale-server-http/src/lib.rs:784-831 | every outcome of serving one term, for any layout and blob |
| Reconstruction.TermIsServed | crates/bale-server-http/src/lib.rs:564-574 | with the body's own layout, each valid term range (section 14.1.2 of RFC 9110: both ends included) is in bounds and decompresses to exactly the term's chunks |
| ShardFormat.SwappedTwice | crates/bale-server-shard/src/lib.rs:165-177 | reversing the 8-byte groups is its own inverse |
| ShardCodec.FourBytes | crates/bale-server-shard/src/lib.rs:144-147 | a number of the format is the little-endian value of its four bytes |
| ShardCodec.Cursor.Take | crates/bale-server-shard/src/lib.rs:128-143 | takes n bytes or reports how many are missing and where, without moving |
| ShardCodec.Cursor.U32 | crates/bale-server-shard/src/lib.rs:144-147 | the little-endian number at the cursor |
| ShardCodec.Cursor.U64 | crates/bale-server-shard/src/lib.rs:148-153 | the little-endian number at the cursor |
| ShardCodec.SwapU64Groups | crates/bale-server-shard/src/lib.rs:169-177 | the nested loops compute the group reversal: byte k comes from the byte at the mirrored place of the same group of eight |
| ShardCodec.ParseFileBody | crates/bale-server-shard/src/lib.rs:214-273 | terms, verifications and metadata of one file, with the allocation guards and their errors |
| ShardCodec.ParseFiles | crates/bale-server-shard/src/lib.rs:202-282 | all files up to the bookend |
| ShardCodec.ParseBlocks | crates/bale-server-shard/src/lib.rs:284-322 | all xorb blocks up to the bookend |
| ShardCodec.ParseFooter | crates/bale-server-shard/src/lib.rs:324-345 | the footer with its version and offset checks |
| ShardCodec.Parse | crates/bale-server-shard/src/lib.rs:183-355 | the cursor parser computes the position-wise reading of a shard, with every error, and stops where it says |
| ShardCodec.PutFile | crates/bale-server-shard/src/lib.rs:365-389 | the bytes of one file section |
| ShardCodec.PutFooter | crates/bale-server-shard/src/lib.rs:415-435 | the bytes of the footer with its empty lookup tables |
| ShardCodec.Serialize | crates/bale-server-shard/src/lib.rs:357-438 | the bytes of a shard, the offsets in the footer recomputed |
| ShardRoundTrip.ShardRoundTrip | crates/bale-server-shard/src/lib.rs:183-438 | for every well-formed shard of at most 64 MiB, parsing the written bytes gives the shard back but for the footer offsets, and consumes all of them |
| ShardRoundTrip.FooterPointsHome | crates/bale-server-shard/src/lib.rs:410-435 | said of bytes: files are read from the first offset of the written footer, blocks from the second, and the last is where the footer stands |
| ShardLayout.FileIsThere | crates/bale-server-shard/src/lib.rs:202-282 | every field of a parsed file stands at its offset: hash, flags, count, terms, as many verifications as terms exactly if bit 31 is set, the digest with its groups reversed exactly if bit 30 is |
| ShardLayout.BlockIsThere | crates/bale-server-shard/src/lib.rs:284-322 | every field of a parsed xorb block and of its chunks stands at its offset |
| ShardLayout.ShardIsThere | crates/bale-server-shard/src/lib.rs:183-355 | for all bytes that parse: header of version 2, files to a bookend of ones, blocks to a bookend, a footer of version 1 exactly if the header announces 200 bytes of it, every field at its offset, and nothing else consumed |
| ShardRoundTrip.ParsedWritesBack | crates/bale-server-shard/src/lib.rs:183-438 | for all bytes that parse, writing the result takes exactly as many bytes as were read and parses to the same shard but for the footer offsets |
| ShardRoundTrip.ParsedTotalsFit | crates/bale-server-meta-sqlite/src/lib.rs:140-154 | the term total of every file of a parsed shard fits in i64 |
| WriteOnce.StepKeepsInv | crates/bale-server-meta-postgres/src/lib.rs:159-213 | at every statement of every interleaving, committed rows of a hash are one registered list and uncommitted ones are private to the lock holder |
| WriteOnce.StoredListIsRegistered | crates/bale-server-meta-postgres/src/lib.rs:159-213 | in every run, what is stored for a hash is nothing or exactly one list a committed transaction registered, never a merge |
| WriteOnce.RegisteredListIsStored | crates/bale-server-meta-postgres/src/lib.rs:159-213 | in every run, for each list that a committed transaction has registered, exactly one registered list of that hash is stored, complete and in order |
| WriteOnce.CommitRegistersBatch | crates/bale-server-meta-sqlite/src/lib.rs:266-288 | a transaction that commits has registered every file it has begun with, and each of them that has terms has a stored list |
| WriteOnce.FreeBatchCommits | crates/bale-server-meta-postgres/src/lib.rs:159-213 | a batch whose files nobody else is writing has a run to its commit, with the other transactions where they are |
| WriteOnce.StoredListStays | crates/bale-server-meta-sqlite/src/lib.rs:157-197 | once a hash has rows they never change, whoever registers what |
| WriteOnce.BatchOk | crates/bale-server-meta-postgres/src/lib.rs:187-211 | a batch insert under the lock extends the list by exactly the next rows, none ignored |
| WriteOnce.WithoutTheLockListsMerge | crates/bale-server-meta-postgres/src/lib.rs:159-183 | two transactions that both found nothing leave a merge of their lists |
| MetadataStore.Store.WriteFileInTx | crates/bale-server-meta-sqlite/src/lib.rs:132-198 | replaces the file's row and keeps an existing term list |
| MetadataStore.Store.RegisterFiles | crates/bale-server-meta-sqlite/src/lib.rs:266-288 | all files of a shard, or nothing when a statement fails |
| MetadataStore.Store.RegisterXorbs | crates/bale-server-meta-sqlite/src/lib.rs:202-220 | adds xorbs: sizes already recorded stay, a new one is that of the first entry |
| MetadataStore.XorbsAreFirst | crates/bale-server-meta-sqlite/src/lib.rs:202-220 | a recorded xorb keeps its size, a new one gets that of its first entry, and no other is recorded |
| FileTerms.ListsAdd | crates/bale-server-meta-sqlite/src/lib.rs:140-154 | the size and the xorbs of a list are the sum and the union over its terms |
| MetadataStore.Store.LookupFile | crates/bale-server-meta-sqlite/src/lib.rs:309-352 | serves the stored list only, and only if it sums to the size that some row of the file records; always if all rows record it |
| MetadataStore.Store.SumBytes | crates/bale-server-meta-sqlite/src/lib.rs:483-502 | the sum of the sizes of a set of xorbs, unknown ones counting nothing |
| MetadataStore.BlockInfos | crates/bale-server-http/src/lib.rs:402-417 | for each block, in order: the size recorded for its xorb is where its stored frames end, or the shard's claim without any |
| MetadataStore.Store.RecordShard | crates/bale-server-http/src/lib.rs:402-493 | registers the xorbs, then the verdict of quota and verification counts, then the files |
| MetadataStore.Store.AdmitShard | crates/bale-server-http/src/lib.rs:402-493 | over quota exactly if what the owner stores and what the shard adds exceed it; whatever the verdict, a recorded xorb keeps its size and a new one gets that of its first block; admitted, every file has its row, each with terms a list, and the owner stays within the quota exactly if the lists that stand for the files keep it there, so always if no hash has two lists; refused, no file is touched |
| MetadataStore.WritesKeepOwners | crates/bale-server-core/src/lib.rs:88-97 | the owner of every row is the prefix of its repo id |
| MetadataStore.ExclusiveIsTheDrop | crates/bale-server-meta-sqlite/src/lib.rs:569-599 | the exclusive bytes of a repo are exactly what its owner's stored bytes drop by without it, and at most what the repo stores |
| MetadataStore.StoredAfter | crates/bale-server-meta-sqlite/src/lib.rs:483-502 | registering a shard adds to its owner's stored bytes exactly those of the lists that will stand for its files, as far as the owner does not refer to them yet |
| MetadataStore.ChargeIsExact | crates/bale-server-http/src/lib.rs:436-453 | stored bytes afterwards equal the checked used + delta exactly if the lists that stand add as many bytes as the lists sent; with one list per hash these are the same |
| MetadataStore.ChargeCanBeTooLow | crates/bale-server-http/src/lib.rs:436-453 | with two lists for a hash, one byte is charged and a hundred are stored |
| MetadataStore.FirstListIsStored | crates/bale-server-meta-sqlite/src/lib.rs:157-173 | after every history, the stored list of a hash is its first non-empty one |
| MetadataStore.StoredListHasRow | crates/bale-server-meta-sqlite/src/lib.rs:309-352 | a stored list always has a file row, so it is never served unchecked |
| MetadataStore.AgreeingSizesAreServed | crates/bale-server-meta-sqlite/src/lib.rs:309-352 | if all registrations agree on the size, the lookup serves the first list whichever row is picked |
| MetadataStore.LookupCanBeRefused | crates/bale-server-meta-sqlite/src/lib.rs:327-349 | with registrations of ten and of twenty bytes under one hash, the lookup is refused for one of the rows |
| MetadataStore.ServedForEveryRow | crates/bale-server-meta-sqlite/src/lib.rs:327-349 | for every history, the lookup is independent of the row exactly if the last registration in each repo is of the first list's size |
| UploadProtocol.StepKeepsInv | crates/bale-server-http/src/lib.rs:340-397 | layout before blob, existence checks before archive, archive before rows: the order survives every interleaving and crash, and every stored blob keeps a row for each of its frames |
| UploadProtocol.NoLayoutIsMissing | crates/bale-server-http/src/lib.rs:485-563 | in every reachable state, a registered file's archive exists, its xorbs have a blob and a complete layout for it, and reconstruction does not report a missing layout |
| UploadProtocol.ShardsReferToStoredXorbs | crates/bale-server-http/src/lib.rs:370-397 | in every run, when a shard is registered, its archive is there, all its blocks and the xorbs of all its terms have blobs, and no range is empty or inverted |
| UploadProgress.XorbIsUploaded | crates/bale-server-http/src/lib.rs:287-354 | an accepted body has a run to its end: its hash has a blob, the one there was or this body, and a row for each of its frames, the rows there were unchanged and the others its own |
| UploadProgress.FilesAreRegistered | crates/bale-server-http/src/lib.rs:485-493 | after the last step each file with terms has a list: the one there was or one the shard sends |
| UploadProgress.ShardIsUploaded | crates/bale-server-http/src/lib.rs:356-501 | a shard whose xorbs are all stored has a run to its end: its archive is there, and a list for each file with terms |
| UploadProtocol.StepKeepsFaithful | crates/bale-server-meta-sqlite/src/lib.rs:354-388 | if a hash stands for one body, insert-or-ignore leaves every layout the complete layout of that body |
| UploadProtocol.ServedTermsAreTheirChunks | crates/bale-server-http/src/lib.rs:800-830 | then every term of a registered file that ends within its xorb's frames is served in bounds and decompresses to exactly its chunks |
| UploadProtocol.NoCollisionFixesCounts | crates/bale-server-shard/src/xorb.rs:137-185 | if the merkle hash does not collide on the bodies uploaded, those of one xorb hash have equally many frames |
| UploadProtocol.FirstLayoutLastBlob | crates/bale-server-storage-fs/src/lib.rs:68-107 | then, in every interleaving, the stored layout never changes and is that of the first body whose layout was written; the stored blob is the last body put, as two uploads may both find no blob and the second replaces the first |
| UploadProtocol.LayoutIsTheBlobsOwn | crates/bale-server-http/src/lib.rs:340-344 | a stored blob's layout is its own exactly if these two bodies have equal layouts; then all its terms are served in full |
| UploadProtocol.StoredRowsAddUp | crates/bale-server-http/src/lib.rs:402-417 | the lengths of the stored rows sum to the end of the last one, at most the length charged for the body that wrote them, so the u32 sum cannot overflow |
| UploadProtocol.TwoBodiesMixUp | crates/bale-server-http/src/lib.rs:340-344 | two bodies of one hash uploaded at the same time leave the layout of one with the blob of the other |
| UploadProtocol.TwoBodiesExist | crates/bale-server-shard/src/xorb.rs:137-185 | such bodies exist for all hash functions: the hash covers the chunks, not their encoding |
| UploadProtocol.MixedUpTermFails | crates/bale-server-http/src/lib.rs:800-830 | with these two bodies, a valid term is served a range that cuts its only frame short |
| MountVfs.MatchedBelowIntersected | crates/git-bale/src/mount/vfs.rs:395-416 | every directory above a matching file intersects the pathspec |
| MountVfs.ShownFilesMatch | crates/git-bale/src/mount/vfs.rs:310-343 | the files the pruned tree shows are exactly the blobs whose path matches |
| MountVfs.PathspecSelects | crates/git-bale/src/mount/vfs.rs:395-404 | an empty pathspec matches every file, any other exactly the files that it names or that lie below a directory it names, with slashes at the end or without |
| MountVfs.ShownDirsIntersect | crates/git-bale/src/mount/vfs.rs:406-416 | the directories shown are exactly those that are named, lie in a named one, or have a named path below them |
| MountVfs.AtIsStanding | crates/git-bale/src/mount/vfs.rs:310-343 | what stands at a path is what the tree entries of these names lead to |
| MountVfs.Populates | crates/git-bale/src/mount/vfs.rs:296-393 | reading a directory keeps the state sound: each node at its own path with the right kind, each read directory with exactly the shown children |
| MountVfs.PathKeepsInode | crates/git-bale/src/mount/vfs.rs:195-199 | a path keeps the inode it was first given |
| MountVfs.DiffVfs.BuildSingleLazy | crates/git-bale/src/mount/vfs.rs:83-112 | a mount starts with nothing but an unread root |
| MountVfs.DiffVfs.CollectPending | crates/git-bale/src/mount/vfs.rs:310-343 | the entries that pass the filter, in tree order |
| MountVfs.DiffVfs.Populate | crates/git-bale/src/mount/vfs.rs:344-393 | each of them becomes a child with the next inode, and the directory has been read |
| MountVfs.DiffVfs.PopulateIfLazy | crates/git-bale/src/mount/vfs.rs:149-167 | afterwards the directory is read; all nodes keep inode, kind and path, and new inodes were never used before |
| MountVfs.DiffVfs.LookupChild | crates/git-bale/src/mount/vfs.rs:122-128 | finds a child exactly if the filtered tree shows it, with its kind and its one inode |
| MountVfs.DiffVfs.Readdir | crates/git-bale/src/mount/vfs.rs:130-147 | lists exactly the children the filtered tree shows |
| MountVfs.DiffVfs.Resolve | crates/git-bale/src/mount/vfs.rs:122-167 | in every state, after any lookups and listings, a walk ends at a file exactly if the tree entries lead to a blob there and the pathspec is empty, names it or names a directory above it |
| BlobLru.BaleLru.Get | crates/git-bale/src/mount/reader.rs:88-96 | returns the resident data and moves the key to the back |
| BlobLru.BaleLru.Put | crates/git-bale/src/mount/reader.rs:98-116 | data larger than the budget changes nothing; other data is what the next get returns, costs nothing else if there is room, and otherwise the fewest keys from the front of the queue |
| BlobLru.EvictedAreOldest | crates/git-bale/src/mount/reader.rs:98-116 | an eviction drops a prefix of the queue, and the shortest that makes room |
| BlobLru.BudgetHolds | crates/git-bale/src/mount/reader.rs:78-117 | for every sequence of gets and puts, resident bytes fit the budget and the counter lies between them and twice the budget; exact if no resident key is put again |
| BlobLru.PutLeaksOldBytes | crates/git-bale/src/mount/reader.rs:113-115 | at one put, the counter drifts exactly when the key is still resident after the eviction, by exactly the old data's size |
| BlobLru.CounterIsExact | crates/git-bale/src/mount/reader.rs:78-117 | over every sequence of operations, the counter equals the resident bytes exactly if no put that fits found its key resident, with data, after the eviction |
| BlobLru.OrderIsRecency | crates/git-bale/src/mount/reader.rs:88-116 | without such puts the queue is sorted by last use, so evictions take the least recently used |

## Left out

- Failures of repository reads and marker writes: the code goes on with what it has (`gc.rs` keeps only index-reachable hashes when the walk fails, a clean only warns when its marker cannot be written); the model takes them to succeed.
- Shallow clones, missing parents, rename tracking, names that are not UTF-8, and how refs are split into local and remote: the walk gets complete trees and tips.
- Commits that only a reflog mentions: they do not keep content alive in the code either.
- Several remotes: the protocol has one push target; the others are a fixed set of content to fetch from.
- A shared local store, where gc only tidies directories, and `prune`, which is mostly xet sessions and renames.
- StagingStore.StagingArea.Reconcile: does not model a marker or object that cannot be removed; the code logs it and goes on.
- StagingStore.StagingArea.RemoveAllStagedObjects: directories and foreign files in the store are not part of the model.
- How cache entries are stored on disk: versions, JSON and malformed entries.
- CleanCache.VerifyChunksInMemory: excludes chunks with `start > end`, whose length the code cannot compute without panicking or wrapping.
- CleanCache.VerifyChunks: does not model chunks with `start > end`, for which the code panics or wraps, nor a file that changes while it is read.
- PktLine.DrainCleanPayload: the spill file is a value, so I/O errors while spilling are not modelled.
- The single text packet of the handshake, request headers and everything else of the filter protocol above the framing.
- XorbFrames.VerifyXorbBody: decompression, data hash and merkle aggregation are parameters.
- ShardRoundTrip.ShardRoundTrip: is about shards with as many verifications as terms and a digest exactly if the flags say so, which is what the parser yields; for others the serializer writes what it has, or zeros.
- Reconstruction.BuildReconstruction: URLs, signatures and presigning are not modelled.
- WriteOnce.StoredListIsRegistered: rows of `files` are not part of the concurrent model, and neither are deadlocks between transactions.
- MetadataStore.Store.LookupFile: SQL is modelled by maps; row decoding errors are left out.
- MetadataStore.Store.AdmitShard: the sums are unbounded; the overflow of a SQL `SUM` beyond i64 and the chunk rows of a xorb are not modelled. Other writers between check and registration are excluded, as quotas are soft by design.
- UploadProtocol.ServedTermsAreTheirChunks: a term may end behind its xorb's frames, since the upload does not compare it with the layout; such a term is refused when it is served.
- Deletion on the server: the code has none.
- The memory store's atomic put-if-absent: the model has the check and the overwriting put of the file system and S3 stores, of which it is the case without interleaving.
- MountVfs.DiffVfs.PopulateIfLazy: a tree object that cannot be read leaves an empty directory; the model has every tree.
- MountVfs.DiffVfs.Readdir: returns the entries by name, not as a sorted list.
- The eager two-sided view with labelled names, file sizes, handles, and the FUSE and WinFsp bindings.
- Inode numbers, byte counters and lengths are unbounded where the code could not reach the limit of 64 bits.
- Chunk dedup queries, usage endpoints, routing, tokens, signing, authorization, configuration and user interface.
