# Obsideo provider: a verified model

A Dafny model of the storage provider's three connected cores and of the small guards around
them, with proofs of what they promise. `dafny verify dfyconfig.toml` checks all of it.

- **Content addressing.** An object is named by the Merkle root of its 1 MiB chunks. `Merkle`
  has the specification and the buffered construction, `TreeBuilder` the constant-memory one with
  its running hash and scratch buffer, `MerkleProof` sibling lists, the verifier's walk and what a
  root pins down, `SubChunk` the 4096-byte block proofs, `Challenge` and `ProofSig` the handler
  that answers audits and signs the answers.
- **Garbage collection.** `Coverage` holds the cached record, the refresh pass and the live
  recheck; `SweepSpec` says what one cycle does to one root; `Sweeper` is the cycle over the two
  directories with its gauges; `GcRun` is the same sweeper step by step, with refreshes, uploads,
  deletes, operator moves, clock ticks and crashes between any two steps. `GcWindow` says what keeps
  the quarantine window, `GcRescue` what protects rescued, restored and newly uploaded files, and
  `GcProgress` bounds how long collection takes.
- **The store.** `Store` is the object store one call at a time, with file errors; `StoreRun`
  interleaves any number of uploads, deletes and quarantine moves, and cuts them off anywhere;
  `Chunked` is staging, the staged-chunks reader and finalize.
- **Guards.** `DeleteReplay` (signed deletes and their nonce cache), `RateLimit` (client
  challenges), `Pause` (the circuit breaker's signals and its two files).

`Basics` and `Encoding` hold bytes, the hash parameter, hex and decimal.

How the model is built:

- SHA-256 and SHA3-512 are a parameter `H` of which only the result lengths are known. Fixed-length
  hashes have collisions, so binding is never assumed: the theorems end in "equal, or a hash is
  broken *on strings that were hashed for the two sides*" (`HashesBroken`, with the query sets
  `PieceQueries`, `TreeQueries`, `WalkQueries`). Broken means a collision, or a SHA3 preimage of the
  64 zero bytes used as padding. Ed25519, base64 and JSON are parameters too.
- A directory is a map from names to files; a file is its bytes and its modification time. Time is an
  integer, in any one unit for the collector and in nanoseconds for the two minute-based guards.
  Names and hashed text are byte sequences. Go's integers are unbounded here.
- Where the original updates state in place, so does the model: classes with the original's fields
  and loops, each method proved against a function or a predicate about which the lemmas speak.
  Nondeterminism (coordinator answers, failing file operations, short reads, temp names) is a
  parameter or an unconstrained choice, so every contract holds for all of it.
- The two packages' copies of `nextPow2` and of the pair-hashing loop are one method each here
  (`NextPow2`, `HashPairs`), and so are the two copies of the chunk-hash loop (`HashChunks`).

What came out differently from the source's own comments (the model follows the code):

- gc/quarantine.go:131-137 calls a failed `Chtimes` after the rename harmless. It loses the quarantine
  window, and so does a crash between the two calls: the file keeps its old mtime, and the next cycle
  may unlink it as soon as that is a window old. `WindowKeptIffStamped` says exactly when: after any
  run, the moved file can be destroyed before the window from its move is over if and only if the stamp
  does not happen, the mtime is older than the move, and the window is not over yet.
  `CrashBeforeStampLosesWindow` is such a run for every configuration. The rest of `DestructionIsSafe`
  holds for unstamped moves too.
- store/store.go:317-373 reads the prior coverage record and then writes the new one, without a lock,
  and refresher and sweeper are two goroutines. A refresh can so write over a record it has not seen,
  a removal or a covered answer, and carry an old marker past it. `DestructionIsSafe` therefore says:
  the reclaimable history behind a destruction is unbroken if and only if no refresh raced with a
  break in it. `RacingRefreshUndoesTheRescue` is, for every configuration, a run in which a root is moved
  at the very time a covered answer was cached for it, in the cycle that restored it.
- gc/sweeper.go:379-382 says a freshly recovered file is not quarantined again in the same cycle.
  `RestoredStaysIff` gives the exact condition, that no refresh is in flight at the write-back that has
  read an old marker. It is about batches fresher than the retention, for coverage/refresher.go:113
  reads the time once for a batch; `StaleBatchUndoesTheRescue` shows that no older batch will do.
- gc/sweeper.go:499-512 protects a file that was put back by reading its mtime. An upload keeps the mtime
  of its temp file's last write (store/stream.go:118), so a slow one can be older than its commit.
  `RescueGetsFreshWindow` holds for every move whose mtime was read, unless such an upload was last
  written before the quarantine clock started and committed after the move. `RescueProtectedIff` is
  the exact condition; `UnreadMtimeUndoesTheRescue` and `SlowUploadUndoesTheRescue` are runs, for every
  configuration, that move a rescued root again at the time its clock started.
- The same check is all that protects a new upload. `UploadProtectedIffMtimeRead` says when it does, and
  `UploadUnprotectedAfterCheck` that it never does once the check has been made: then the upload can
  be quarantined at once (`UploadRacesTheRename`).
- identity/proofsig.go:26-29 joins texts with newlines and checks none of them. A signature is for one
  claim alone if and only if that claim's own texts hold no newline (`SoleClaimIffSingleLine`).
- pausectl/pausectl.go:247-252 says that after a crash between the two writes a signal with the same
  sequence number would be rejected. It is accepted, exactly when the counter file is behind the
  number in the current file (`CurrentTakenAgainIff`, `CrashLeavesStaleCounter`).
- gc/sweeper.go:43-48 says an answer without the retention field is counted as a recheck failure; its
  label has no counter (`FailureCountedUnlessFieldMissing`).
- store/store.go:73-77 describes the marker as the first refresh with `Reclaimable == false`; the code
  (line 353) sets it when the answer is reclaimable, and so does the model.
- Index records are dropped without a look at the other directory: gc/sweeper.go:438-450 does not look
  in objects/, store/store.go:189-203 (the signed delete) not in quarantine/. The invariant of `StoreRun`
  therefore needs its guard, every condition of it: from any run that is in the forbidden situation
  (with an upload that can still go through, where an upload in flight is what is forbidden),
  `UploadWhileQuarantinedLosesIndex`, `UploadWhileRetiringLosesIndex`,
  `DeleteWhileQuarantinedLosesIndex`, `DeleteDuringUploadLosesIndex` and
  `QuarantineDuringUploadLosesIndex` go on to a live object without an index. A signed delete of a
  quarantined root also leaves its bytes in quarantine/.

## Model

| member | source | states |
|---|---|---|
| Merkle.BuildMerkleTree | store/merkle.go:43-66 | Returns the specified tree of the data (root over padded SHA3 leaves, one hex SHA-256 per chunk), or the empty-data error. |
| Merkle.TreeFromChunkHashes | store/merkle.go:71-112 | For any list of texts: the root over their decoded leaves padded to a power of two, the first undecodable hash's number, or the no-chunks error; the single-leaf case is the same root. |
| Merkle.LeavesOfIs | store/merkle.go:75-86 | Leaf i is SHA3 of what text i decodes to; the error names the first text that does not decode. |
| Merkle.NextPow2 | store/merkle.go:114-120 | The least power of two not below n, and 1 for n <= 1. |
| Merkle.Pow2CeilLeast | store/merkle.go:114-120 | No smaller power of two is at least n. |
| Merkle.HashPairs | store/merkle.go:102-108 | One level up: node j is the SHA3 of nodes 2j and 2j+1. |
| Merkle.SplitFacts | store/merkle.go:48-57 | Chunks put together give back the data; none is empty or too long. |
| Merkle.SplitIndex | store/merkle.go:51-57 | Chunk i is the slice that starts at i times the size. |
| Merkle.HashChunks | store/merkle.go:50-60 | The chunk loop hashes "index then hex" of every chunk, in order. |
| Merkle.BuildIndex | store/store.go:439-461 | The index for any chunk size; an empty object gets one empty chunk. |
| Merkle.IndexMatchesTree | store/merkle.go:10-12 | At 1 MiB the index of a non-empty object holds exactly the hashes the tree is built from. |
| Merkle.ChunkHashesAre | store/merkle.go:50-60 | Chunk i's hash, straight from the data: SHA-256 of its decimal number followed by the lower-case hex of its slice, itself written in lower-case hex; its leaf is SHA3 of that hash. |
| Merkle.FoldHalves | store/merkle.go:97-111 | The root of a full tree is SHA3 of the root of its left half followed by that of its right half. |
| Merkle.RootOfOneChunk | store/merkle.go:87-92 | The root of an object of one chunk, written out. |
| Merkle.RootOfThreeLeaves | store/merkle.go:94-111 | The root over three leaves, written out with 64 zero bytes as the fourth. |
| Merkle.TreeTexts | store/merkle.go:58-111 | Names are 128 lower-case hex digits, chunk hashes 64. |
| TreeBuilder.TreeBuilder.Write | store/merkle.go:147-184 | Appends the bytes to what was written, across any number of chunk borders, and keeps the builder's invariant. |
| TreeBuilder.TreeBuilder.HashSegment | store/merkle.go:166-174 | The scratch-buffer loop feeds the running hash exactly the hex of the segment. |
| TreeBuilder.TreeBuilder.FinishChunk | store/merkle.go:186-190 | Closes the chunk under way: its hash is appended and nothing written is lost. |
| TreeBuilder.TreeBuilder.Finish | store/merkle.go:197-209 | The tree, or the error, of everything written. |
| TreeBuilder.StreamTree | store/merkle.go:132-136 | Any segmentation into writes ends in the same tree or error, and the same size, as the buffered construction on the concatenation. |
| MerkleProof.ComputeMerkleProof | api/challenge_helpers.go:39-70 | The hex siblings of the leaf on its way to the root of the padded tree. |
| MerkleProof.ProofComplete | api/challenge_helpers.go:37-70 | Every leaf's proof walks to the root and has length d with 2^d the padded size, n <= 2^d < 2n. |
| MerkleProof.ProofSound | api/challenge_v4_test.go:23-44 | A real leaf with any siblings, of any number and lengths, that walks to the root of an n-leaf tree is leaf idx, or SHA3 is broken on strings that were hashed. |
| MerkleProof.WalkTooShort | api/challenge_v4_test.go:23-44 | Fewer siblings than levels: a 32-byte string collides with a 128-byte one. |
| MerkleProof.WalkTooLong | api/challenge_v4_test.go:23-44 | More siblings than levels: a leaf's preimage collides or the padding leaf has one. |
| MerkleProof.ChunkHashesBound | store/merkle.go:71-112 | One root, one list of chunk hashes, its length included, or SHA3 is broken; covers different depths and the single leaf. |
| MerkleProof.RootBindsBytes | store/merkle.go:5-7 | Two non-empty objects of any lengths with one root are equal, or a hash is broken on strings hashed for them. |
| MerkleProof.NameBindsBytes | store/merkle.go:5-7 | The same for the 128-character names. |
| MerkleProof.AnswerBindsPiece | api/client_challenge.go:12-17 | Bytes that verify for chunk (or block) idx against a root or seal are that chunk's bytes, or a hash is broken. |
| MerkleProof.PreimageInjective | api/challenge_helpers.go:13-18 | With the index known, "index then hex" determines the bytes. |
| SubChunk.SplitBlocks | api/subchunk_helpers.go:29-43 | The blocks of a chunk, as many as the ceiling division says. |
| SubChunk.GenerateSubChunkSiblings | api/subchunk_helpers.go:64-79 | Succeeds exactly for a block in range of a non-empty chunk, with that block and siblings that walk to the chunk's seal. |
| SubChunk.BuildSubChunkRoot | api/subchunk_helpers.go:95-123 | The root over the leaves, nil for none. |
| SubChunk.BuildSubChunkSeal | api/subchunk_helpers.go:81-93 | The hex seal, or the empty-chunk error. |
| ProofSig.Payload | identity/proofsig.go:21-42 | The nine lines, written out: the domain, four texts, chunk index, block index and proof version in decimal, hex digest of the data. |
| ProofSig.PayloadInjective | identity/proofsig.go:16-20 | A claim whose four texts hold no newline shares its payload with no other claim, whatever the other one's texts hold: all seven fields and the digest agree. |
| ProofSig.SoleClaimIffSingleLine | identity/proofsig.go:16-42 | The exact condition: a payload belongs to one claim alone if and only if that claim's texts hold no newline. |
| ProofSig.NewlineMakesPayloadsAgree | identity/proofsig.go:26-29 | A newline in the challenge's id can be taken for the one between id and nonce: two different claims, one payload, for any texts around it. |
| Encoding.HexRoundTrip | store/merkle.go:80-83 | Decoding what was encoded gives it back. |
| Encoding.LowerHexIsEncoding | store/merkle.go:58-60 | Of all texts that decode to given bytes exactly one is in lower case, and it is the encoder's. |
| Encoding.HexDecodes | store/merkle.go:80-83 | Text decodes exactly if it has an even number of hex digits of either case, to one byte for each two. |
| Encoding.ItoaInjective | identity/proofsig.go:34-38 | Decimal printing is injective, negative numbers included. |
| Encoding.DigitsUnique | identity/proofsig.go:34-38 | The only text of digits with a given value and no leading zero. |
| Challenge.ServeChallenge | api/challenge.go:84-217 | On any disk, refused exactly for the first obstacle in the code's order, each refusal under its condition on the challenge's own fields; when the disk holds an object and its index, every admissible in-range challenge is answered with exactly that chunk or block, siblings that walk to the root or seal, and a signature over them; the empty read cannot happen. |
| Challenge.ChunkRead | api/challenge.go:135-151 | Seek and ReadFull on an in-range chunk return it, never empty. |
| Challenge.CompactAnswer | api/challenge.go:159-186 | The version 4 branch, for any non-empty chunk read. |
| Challenge.ChunkAnswer | api/challenge.go:189-216 | The version 1 branch, for any index: the first undecodable hash is the error, else the siblings walk to the root of the index's own leaves, nil past the listed hashes. |
| Challenge.IndexLeaves | api/challenge.go:190-198 | The leaves of the listed hashes, nil past them, or the number of the first bad one. |
| Challenge.Sign | api/challenge.go:224-240 | Only the signature changes, and it covers the response's own fields and bytes. |
| Coverage.Cache.UpdateCoverage | store/store.go:317-373 | The record is replaced by the transition of the prior one, with this answer and time and each marker exactly when its condition holds, or nothing changes when the write fails. |
| Coverage.MarkersAreHistory | store/store.go:303-363 | After any history each marker is the time of the first answer of the unbroken run that ends it, absent if the last answer is not of that kind. |
| Coverage.Cache.RefreshOnce | coverage/refresher.go:83-146 | For every batch size exactly the answered roots get the transition with their own batch's reply: the explicit field, or the negated legacy field where that is missing, the reply's texts and its batch's time; every other record stays; `updated` counts exactly those. |
| Coverage.RecheckOf | gc/sweeper.go:93-115 | Reclaimable exactly for an answer for this root with the explicit field true, retained exactly for false; everything else is unusable. |
| Coverage.ClassifyRecheckError | gc/sweeper.go:124-145 | Which errors are timeouts, parse errors and 5xx outages, exactly; the rest is network. |
| Sweeper.FailureCountedUnlessFieldMissing | gc/sweeper.go:226-237 | An unusable recheck leaves all counters alone exactly when the coordinator did answer for this root, that is, without the field. |
| SweepSpec.CycleConserves | gc/sweeper.go:388-563 | Without file errors a cycle keeps a root in one place with its bytes and records, or destroys all of them. |
| SweepSpec.NoAnswerNoChange | gc/sweeper.go:400-405 | Two unusable answers: a cycle changes nothing about the root. |
| SweepSpec.RescueSurvivesTheCycle | gc/sweeper.go:406-430 | A root restored with its cache written is not moved again in that cycle. |
| Sweeper.Sweeper.RunOnce | gc/sweeper.go:366-577 | Completes exactly when both listings succeed and the context outlives all listed roots. Then every root ends as its two phases make it, every counter goes up by the number of roots it is about, the three gauges equal the true entry count, byte sum and number of marked objects, and roots are conserved. Otherwise exactly the roots it got to have been through their phase and are counted, and the gauges stay. |
| Sweeper.CountersOfCycle | gc/sweeper.go:391-573 | From the disks and the answers alone: recovered are the roots that left quarantine for objects/, unlinked those that left it for nowhere, quarantined those that entered it stamped; each failed recheck is counted under its label; candidates are the listed entries and the marked live roots. |
| Sweeper.MarkedGaugeExact | gc/sweeper.go:467-567 | When records can be read and moves are stamped, the marked gauge is the number of live roots the cache calls reclaimable at the end. |
| Sweeper.Sweeper.CheckTimer | gc/sweeper.go:472-517 | Marked exactly for a readable reclaimable record; due exactly when the later of marker and mtime is a retention old. |
| Sweeper.Sweeper.ScanQuarantine | gc/sweeper.go:383-456 | Phase 1 over the listing, as far as the context lives, with its two running gauges and its counters. |
| Sweeper.Sweeper.ScanObjects | gc/sweeper.go:461-563 | Phase 2 over the listing, as far as the context lives, keeping true gauges true and counting the marked roots and the happenings. |
| Sweeper.Sweeper.SweepQuarantined | gc/sweeper.go:391-456 | Phase 1's loop body is the phase-1 function of that root's files, touches no other root and moves the one counter of what happened. |
| Sweeper.Sweeper.SweepObject | gc/sweeper.go:468-563 | Phase 2's loop body likewise; it reports whether the root was marked, and a move exactly when the file was moved and stamped. |
| Sweeper.Sweeper.MoveToQuarantine | gc/quarantine.go:110-142 | Missing, not renamed, renamed but not stamped, or both; nothing else changes. |
| Sweeper.Sweeper.RestoreFromQuarantine | gc/quarantine.go:151-168 | The file goes back with its mtime, or nothing changes. |
| Sweeper.Sweeper.UnlinkFromQuarantine | gc/quarantine.go:179-191 | Only the quarantine entry goes. |
| Sweeper.Sweeper.ListQuarantined | gc/quarantine.go:209-248 | Every hex-named readable entry once, sorted by name, nothing else. |
| Sweeper.Sweeper.DropRecords | store/store.go:217-225 | Index, ownership and coverage of that root, each unless its removal fails. |
| GcRun.DestructionIsSafe | gc/sweeper.go:432-456 | Whole-run safety: behind every destruction of a file a sweep moved lie a reclaimable history of at least the retention and an explicit live recheck in each of two different cycles; and, if the move was stamped, at least the window in quarantine. The history is unbroken if and only if no refresh raced with a break in it. |
| GcRun.RunInv | gc/sweeper.go:366-577 | The invariant that carries it, over every run with crashes and environment steps anywhere. |
| GcWindow.WindowKeptIffStamped | gc/quarantine.go:128-141 | The exact condition for the window: from any run that has just moved a file, some continuation destroys it before the window is over if and only if the stamp fails or is cut off, the file is older than the move and the window is still open. |
| GcWindow.CrashBeforeStampLosesWindow | gc/quarantine.go:128-140 | For every configuration a run that destroys an object before its window is over, at the very time it was moved if the window is no longer than the retention. |
| GcRescue.RescueGetsFreshWindow | gc/sweeper.go:499-512 | Once the quarantine clock started at s, no later cycle that reads the mtime moves the root before s plus the retention, unless an upload last written before s was committed after the move. |
| GcRescue.RescueProtectedIff | gc/sweeper.go:505-520 | The exact condition: less than the retention after the clock started, a cycle can go on to move the root if and only if the cached marker alone is old enough and the mtime is not read or is that of a slow upload committed since the move. |
| GcRescue.UnreadMtimeUndoesTheRescue | gc/sweeper.go:505-508 | For every configuration a run that moves a rescued object again at the time its clock started, its mtime unread. |
| GcRescue.SlowUploadUndoesTheRescue | store/stream.go:56-118 | The same with the mtime read, after an upload that was last written before the clock started. |
| GcRescue.UploadProtectedIffMtimeRead | gc/sweeper.go:505-520 | A cycle about to check the mtime can take a new upload away if and only if the cached marker alone is old enough and the mtime is not read or as old. |
| GcRescue.UploadUnprotectedAfterCheck | gc/sweeper.go:522-548 | After the check it always can, and once it is done with the root it cannot. |
| GcRescue.UploadRacesTheRename | gc/sweeper.go:505-548 | For every configuration a run that quarantines a fresh upload at once. |
| GcRescue.RestoredStaysForTheCycle | gc/sweeper.go:379-382 | A cycle that restored a root and wrote the cache does not move it, whatever happens afterwards, if no refresh with an old marker was in flight and no batch is as old as the retention. |
| GcRescue.RestoredStaysIff | gc/sweeper.go:406-430 | The exact condition: with batches fresher than the retention, the restored root can be moved in the same cycle if and only if a refresh that read an old marker is in flight. |
| GcRescue.RacingRefreshUndoesTheRescue | store/store.go:317-373 | For every configuration, and no lag at all, a run that moves a root at the time a covered answer was cached for it, in the cycle that restored it. |
| GcRescue.StaleBatchUndoesTheRescue | coverage/refresher.go:113-135 | The bound on the batch is exact too: with nothing in flight, every greater lag has such a run. |
| GcRun.NoAnswerNoDestruction | gc/sweeper.go:40-52 | A run in which no recheck is usable moves, restores and destroys nothing, whatever is cached. |
| GcRun.CycleIsRun | gc/sweeper.go:366-577 | Left alone, the small steps are a run and add up to the cycle RunOnce performs. |
| GcProgress.ReclaimableGoes | gc/sweeper.go:432-563 | Reclaimable since f, cycles at most S apart, nothing in the way: destroyed by f + retention + window + 2S. |
| GcProgress.QuarantinedGoes | gc/sweeper.go:432-455 | In quarantine since q: destroyed by q + window + S. |
| Store.Store.PutStream | store/stream.go:55-124 | Succeeds exactly when no file step fails and the non-empty bytes hash to the expected root; the first thing to go wrong decides the error, each with its cause; success stores exactly the bytes read under that root, with their index; no failure changes an object. |
| Store.Store.Copy | store/stream.go:72-79 | The temp file and the builder take in the same bytes, up to the first error. |
| Store.Store.Spool | store/stream.go:56-88 | Spooling and verifying: the tree of the bytes, or why not. |
| Store.Store.Put | store/store.go:132-154 | Object then index, each unless its write fails. |
| Store.Store.Delete | store/store.go:189-208 | Object, index, ownership and coverage of that root go, each unless its removal fails; no other name changes. |
| Store.Store.PutOwnership | store/store.go:238-258 | Written once and never replaced; an incomplete record is refused; a failed chmod is an error that leaves the record. |
| StoreRun.RunInv | store/stream.go:97-123 | In any guarded run, cut off anywhere, every live or quarantined object has the bytes its name says and the index of those bytes, unless two of the run's uploads clash. |
| StoreRun.StoreKeepsItsNames | store/stream.go:97-123 | The same for the store's own naming, with the two clashing uploads and the broken hash. |
| StoreRun.BytesNeverChange | store/stream.go:118-121 | No step, a re-upload included, changes the bytes held under a name. |
| StoreRun.EveryObjectAnswersChallenges | store/stream.go:97-103 | Every live object of a guarded run is as the challenge handler needs it. |
| StoreRun.UploadRun | store/stream.go:55-124 | An uninterrupted upload is a run and ends where PutStream's contract says. |
| StoreRun.UploadWhileQuarantinedLosesIndex | gc/sweeper.go:438-450 | From any run with the root in quarantine, an upload of it can end as a live object without an index. |
| StoreRun.UploadWhileRetiringLosesIndex | store/store.go:217-225 | The same for an upload between the removal of a root's bytes and of its index. |
| StoreRun.DeleteWhileQuarantinedLosesIndex | store/store.go:189-203 | From any run with the root in quarantine, a delete and a restore leave it live without an index. |
| StoreRun.DeleteDuringUploadLosesIndex | store/store.go:189-203 | The same for a delete during any upload of the root that can still go through. |
| StoreRun.QuarantineDuringUploadLosesIndex | gc/quarantine.go:110-142 | The same for quarantining the live root during such an upload, once the old copy is unlinked. |
| Chunked.Uploads.UploadChunk | api/chunked.go:79-115 | The chunk and the total are recorded for a valid index, total and non-empty body; a failed chunk write is an error that may leave a torn chunk, a failed meta write is not noticed. |
| Chunked.LastWriteWins | api/chunked.go:49-50 | Of all writes to an index the last one is staged. |
| Chunked.DeliveredIsStaged | api/chunked.go:94-115 | Parts in any order, with overwrites, are staged as their concatenation. |
| Chunked.StagedChunksReader.Read | api/chunked.go:255-284 | A non-empty piece of what is left, or EOF exactly when nothing is; it terminates. |
| Chunked.Drain | api/chunked.go:196-198 | Reading with any buffer sizes ends and yields the chunks in order. |
| Chunked.Uploads.Finalize | api/chunked.go:136-238 | Each refusal under its own condition, the first missing chunk among them; then PutStream's verdict on the assembled bytes and after it the ownership record's; stores exactly the assembled bytes, only under their own root; a wrong root stores nothing and drops the staging, a store error keeps it. |
| Chunked.UploadInChunks | api/chunked.go:41-238 | The round trip: any split, order and overwrites end in exactly the object. |
| DeleteReplay.NoReplay | api/delete.go:34-44 | A signed command passes both checks at most once, for any other traffic, while no clock reading is more than five minutes behind an earlier one. |
| DeleteReplay.NoReplayUnpruned | api/delete.go:248-272 | While the cache never passes 256 entries a command passes at most once whatever the clock does. |
| DeleteReplay.RefusedOnlyForARepeat | api/delete.go:248-272 | A timely command is turned down only if one with its key was accepted before, less than fifteen minutes earlier. |
| DeleteReplay.ReplayAfterClockJump | api/delete.go:40-44 | Both bounds are exact: for any owner, any cache of more than 256 entries and one nanosecond more than five minutes, a run of commands the handler can receive accepts one of them twice. |
| DeleteReplay.Remembered | api/delete.go:248-272 | An accepted nonce is remembered for its life, or a clock past that life was read. |
| DeleteReplay.NonceCache.Check | api/delete.go:248-272 | A replay exactly when the pruned cache knows the key unexpired; the new cache contents. |
| DeleteReplay.NonceCache.Prune | api/delete.go:255-261 | Exactly the expired entries go. |
| DeleteReplay.KeysDiffer | api/delete.go:228-231 | Two owners never share a cache entry. |
| DeleteReplay.HandleDelete | api/delete.go:81-201 | A command is accepted if and only if the key on record for this object verified it, it is complete and for this object, no more than five minutes off and no repeat; then the live object and its records go, as far as they can be removed, else nothing does; each refusal has its cause. |
| RateLimit.Limiter.Allow | api/client_challenge.go:54-66 | The verdict and the new state of the fixed-window counter. |
| RateLimit.SixtyPerMinute | api/client_challenge.go:32-37 | Whatever a new limiter was called for before, at most 60 calls of a key get through in any half-open minute. |
| RateLimit.ReachedIsLimited | api/client_challenge.go:54-66 | No count of a limiter ever passes thirty. |
| RateLimit.ThirtyPerWindow | api/client_challenge.go:32-37 | At most 30 between two resets. |
| RateLimit.FirstThirtyPass | api/client_challenge.go:57-66 | Since a window was opened, a call is allowed if and only if fewer than thirty were made for its key. |
| RateLimit.NextWindowAllows | api/client_challenge.go:57-60 | A minute after the window's start any call gets through. |
| Pause.State.Load | pausectl/pausectl.go:133-168 | Counter from disk or zero; the current signal is active exactly when it still verifies, else it is set aside. |
| Pause.State.Apply | pausectl/pausectl.go:189-263 | Nine refusals in order, none of which changes anything; the effect of each failed write; the effect of success. |
| Pause.State.IsPaused | pausectl/pausectl.go:269-283 | Paused until expiry, and for good on a malformed time. |
| Pause.ValidateAccepts | pausectl/pausectl.go:175-184 | Exactly the well-signed, unexpired signals with a larger number are accepted. |
| Pause.RefusalsHaveCauses | pausectl/pausectl.go:189-238 | Every refusal has its own cause in the envelope, the signal, the time or the counter. |
| Pause.AcceptedPausesUntilExpiry | pausectl/pausectl.go:269-283 | An accepted signal pauses the provider from then on until its expiry, and not at or after it. |
| Pause.SequenceSafety | pausectl/pausectl.go:133-263 | Over runs with failed writes, crashes and restarts: accepted numbers strictly increase, none is above the counter on disk, and that is never above the current signal's number. |
| Pause.RestartKeepsThePause | pausectl/pausectl.go:151-166 | With the same key a restart finds the pause on disk and sets nothing aside. |
| Pause.CurrentTakenAgainIff | pausectl/pausectl.go:240-252 | The current file's own signal is taken again exactly when the counter is behind it. |
| Pause.CrashLeavesStaleCounter | pausectl/pausectl.go:247-258 | A run, for any acceptable signal, that ends in that state. |

## Left out

- HTTP routing, status codes, JSON, base64 and CORS; handlers are modelled after decoding and token checks.
- The internals of SHA-256, SHA3-512 and Ed25519, and key files; they are parameters.
- Read errors other than "not found" on index, ownership and coverage files, and errors in the middle of reading a stored object or staged chunk; the originals answer them with a server error.
- The order in which objects/ is listed: every name comes once, and no result about a cycle depends on the order.
- A timestamp set into the past by hand (`touch -d`): a touch in GcRun sets the clock's time. The clock of GcRun does not go back.
- `SweepStaleObjectTemps`, `SweepStaleStaging`: in StoreRun an orphan temp file may go at any time and one in use never does, which is what their age limit is for.
- Staged chunks changing while finalize reads them; concurrent `PutOwnership` on one root, which in the original is a stat and then a write.
- `UsedBytes`, `DiskFreeBytes`, downloads, retry backoff, tokens, `dirfetch`, configuration and the command line: only easy members.
- The mutexes and tickers: each locked method is one step (an unlocked update of a coverage record is two), time is an input; the coordinator client's retries show only in the reply or error they end in.
- A `last_sequence_number` or `current.json` that does not parse; the original then refuses to start.
- Overflow of Go's 64-bit integers, which needs objects or times no disk or clock can hold.
- GcRun.DestructionIsSafe: says nothing of files an operator moved into quarantine by hand; their window runs from whatever mtime they have.
- Pause.State.Apply: the text of wrapped errors is not modelled, only their kind.
