# Harmonic: delta engine, session protocol and sync planner

Harmonic keeps the files of clients and a server in step. A sync has three parts, and this
project models all three and what they achieve together.

1. **Delta transfer.** The receiver of a file cuts its old version into blocks and sends a weak
   (BuzHash) and a strong (BLAKE3) checksum of each. The sender scans its version with a rolling
   hash and answers with block references and literal bytes. The receiver's writer seeks and
   writes them into a temporary file and renames it over the target.
2. **Sessions.** One session per file: two endpoints run the same handler over two bounded
   channels, and a writer on the receiving side is fed over a third. The client runs the sessions
   of a plan concurrently, at most ten at a time.
3. **Planning.** The server compares two trees of digests and timestamps and decides, path by
   path, who sends: the last writer wins.

The result at the top is `EndToEnd.SyncsExactly`: plan from a full listing, run every session of the
plan interleaved message by message, deltas computed with the rolling hash, files rebuilt by the
writer. Every such execution, carried on until each further step would abort something, leaves both
replicas agreeing on exactly the paths that were not in conflict, with nothing replaced by an equal or
older version, if and only if every transfer of the plan comes before its tenth `Skip` and no
transfer's temporary file has the path of a file on either replica.
`ManyClientSyncs.WholeRoundsExactly` puts many such syncs of many clients together, for systems in which
every sync that can come up meets these conditions; `ManyClientSyncs.FitVersionsSuffice` says when the
first versions show that. Every execution of every plan is finite (`PlanTermination.WorldRunsAreBounded`).

## Files

| file | content |
|---|---|
| `Common.dfy`, `Word.dfy`, `Messages.dfy` | bytes and options; `u64` as 64 bits; the protobuf messages and the sink |
| `BuzHash.dfy` | the rolling hash as a class, and the polynomial it computes |
| `Signatures.dfy` | blocks and signatures of the old file |
| `DeltaScan.dfy` | the scan: specification `Scan`, imperative `SendDeltas` |
| `ScanProperties.dfy` | the hashed scan refines a naive one; tiling, shape and reuse |
| `Writer.dfy`, `Reconstruction.dfy` | the writer; round trip, prefixes, order independence |
| `Handler.dfy` | the payload handler, as the function `Respond` and as a method on an endpoint |
| `Protocol.dfy`, `ProtocolSteps.dfy` | steps of an endpoint and of a session; what they do at the edges |
| `SessionInvariant.dfy`, `SessionTheorems.dfy` | the invariant; safety of every run |
| `SessionProgress.dfy`, `SessionRuns.dfy` | progress, termination, the end of a run; runs that exist: up to the rename, complete, and aborted |
| `PathOrder.dfy`, `SyncPlan.dfy`, `Convergence.dfy` | the order of paths; the planner; two replicas |
| `OnePath.dfy`, `ManyClients.dfy` | many clients, at one path and at all |
| `PlanExecution.dfy`, `PlanTermination.dfy` | all sessions of a plan on two shared disks; that they always end |
| `TemporaryClash.dfy` | when temporary files are in the way |
| `EndToEnd.dfy`, `ManyClientSyncs.dfy` | whole syncs, of one client and of many |
| `SavedState.dfy` | timestamps on disk and the diff against the saved state |

## Modelling choices

- The BuzHash table is an arbitrary function from bytes to words. The strong hash is an arbitrary
  function to 32-byte digests. Only theorems that conclude what a file contains say what must not
  collide: `CollisionFree`, for a transfer, asks that no old block shares *both* checksums with a
  window of the new file that it differs from, and that the old blocks number at most 2^32;
  `NoDigestCollision`, for a plan, that two files at one path with one digest are equal. Invariants,
  frames, progress, termination and the permits hold for every hash.
- A `u64` is the sequence of its 64 bits; shifts, or and exclusive or are defined on the bits, and
  the source's rotation by two shifts is proved equal to rotation of the bits.
- The maximal literal is the source's constant, 4 MiB minus 64 KiB. Block indices wrap at 2^32 as
  the source's cast does; a wrapped index still names a block of the cache.
- A channel is the sequence of everything sent and a count of what was taken; capacities are 256,
  256 and 512 as in the source. Every interleaving of the two endpoints and of both writers is a run,
  and an endpoint may abort at any moment.
- A disk is a map from paths to contents and modification times. The rename sets the time in the
  same step. The temporary file of a path is its name with `.tmp` appended.
- Concurrent sessions share both disks. The theorems about them ask `TempsClear`: no transfer's temporary
  file is a file of the disk that receives it or the target of another transfer to it.
  `TemporaryClash.DoneAsCopiesExactly` shows that this is exact.
- A path is the sequence of its components, compared component by component.

## Findings

- A session for a `Skip` action never completes: its client waits for an answer nobody sends
  (`SessionProgress.SkipNeverCompletes`) and so never returns its permit. What that costs is exact: an
  execution without aborts, carried on as long as possible, has started just the actions before the
  tenth `Skip` (`PlanExecution.StuckExactly`), and has all its transfers over if and only if every
  transfer comes before the tenth `Skip` (`PlanExecution.TransfersOverExactly`).
- "The target is the old file or the new one" holds for receivers that do not abort. If one aborts
  with its writer open, the writer still renames what it has: the target becomes the source cut at
  the end of the last forwarded delta, and is the whole source if and only if all were forwarded
  (`SessionTheorems.TargetIsOldOrPrefix`). Every cut occurs, in uploads and in downloads
  (`SessionRuns.AbortCanLeaveAnyCut`).
- Two rounds of syncs leave many clients equal, timestamps included, and newest if and only if at every
  path some version is strictly newer than all others and shares its digest with none of them
  (`ManyClients.TwoRoundsConvergeExactly`): the planner skips on equal digests without looking at the
  timestamps. Where this fails the harm can be a timestamp alone. The contents come together, timestamps
  aside, if and only if at every path the newest version is strictly newer than all with another digest,
  and so is every version with its digest that can reach the server
  (`ManyClients.TwoRoundsAgreeExactly`). Three clients show both conditions
  (`ManyClients.ThreeClientsConvergeWhen`, `ManyClients.ThreeClientsAgreeWhen`,
  `ManyClients.NewestWithTwinFails`).
- A writer takes whatever is at its temporary file's path for its own. One upload is enough: a file of the
  server at that path, even one the plan skips, is truncated and renamed away. The states in which
  all that was started has ended hold what plain copies give, in every execution, if and only if no
  transfer's temporary file is a file of its receiving disk or the target of another transfer there
  (`TemporaryClash.DoneAsCopiesExactly`, `TemporaryClash.RenamedLast`). For a plan made from full listings
  that means: is held by neither replica (`EndToEnd.PlannedTempsClear`). With the condition on Skips it
  decides exactly when a sync can be relied on (`EndToEnd.SyncsExactly`).
- Rolling a window that is not full gives the recomputed hash exactly when a rotation fixes the
  table entry of the new byte (`BuzHash.RollExact`); the scan never does so.

## Model

| member | source | states |
|---|---|---|
| Word.RotateByShifts | src/utils/hash.rs:288-298 | the two shifts of `rotate` are the rotation of the 64 bits, for every amount including those over 64 |
| Word.RotateDoubles | src/utils/hash.rs:288-298 | as a number, a word rotated by one is doubled, with the bit shifted out brought back in |
| Messages.NewerIsLater | src/sync/state.rs:106-108 | of normal timestamps the newer is the one with more nanoseconds since the epoch |
| BuzHash.BuzHash.Compute | src/utils/hash.rs:278-286 | leaves the window at the first window-size bytes and the hash at theirs; on data no longer than the window returns its polynomial rotated by what the window lacks |
| BuzHash.BuzHash.Hash | src/utils/hash.rs:300-307 | the loop over positions computes the hash of the window |
| BuzHash.BuzHash.Roll | src/utils/hash.rs:309-322 | slides the window by one byte; on a full window with a fresh hash the hash stays fresh |
| BuzHash.WindowHashIsHorner | src/utils/hash.rs:300-307 | the hash of positions is the cyclic polynomial in Horner's form, rotated by what the window lacks |
| BuzHash.WeakIsHorner | src/utils/hash.rs:278-307 | what is computed on short data is the cyclic polynomial, rotated by the missing length |
| BuzHash.WeakIsLeading | src/utils/hash.rs:278-286 | of longer data only the bytes of the first window count |
| BuzHash.RollExact | src/utils/hash.rs:309-322 | rolling equals recomputing if and only if the missing rotation fixes the new byte's table entry |
| BuzHash.RollingIsRecomputing | src/utils/hash.rs:325-343 | after any number of rolls over any stream the hash is that of the last window, for any table and window size |
| Signatures.GenerateBlocksSignatures | src/sync/state.rs:325-356 | cache and signatures are the blocks of the old file and their checksums: for each block, a short last one included, its rotated polynomial and its digest; a missing file is empty |
| Signatures.ChunksPartition | src/sync/state.rs:341-347 | the blocks concatenate to the file and only the last may be short |
| DeltaScan.BuildLookup | src/sync/transfer.rs:75-86 | the two-level map finds the last block with both checksums, index cut to 32 bits, digests not 32 bytes long ignored |
| DeltaScan.LastSignedIs | src/sync/transfer.rs:75-86 | the block found is the last with both checksums, its index modulo 2^32 |
| DeltaScan.SendLiteralChunks | src/sync/transfer.rs:174-199 | sends a run as consecutive chunks of at most the maximal size |
| DeltaScan.LiteralChunksAre | src/sync/transfer.rs:174-199 | chunk k of a run begins k times 4,128,768 bytes into it, and all but the last have that size |
| DeltaScan.SendDeltas | src/sync/transfer.rs:65-171 | sends exactly the deltas of the greedy scan by checksums, then `Complete`; bytes hashed plus rolls never exceed the length plus one window |
| DeltaScan.FindBlock | src/sync/transfer.rs:107-111 | whenever a whole window is left, the possibly stale hasher is fresh and the lookup is that of the window's own checksums |
| ScanProperties.HashedScanIsNaive | src/sync/transfer.rs:75-162 | without collisions the scan emits, delta for delta, the list of a greedy scan that compares contents and knows no hash |
| ScanProperties.OneChecksumSuffices | src/sync/transfer.rs:107-111 | it is enough that one of the two checksums tells each old block from each window that differs from it |
| ScanProperties.LiteralsAreNew | src/sync/transfer.rs:106-162 | whatever the hashes, a literal holds 1 to 4,128,768 bytes, exactly that many if another follows, and no byte of it begins a window equal to an old block |
| ScanProperties.DeltasTile | src/sync/transfer.rs:106-199 | the deltas cut the file into consecutive non-empty pieces; literals hold 1 to the maximum, adjacent only after a full one; reused blocks are whole |
| ScanProperties.TilesAt | src/sync/transfer.rs:118-192 | each delta starts at the sum of the lengths before it, and all lengths add up to the file |
| ScanProperties.ScanUsable | src/sync/transfer.rs:75-132 | whatever collides or wraps, every reference names a block of the receiver's cache |
| ScanProperties.AlignedReuse | src/sync/transfer.rs:106-132 | windows one block apart that are old blocks are sent as references, with no assumption on the hashes |
| ScanProperties.SharedPrefixReused | src/sync/transfer.rs:106-132 | if new and old share their first k whole blocks the first k deltas are references |
| ScanProperties.UnchangedFile | src/sync/transfer.rs:106-162 | an unchanged file is one reference for each whole block, then its short tail as literals, and nothing else |
| Writer.WriteDelta | src/utils/writer.rs:43-61 | one round of the loop: seek and write a cached block or a literal; a bad index or a missing instruction ends the writer |
| Writer.DeltaWriter | src/utils/writer.rs:25-86 | all deltas applied in order into a temporary file, then renamed over the target with its timestamp; on failure the target is untouched |
| Writer.FinishedIs | src/utils/writer.rs:39-86 | file by file what a writer leaves: the rebuilt target and no temporary file, or, if a delta names no block or has no instruction, the old target and what was written before; all other files untouched |
| Writer.FirstBreakEnds | src/utils/writer.rs:43-61 | the first such delta ends the writer, and with which error |
| Reconstruction.PrefixRebuilt | src/utils/writer.rs:39-62 | after the first k deltas the temporary file is the source up to the end of delta k |
| Reconstruction.RoundTrip | src/sync/transfer.rs:65-171 | rebuilding from the old file's blocks and the deltas computed from its signatures gives the new file, for every pair of files and block size |
| Reconstruction.WriterInstallsSource | src/utils/writer.rs:39-75 | a writer that receives the whole answer replaces the target by the source |
| Reconstruction.AnyOrderRebuilds | src/utils/writer.rs:43-53 | the deltas in any order and with any repetitions rebuild the same file |
| Handler.Endpoint.HandleSyncPayload | src/sync/handler.rs:19-66 | path, messages, writer and status after a payload are those of the specification `Respond` |
| ProtocolSteps.ChannelsNeverOverfull | src/bin/client.rs:281-283 | at most 256 messages are under way in either direction, and at most 512 deltas to a writer, in every state of every run |
| ProtocolSteps.SendsExactlyWithRoom | src/utils/writer.rs:22 | an endpoint can send if and only if fewer than 256 messages are under way, and forward if and only if fewer than 512 deltas wait for a living writer |
| ProtocolSteps.OpeningMoves | src/bin/client.rs:296-360 | a session begins with its action, a download also with the signatures of the client's file and its writer |
| ProtocolSteps.MissingSourceAborts | src/sync/handler.rs:44-47 | signatures for a missing file end the endpoint without an answer |
| ProtocolSteps.SignaturesNeedAction | src/bin/server.rs:159-185 | a server that has been sent no action knows no path, and signatures end it |
| ProtocolSteps.DeltasNeedWriter | src/sync/handler.rs:48-54 | a delta is forwarded if a writer is open and dropped if not |
| ProtocolSteps.WriterWritesOrDies | src/utils/writer.rs:43-61 | a delta is written at its offset into the temporary file alone, or kills the writer and changes nothing |
| SessionInvariant.SenderSteps | src/sync/handler.rs:44-63 | every step of the side with the source keeps its invariant and leaves its disk as it is |
| SessionInvariant.ReceiverSteps | src/bin/client.rs:304-395 | every step of the side with the target keeps its invariant and touches only the target and its temporary file |
| SessionTheorems.SessionStepKeeps | src/bin/server.rs:157-204 | every step of a session, of either side or writer, keeps the joint invariant and the frame of both disks |
| SessionTheorems.TargetIsOldOrPrefix | src/utils/writer.rs:39-70 | in every state of every run the target is the old file, or after the rename what the forwarded deltas rebuild, which is all of them unless the receiver aborted; without collisions that is the source cut at the last forwarded delta, the whole source if and only if all were forwarded |
| SessionTheorems.NothingLost | src/sync/handler.rs:48-54 | a received delta always finds the writer's channel open, and each block it names is in the writer's cache |
| SessionProgress.EchoNeverBlocks | src/sync/handler.rs:56-62 | in every state of every run a side about to echo `Complete` finds room in its channel, on the sending side too, whose echo nobody reads |
| SessionProgress.Progress | src/bin/client.rs:281-395 | no transfer is stuck: unless a side aborted or all is over, a step that aborts nothing is possible |
| SessionProgress.RunsAreBounded | src/bin/client.rs:362-395 | a run has no more steps than a bound linear in the number of deltas |
| SessionProgress.MaximalRunsComplete | src/bin/server.rs:185-191 | a run that cannot go on without an abort has both sides completed, the target equal to the source, no temporary file, and one echoed `Complete` unread |
| SessionProgress.SkipNeverCompletes | src/sync/handler.rs:41 | a session for a Skip never completes and changes no disk |
| SessionRuns.CarryOn | src/bin/client.rs:281-395 | any run without an abort can be carried on until the transfer is over |
| SessionRuns.Ripen | src/utils/writer.rs:39-65 | any run without an abort or a rename can be carried on until both sides have completed and only the rename is left |
| SessionRuns.AbortCanLeaveAnyCut | src/bin/client.rs:386-393 | for every upload and download and every number of its deltas a run in which the receiver aborts and exactly these deltas end on disk |
| PathOrder.PathLessIs | src/sync/state.rs:261 | a path comes before another if it is a proper prefix of it, or if at the first component that differs its string is a proper prefix or has the smaller first different character |
| PathOrder.PathLessStrictTotal | src/sync/state.rs:261 | the order of paths is a strict total order |
| PathOrder.Sorted | src/sync/state.rs:261 | collecting into the ordered set gives every path once, in ascending order |
| SyncPlan.GenerateSyncPlan | src/sync/state.rs:249-323 | one action for each path of either tree, ascending, each the decision for its path; the last of several statuses for a path counts |
| SyncPlan.TreeOfIs | src/sync/state.rs:256-259 | the tree of received statuses holds, for each path that occurs, the last status for it, unchanged |
| SyncPlan.ListingPlans | src/sync/state.rs:249-323 | a plan made from a sequence that lists each of the client's files once, in any order, is the plan for the two replicas |
| SyncPlan.PlanEntries | src/sync/state.rs:270-319 | direction and timestamp of every action, case by case: equal digests, ties, a newer side, a side only |
| SyncPlan.PlanUnique | src/sync/state.rs:270-319 | the two trees determine the plan |
| SyncPlan.RoleSymmetry | src/sync/state.rs:275-318 | swapping the replicas exchanges Upload and Download, keeps Skip, paths and timestamps |
| Convergence.PlanMerges | src/sync/state.rs:275-309 | after a plan each path holds on both sides the newer or only version, or is left alone on equal digests and on ties |
| Convergence.TwoPartyAt | src/sync/state.rs:275-318 | at each path: held by both if by either, equal if and only if not in conflict, kept or replaced by a strictly newer version |
| Convergence.TwoPartyConvergence | src/sync/state.rs:249-323 | after one plan both replicas hold every path and agree on it if and only if it was not in conflict; no version gives way to an equal or older one |
| Convergence.DistinctDigestsSuffice | src/sync/state.rs:275-309 | digests that tell the two contents at each path apart do not collide |
| Convergence.Idempotence | src/sync/state.rs:275-309 | planning again after a plan yields only Skip |
| ManyClients.ServerNeverGoesBack | src/sync/state.rs:256-319 | over any sequence of syncs a file on the server is replaced only by a strictly newer one |
| OnePath.EveryoneGets | src/sync/state.rs:275-309 | at one path, a newest version with no twin reaches every replica in two rounds of any order |
| OnePath.TwinSpoils | src/sync/state.rs:275-309 | at one path, if another version shares the digest of the newest, two rounds with its holders first and then last leave some replica without it |
| OnePath.EveryoneAgrees | src/sync/state.rs:275-309 | at one path, the digest of a version that prevails reaches every replica in two rounds of any order |
| OnePath.ReachedDiffers | src/sync/state.rs:275-309 | at one path, if an old version with the newest digest can reach the server and is not newer than some other version, rounds that begin with it leave the digests different |
| ManyClients.OneRoundGathers | src/sync/state.rs:256-319 | once every client has synced the server holds the newest version of every path |
| ManyClients.ManyClientConvergence | src/sync/state.rs:256-319 | once every client has synced twice over, all replicas are equal and newest |
| ManyClients.BadRounds | src/sync/state.rs:308 | when at some path no version stands out, two rounds, each client once in each, that do not leave all replicas equal and newest |
| ManyClients.TwoRoundsConvergeExactly | src/sync/state.rs:256-319 | two rounds converge in every order if and only if at every path some version is strictly newer than the others and has no twin |
| ManyClients.DisagreeingRounds | src/sync/state.rs:275-309 | when at some path no version prevails, two rounds, each client once in each, after which digests differ |
| ManyClients.TwoRoundsAgreeExactly | src/sync/state.rs:256-319 | two rounds bring the digests together in every order if and only if at every path some version prevails |
| ManyClients.ThreeClientsConvergeWhen | src/sync/state.rs:308 | equal contents at times 1 and 5 and another content at time t: all end equal and newest exactly for t after 5 |
| ManyClients.ThreeClientsAgreeWhen | src/sync/state.rs:308 | their contents come together exactly for t after 5 or before 1 |
| ManyClients.NewestWithTwinFails | src/sync/state.rs:308 | the two rounds of these clients at t = 3, and the two versions they end with |
| PlanExecution.MoveKeeps | src/bin/client.rs:240-261 | a step of one session keeps the invariants of all others on the shared disks |
| PlanExecution.ConcurrentEqualsSequential | src/bin/client.rs:240-261 | any interleaving of the sessions and writers, once all that was started is over, leaves both disks as executing the started actions in order by plain copies does |
| PlanExecution.EveryTargetSafe | src/bin/client.rs:240-261 | at every moment of every execution, aborts included, each target is its old file or its source cut where forwarding stopped |
| PlanExecution.AtMostTenRun | src/bin/client.rs:240-250 | in every state of every execution of any plan at most ten client tasks run, and the next action can start if and only if fewer than ten do |
| PlanExecution.StuckExactly | src/bin/client.rs:240-261 | an execution without aborts ends having started exactly the actions before the tenth Skip, with every transfer among them over |
| PlanExecution.TransfersOverExactly | src/bin/client.rs:240-261 | it ends with all transfers over if and only if every transfer of the plan comes before its tenth Skip |
| PlanExecution.PermittedProgress | src/bin/client.rs:240-261 | for such a plan a step that aborts nothing is possible until all transfers are over |
| PlanExecution.TenSkipsBlock | src/bin/client.rs:240-250 | after ten Skips no further action is started unless a session aborts |
| PlanExecution.ClearRunsAreBounded | src/bin/client.rs:240-261 | with temporary files out of the way an execution has no more steps than a bound linear in the deltas |
| PlanTermination.WorldRunsAreBounded | src/bin/client.rs:240-261 | every execution of every plan is finite, whatever the paths, hashes and aborts: at most a number of steps fixed by the plan's length, the longest file and the block size |
| PlanTermination.WorldCarryOn | src/bin/client.rs:240-261 | every execution without an abort, of any plan, can be carried on until each further step would abort something |
| PlanTermination.StuckRunExists | src/bin/client.rs:240-261 | so every plan has such an execution |
| TemporaryClash.RenamedLast | src/utils/writer.rs:25-65 | whatever the paths, an execution in which all sessions that can be started come to their end and the chosen transfer renames last, so that nothing is left at its temporary file's path |
| TemporaryClash.DoneAsCopiesExactly | src/utils/writer.rs:25-65 | in every ended state of every execution the disks are as by plain copies if and only if no transfer's temporary file is on its receiving disk or the target of another transfer there |
| EndToEnd.PlannedJobIsValid | src/sync/state.rs:270-319 | a plan made from full listings has each path once and a source for every transfer |
| EndToEnd.PlannedTempsClear | src/sync/state.rs:270-319 | for such a plan temporary files are out of the way if and only if neither replica holds one's path |
| EndToEnd.SyncConverges | src/bin/server.rs:69-112 | planning, concurrent sessions, rolling-hash deltas and writers together: once the transfers are over the replicas agree exactly off conflicts and nothing is left to plan |
| EndToEnd.MaximalSyncConverges | src/bin/client.rs:240-261 | with no temporary file's path held, an execution carried on as long as possible has synced the replicas, and left nothing to plan, if and only if every transfer comes before the tenth Skip |
| EndToEnd.SomeRunUnsynced | src/bin/client.rs:240-261 | if a transfer comes later, or such a path is held, some execution without aborts ends unsynced |
| EndToEnd.SyncsExactly | src/bin/client.rs:240-261 | every execution carried on as long as possible syncs the replicas if and only if every transfer comes before the tenth Skip and no temporary file's path is held |
| EndToEnd.NineSkipsThenTransfer | src/bin/client.rs:240-250 | a plan of n Skips and then a transfer is synced by every execution if and only if n is at most nine |
| ManyClientSyncs.ManyClientsConverge | src/bin/server.rs:69-112 | many clients, each sync an interleaving of sessions, messages and writes carried on as long as possible: two rounds leave all replicas equal and newest |
| ManyClientSyncs.ManyClientsAgree | src/bin/server.rs:69-112 | the same for contents, timestamps aside, where at every path some version prevails |
| ManyClientSyncs.WholeRoundsExactly | src/bin/server.rs:69-112 | if every sync that can come up after any syncs meets the conditions of `SyncsExactly`, both conditions on the versions are exact for such rounds |
| ManyClientSyncs.FitVersionsSuffice | src/bin/client.rs:240-261 | it does when no hashes collide and every path on which the first replicas differ is among the first ten held paths and its temporary file's path is not held |
| ManyClientSyncs.SmallSystemsAreFit | src/bin/client.rs:240-261 | in particular when at most ten paths are held, none the temporary file of another, no file exceeds 2^32 bytes and the digest tells all pieces of the files apart |
| SavedState.MicrosRoundTrip | src/sync/state.rs:35-48 | loading then saving is the identity on every 64-bit count of microseconds |
| SavedState.SavableExactly | src/sync/state.rs:35-39 | exactly which timestamps are saved without overflow |
| SavedState.ReloadTruncates | src/sync/state.rs:35-48 | saving then loading cuts to the microsecond and keeps the order |
| SavedState.CompareStates | src/sync/state.rs:187-236 | exactly the visible changed paths, ascending, each with its entry |
| SavedState.DiffListed | src/sync/state.rs:192-231 | a path is listed if and only if no component of it begins with a dot and it came, went or changed its digest |
| SavedState.DiffEntries | src/sync/state.rs:203-231 | added and removed entries carry the file's own digest and time, modified ones those of the strictly newer side, or of the past on a tie |
| SavedState.HiddenParts | src/sync/state.rs:181-184 | a path is hidden if and only if a part of it is, a single name if and only if it begins with a dot |
| SavedState.ReloadedDiff | src/sync/state.rs:192-231 | against a reloaded state exactly the visible changed paths are listed, a modified one with its present metadata except exactly when its time is unchanged and a whole microsecond |

## Left out

- Transport, TLS, compression, tracing, command line, configuration and prompts: plumbing around unseen libraries.
- The buffers of the transport between the two message channels: each channel has its sender's capacity and no more, so the model blocks no later than the program.
- Directory walking, file reads and failures of I/O; a read of a missing source makes the endpoint fail, as in the source.
- Errors on sending to a closed channel and the 100 ms sleeps: an endpoint may abort at any step instead, and a message sent after the peer has finished stays unread.
- A zero block size, on which the source panics; the configured sizes are positive.
- Machine-width offsets: file length plus block size is taken to stay below 2^64.
- Cleaning of paths and the confinement to the synced directory, which rest on a crate that is not part of this model; paths are taken as valid keys, and non-text paths, which make planning fail, do not occur.
- Deletion: the source has none.
- The client's real listing, which holds only diffs: convergence is stated for full listings, as the repository's integration tests use the planner.
- The watcher, its scores and queue, and the one-time-password bootstrap: real but easy.
- `sync_file`, `handle_sync_request_stream` and `send_data_to_server` are state machines over their steps, not methods with loops, so that every interleaving is covered.
- The writer's open file handle: the model writes to the temporary file by its path. The two differ only while one session renames a file that another is still writing; in the runs of `TemporaryClash.RenamedLast` every writer has written all before the first rename.
- With temporary files in the way, progress: what such plans do is stated by `TemporaryClash.dfy`, `PlanTermination.dfy` and `PlanExecution.TenSkipsBlock` only.
- Clients that sync at the same time: the server serves them side by side (src/bin/server.rs:138-147), and two uploads of one path then share its temporary file. Here the syncs of different clients follow one another; within one sync all sessions overlap.
- SessionTheorems.NothingLost: the receiver's old file is assumed not to be edited between its signatures and its cache.
