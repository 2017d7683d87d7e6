# Verified models of the tcfs sync core

tcfs keeps directory trees of several devices in step through a shared, content-addressed object store.
This project models the parts of it that have to be right for files not to get lost, and proves what they
guarantee: for every input, every run and every reachable state.

The models, each in its own file:

- `Clocks`, `Conflicts`: vector clocks, the comparison of two versions and the tie-break between devices.
- `Fleet`, `FleetSteps`, `FleetInvariant`, `FleetTheorems`, `FleetHistory`, `FleetLosses`: the fleet protocol (write,
  push, pull, event delivery, offline and online) for any number of devices and paths and runs of any length. The
  invariant places every device's copy at an *anchor* in the event log; the history shadows each run with the
  sets of writes that each version has seen.
- `ObjectStore`, `Upload`, `UploadTheorems`, `PushTheorems`, `Engine`, `EditTheorems`, `Transfers`, `HostClocks`:
  uploading, downloading and pushing against the object store, one operation after the other. Hashing, chunking and encryption are
  parameters of which only contracts are assumed; digests are assumed not to collide among the contents in play.
  An upload may be cut short after any of its writes.
- `World`, `WorldInvariant`, `WorldTheorems`, `WorldMoments`: any number of hosts that edit, pull and upload at the same time. An
  upload examines the file, reads it, asks the store, writes chunk by chunk and then the manifest, examines the
  file again and writes the index; other hosts' steps come in between anywhere, and it may stop anywhere.
- `AutoPull`, `Agreement`, `AutoPullTheorems`, `Resolutions`: the daemon's reaction to other devices' events, which version
  devices end up with, and what that means for the files of real hosts.
- `SeekableFrames`, `StubText`, `StubMeaning`: the seekable frame format, the stub and index texts and what they say.
- `StateCache`, `DiskCache`, `Hydration`: the two state-cache backends, eviction from the disk cache, and
  reads through it.
- `Readdir`, `ListingNames`, `WorkerPool`: paged directory listing, the names it shows, and the permit-bounded
  task loop.

Code that changes state in place is modelled by classes and loops, each proved against a function of its
inputs or of the old state; the theorems are about those functions. Randomness, wall-clock time, file times
and every failure of the disk, the store or the network are parameters, so a theorem that holds for all
parameters holds whatever fails.

What the code does not guarantee is stated as it is, with the exact condition and an input at which it fails:

- An upload that finds a manifest stored goes on over it exactly when the store does not answer
  (`Upload.StoredIsRewrittenIff`): a failed existence check or read counts as "not there", and the manifest is
  written again with a clock that forgets the stored one (`UploadTheorems.UnreadableForgetsClock`).
- Between the question and the write others can write. In every interleaving an upload about to write its
  manifest replaces a stored one exactly if that was written after it asked, or was there and the store did not
  answer (`WorldTheorems.StoredIsReplacedIff`). Two devices that both ask before either writes lose the first
  clock although the store answers both (`WorldTheorems.OverlapForgetsClock`).
- The manifests a host writes for a file carry growing clocks, except after an upload that was written and could not be
  recorded: the cache catches up with a manifest exactly if the file can be examined after the write, and otherwise
  the next content goes out under the same clock (`HostClocks.WrittenIsCachedIff`, `HostClocks.WrittenClocksGrow`,
  `HostClocks.UnrecordedClockIsRepeated`).
- A device without the key can lose what it could read: exactly when the manifest of content that is not empty is
  written again with encryption instead of without, or the reverse (`WorldTheorems.KeylessChangesIff`).
- A completed upload can be downloaded exactly when the file is not empty and no legacy object is left under its
  key (`UploadTheorems.UploadedIsRetrievable`, with `EmptyUploadIsRefused` and `LegacyStaysInPlace`).
- An edit is published by the next push exactly unless it shows the size and time that were found at the end of
  the push before; then it is reported as skipped and the index goes on naming the old content
  (`EditTheorems.EditBetweenPushesIff`, `EditTheorems.SameSecondEditIsMissed`). So an edit made while the file is
  being uploaded is never published (`EditTheorems.EditDuringUploadIsMissed`), and one that changes the size leaves
  a wrong size in the index (`WorldTheorems.EditedUploadIsMisindexed`; otherwise the sizes are right,
  `WorldTheorems.UndisturbedSizesAreRight`).
- A write that was never published is discarded exactly by a pull of different content, or by a delivery at a
  moment when a push would have been refused as a conflict (`FleetLosses.UnsentIsDiscardedIff`,
  `FleetLosses.OwnPullDiscards`, `FleetLosses.DeliveryDiscards`).
- More than two devices need not agree on a conflict: a device ends with the smallest name's content exactly
  when no announcement from a name in between arrives later (`Agreement.EndsWithSmallestName`, on real hosts
  `AutoPullTheorems.HostEndsWithSmallestName`; `Agreement.ThreeDevicesCanDisagree`).
- A device that merges the clock of a resolution beyond the winner's version never takes the winner
  (`Agreement.ResolutionStrandsLoser`, on real hosts `Resolutions.HostIsStranded`; `Agreement.StrandedLoser`).
- The daemon downloads without a key: a version that is to be pulled replaces the file exactly when it is in
  clear and not empty (`AutoPullTheorems.PullReplacesIff`, `AutoPullTheorems.EncryptedUploadIsNotPulled`).
- It compares its cache entry and not the file, so a file edited since is overwritten exactly when the cached
  version would be (`AutoPullTheorems.FileIsOverwrittenIff`, `AutoPullTheorems.UnpushedEditIsReplaced`).
- Without a sync root it looks a file up by its manifest path: it finds it exactly under the names of that path,
  which all end in the content hash (`StateCache.LookupFindsIff`, `AutoPullTheorems.FoundWithoutRootIff`,
  `AutoPullTheorems.OrdinaryNameIsNotFound`).
- Reading a whole range gives the data exactly when every frame fits in 32 bits
  (`SeekableFrames.WholeRangeIffFits`, `SeekableFrames.WrappedFrameReadsWrong`), and so does decompressing for
  every encoded frame (`SeekableFrames.DecompressInvertsCompress`, `SeekableFrames.WrappedEncodingIsLost`). A reversed range is out of bounds exactly
  when one frame holds both ends (`SeekableFrames.ReversedRange`, `SeekableFrames.ReversedRangeRunsOut`).
- A pool of 2^32 permits or more can report itself drained with a task running
  (`WorkerPool.OversizedPoolDrainsEarly`; below that it is idle, `WorkerPool.DrainedIsIdle`).
- A message that has been taken can still be started exactly when the pool has permits
  (`WorkerPool.WaitingCanLaunchIff`, and soon, `WorkerPool.WaitIsBounded`); a pool of none waits for ever
  (`WorkerPool.EmptyPoolHangs`).
- Stub and index texts round-trip exactly when the free-form fields contain no newline and do not end in a
  carriage return (`StubText.StubRoundTrip`, `StubText.NewlineBreaksStub`).
- A listed key shows its own relative path exactly when that path does not begin with the index prefix or a slash
  (`Readdir.RelOfKey`, `Readdir.RepeatedPrefixIsLost`), and the names of a listing are unique exactly when no file
  occurs twice, no directory is named like a file's stub and no path lies in a directory named `.` or `..`
  (`ListingNames.NamesUniqueIff`, `ListingNames.StubAndDirectoryClash`, `ListingNames.DotIsListedTwice`).

## Model

| member | source | states |
|---|---|---|
| Clocks.VectorClock.Tick | crates/tcfs-sync/src/conflict.rs:30-34 | adds one to the device's own entry, in place |
| Clocks.VectorClock.Merge | crates/tcfs-sync/src/conflict.rs:41-48 | the in-place loop computes the pointwise maximum, in whatever order it visits the devices |
| Clocks.VectorClock.PartialCmp | crates/tcfs-sync/src/conflict.rs:51-81 | the loop with early exit decides the comparison of the two clocks |
| Clocks.MergeIsLub | crates/tcfs-sync/src/conflict.rs:41-48 | merge is the least upper bound in the order of clocks |
| Clocks.MergeLaws | crates/tcfs-sync/src/conflict.rs:41-48 | merge is commutative, associative and idempotent on the maps themselves |
| Clocks.CmpDecidesOrder | crates/tcfs-sync/src/conflict.rs:51-87 | Less, Greater, Equal and None mean strictly below, strictly above, same counts and incomparable; swapping sides flips the answer |
| Clocks.TickAdvances | crates/tcfs-sync/src/conflict.rs:30-34 | a tick gives a strictly larger clock and changes no other entry |
| Conflicts.OutcomeMeaning | crates/tcfs-sync/src/conflict.rs:163-214 | each outcome is equivalent to a statement about contents and causal order, and a conflict records both sides as they are |
| Conflicts.OutcomesAreDual | crates/tcfs-sync/src/conflict.rs:163-214 | the two sides of a comparison see dual outcomes |
| Conflicts.LexTotalOrder | crates/tcfs-sync/src/conflict.rs:152-160 | of two names each is at most the other only when they are the same, and one always is |
| Conflicts.LexTransitive | crates/tcfs-sync/src/conflict.rs:152-160 | the order of names is transitive |
| Conflicts.LexIsFirstDifference | crates/tcfs-sync/src/conflict.rs:152-160 | the order of names is decided by the first character in which they differ, or by which ends first |
| Conflicts.OneSideYields | crates/tcfs-sync/src/conflict.rs:152-160 | on a conflict a device keeps its version exactly if its name has the smaller character where the two first differ, or the other only continues it; so of two different devices one keeps and the other yields |
| Fleet.Simulation.ExecuteOp | crates/tcfs-sync/tests/multi_machine_sim.rs:93-287 | the imperative step changes the state exactly as the transition function, and answers whether it met a conflict |
| Fleet.Simulation.WriteLocal | crates/tcfs-sync/tests/multi_machine_sim.rs:100-114 | a write stores the content under a ticked clock |
| Fleet.Simulation.PushFile | crates/tcfs-sync/tests/multi_machine_sim.rs:116-183 | a push writes chunk, manifest, local clock and event, or nothing |
| Fleet.Simulation.PullFile | crates/tcfs-sync/tests/multi_machine_sim.rs:185-203 | a pull takes over the remote content and merges its clock |
| Fleet.Simulation.DrainEvents | crates/tcfs-sync/tests/multi_machine_sim.rs:215-285 | the loop over pending events equals applying them in log order and moves the cursor to the end |
| FleetSteps.WriteIsExact | crates/tcfs-sync/tests/multi_machine_sim.rs:100-114 | a write, online or not, leaves the new content under a clock with one more write of the device, and changes nothing else |
| FleetSteps.OfflineIsCutOff | crates/tcfs-sync/tests/multi_machine_sim.rs:116-220 | a push, pull or delivery by an offline device changes nothing and meets no conflict |
| FleetSteps.FlagIsExact | crates/tcfs-sync/tests/multi_machine_sim.rs:205-213 | going offline and online sets that device's flag and nothing else |
| FleetSteps.PushIsExactAnywhere | crates/tcfs-sync/tests/multi_machine_sim.rs:116-183 | in any state: when a push publishes and everything it then changes, that it otherwise changes nothing, and when it answers conflict |
| FleetSteps.PullIsExact | crates/tcfs-sync/tests/multi_machine_sim.rs:185-203 | a pull takes the remote content and the larger of each clock entry, and changes nothing else |
| FleetSteps.DrainReadsToTheEnd | crates/tcfs-sync/tests/multi_machine_sim.rs:215-285 | a delivery reads the log to its end, touches no other device and nothing shared, and has nothing to do a second time |
| FleetSteps.OnlyOnlinePushesChangeRemote | crates/tcfs-sync/tests/multi_machine_sim.rs:93-287 | over any run manifests, chunks and log change only at a push by a device that is online there |
| FleetSteps.OfflineDeviceIsIsolated | crates/tcfs-sync/tests/multi_machine_sim.rs:93-287 | over any run in which a device stays offline, the log grows only by others, it reads none of it, and its files change only by its own writes |
| FleetInvariant.StepKeepsInv | crates/tcfs-sync/tests/multi_machine_sim.rs:93-287 | every step keeps the fleet invariant: a causal chain of events, sound manifests, and an anchor for every device and path |
| FleetInvariant.ReachableInv | crates/tcfs-sync/tests/multi_machine_sim.rs:93-287 | the invariant holds in every reachable state |
| FleetInvariant.SeenIff | crates/tcfs-sync/tests/multi_machine_sim.rs:215-285 | a device's clock covers an event of the path exactly when the event is at or before its anchor |
| FleetInvariant.ReplayIsNoop | crates/tcfs-sync/tests/multi_machine_sim.rs:225-283 | delivering an event at or before the anchor changes nothing |
| FleetInvariant.UnseenIsAccepted | crates/tcfs-sync/tests/multi_machine_sim.rs:225-283 | an event past the anchor is always taken over, with merged clocks |
| FleetTheorems.EqualClocksEqualContent | crates/tcfs-sync/tests/multi_machine_sim.rs:93-287 | in every reachable state two versions of a path with equal clocks, on devices, in the remote or in the log, have the same content |
| FleetTheorems.ConflictMeansConcurrent | crates/tcfs-sync/src/conflict.rs:180-196 | so a conflict always means two versions neither of which has seen the other |
| FleetTheorems.OwnEntryIsLargest | crates/tcfs-sync/tests/multi_machine_sim.rs:100-114 | no clock anywhere exceeds a device's own entry for itself |
| FleetTheorems.PushIsExact | crates/tcfs-sync/tests/multi_machine_sim.rs:116-183 | when a push replaces the manifest, when it reports a conflict, and that it otherwise changes nothing, as equivalences |
| FleetTheorems.NoLostUpdate | crates/tcfs-sync/tests/multi_machine_sim.rs:116-183 | over any run manifests are only replaced by ones that have seen them, and the log of a path is a strictly growing chain that ends at its manifest |
| FleetTheorems.ManifestsAreRetrievable | crates/tcfs-sync/tests/multi_machine_sim.rs:346-374 | in every reachable state every chunk of every manifest is stored |
| FleetTheorems.RedeliveryIsHarmless | crates/tcfs-sync/tests/multi_machine_sim.rs:225-283 | consumed events delivered again, in any order and number, change no file and no clock |
| FleetTheorems.ClocksNeverGoBack | crates/tcfs-sync/tests/multi_machine_sim.rs:375-411 | over any run every entry of every device's clocks only grows |
| FleetTheorems.Convergence | crates/tcfs-sync/tests/multi_machine_sim.rs:542-614 | once writing and pushing stop, a device that pulls a path while online ends with the remote content, whatever comes before, between or after |
| FleetTheorems.DevicesAgree | crates/tcfs-sync/tests/multi_machine_sim.rs:542-614 | any two devices that have pulled agree with each other and with the remote |
| FleetTheorems.DrainedIsNeverBehind | crates/tcfs-sync/tests/multi_machine_sim.rs:215-285 | draining events alone leaves a device with the remote content or a newer version that its next push publishes without conflict |
| FleetLosses.DrainedContent | crates/tcfs-sync/tests/multi_machine_sim.rs:215-285 | after draining a device holds its own content if it had seen the remote version, otherwise the remote's |
| FleetLosses.DeliveryDiscardsIff | crates/tcfs-sync/tests/multi_machine_sim.rs:225-283 | draining discards an unpublished write exactly when a push would have been refused as a conflict |
| FleetLosses.PullDiscardsIff | crates/tcfs-sync/tests/multi_machine_sim.rs:185-203 | a pull discards an unpublished write exactly when the remote content differs, and nothing is left to push |
| FleetLosses.UnsentIsDiscardedIff | crates/tcfs-sync/tests/multi_machine_sim.rs:93-287 | over every step but a new write, exactly those two discard an unpublished write |
| FleetLosses.OwnPullDiscards | crates/tcfs-sync/tests/multi_machine_sim.rs:185-203 | a run of one device whose own pull takes its latest write away |
| FleetLosses.DeliveryDiscards | crates/tcfs-sync/tests/multi_machine_sim.rs:225-283 | a run of two devices in which a delivery takes an unpublished write away |
| FleetHistory.LeqIffSubset | crates/tcfs-sync/src/conflict.rs:51-81 | for clocks that encode sets of writes, the order of clocks is inclusion of those sets |
| FleetHistory.RunShadows | crates/tcfs-sync/tests/multi_machine_sim.rs:93-287 | in every run every clock encodes the set of writes its version has seen |
| FleetHistory.ClocksAreCausalHistories | crates/tcfs-sync/tests/multi_machine_sim.rs:93-287 | in every run comparing two clocks answers exactly how the sets of writes seen are related |
| FleetHistory.ConflictsAreConcurrentWrites | crates/tcfs-sync/tests/multi_machine_sim.rs:472-540 | a push is refused as a conflict exactly when contents differ and each side has seen a write the other has not |
| ObjectStore.SoundDownloads | crates/tcfs-sync/src/engine.rs:435-541 | a sound manifest downloads as exactly its content, if and only if that is not empty |
| ObjectStore.ReadableInClearIff | crates/tcfs-sync/src/engine.rs:461-486 | on a sound store a manifest can be read without a key exactly when it is in clear and not empty |
| Upload.StoredIsRewrittenIff | crates/tcfs-sync/src/engine.rs:169-271 | an upload that finds a current-format manifest stored goes on over it exactly when the store does not answer |
| Upload.BodiesReadBack | crates/tcfs-sync/src/engine.rs:297-338 | the chunk list of an upload reads back, decrypted and concatenated, as the file |
| Upload.EveryWriteKeepsStore | crates/tcfs-sync/src/engine.rs:297-376 | after every single write of an upload by itself each chunk hashes to its key, every manifest reads back as content hashing to its key, and nothing readable is lost |
| Upload.PutKeepsStore | crates/tcfs-sync/src/engine.rs:317-338 | the same of one chunk written to any sound store, whatever others have written since the upload began |
| Upload.ManifestKeepsStore | crates/tcfs-sync/src/engine.rs:361-376 | the same of a manifest, with any clock, written to any sound store that holds its chunks |
| UploadTheorems.DownloadIsVerified | crates/tcfs-sync/src/engine.rs:488-541 | on an arbitrary store a download returns only bytes that match the manifest's file hash, from chunks that match theirs, and nothing from a legacy manifest |
| UploadTheorems.LegacyIsLeftIff | crates/tcfs-sync/src/engine.rs:169-271 | an upload leaves a legacy object in place exactly if the store answers and the device is anonymous, or has counted no write while the object is a readable legacy manifest |
| UploadTheorems.LegacyStaysInPlace | crates/tcfs-sync/src/engine.rs:174-216 | a new device's upload over a legacy manifest is skipped and leaves the file unretrievable |
| UploadTheorems.UploadedIsRetrievable | crates/tcfs-sync/src/engine.rs:121-407 | a completed upload downloads as the uploaded bytes exactly when they are not empty and no legacy object is left |
| UploadTheorems.EmptyUploadIsRefused | crates/tcfs-sync/src/engine.rs:456-458 | an uploaded empty file is refused by every download, with whatever key or none |
| UploadTheorems.UploadsKeepStore | crates/tcfs-sync/src/engine.rs:121-407 | any uploads by any devices one after the other, complete or cut short, keep the store invariant and lose nothing, legacy objects included |
| UploadTheorems.DurableRoundTrip | crates/tcfs-sync/src/engine.rs:121-541 | after an upload and any uploads after it the download returns exactly the uploaded bytes, unless they are empty |
| UploadTheorems.ReadableKeepsManifests | crates/tcfs-sync/src/engine.rs:169-271 | with a store that answers, an upload by itself alters no stored current-format manifest, however far it gets |
| UploadTheorems.ReadableUploadsKeepManifests | crates/tcfs-sync/src/engine.rs:169-271 | nor do any uploads one after the other while the store answers |
| UploadTheorems.UnreadableForgetsClock | crates/tcfs-sync/src/engine.rs:169-173 | without an answer a second device's upload of the same content replaces the stored clock by one that does not cover it |
| EditTheorems.EditIsPushedIff | crates/tcfs-sync/src/state.rs:151-182 | pushing an edited file publishes the edit exactly unless it shows the size and time on record; then the push is reported as skipped and the index names the old bytes under the recorded size |
| EditTheorems.EditBetweenPushesIff | crates/tcfs-sync/src/engine.rs:132-150 | the same over two pushes, for an edit made between them or during the first |
| EditTheorems.EditDuringUploadIsMissed | crates/tcfs-sync/src/engine.rs:153-395 | an edit made after the file was read and before its state is recorded is never published by the next push |
| EditTheorems.SameSecondEditIsMissed | crates/tcfs-sync/src/state.rs:162-179 | one byte changed within the same second stays unpublished |
| UploadTheorems.UploadNamesStored | crates/tcfs-sync/src/engine.rs:388-407 | after a completed upload cache and result name a stored manifest |
| Transfers.WrittenManifest | crates/tcfs-sync/src/engine.rs:164-376 | an upload writes exactly under a condition on cache, store and clocks; the manifest names the file and the device, and its clock counts what the cached clock and that of the manifest compared with count, and one more write of a named device |
| Transfers.FinishesIff | crates/tcfs-sync/src/engine.rs:121-407 | when an upload succeeds, and when another file's manifest stops it |
| Transfers.RecordedEntry | crates/tcfs-sync/src/engine.rs:121-407 | the cache entry an upload leaves: content, size and time found at the end, and the clock of the manifest written or the cached one |
| Transfers.ReportedResult | crates/tcfs-sync/src/engine.rs:121-407 | hash, sizes, skipped and outcome of every upload, by who holds what and whose clock is larger |
| Transfers.CacheStopsUpload | crates/tcfs-sync/src/state.rs:151-182 | a file of the cached size with the cached time or content is answered from the cache and changes nothing; any other is looked at |
| Transfers.IndexIsExact | crates/tcfs-sync/src/engine.rs:659-669 | a push writes the index entry, with the reported result, exactly if the upload finishes and the store accepts it |
| Transfers.TallyAddsUp | crates/tcfs-sync/src/engine.rs:628-687 | the tally of a push counts the files sent, the files skipped and the bytes sent, and with the files missed that is every file |
| Transfers.UnreadableManifest | crates/tcfs-sync/src/engine.rs:435-486 | which error a download gives before it reads a chunk, each as an equivalence |
| Transfers.IntactDownload | crates/tcfs-sync/src/engine.rs:488-541 | with every chunk intact a download returns their contents in order exactly if that has the hash named |
| Transfers.FirstFaultyChunk | crates/tcfs-sync/src/engine.rs:488-527 | otherwise it fails with the fault of the first chunk that is missing, altered or does not open |
| Transfers.FetchedHost | crates/tcfs-sync/src/engine.rs:543-590 | the file and cache entry a download leaves, that nothing else changes, and when the cache follows |
| Transfers.FetchReports | crates/tcfs-sync/src/engine.rs:435-594 | when a download succeeds, with what size, and how it fails |
| HostClocks.CachedClockGrows | crates/tcfs-sync/src/engine.rs:164-580 | over any history of one host's uploads, downloads and resolutions, whatever fails, the cached clock of a file never goes back |
| HostClocks.WrittenIsCachedIff | crates/tcfs-sync/src/engine.rs:374-397 | the cache catches up with a written manifest exactly if the file can still be examined |
| HostClocks.WrittenClocksGrow | crates/tcfs-sync/src/engine.rs:277-397 | over such a history the manifests written for a file cover all earlier ones the cache caught up with, strictly for a named device |
| HostClocks.UnrecordedClockIsRepeated | crates/tcfs-sync/src/engine.rs:374-397 | an upload that is written and not recorded is followed by other content under the same clock |
| PushTheorems.PushSettlesFile | crates/tcfs-sync/src/engine.rs:647-677 | a pushed file is left in a state in which pushing it again would write nothing |
| PushTheorems.SettledPushIsNoop | crates/tcfs-sync/src/engine.rs:132-150 | pushing such a file is reported as skipped and rewrites only its index entry, with the same text |
| PushTheorems.SecondPushChangesNothing | crates/tcfs-sync/src/engine.rs:620-688 | pushing an unchanged tree again uploads nothing, skips every file and leaves the store equal |
| PushTheorems.FirstPushUploadsAll | crates/tcfs-sync/src/engine.rs:628-687 | a first push of new files counts every file as uploaded, none as skipped, and all their bytes |
| PushTheorems.PushFileKeepsNames | crates/tcfs-sync/src/engine.rs:638-682 | whatever fails, every cache entry and index entry names a stored manifest |
| Engine.SyncEngine.CheckRemote | crates/tcfs-sync/src/engine.rs:152-276 | the branches before the first write reach the specified decision |
| Engine.SyncEngine.WriteChunks | crates/tcfs-sync/src/engine.rs:297-338 | the chunk loop writes the missing chunks in order, as far as the store lets it |
| Engine.SyncEngine.WriteObjects | crates/tcfs-sync/src/engine.rs:297-376 | the manifest is written last and only after every chunk |
| Engine.SyncEngine.Upload | crates/tcfs-sync/src/engine.rs:121-407 | store, cache and result after an upload that fails anywhere or nowhere, including after the manifest is written; the state recorded has the size and time found then |
| Engine.SyncEngine.Download | crates/tcfs-sync/src/engine.rs:435-594 | the result is what the store holds under that hash; the local file changes only to exactly those bytes, and the cache only on success |
| Engine.SyncEngine.PushTree | crates/tcfs-sync/src/engine.rs:620-688 | the loop leaves the store, cache and tally of pushing file by file, passing over failures; a failing flush costs only the tally |
| WorldTheorems.DownloadThenUploadSkips | crates/tcfs-sync/src/engine.rs:558-580 | after a recorded download the next upload is skipped, whatever the store holds by then, and the clock covers both versions |
| WorldInvariant.StepKeepsInv | crates/tcfs-sync/src/engine.rs:121-688 | every step of every interleaving keeps the invariant of store, index, caches and running uploads, and loses nothing stored |
| WorldInvariant.ReachableInv | crates/tcfs-sync/src/engine.rs:121-688 | in every reachable state chunks and manifests are sound and every cache entry, index entry and upload result names a stored manifest |
| WorldTheorems.StoredIsReplacedIff | crates/tcfs-sync/src/engine.rs:169-376 | in every reachable state an upload about to write its manifest replaces a stored one exactly if that was written after it asked, or was there when it asked and the store did not answer |
| WorldTheorems.OnlyManifestWritesChange | crates/tcfs-sync/src/engine.rs:121-541 | no other step changes a stored manifest, and none removes one |
| WorldTheorems.AnsweredRunsKeepManifest | crates/tcfs-sync/src/engine.rs:169-376 | while the store answers, a stored manifest stays as it is through every interleaving that begins with no upload of the same content already writing |
| WorldTheorems.OverlapForgetsClock | crates/tcfs-sync/src/engine.rs:172-376 | two uploads of the same content that both ask before either writes leave a clock that does not cover the first |
| WorldTheorems.UploadIsDurable | crates/tcfs-sync/src/engine.rs:121-541 | once an upload has written its manifest every later download returns exactly the bytes it read, unless they are empty, whatever else is under way |
| WorldTheorems.StoredIsForever | crates/tcfs-sync/src/engine.rs:435-541 | no later step of any upload changes what a stored hash downloads as with the fleet's key |
| WorldTheorems.KeylessChangesIff | crates/tcfs-sync/src/engine.rs:461-486 | what a stored hash downloads as without a key changes exactly by a manifest written again for content that is not empty, with encryption instead of without or the reverse |
| WorldTheorems.EveryIndexEntryDownloads | crates/tcfs-sync/src/engine.rs:659-669 | in every reachable state each index entry parses back to a hash whose content downloads, empty files excepted, and to its right size exactly if the entry is not one marked wrong |
| WorldTheorems.UndisturbedSizesAreRight | crates/tcfs-sync/src/engine.rs:388-395 | every size in the index stays right as long as no file changes its size between being read or fetched and being recorded |
| WorldTheorems.EditedUploadIsMisindexed | crates/tcfs-sync/src/engine.rs:132-150 | the next push of a file that was edited while it was uploaded indexes the old content under the new size, marked wrong exactly if the sizes differ |
| WorldTheorems.PutsAreUpload | crates/tcfs-sync/src/engine.rs:297-376 | writes that nothing comes between leave the store of the sequential upload after as many writes |
| WorldTheorems.UninterruptedIsPush | crates/tcfs-sync/src/engine.rs:121-407 | the steps of an upload that nothing comes between leave the store and cache of the sequential push of that file, and nothing else changed |
| WorldTheorems.LoadReadsFileAsItIs | crates/tcfs-sync/src/engine.rs:152-154 | an upload reads the file as it is then, edited since it began or not |
| WorldTheorems.PullIsFetch | crates/tcfs-sync/src/engine.rs:543-590 | a pull amid any uploads changes the pulling host as a download does, and nothing else |
| WorldTheorems.StopOnlyForgets | crates/tcfs-sync/src/engine.rs:121-407 | an upload that stops, wherever it is, leaves store, hosts and all other uploads as they are |
| WorldMoments.OpenedAt | crates/tcfs-sync/src/engine.rs:132-167 | in any run every upload began by examining a file that was there, and knows the cache entry of that moment |
| WorldMoments.LoadedAt | crates/tcfs-sync/src/engine.rs:152-158 | and writes the content its host's file had when it was read |
| WorldMoments.AskedAt | crates/tcfs-sync/src/engine.rs:164-276 | and goes by what the store held when it asked, with a clock one write over the cached one and the one it was shown |
| WorldMoments.LogOnlyGrows | crates/tcfs-sync/src/engine.rs:361-376 | what was written since a moment is what follows in the log of manifests |
| AutoPull.Daemon.Locate | crates/tcfsd/src/daemon.rs:425-442 | the local path of an event's file: under the sync root, or some entry whose manifest path ends in the relative path, none only if none does |
| AutoPull.Daemon.HandleEvent | crates/tcfsd/src/daemon.rs:291-402 | files and cache after any event; own events and other modes change nothing and the store is never touched |
| AutoPull.Daemon.AutoPullFile | crates/tcfsd/src/daemon.rs:444-526 | the branches on the comparison pull exactly when the specification does |
| AutoPullTheorems.HandlerReacts | crates/tcfsd/src/daemon.rs:444-588 | on a real host with a readable manifest the handler does what the abstract reaction does to its copy |
| AutoPullTheorems.TwoHostsAgree | crates/tcfsd/src/daemon.rs:444-588 | two hosts that handle each other's announcement, the winner's version being available, end with the same bytes: the causally newer version's, or the smaller name's |
| AutoPullTheorems.HandlerReactsToAll | crates/tcfsd/src/daemon.rs:291-588 | any number of announcements does to a real host's file and cache what it does to the copy they hold |
| AutoPullTheorems.HostEndsWithSmallestName | crates/tcfsd/src/daemon.rs:496-524 | among forked versions a real host's file ends with a smaller name's content exactly if no announcement from a smaller name than its own comes after that one |
| AutoPullTheorems.PullReplacesIff | crates/tcfsd/src/daemon.rs:529-588 | on a sound store a version that is to be pulled replaces the file exactly when it is in clear and not empty; otherwise file and cache stay |
| AutoPullTheorems.EncryptedUploadIsNotPulled | crates/tcfsd/src/daemon.rs:555-568 | the announcement of a file uploaded with encryption changes no host |
| AutoPullTheorems.FileIsOverwrittenIff | crates/tcfsd/src/daemon.rs:444-526 | a local file that differs from the announced content is overwritten exactly when the cached version would be, edited since or not |
| AutoPullTheorems.UnpushedEditIsReplaced | crates/tcfsd/src/daemon.rs:466-495 | a file edited since its last sync is replaced by another device's next version |
| AutoPullTheorems.FoundWithoutRootIff | crates/tcfsd/src/daemon.rs:425-442 | without a sync root the file is found exactly if its relative path is a name of some entry's manifest path |
| AutoPullTheorems.UnfoundLeavesHost | crates/tcfsd/src/daemon.rs:425-442 | otherwise the announcement changes nothing |
| AutoPullTheorems.OrdinaryNameIsNotFound | crates/tcfsd/src/daemon.rs:425-442 | without a sync root the announcement of notes.txt changes nothing, whatever the cache holds |
| Resolutions.IgnoredLeavesHost | crates/tcfsd/src/daemon.rs:299-402 | own events, notices, events without a place, resolutions of unknown files, and announcements in other modes or without storage change nothing |
| Resolutions.UnknownIsFetched | crates/tcfsd/src/daemon.rs:444-466 | a file not in the cache is fetched whatever its clock, with file and cache entry as announced |
| Resolutions.ResolutionMerges | crates/tcfsd/src/daemon.rs:351-377 | another device's resolution raises every entry of the cached clock to the larger of the two and changes nothing else, in any mode |
| Resolutions.HandlerResolves | crates/tcfsd/src/daemon.rs:351-377 | so a host holds the same content under the merged clock |
| Resolutions.HostIsNotReopened | crates/tcfsd/src/daemon.rs:351-588 | a host that handled a resolution covering a version ends with that version exactly if it had it, or the clocks are the same and the name is smaller; otherwise nothing happens |
| Resolutions.HostIsStranded | crates/tcfsd/src/daemon.rs:351-588 | a host that handled a resolution beyond the winner's version is never changed by the winner's announcement |
| Agreement.TwoDevicesAgree | crates/tcfsd/src/daemon.rs:466-526 | two copies that react to each other's announcement agree on the causally newer content, or on the smaller name's |
| Agreement.ReactingTwice | crates/tcfsd/src/daemon.rs:466-526 | handling an announcement again changes nothing, no clock goes back, and nothing newer is given up |
| Agreement.ResolvedIsNotReopened | crates/tcfsd/src/daemon.rs:351-377 | once a covering resolution is merged, a version is pulled again exactly if the clocks are the same, the contents differ and its author's name is smaller |
| Agreement.ResolutionStrandsLoser | crates/tcfsd/src/daemon.rs:351-377 | a device that merged the clock of a resolution beyond the winner's version never takes the winner, whatever else it hears first |
| Agreement.StrandedLoser | crates/tcfsd/src/daemon.rs:351-377 | a loser that hears the resolution before the winner keeps its own content |
| Agreement.LastSmallerNameWins | crates/tcfsd/src/daemon.rs:466-526 | among forked versions a device ends with the last announcement from a smaller name, or its own content |
| Agreement.EndsWithSmallestName | crates/tcfsd/src/daemon.rs:496-524 | the exact delivery order in which a device ends with the smallest name's content |
| Agreement.ThreeDevicesCanDisagree | crates/tcfsd/src/daemon.rs:496-524 | three devices that each hear the two others, and an order after which one holds another content |
| SeekableFrames.Compress | crates/tcfs-chunks/src/seekable_zstd.rs:52-72 | the loop builds the specified blob and seek table |
| SeekableFrames.DecompressAll | crates/tcfs-chunks/src/seekable_zstd.rs:75-92 | the loop decodes frame by frame and stops at the first error |
| SeekableFrames.DecompressRange | crates/tcfs-chunks/src/seekable_zstd.rs:98-123 | the loop with early break reads the specified range |
| SeekableFrames.FramesAreEven | crates/tcfs-chunks/src/seekable_zstd.rs:52-72 | the frames laid end to end are the data, all but the last of exactly the frame size and none empty |
| SeekableFrames.SeekTableExact | crates/tcfs-chunks/src/seekable_zstd.rs:52-72 | offsets are the exact sums of the earlier encoded sizes and the blob is the encoded frames end to end |
| SeekableFrames.DecompressInvertsCompress | crates/tcfs-chunks/src/seekable_zstd.rs:75-92 | decompressing gives the data back, for every frame size, exactly when every encoded frame fits its 32-bit size |
| SeekableFrames.RangeEqualsSlice | crates/tcfs-chunks/src/seekable_zstd.rs:98-123 | reading a range is slicing the data, clamped to its length |
| SeekableFrames.ReversedRange | crates/tcfs-chunks/src/seekable_zstd.rs:98-123 | with the ends swapped the read is empty, or out of bounds exactly when one frame holds both ends |
| SeekableFrames.ReversedRangeRunsOut | crates/tcfs-chunks/src/seekable_zstd.rs:105-113 | a reversed range of three bytes in one frame is out of bounds |
| SeekableFrames.OnlyOverlappingDecoded | crates/tcfs-chunks/src/seekable_zstd.rs:102-120 | the bytes of frames that do not overlap the range do not matter |
| SeekableFrames.RangeReadsIff | crates/tcfs-chunks/src/seekable_zstd.rs:98-123 | on any blob a range read succeeds exactly if no frame it overlaps lies outside, fails to decode or is too short |
| SeekableFrames.FirstFaultIsReported | crates/tcfs-chunks/src/seekable_zstd.rs:98-123 | and otherwise fails with the first such fault |
| SeekableFrames.WholeRangeIffFits | crates/tcfs-chunks/src/seekable_zstd.rs:59-63 | reading the whole range gives the data exactly when every frame fits its 32-bit size |
| SeekableFrames.WrappedFrameReadsWrong | crates/tcfs-chunks/src/seekable_zstd.rs:59-63 | a codec and a frame of 2^32 bytes that reads back as something else |
| SeekableFrames.WrappedEncodingIsLost | crates/tcfs-chunks/src/seekable_zstd.rs:59-63 | a codec and a frame whose encoding of 2^32 bytes does not decompress to the data |
| StubText.ParseStub | crates/tcfs-fuse/src/stub.rs:53-119 | the line loop computes the specified parse, with its error cases |
| StubText.ParseIndex | crates/tcfs-fuse/src/stub.rs:206-227 | the line loop computes the specified parse, with its error cases |
| StubText.ParsePrintedNumber | crates/tcfs-fuse/src/stub.rs:53-119 | every printed 64-bit number parses back to itself |
| StubText.NumberParsesIff | crates/tcfs-fuse/src/stub.rs:53-119 | the texts that parse to a number are its decimal form with any leading zeros and an optional plus |
| StubText.LinesOfText | crates/tcfs-fuse/src/stub.rs:53-119 | how a text falls into lines, with carriage returns and an unterminated last line |
| StubMeaning.StubMeans | crates/tcfs-fuse/src/stub.rs:53-119 | a stub is accepted and read as given metadata exactly if no line is faulty, version, id, origin and size are given, and every field is what the last line about it says |
| StubMeaning.LastValueIs | crates/tcfs-fuse/src/stub.rs:53-119 | what is said last about a key is the rest of the last line that begins with it and the separator |
| StubMeaning.NoValueIff | crates/tcfs-fuse/src/stub.rs:53-119 | and nothing is said exactly if no line does |
| StubMeaning.FaultIsReported | crates/tcfs-fuse/src/stub.rs:53-119 | the first faulty line decides the error: no separator, wrong version or not a number |
| StubMeaning.MissingIsReported | crates/tcfs-fuse/src/stub.rs:103-116 | without one it is a missing version, then a missing field |
| StubMeaning.IndexMeans | crates/tcfs-fuse/src/stub.rs:206-227 | an index text is accepted and read as a given entry exactly if no number is faulty and the last lines give hash and size |
| StubMeaning.IndexFails | crates/tcfs-fuse/src/stub.rs:206-227 | and otherwise which error it gives |
| StubText.AnyArrangedTextParses | crates/tcfs-fuse/src/stub.rs:53-119 | line order, repetition and unknown keys do not matter to the parse |
| StubText.StubRoundTrip | crates/tcfs-fuse/src/stub.rs:122-139 | a printed stub parses back exactly when the free-form fields are safe on one line |
| StubText.NewlineBreaksStub | crates/tcfs-fuse/src/stub.rs:122-139 | a stub whose origin has two lines does not parse back |
| StubText.StubIsPrintedAs | crates/tcfs-fuse/src/stub.rs:122-139 | the printed stub line by line |
| StubText.IndexRoundTrip | crates/tcfs-sync/src/engine.rs:663-666 | the index text the engine writes is read back exactly by the driver, under the same condition |
| StubText.IndexIsPrintedAs | crates/tcfs-sync/src/engine.rs:663-666 | the printed index entry line by line |
| StateCache.JsonCache.Save | crates/tcfs-sync/src/state.rs:122-145 | a flush writes all entries or nothing, and says which |
| StateCache.JsonCache.Insert | crates/tcfs-sync/src/state.rs:87-91 | setting an entry marks the cache dirty |
| StateCache.JsonCache.Delete | crates/tcfs-sync/src/state.rs:94-99 | removing marks the cache dirty only if there was an entry |
| StateCache.RocksCache.constructor | crates/tcfs-sync/src/state.rs:270-294 | opening mirrors exactly the records that decode |
| StateCache.RocksCache.Insert | crates/tcfs-sync/src/state.rs:303-312 | the mirror is updated whether or not the database accepts the write |
| StateCache.RocksCache.Delete | crates/tcfs-sync/src/state.rs:314-320 | the mirror is updated whether or not the database accepts the delete |
| StateCache.BackendsAgree | crates/tcfs-sync/src/state.rs:217-378 | over every operation sequence, whatever the disk refuses, both backends show the same map |
| StateCache.LastOperationDecides | crates/tcfs-sync/src/state.rs:87-99 | what a path shows is decided by the last operation on it |
| StateCache.UntouchedStays | crates/tcfs-sync/src/state.rs:87-99 | a path without operations shows what it did |
| StateCache.FileInv | crates/tcfs-sync/src/state.rs:87-145 | a cache that is not dirty equals its file |
| StateCache.DirtyIff | crates/tcfs-sync/src/state.rs:87-145 | a cache is dirty exactly if something changed after the last flush that succeeded; removing what is not there is no change |
| StateCache.CrashRestoresLastSave | crates/tcfs-sync/src/state.rs:61-145 | a crash restores exactly the map as of the last flush that succeeded |
| StateCache.CloseRestoresAll | crates/tcfs-sync/src/state.rs:185-193 | closing with a flush that succeeds and opening again restores every entry |
| StateCache.DatabaseKeepsLanded | crates/tcfs-sync/src/state.rs:303-325 | the database holds the right entry for every path whose last write it accepted |
| StateCache.LookupFindsIff | crates/tcfs-sync/src/state.rs:111-119 | the lookup finds an entry exactly under its manifest path and what follows the slashes of that path |
| DiskCache.KeyOfManifest | crates/tcfs-fuse/src/cache.rs:110-118 | the key of a manifest path is its hash, whatever the directory |
| DiskCache.KeyOfName | crates/tcfs-fuse/src/cache.rs:110-118 | a path without a slash is its own key |
| DiskCache.ScratchName | crates/tcfs-fuse/src/cache.rs:48-52 | the scratch name of a key with an extension has it replaced |
| DiskCache.ScratchNameAppended | crates/tcfs-fuse/src/cache.rs:48-52 | and of one without has it appended |
| DiskCache.ByAgeSorts | crates/tcfs-fuse/src/cache.rs:94-95 | the eviction order is sorted by time and keeps every name once |
| DiskCache.EvictionKeepsNewest | crates/tcfs-fuse/src/cache.rs:69-105 | what is left fits the limit, no removed file is newer than a kept one, and scratch files stay |
| DiskCache.EvictionIsLeast | crates/tcfs-fuse/src/cache.rs:69-105 | nothing is removed when everything fits; otherwise the newest removed file would not have fitted |
| DiskCache.StuckStay | crates/tcfs-fuse/src/cache.rs:94-103 | a file that cannot be removed stays and nothing else goes in its place |
| DiskCache.NewestIsKeptIff | crates/tcfs-fuse/src/cache.rs:69-105 | the newest file is kept exactly if it fits by itself |
| Hydration.Cache.Evict | crates/tcfs-fuse/src/cache.rs:69-105 | the walk, sort and removal loop leave the specified files |
| Hydration.Cache.Put | crates/tcfs-fuse/src/cache.rs:38-60 | the cache after storing an entry that fails at any point, the scratch file under the key's name with its extension replaced |
| Hydration.Cache.FetchCached | crates/tcfs-fuse/src/hydrate.rs:74-97 | a readable hit returns the cached bytes, anything else fetches and stores |
| Hydration.CachedReadsAreFetches | crates/tcfs-fuse/src/hydrate.rs:74-97 | over any history of reads, failures and evictions every read returns what a fetch of its path would |
| Hydration.PutIsKeptIff | crates/tcfs-fuse/src/cache.rs:38-105 | an entry put later than all others stays, with its content and time, exactly if it fits by itself or cannot be removed |
| Hydration.SecondReadIsServed | crates/tcfs-fuse/src/hydrate.rs:74-97 | so the next read is served from the cache, whatever a fetch would return by then |
| Hydration.MissIsFetched | crates/tcfs-fuse/src/hydrate.rs:74-97 | a read the cache cannot serve returns what a fetch does, and a failing one leaves the cache |
| Hydration.SharedKeyServesOther | crates/tcfs-fuse/src/hydrate.rs:80-86 | the condition is needed: two paths with one key and different contents give a history with a wrong read |
| Readdir.Read | crates/tcfs-fuse/src/driver.rs:335-407 | the listing loop computes the specified reply |
| Readdir.Visit | crates/tcfs-fuse/src/driver.rs:370-392 | what one key adds to the listing, with directories shown once |
| Readdir.RelOfKey | crates/tcfs-fuse/src/driver.rs:371-377 | a key shows its own relative path exactly when that does not begin with the prefix or a slash |
| Readdir.RepeatedPrefixIsLost | crates/tcfs-fuse/src/driver.rs:371-377 | a file under a path that repeats the prefix is shown at the top |
| Readdir.ReplyIsBeyond | crates/tcfs-fuse/src/driver.rs:351-402 | a reply is the filter of the whole listing by offset exactly when the offset is not negative |
| Readdir.ReadPlus | crates/tcfs-fuse/src/driver.rs:409-494 | the extended listing loop computes the specified reply; every directory in it has size 0 and every file the size its key's index text gives |
| Readdir.ExtendedReplyIsBeyond | crates/tcfs-fuse/src/driver.rs:409-494 | the two calls show the same names, kinds and offsets, and the extended one is the filter by offset exactly below the sign bit |
| Readdir.SizeIsIndexed | crates/tcfs-fuse/src/driver.rs:150-158 | a file is shown with the size the engine wrote into its index text |
| Readdir.ReplyWithSizes | crates/tcfs-fuse/src/driver.rs:409-494 | in every reply a file has the size of the index entry its key's text is the printed form of, none if that is missing or unreadable, and a directory has none |
| Readdir.ListedInKeyOrder | crates/tcfs-fuse/src/driver.rs:433-485 | the entries come in the order of the keys that show them |
| Readdir.PagesEnumerateOnce | crates/tcfs-fuse/src/driver.rs:335-407 | resuming by the last offset with any page sizes shows every entry once and in order |
| ListingNames.ListedIffStored | crates/tcfs-fuse/src/driver.rs:370-392 | a name is listed exactly when some stored key shows it |
| ListingNames.ListedOnce | crates/tcfs-fuse/src/driver.rs:351-392 | no directory is listed twice, the two dots included, unless a path lies in one named like a dot, nor a file whose path only one key shows |
| ListingNames.NamesUniqueIff | crates/tcfs-fuse/src/driver.rs:351-392 | the names of a listing, the two dots included, are unique exactly when no file occurs twice, no directory is named like a file's stub and no path lies in a directory named like a dot |
| ListingNames.StubAndDirectoryClash | crates/tcfs-fuse/src/driver.rs:379-392 | a file and a directory listed under one name |
| ListingNames.DotIsListedTwice | crates/tcfs-fuse/src/driver.rs:351-392 | a path through a directory named . puts a second . into the listing |
| WorkerPool.RunKeepsInv | crates/tcfsd/src/worker.rs:136-193 | in every interleaving running tasks and free permits add up to the capacity, every message is in one place, and each is answered at most once |
| WorkerPool.BoundedAndAnsweredOnce | crates/tcfsd/src/worker.rs:136-193 | in every run there are never more tasks than permits and no message is answered twice |
| WorkerPool.AnswersAreTrue | crates/tcfsd/src/worker.rs:222-245 | a message is acked exactly if its task had succeeded when it answered, and naked exactly if it had failed |
| WorkerPool.MessagesAreConserved | crates/tcfsd/src/worker.rs:160-188 | the messages waiting, running or finished are exactly those received |
| WorkerPool.NothingStartsAfterSignal | crates/tcfsd/src/worker.rs:160-193 | once the loop has taken the signal nothing is received or started |
| WorkerPool.SignalStopsReceiving | crates/tcfsd/src/worker.rs:160-188 | once the signal is there nothing is received, and at most the message already taken is started |
| WorkerPool.LeavesOnlyOnSignal | crates/tcfsd/src/worker.rs:160-166 | the loop is left only after a signal |
| WorkerPool.DrainMakesProgress | crates/tcfsd/src/worker.rs:190-193 | a draining pool waits for exactly its running tasks |
| WorkerPool.DrainedIsIdle | crates/tcfsd/src/worker.rs:190-193 | a drained pool of 32-bit capacity runs nothing and has finished every message |
| WorkerPool.OversizedPoolDrainsEarly | crates/tcfsd/src/worker.rs:190-193 | for every larger capacity that a semaphore accepts, a run that is drained with a task running |
| WorkerPool.EmptyPoolRunsNothing | crates/tcfsd/src/worker.rs:126-136 | a pool configured with no permits never runs a task |
| WorkerPool.EmptyPoolHangs | crates/tcfsd/src/worker.rs:160-188 | once it has taken a message such a pool waits for ever and hears no signal |
| WorkerPool.WaitingCanLaunchIff | crates/tcfsd/src/worker.rs:160-188 | in every reachable state some continuation starts a message that waits exactly when the pool has permits |
| WorkerPool.WaitIsBounded | crates/tcfsd/src/worker.rs:160-188 | a message that has not started yet still waits, and apart from signals at most two steps for each permit come before its start |

## Left out

- Clocks.VectorClock.Tick: counters are unbounded, so the overflow of a 64-bit counter is not modelled.
- Engine.SyncEngine.Download: leaves out the temporary file beside the target; the target itself changes whole or not at all, as the rename does it.
- Upload.EveryWriteKeepsStore: the upload runs by itself, over a store that may hold legacy objects; Upload.PutKeepsStore, Upload.ManifestKeepsStore and WorldInvariant.StepKeepsInv cover the writes of overlapping uploads.
- UploadTheorems.UploadsKeepStore: uploads run one after the other; WorldInvariant.StepKeepsInv has them overlap, over stores that began without legacy objects.
- UploadTheorems.DurableRoundTrip: uploads run one after the other; WorldTheorems.UploadIsDurable has them overlap.
- UploadTheorems.ReadableKeepsManifests: the upload runs by itself; WorldTheorems.StoredIsReplacedIff has the exact condition when uploads overlap.
- UploadTheorems.ReadableUploadsKeepManifests: uploads run one after the other; WorldTheorems.AnsweredRunsKeepManifest has them overlap.
- Engine.SyncEngine.PushTree: says that a failing flush is reported, not what the flush saves; StateCache states that.
- BLAKE3, zstd, FastCDC, key wrapping and chunk encryption are parameters with contracts; their internals are not part of this model.
- OpenDAL, NATS, tokio, FUSE and RocksDB appear as maps, sequences and atomic steps; a write either happens whole or not at all.
- A failed existence check on a chunk, which only writes the same object again, is not modelled.
- JSON, YAML and TOML encodings of manifests, caches and configuration are datatypes here.
- The push request that publishes an empty clock and the resolution that rewrites a manifest without chunks lie outside the store invariant and are left out.
- The line-format manifest reader behind hydration is an abstract fetch; the driver's other file operations, its handle table and attributes other than sizes are left out.
- The directory walk that collects the files of a push, with its patterns, is left out; a push takes the list it produces.
- A worker that cannot open its task stream, and so never enters the loop, is left out.
- Lock handling in the daemon is left out; storage access and cache updates are taken as atomic.
- Command line, terminal and server front ends, metrics, credentials, the secret-file exchange, the device registry and the Windows and macOS providers are left out; they would only add easy members.
