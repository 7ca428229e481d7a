# PJ MCAP server: verified model

A Dafny model of the parts of the MCAP cloud stack whose correctness rests on state that several
components share: the catalog builder (`mcap_catalog`), the streaming server (`server`) and the
PlotJuggler toolbox plugin (`plugin`). `dafny verify dfyconfig.toml` checks everything.

What is modelled, and the main result of each part:

* **The catalog** (`varint`, `hive_key`, `catalog_tables`, `catalog_writer`, `catalog_events`,
  `catalog_builder`). Keys, interned dictionaries, topic sets with packed counts, failures and overrides.
  `FileAt` reads a file back by name alone, through ids, dictionaries and varints. Every write makes a
  key's entry a function of the object and leaves all other keys and every surviving file's overrides alone;
  no key is both cataloged and failed; duplicate and stale events change nothing. The class `Builder` performs
  the operations through an open transaction and id caches and is proved to commit exactly what the functions say.
* **The full reconcile** (`reconcile`). For every completion order of the bounded window, a finished run
  leaves the same catalog, and over a steady bucket that catalog is a function of the bucket. A run that is
  stopped anywhere leaves a consistent stage, and the sweep is reached only after a complete listing.
* **The listing that feeds it** (`sharded_listing`, `sharded_progress`, `listed_reconcile`). Root loop, producers
  and consumer over all interleavings, against what the store promises while objects come and go. A listing that
  ends by itself has every key once, an error is never passed over, and without one the listing can always be
  brought to its end; handed to the reconcile, no sweep deletes a file whose object was there throughout, and
  over a steady bucket the audited catalog is the bucket.
* **Events** (`event_tier`). A queue message is deleted only after each of its records was committed, never after
  one raised, and can be deleted as long as none did.
* **Publishing a rebuild** (`publish`, `full_rebuild`). What readers see at every crash point of the swap, and
  exactly when a rebuild is published or refused; overrides carried by file name; rising build ids; and reconcile
  and publish composed.
* **The resumable download** (`retain_buffer`, `resume_client`, `resume_system`, `resume_completion`,
  `resume_progress`). Producer, retain buffer, consumer, two writer lanes, an adversarial wire and the client as
  one state machine. Over every run the sink gets a prefix of the stream, in order, once, and from every drop a
  live session with a reconnect left can be resumed and completed.
* **The targeted summary read** (`targeted_summary`, `summary_layout`). Footer, offset section and coalesced group
  ranges read the same summary as a scan of the whole summary section, within a byte budget; a file laid out by
  the format is read back, and on any other bytes a summary that is found is justified.
* **Session aggregation** (`session_aggregation`). The sessions returned are the connected components of each
  partition, every file is in exactly one, and each session names its files, partition and span.
* **The import runtime** (`lease_machine`, `lease_cycles`, `lease_registry`, `admission_gate`, `cache_tee`). File
  locks, leases, materialize tickets, the first-come-first-served gate and the cache writer's queue: what every
  interleaving keeps, and what whole passes through it leave behind.
* **Paged listing** (`paged_listing`). A complete listing belongs to one generation, and how a listing ends is
  decided by what the server and the caller do.

Code that updates state is modelled by classes and loops proved against specification functions; what
concurrent code does is a state machine whose steps may come in any order. I/O, clocks, other processes
and the results of foreign calls are parameters: extractors, tick sequences, attempt outcomes, actions.

## Where the code and its documentation differ

The model follows the code. The members named state each difference exactly.

* `delete_by_key` parses without the round-trip guard that cataloging uses, so a key that does not rebuild
  to itself deletes another key's row (`DeleteHitsOnlyItsOwnKeyIff`, `DeleteCanHitAnotherKey`).
* A key may end in a newline and still match, because `$` matches before it; so parse and rebuild are not
  exact inverses, and the guard is what refuses such keys (`NewlineKeyParses`, `RebuildParse`,
  `ResolveAcceptsIff`).
* A comment in `apply_extract` says that the sweep removes the stale row of a vanished object. The sweep
  goes by the listing, in which the object still is, so the row survives this run
  (`VanishedRowSurvivesIff`, `VanishedRowExample`).
* The final Eos takes the priority lane and may overtake batches, so a download can end COMPLETE with
  batches missing (`CompleteMeansAllIff`, `CompleteCanLoseABatch`).
* If the gate raises on a database that is readable and has committed frames, the swap removes those frames
  before the rename (`CrashSafeIff`, `FramesCanBeLost`).
* "Only a strictly positive gap splits" fails for negative thresholds, and the running maximum starts at
  zero (`SplitsOnlyOnPositiveGapIff`, `NegativeThresholdSplitsTwins`, `SplitIsTrueGapIff`, `GapCanBeMissed`).
* In `acquireAdmission` the branch for a grant that arrives during unlinking cannot be taken: both happen
  under one lock (`Gate.Wake`).
* A file skipped by its fingerprint keeps the size and time stamp it was stored with; statements about
  such files compare etag and content (`CatalogMeaning`, `CatalogIsAFunctionOfTheBucket`).

## Model

| member | source | states |
|---|---|---|
| `Varint.EncodeVarint` | mcap_catalog/mcap_catalog_builder/varint.py:8-20 | a negative number is refused; any other is written as its base-128 digits, least significant first |
| `Varint.DecodeVarint` | mcap_catalog/mcap_catalog_builder/varint.py:23-38 | the shift-and-or loop computes the base-128 value: the bits it ors together are always disjoint; running off the end is reported as truncation |
| `Varint.DecodeCountsBlob` | mcap_catalog/mcap_catalog_builder/varint.py:46-53 | a blob is read to its end or refused whole |
| `Varint.DecodeEncode` | mcap_catalog/mcap_catalog_builder/varint.py:8-38 | decode(encode(n)) == n at any position in any surroundings, and decoding stops exactly behind the number |
| `Varint.CutVarintIsTruncated` | mcap_catalog/mcap_catalog_builder/varint.py:23-38 | an encoding cut anywhere short of its end is never misread as another number |
| `Varint.CountsRoundTrip` | mcap_catalog/mcap_catalog_builder/varint.py:41-53 | unpacking a packed list of counts gives the list back, zeros and the empty list included |
| `Varint.CountsInjective` | mcap_catalog/mcap_catalog_builder/varint.py:41-53 | two count lists with one blob are one list |
| `HiveKey.ParseRebuild` | mcap_catalog/mcap_catalog_builder/keyparse.py:25-44 | parsing a rebuilt key gives the dimensions back |
| `HiveKey.SlashedKeyParses` | mcap_catalog/mcap_catalog_builder/keyparse.py:25-44 | a rebuilt key with any number of slashes in front parses to the same dimensions |
| `HiveKey.RebuildParse` | mcap_catalog/mcap_catalog_builder/keyparse.py:15-44 | rebuilding a parsed key gives the key back up to leading slashes, except that one trailing newline is lost |
| `HiveKey.NewlineKeyParses` | mcap_catalog/mcap_catalog_builder/keyparse.py:15-44 | every rebuilt key with a newline behind parses to the same dimensions, and the guard refuses it |
| `HiveKey.Resolve` | mcap_catalog/mcap_catalog_builder/builder.py:93-108 | a trusted parse rebuilds to its key |
| `HiveKey.ResolveAcceptsIff` | mcap_catalog/mcap_catalog_builder/builder.py:93-108 | the round-trip guard refuses exactly the parses that dropped a newline |
| `HiveKey.IdentityIsInjective` | mcap_catalog/mcap_catalog_builder/builder.py:93-108 | two object keys with the same dimensions are the same key |
| `CatalogTables.InternSound` | mcap_catalog/mcap_catalog_builder/db.py:180-185 | INSERT OR IGNORE keeps names and ids one-to-one and never changes an id already given |
| `CatalogTables.CompositeDims` | mcap_catalog/mcap_catalog_builder/reconcile.py:146-155 | the ids found for a file's dimensions name those dimensions |
| `CatalogTables.DimsComposite` | mcap_catalog/mcap_catalog_builder/reconcile.py:146-155 | and the dimensions named by ids are found as those ids |
| `CatalogTables.EveryRowIsRead` | scripts/catalog-semantic-diff.py:25-62 | the id-free reading of a catalog sees every files row |
| `CatalogTables.GrowthKeepsMeaning` | mcap_catalog/mcap_catalog_builder/db.py:180-262 | interning new names changes what no file means, and no override, by file name |
| `CatalogTables.UpsertMeaning` | mcap_catalog/mcap_catalog_builder/builder.py:182-201 | an upsert gives its file the row's meaning and no other file a new one; every file keeps exactly its overrides |
| `CatalogTables.UpsertKeepsOverrides` | mcap_catalog/mcap_catalog_builder/builder.py:182-214 | after an upsert every tag override still belongs to a row |
| `CatalogTables.DeleteMeaning` | mcap_catalog/mcap_catalog_builder/builder.py:129-139 | a delete makes its file unknown and keeps every other file with exactly its overrides |
| `CatalogTables.ResolveDimsSound` | mcap_catalog/mcap_catalog_builder/builder.py:142-149 | resolving a file's dimensions makes them known and disturbs no id |
| `CatalogWriter.TallyMeansTotals` | mcap_catalog/mcap_catalog_builder/builder.py:160-169 | totals kept by id are the totals by topic name, whatever ids are handed out, duplicate topics merged |
| `CatalogWriter.SortSorts` | mcap_catalog/mcap_catalog_builder/builder.py:171-172 | topic-set members are in strictly ascending topic_id order |
| `CatalogWriter.TallySum` | mcap_catalog/mcap_catalog_builder/builder.py:160-179 | merging duplicate topics loses no message |
| `CatalogWriter.ZipIsTotals` | mcap_catalog/mcap_catalog_builder/builder.py:171-180 | counts zipped with the sorted members give every topic its own total |
| `CatalogWriter.RowMeansSummary` | mcap_catalog/mcap_catalog_builder/builder.py:159-201 | the stored row, its interned topic set and its packed counts decode to the summary that was written |
| `CatalogWriter.RowCountsAddUp` | mcap_catalog/mcap_catalog_builder/builder.py:174-180 | the unpacked counts of an accepted row add up to its message_count |
| `CatalogWriter.WriteMeaning` | mcap_catalog/mcap_catalog_builder/builder.py:152-239 | a write gives the file its new content, clears the key's failure, and keeps every file's overrides by name and every other file |
| `CatalogWriter.QuarantineMeaning` | mcap_catalog/mcap_catalog_builder/builder.py:129-139 | quarantine drops the row and records the failure together, and keeps every other file with exactly its overrides |
| `CatalogWriter.QuarantineKeepsConsistent` | mcap_catalog/mcap_catalog_builder/builder.py:129-139 | a quarantined key is failed and has no row, and the catalog stays consistent |
| `CatalogWriter.SettleMeaning` | mcap_catalog/mcap_catalog_builder/builder.py:303-311 | whatever reading an object gave, its file and its failure entry are afterwards what that reading alone says; files that stay keep their overrides |
| `CatalogWriter.ApplyMeaning` | mcap_catalog/mcap_catalog_builder/builder.py:294-311 | the same from any catalog, known or new dimensions |
| `CatalogWriter.ApplyKeepsConsistent` | mcap_catalog/mcap_catalog_builder/builder.py:294-311 | applying keeps the catalog invariant, changes the state of one key and keeps the overrides of every file that stays |
| `CatalogWriter.NeverBoth` | mcap_catalog/mcap_catalog_builder/builder.py:352-358 | no key is both cataloged and failed |
| `CatalogEvents.CacheMissMeansAbsent` | mcap_catalog/mcap_catalog_builder/builder.py:371-385 | dimensions missing from the caches prove that the key is neither cataloged nor failed |
| `CatalogEvents.CatalogMeaning` | mcap_catalog/mcap_catalog_builder/builder.py:314-360 | cataloging a live object makes the key's state a function of the object, on the fingerprint-skip path too, and keeps the overrides of every file that stays |
| `CatalogEvents.CatalogKeepsInvariants` | mcap_catalog/mcap_catalog_builder/builder.py:314-360 | and keeps the catalog consistent and faithful to the bucket's history |
| `CatalogEvents.DeleteByKeyMeaning` | mcap_catalog/mcap_catalog_builder/builder.py:371-392 | a delete removes the row its key parses to and at most its own failure entry; every other file keeps exactly its overrides, by name |
| `CatalogEvents.DeleteKeepsInvariants` | mcap_catalog/mcap_catalog_builder/builder.py:371-392 | a delete keeps the catalog consistent and faithful |
| `CatalogEvents.DeleteHitsOnlyItsOwnKeyIff` | mcap_catalog/mcap_catalog_builder/builder.py:371-392 | a delete spares every other key if and only if its key rebuilds to itself or the row it parses to does not exist |
| `CatalogEvents.DeleteCanHitAnotherKey` | mcap_catalog/mcap_catalog_builder/builder.py:371-392 | for every cataloged file, deleting its key with slashes in front, or with a newline behind, removes that file |
| `CatalogEvents.DeleteEventFollowsLiveObject` | mcap_catalog/mcap_catalog_builder/__main__.py:388-397 | after a delete event the key is as the live object says: recataloged if it exists, absent if not; other keys are untouched and every file that stays has exactly its overrides |
| `CatalogEvents.CreateEventFollowsLiveObject` | mcap_catalog/mcap_catalog_builder/__main__.py:385-387 | a create event does what the delete event would whenever the object is live, and nothing if it is gone |
| `CatalogEvents.UnparseableEvent` | mcap_catalog/mcap_catalog_builder/builder.py:314-392 | an event for a key that does not resolve records a failure if the object is live, and otherwise removes at most the file a delete parses to; no other file, failure or override changes |
| `CatalogEvents.ReplayChangesNothing` | mcap_catalog/mcap_catalog_builder/__main__.py:378-410 | a second event for a settled key, duplicate or stale, changes no entry and no override |
| `CatalogBuilder.ResolveCached` | mcap_catalog/mcap_catalog_builder/db.py:180-195 | cache, insert, select and refill return the interned id and leave the cache equal to the index |
| `CatalogBuilder.LoadCache` | mcap_catalog/mcap_catalog_builder/db.py:160-177 | reading the rows back rebuilds the unique index |
| `CatalogBuilder.LoadCaches` | mcap_catalog/mcap_catalog_builder/db.py:160-177 | all seven caches equal their tables |
| `CatalogBuilder.ResolveAll` | mcap_catalog/mcap_catalog_builder/builder.py:142-149 | four resolvers in turn give the ids of the file's dimensions |
| `CatalogBuilder.Builder.constructor` | mcap_catalog/mcap_catalog_builder/db.py:160-177 | a builder starts with no open change and with caches equal to the tables |
| `CatalogBuilder.Builder.Rollback` | mcap_catalog/mcap_catalog_builder/builder.py:229-232 | after a rollback no id of the lost transaction survives in a cache |
| `CatalogBuilder.Builder.ResolveIds` | mcap_catalog/mcap_catalog_builder/builder.py:142-149 | interned ids are committed, caches in step |
| `CatalogBuilder.Builder.QuarantineExisting` | mcap_catalog/mcap_catalog_builder/builder.py:129-139 | committed state is the quarantine of the old one |
| `CatalogBuilder.Builder.RecordFailure` | mcap_catalog/mcap_catalog_builder/db.py:364-371 | only the key's failure entry changes |
| `CatalogBuilder.Builder.TallyChannels` | mcap_catalog/mcap_catalog_builder/builder.py:160-169 | the loop through caches and an open transaction gives the specified totals |
| `CatalogBuilder.Builder.WriteRow` | mcap_catalog/mcap_catalog_builder/builder.py:152-239 | commits the whole row, or on a count mismatch or any exception rolls back, reloads the caches and quarantines; reported cataloged only if the row is there |
| `CatalogBuilder.Builder.CatalogOne` | mcap_catalog/mcap_catalog_builder/builder.py:314-360 | committed state is the specified one for every object, live or gone, a write that raises included; skipped, cataloged and failed are reported exactly as the stored etag and the reading decide |
| `CatalogBuilder.Builder.ApplyOne` | mcap_catalog/mcap_catalog_builder/builder.py:294-311 | committed state is the specified one, a write that raises included; reported cataloged exactly for a parseable key with an accepted summary that can be written |
| `CatalogBuilder.Builder.DeleteOne` | mcap_catalog/mcap_catalog_builder/builder.py:371-392 | committed state is the specified delete, about which the files, failures and overrides of all keys are proved; reports a deletion exactly when a row existed |
| `CatalogBuilder.Builder.CachedComposite` | mcap_catalog/mcap_catalog_builder/reconcile.py:146-155 | the caches know exactly the ids the tables know |
| `CatalogBuilder.Builder.Handle` | mcap_catalog/mcap_catalog_builder/__main__.py:384-397 | committed state is the specified one for either kind of event |
| `Reconcile.StopEvent.Look` | mcap_catalog/mcap_catalog_builder/reconcile.py:29-31 | a look reports the event, and a set event stays set |
| `Reconcile.LooksUnchanged` | mcap_catalog/mcap_catalog_builder/reconcile.py:227-230 | the cached fingerprint test agrees with the stored etags |
| `Reconcile.Classify` | mcap_catalog/mcap_catalog_builder/reconcile.py:217-231 | every listing is skipped, failed or pending, exactly one of them, and the skipped are those with the stored etag; a stop leaves a prefix classified |
| `Reconcile.MarkMeaning` | mcap_catalog/mcap_catalog_builder/reconcile.py:217-224 | marking gives exactly the listed unparseable keys a failure entry, no file a new meaning, and keeps all overrides |
| `Reconcile.ApplyNext` | mcap_catalog/mcap_catalog_builder/reconcile.py:236-242 | one result is applied unless a stop is seen before it, and the run goes on unless one is seen before or behind it; it is counted as cataloged exactly when its summary was accepted |
| `Reconcile.ApplyReady` | mcap_catalog/mcap_catalog_builder/reconcile.py:103-113 | any choice of completed results is applied, each once |
| `Reconcile.CompleteSome` | mcap_catalog/mcap_catalog_builder/reconcile.py:94-113 | at least one extraction in flight, whichever, completes and is applied; none is lost or applied twice |
| `Reconcile.ApplyInWindow` | mcap_catalog/mcap_catalog_builder/reconcile.py:80-117 | never more than the window in flight, and the window is filled as far as there is work; without a stop the applied results are a permutation of the pending ones and the counts are those of the pending ones |
| `Reconcile.CatalogedInAnyOrder` | mcap_catalog/mcap_catalog_builder/reconcile.py:236-294 | the number of cataloged files does not depend on completion order |
| `Reconcile.ApplyAllMeaning` | mcap_catalog/mcap_catalog_builder/reconcile.py:236-294 | each key's entry is decided by its own listing and object, whatever was applied before and after it; files that stay keep their overrides |
| `Reconcile.PresentIsListed` | mcap_catalog/mcap_catalog_builder/reconcile.py:298-307 | a known file is present exactly when it is listed |
| `Reconcile.KeepPreserves` | mcap_catalog/mcap_catalog_builder/reconcile.py:309-322 | the cascade takes the dropped files' overrides and no others, by file name |
| `Reconcile.CollectPresent` | mcap_catalog/mcap_catalog_builder/reconcile.py:298-307 | the loop over the caches collects that set |
| `Reconcile.DeleteAbsent` | mcap_catalog/mcap_catalog_builder/reconcile.py:309-320 | the open transaction holds the catalog without the absent rows, and counts them |
| `Reconcile.Sweep` | mcap_catalog/mcap_catalog_builder/reconcile.py:309-330 | the sweep is committed whole or not at all |
| `Reconcile.SweepMeaning` | mcap_catalog/mcap_catalog_builder/reconcile.py:296-322 | a sweep removes every file that is not listed; the others keep their entries and exactly their overrides |
| `Reconcile.EveryStageIsConsistent` | mcap_catalog/mcap_catalog_builder/reconcile.py:158-349 | wherever a reconcile stops, the catalog it leaves is consistent, and every file still in it has exactly the overrides it had |
| `Reconcile.ReconcileMeaning` | mcap_catalog/mcap_catalog_builder/reconcile.py:158-349 | after a finished reconcile each listed key has the entry its listing and object decide, and no unlisted file remains |
| `Reconcile.OrderDoesNotMatter` | mcap_catalog/mcap_catalog_builder/reconcile.py:158-349 | two finished runs with different completion orders say the same about every file and every key |
| `Reconcile.CatalogIsAFunctionOfTheBucket` | mcap_catalog/mcap_catalog_builder/reconcile.py:158-349 | over a steady bucket the finished catalog is what the bucket alone says, whatever it was before |
| `Reconcile.ReadUnlessCataloged` | mcap_catalog/mcap_catalog_builder/reconcile.py:225-231 | a listed object is read if and only if its key resolves and no file with its etag is cataloged for it |
| `Reconcile.SecondRunReadsOnlyFailures` | mcap_catalog/mcap_catalog_builder/reconcile.py:158-349 | over a steady bucket the next run reads exactly the objects that make no file |
| `Reconcile.ReconcileKeepsFaithful` | mcap_catalog/mcap_catalog_builder/reconcile.py:158-349 | wherever a run stops, cut off or finished, and whatever vanished meanwhile, the catalog stays faithful to the bucket, so the next run may start from it |
| `Reconcile.RebuildIsExactlyTheBucket` | mcap_catalog/mcap_catalog_builder/reconcile.py:158-349 | a rebuild from a catalog without files is the bucket exactly, stamps and failures included |
| `Reconcile.FullReconcile` | mcap_catalog/mcap_catalog_builder/reconcile.py:158-349 | listing failures, cancels and finishes happen exactly when the listing raised, a stop was seen, or neither; a listing that was cut short or failed changes nothing; the sweep happens only after an exhausted one; a cut-off run leaves one of the stages; a finished one counts every listing once, with cataloged, skipped and deleted as the inputs decide |
| `Reconcile.VanishedRowSurvivesIff` | mcap_catalog/mcap_catalog_builder/reconcile.py:296-322 | a listed object that vanished has no row afterwards if and only if it had none before |
| `Reconcile.VanishedRowStays` | mcap_catalog/mcap_catalog_builder/reconcile.py:296-322 | every catalog with a file has a run after which the file is still there although its listed object vanished |
| `Reconcile.VanishedRowExample` | mcap_catalog/mcap_catalog_builder/reconcile.py:296-322 | such a catalog: one file written into an empty database |
| `Reconcile.StampBuild` | mcap_catalog/mcap_catalog_builder/db.py:337-361 | the build row is the only change |
| `Reconcile.ReconcileStampsAboveFloor` | mcap_catalog/mcap_catalog_builder/db.py:337-361 | a finished reconcile of any consistent catalog stamps above the build id it found, adds no override and leaves a well-formed catalog |
| `ListedReconcile.SweepFollowsBucket` | mcap_catalog/mcap_catalog_builder/reconcile.py:178-322 | the sweep keeps every file whose object was under the prefix throughout the listing and leaves none whose object never was |
| `ListedReconcile.Audit` | mcap_catalog/mcap_catalog_builder/reconcile.py:178-349 | for every interleaving of the listing: one that stopped or raised leaves the catalog as it was, a sweep follows the bucket, and an exhausted listing without a stop ends in a finished run |
| `ListedReconcile.AuditedCatalogIsTheBucket` | mcap_catalog/mcap_catalog_builder/reconcile.py:178-349 | over a bucket that stays as it is, listing and reconcile together make the catalog say exactly what its keys and objects say |
| `RetainBuffer.Buffer.constructor` | server/internal/session/retain.go:45-55 | non-positive limits become 256 batches and 64 MiB |
| `RetainBuffer.Buffer.Append` | server/internal/session/retain.go:62-75 | waits exactly while open and without room, and keeps numbers ascending and the byte total and both bounds true |
| `RetainBuffer.Buffer.Next` | server/internal/session/retain.go:81-118 | the scan finds the first retained batch above the cursor |
| `RetainBuffer.Buffer.Prune` | server/internal/session/retain.go:122-136 | drops exactly the batches through the acked number |
| `RetainBuffer.Buffer.Close` | server/internal/session/retain.go:141-146 | a closed buffer never waits again |
| `ResumeClient.OfferBatch` | plugin/toolbox_mcap_cloud/src/backend_connection.cpp:1105-1113 | messages reach the sink in order up to and including the first refused one; the counters cover the accepted ones |
| `ResumeClient.BatchOnce` | plugin/toolbox_mcap_cloud/src/backend_connection.cpp:1078-1139 | the batch arm of the loop refines the specified step |
| `ResumeClient.FrameOnce` | plugin/toolbox_mcap_cloud/src/backend_connection.cpp:1078-1175 | the frame dispatch refines the specified step |
| `ResumeClient.PassOnce` | plugin/toolbox_mcap_cloud/src/backend_connection.cpp:1016-1076 | one pass, cancel and deadlines included, refines the specified step |
| `ResumeClient.PassReceives` | plugin/toolbox_mcap_cloud/src/backend_connection.cpp:1078-1115 | a pass takes in the next batch or nothing, and a refusal ends the leg unresumably |
| `ResumeClient.PassKeepsOrder` | plugin/toolbox_mcap_cloud/src/backend_connection.cpp:1078-1115 | after any genuine frame, duplicate or reordered, the sink has been given the stream in order without gap or repeat |
| `ResumeClient.PassKeepsAcksBehind` | plugin/toolbox_mcap_cloud/src/backend_connection.cpp:1124-1129 | no ack runs ahead of the cursor and the cursor never moves back |
| `ResumeClient.PassKeepsCadence` | plugin/toolbox_mcap_cloud/src/backend_connection.cpp:1124-1166 | fewer than 64 received batches are ever unacked on a running leg, and an end of stream is acked through the cursor |
| `ResumeClient.PassKeepsCounts` | plugin/toolbox_mcap_cloud/src/backend_connection.cpp:1105-1115 | counters move by exactly the accepted callbacks, their payload bytes and the received batches |
| `ResumeClient.TakenIsAccepted` | plugin/toolbox_mcap_cloud/src/backend_connection.cpp:1105-1113 | counting inside a batch agrees with counting the sink's accepted calls |
| `ResumeClient.TakenBytes` | plugin/toolbox_mcap_cloud/src/backend_connection.cpp:1105-1113 | the bytes counted inside a batch are those of the callbacks the sink accepted, the refused one excluded |
| `ResumeClient.ResumableMeansDropped` | plugin/toolbox_mcap_cloud/src/backend_connection.cpp:1042-1076 | only a silent drop makes a leg resumable: no cancel, no deadline, no end of stream |
| `ResumeClient.PassEndsAsObserved` | plugin/toolbox_mcap_cloud/src/backend_connection.cpp:1016-1175 | a pass ends the leg, and with which reason, exactly as deadline, cancel, frame and sink decide: Cancelled, Failed, the server's own reason, or resumable |
| `ResumeClient.PassAsksToCancel` | plugin/toolbox_mcap_cloud/src/backend_connection.cpp:1016-1139 | a latched cancel, a passed deadline, a refused message and a batch that cannot be used each put a cancel on the wire, and no request is taken back |
| `ResumeClient.RunFrameLoop` | plugin/toolbox_mcap_cloud/src/backend_connection.cpp:980-1177 | the loop is the fold of its passes and keeps acks behind, counters exact and the ack cadence |
| `ResumeClient.DownloadResumable` | plugin/toolbox_mcap_cloud/src/backend_connection.cpp:1348-1482 | every leg but the last dropped, and each dropped leg that passes its checks is followed by another; the result is Cancelled if and only if the download was told to stop, Failed if and only if the last attempt was rejected, reasonless only with the budget spent, and otherwise the last leg's; at most three reconnects; each OpenResume asks behind exactly the batches received before it; acks never exceed what was received; counters are exact over all legs |
| `ResumeSystem.RunIsSafe` | plugin/toolbox_mcap_cloud/src/backend_connection.cpp:980-1177 | the joint invariant of producer, buffer, consumer, lanes, wire and client holds after every sequence of steps |
| `ResumeSystem.DeliveryIsAPrefix` | plugin/toolbox_mcap_cloud/src/backend_connection.cpp:1348-1482 | over every run the sink was given a prefix of the stream, exactly once and in order, across any drops and resumes; acks stay behind the cursor and message, byte and batch counters are exact |
| `ResumeSystem.LiveSessionAlwaysResumes` | server/internal/ws/handlers_session.go:453-492 | while the session lives the server accepts the client's cursor and still retains everything behind it |
| `ResumeSystem.ServeResumeSafe` | server/internal/ws/handlers_session.go:453-492 | serving a resume leaves a buffer that starts exactly behind the cursor |
| `ResumeSystem.NextIsNext` | server/internal/session/retain.go:107-112 | the consumer's next batch is always the very next number, never a skip |
| `ResumeSystem.PruneKeeps` | server/internal/session/retain.go:122-136 | pruning through any ack keeps all the client may still ask for |
| `ResumeSystem.CancelStopsReconnects` | plugin/toolbox_mcap_cloud/src/backend_connection.cpp:1404-1448 | a cancel and a passed deadline are never undone and no later step reconnects |
| `ResumeCompletion.RunIsHonest` | server/internal/session/consumer.go:62-199 | over an order-keeping wire, what is received, on the wire and queued is always the stream cut in three |
| `ResumeCompletion.WriteFinalHonest` | server/internal/ws/conn.go:114-151 | the final Eos overtakes exactly the batches still on the bulk lane |
| `ResumeCompletion.CompleteMeansAllIff` | server/internal/ws/conn.go:114-151 | a download that ends COMPLETE has the whole stream if and only if the bulk lane was empty when the Eos was written; comparing the Eos total with the received count detects which |
| `ResumeCompletion.CompleteCanLoseABatch` | server/internal/ws/conn.go:114-151 | a run that ends COMPLETE with its only batch undelivered |
| `ResumeProgress.ResumeConnects` | server/internal/ws/handlers_session.go:453-492 | from every reachable drop with a live session and a reconnect left, one resume goes on exactly behind the cursor |
| `ResumeProgress.ConnectedCanComplete` | server/internal/session/consumer.go:62-199 | from every connected state there is a continuation that ends COMPLETE with the whole stream delivered, whatever the buffer's bounds |
| `ResumeProgress.DroppedCanComplete` | plugin/toolbox_mcap_cloud/src/backend_connection.cpp:1348-1482 | whatever drops, losses, duplicates and reorderings came before, a dropped download with a live session and a reconnect left can be completed with every message delivered once |
| `ResumeProgress.FreshCanComplete` | plugin/toolbox_mcap_cloud/src/backend_connection.cpp:980-1177 | so can a session just opened |
| `ResumeProgress.RetryIsDecided` | plugin/toolbox_mcap_cloud/src/backend_connection.cpp:1404-1482 | a reconnect is decided by the attempts left, cancel, deadline, connection and whether the session lives; the cursor is never what turns it away |
| `ResumeProgress.SessionEndsFor` | server/internal/session/consumer.go:62-199 | a live session ends exactly by its final Eos, a failing producer, the client's own cancel or an eviction without a connection |
| `ResumeProgress.EndedSessionIsSilent` | server/internal/session/consumer.go:62-199 | an ended session stays ended and queues nothing more |
| `ResumeProgress.FailureIsReported` | server/internal/session/consumer.go:62-199 | a producer that fails ends the client Failed with what it had |
| `ResumeProgress.CancelIsReported` | plugin/toolbox_mcap_cloud/src/backend_connection.cpp:1016-1076 | a cancel is asked for, honoured and reported back as Cancelled |
| `TargetedSummary.IterRecords` | mcap_catalog/mcap_catalog_builder/targeted_summary.py:68-98 | the loop yields the framed records in order or refuses the buffer |
| `TargetedSummary.SplitRecords` | mcap_catalog/mcap_catalog_builder/targeted_summary.py:68-98 | cutting a buffer at a record boundary cuts its records |
| `TargetedSummary.LittleEndianWeighs` | mcap_catalog/mcap_catalog_builder/targeted_summary.py:68-98 | byte i of a number weighs 256 to the i |
| `TargetedSummary.UnpackPacked` | mcap_catalog/mcap_catalog_builder/targeted_summary.py:124-129 | reading a packed number gives it back |
| `TargetedSummary.FooterFromTail` | mcap_catalog/mcap_catalog_builder/targeted_summary.py:119-129 | the checks on the tail buffer give the footer that FooterOnlyWhereWritten and FooterRoundTrip describe byte by byte |
| `TargetedSummary.FooterOfTail` | mcap_catalog/mcap_catalog_builder/targeted_summary.py:119-129 | any tail that holds the footer gives the file's footer |
| `TargetedSummary.WantedGroupsOk` | mcap_catalog/mcap_catalog_builder/targeted_summary.py:163-166 | exactly the listed schema, channel and statistics groups, in file order |
| `TargetedSummary.MergeGroups` | mcap_catalog/mcap_catalog_builder/targeted_summary.py:167-176 | the coalescing loop refuses any group outside the summary section |
| `TargetedSummary.MergeOk` | mcap_catalog/mcap_catalog_builder/targeted_summary.py:167-176 | merged ranges are disjoint, inside the section, bounded by group boundaries, and every group lies in one |
| `TargetedSummary.MergeIsBounded` | mcap_catalog/mcap_catalog_builder/targeted_summary.py:167-176 | merging reads at most one coalescing gap extra per merged group |
| `TargetedSummary.Fetch` | mcap_catalog/mcap_catalog_builder/targeted_summary.py:147-154 | bytes come from the tail or a read of their own and are the same either way |
| `TargetedSummary.ReadRanges` | mcap_catalog/mcap_catalog_builder/targeted_summary.py:181-194 | every read is one of the merged ranges, within their total length; a complete scan reads exactly the ranges ahead of the tail |
| `TargetedSummary.ReadGroups` | mcap_catalog/mcap_catalog_builder/targeted_summary.py:160-204 | the result is the one VerdictOnSection and FoundIsJustified describe; every read is inside the summary section and within the group budget |
| `TargetedSummary.SummaryMeans` | mcap_catalog/mcap_catalog_builder/targeted_summary.py:206-223 | a summary lists every channel exactly once as its last channel, schema and statistics records describe it, a channel without a count as zero |
| `TargetedSummary.VerdictOnSection` | mcap_catalog/mcap_catalog_builder/targeted_summary.py:195-223 | a section gives a summary if and only if it has statistics and at least as many distinct channel and schema ids as they claim; the summary has those statistics' totals and every channel once, as last described |
| `TargetedSummary.TargetedIsLinear` | mcap_catalog/mcap_catalog_builder/targeted_summary.py:101-223 | on a well-grouped file a summary is found if and only if the whole section has statistics and no fewer distinct channels and schemas than they claim, and it is that section's summary |
| `TargetedSummary.ReadSummaryTargeted` | mcap_catalog/mcap_catalog_builder/targeted_summary.py:101-223 | the result does not depend on the tail size but for the leading-magic check; a listing larger than the object is refused; reads stay in the two sections and within a byte budget, and a read that finds a summary fetches exactly the tail and what lies ahead of it |
| `SummaryLayout.FramesRoundTrip` | mcap_catalog/mcap_catalog_builder/targeted_summary.py:68-98 | the records of framed records are those records |
| `SummaryLayout.FooterRoundTrip` | mcap_catalog/mcap_catalog_builder/targeted_summary.py:119-129 | a written footer is read back behind any data |
| `SummaryLayout.FooterOnlyWhereWritten` | mcap_catalog/mcap_catalog_builder/targeted_summary.py:119-129 | a footer is read only from a file that ends in exactly those bytes |
| `SummaryLayout.LaidOutIsWellGrouped` | mcap_catalog/mcap_catalog_builder/targeted_summary.py:156-176 | records in groups of one opcode with an offset record for each are well grouped |
| `SummaryLayout.LaidOutFileIsRead` | mcap_catalog/mcap_catalog_builder/targeted_summary.py:101-223 | a file laid out by the format gives back the summary of the records written |
| `SummaryLayout.FoundIsJustified` | mcap_catalog/mcap_catalog_builder/targeted_summary.py:101-223 | for any bytes: "no summary" is said exactly of footers that say so, and a summary is found only behind sound offsets with every wanted group inside the section, and is that of the records read there |
| `SessionAggregation.SplitSegments` | plugin/toolbox_mcap_cloud/src/aggregate_sessions.h:52-65 | the find loop is the split at slashes |
| `SessionAggregation.ComputePartitionKey` | plugin/toolbox_mcap_cloud/src/aggregate_sessions.h:52-81 | the loop joins the segments that are neither date nor file name |
| `SessionAggregation.PlainPartition` | plugin/toolbox_mcap_cloud/src/aggregate_sessions.h:52-81 | without dates the partition is the directory, leading slashes aside |
| `SessionAggregation.DateDoesNotMatter` | plugin/toolbox_mcap_cloud/src/aggregate_sessions.h:52-81 | a date segment anywhere makes no difference |
| `SessionAggregation.HivePartition` | plugin/toolbox_mcap_cloud/src/aggregate_sessions.h:52-81 | a catalog key's partition is its first four dimensions |
| `SessionAggregation.SamePartitionIff` | plugin/toolbox_mcap_cloud/src/aggregate_sessions.h:52-81 | two catalog files share a partition if and only if those four dimensions agree |
| `SessionAggregation.SortKeeps` | plugin/toolbox_mcap_cloud/src/aggregate_sessions.h:97-102 | sorting permutes and orders |
| `SessionAggregation.OrderIsUnique` | plugin/toolbox_mcap_cloud/src/aggregate_sessions.h:97-102 | without ties any sort gives the same sequence |
| `SessionAggregation.Sweep` | plugin/toolbox_mcap_cloud/src/aggregate_sessions.h:103-126 | the one-pass loop yields one session per block, keys and span included |
| `SessionAggregation.BlocksCover` | plugin/toolbox_mcap_cloud/src/aggregate_sessions.h:103-126 | every file is in exactly one place: the blocks in turn are the sorted files |
| `SessionAggregation.BlocksAreOk` | plugin/toolbox_mcap_cloud/src/aggregate_sessions.h:103-126 | blocks are chained inside and separated by more than the threshold |
| `SessionAggregation.BlocksAreComponents` | plugin/toolbox_mcap_cloud/src/aggregate_sessions.h:103-126 | in one sorted bucket two files share a block if and only if a chain of gaps within the threshold connects them |
| `SessionAggregation.SpanHolds` | plugin/toolbox_mcap_cloud/src/aggregate_sessions.h:114-126 | a session's span holds each of its files |
| `SessionAggregation.SpanReached` | plugin/toolbox_mcap_cloud/src/aggregate_sessions.h:114-126 | and begins and ends with one of them |
| `SessionAggregation.BucketFiles` | plugin/toolbox_mcap_cloud/src/aggregate_sessions.h:90-93 | each bucket is the files of its partition in input order |
| `SessionAggregation.AggregateSessions` | plugin/toolbox_mcap_cloud/src/aggregate_sessions.h:87-136 | all sessions of all partitions ordered by start and partition; each names its files in order of start and key, their partition and the least span over them; every input file is in exactly one of them, and two files share one if and only if they have one partition and a chain of gaps within the threshold |
| `SessionAggregation.EveryKeyOnce` | plugin/toolbox_mcap_cloud/src/aggregate_sessions.h:87-136 | for every threshold the keys of all sessions are a permutation of the input keys |
| `SessionAggregation.SessionsAreComponents` | plugin/toolbox_mcap_cloud/src/aggregate_sessions.h:87-136 | the sessions of the result are the connected components of the partitions |
| `SessionAggregation.InputOrderDoesNotMatter` | plugin/toolbox_mcap_cloud/src/aggregate_sessions.h:87-136 | permuting the input changes nothing |
| `SessionAggregation.SplitsOnlyOnPositiveGapIff` | plugin/toolbox_mcap_cloud/src/aggregate_sessions.h:83-113 | only positive gaps split if and only if the threshold is not negative |
| `SessionAggregation.NegativeThresholdSplitsTwins` | plugin/toolbox_mcap_cloud/src/aggregate_sessions.h:83-113 | under any negative threshold two files with equal stamps are split |
| `SessionAggregation.SplitIsTrueGapIff` | plugin/toolbox_mcap_cloud/src/aggregate_sessions.h:106-122 | the sweep never splits without a gap, and misses one exactly when everything before ends below time zero and the file starts within the threshold |
| `SessionAggregation.GapCanBeMissed` | plugin/toolbox_mcap_cloud/src/aggregate_sessions.h:106-122 | two files before time zero with a gap four times the threshold share a session |
| `LeaseMachine.RunKeeps` | plugin/toolbox_mcap_cloud/src/import_runtime.hpp:216-249 | locks, ticket, artifact and every thread agree after every interleaving of tees, queries, serves and other processes |
| `LeaseMachine.RetainedArtifactIsPinned` | plugin/toolbox_mcap_cloud/src/import_runtime.hpp:216-249 | a retained identity has its shared lock and a whole artifact, and no step of anyone changes that artifact |
| `LeaseMachine.PinnedThroughout` | plugin/toolbox_mcap_cloud/src/import_runtime.hpp:216-249 | while the references never run out the artifact is the same from one state to any later one |
| `LeaseMachine.PublishedIsNew` | plugin/toolbox_mcap_cloud/src/import_runtime.cpp:787-876 | an artifact that appears is of a generation that no artifact before it had |
| `LeaseMachine.ReferencesAreConserved` | plugin/toolbox_mcap_cloud/src/import_runtime.cpp:280-380 | every step conserves the references of registry, tee and callers' tokens together, but for exactly these: a retain, an adoption without a token and a tee that owes one add; a lost token and a restore given up take away |
| `LeaseMachine.TicketLeavesSettled` | plugin/toolbox_mcap_cloud/src/import_runtime.cpp:883-931 | the materialize ticket leaves only from its own tee, with no lock held and nothing owed |
| `LeaseCycles.CanMaterialize` | plugin/toolbox_mcap_cloud/src/import_runtime.cpp:447-876 | from every reachable state in which nobody else holds a lock a materialization can replace the artifact and leave every reference there was, merged tokens included and at least one, on the new one |
| `LeaseCycles.FailureCanRestore` | plugin/toolbox_mcap_cloud/src/import_runtime.cpp:883-931 | one that fails under its lock can put every reference back onto a whole artifact; a damaged one is removed and its references are lost |
| `LeaseCycles.EvictedIsNotAdopted` | plugin/toolbox_mcap_cloud/src/import_runtime.cpp:831-876 | an artifact evicted between the exclusive and the shared lock is noticed: no reference is left on it |
| `LeaseCycles.LockedIsNotAdopted` | plugin/toolbox_mcap_cloud/src/import_runtime.cpp:831-876 | nor is one adopted that another process has locked in between; what is owed is kept |
| `LeaseCycles.ReaderRetains` | plugin/toolbox_mcap_cloud/src/import_runtime.cpp:294-345 | a reader retains a whole, unlocked artifact as often as it asks and at least once, and leaves no lock of its own |
| `LeaseCycles.CallerTakesAll` | plugin/toolbox_mcap_cloud/src/import_runtime.cpp:347-356 | a drop hands every reference to the caller and lets the lock go |
| `LeaseCycles.CallerRestores` | plugin/toolbox_mcap_cloud/src/import_runtime.cpp:358-380 | any part of them goes back onto a whole artifact, and nowhere else |
| `LeaseRegistry.Registry.TryBegin` | plugin/toolbox_mcap_cloud/src/import_runtime.cpp:201-209 | granted exactly when no ticket for the identity is out |
| `LeaseRegistry.Registry.EndMaterialize` | plugin/toolbox_mcap_cloud/src/import_runtime.cpp:405-408 | frees that identity only |
| `LeaseRegistry.Registry.Insert` | plugin/toolbox_mcap_cloud/src/import_runtime.cpp:280-288 | references add up; creation is reported exactly for a new entry |
| `LeaseRegistry.Registry.Drop` | plugin/toolbox_mcap_cloud/src/import_runtime.cpp:347-356 | all references leave at once and are reported exactly |
| `LeaseRegistry.Registry.Restore` | plugin/toolbox_mcap_cloud/src/import_runtime.cpp:358-380 | restores exactly when one of the bounded attempts acquires, and then adds exactly the owed references |
| `LeaseRegistry.Token.RestoreNow` | plugin/toolbox_mcap_cloud/src/import_runtime.hpp:320-326 | the obligation moves back to the registry once; the token is empty either way |
| `LeaseRegistry.Token.Dismiss` | plugin/toolbox_mcap_cloud/src/import_runtime.hpp:328-331 | nothing is owed any more |
| `LeaseRegistry.Token.MoveFrom` | plugin/toolbox_mcap_cloud/src/import_runtime.hpp:285-295 | a move restores what this token owed, exactly when an attempt acquires, and takes over the other's obligation whole; a self-move changes nothing |
| `LeaseRegistry.Token.Merge` | plugin/toolbox_mcap_cloud/src/import_runtime.hpp:303-317 | a merge conserves what both tokens owe |
| `LeaseRegistry.Token.EnsureRestoresAtLeastOne` | plugin/toolbox_mcap_cloud/src/import_runtime.hpp:334-340 | an empty token owes one, any other keeps its count |
| `LeaseRegistry.DropScoped` | plugin/toolbox_mcap_cloud/src/import_runtime.cpp:393-398 | what leaves the registry is what the token owes |
| `LeaseRegistry.DropMoveMergeRestore` | plugin/toolbox_mcap_cloud/src/import_runtime.hpp:275-348 | drop, hand-off and restore together change no identity's references |
| `AdmissionGate.Gate.Arrive` | plugin/toolbox_mcap_cloud/src/import_runtime.cpp:231-239 | in at once exactly when the gate is open, else last in line |
| `AdmissionGate.Gate.Wake` | plugin/toolbox_mcap_cloud/src/import_runtime.cpp:240-262 | a grant beats a cancel; a cancel leaves the line without a grant; the order of the others is kept |
| `AdmissionGate.Gate.Release` | plugin/toolbox_mcap_cloud/src/import_runtime.cpp:265-275 | the gate passes straight to the first in line, so nobody barges, or opens |
| `AdmissionGate.CancelRemoves` | plugin/toolbox_mcap_cloud/src/import_runtime.cpp:245-261 | admissions stay first come first served among the uncancelled when a waiter leaves |
| `CacheTee.Tee.constructor` | plugin/toolbox_mcap_cloud/src/import_runtime.cpp:546-647 | starts empty and running |
| `CacheTee.Tee.Enqueue` | plugin/toolbox_mcap_cloud/src/import_runtime.cpp:649-672 | accepts in order within the bounds, and refuses exactly when closed, failed, aborted or not running |
| `CacheTee.Tee.RequestAbort` | plugin/toolbox_mcap_cloud/src/import_runtime.cpp:674-681 | an abort is latched |
| `CacheTee.Tee.Take` | plugin/toolbox_mcap_cloud/src/import_runtime.cpp:697-716 | the writer leaves on failure, abort or a drained close, else takes the front |
| `CacheTee.Tee.Write` | plugin/toolbox_mcap_cloud/src/import_runtime.cpp:717-733 | a success appends the taken message, a failure ends the thread with it unwritten |
| `CacheTee.Tee.Drained` | plugin/toolbox_mcap_cloud/src/import_runtime.cpp:745-785 | reports a clean close exactly without a failure, aborted or not; without an abort everything accepted was then written, in order |
| `CacheTee.Tee.CountCheck` | plugin/toolbox_mcap_cloud/src/session_file_cache.cpp:192-205 | comparing message and channel counts passes if and only if the known messages written are the known messages accepted |
| `CacheTee.Tee.FinishTee` | plugin/toolbox_mcap_cloud/src/fetch_worker.cpp:60-118 | a tee is finalized if and only if the download completed, nothing failed and every known message accepted is in the file |
| `CacheTee.AbortedPrefix` | plugin/toolbox_mcap_cloud/src/import_runtime.cpp:787-809 | after an abort the drain can report a clean close over a prefix that the count check refuses |
| `Publish.CarryForward` | mcap_catalog/mcap_catalog_builder/publish.py:147-231 | the new overrides are the old ones restricted to surviving files; no insert meets an existing row; each old row is counted once |
| `Publish.OverridesSurviveIff` | mcap_catalog/mcap_catalog_builder/publish.py:147-231 | an override survives if and only if its file, by name, does |
| `Publish.NotYetCarried` | mcap_catalog/mcap_catalog_builder/db.py:265-285 | two old rows never land on one new row |
| `Publish.CarriedIsAttached` | mcap_catalog/mcap_catalog_builder/publish.py:147-231 | every carried override belongs to a row of the new database |
| `Publish.GateKeepsView` | mcap_catalog/mcap_catalog_builder/publish.py:277-312 | no attempt of the gate changes what readers see, and a clean one leaves no frames |
| `Publish.Publisher.GateServed` | mcap_catalog/mcap_catalog_builder/publish.py:277-312 | the retry loop ends clean, broken or busy as specified |
| `Publish.GateEndsAs` | mcap_catalog/mcap_catalog_builder/publish.py:277-312 | the gate is clean, broken or busy exactly as its first attempt that is not busy says, and busy if and only if all are |
| `Publish.CrashSafeIff` | mcap_catalog/mcap_catalog_builder/publish.py:383-420 | at every crash point readers see the old or the new catalog if and only if the gate does not break on a readable database with frames of its own |
| `Publish.FramesCanBeLost` | mcap_catalog/mcap_catalog_builder/publish.py:383-420 | a run where the gate raises and committed frames are gone before the rename |
| `Publish.NeverTorn` | mcap_catalog/mcap_catalog_builder/publish.py:383-420 | no crash point pairs a main file with another generation's frames |
| `Publish.Publisher.Swap` | mcap_catalog/mcap_catalog_builder/publish.py:383-420 | ends with the new catalog, or with the unchanged old view if and only if the gate stays busy |
| `Publish.Publisher.BuildAndPublish` | mcap_catalog/mcap_catalog_builder/publish.py:323-423 | each outcome happens if and only if its step is the first to fail: build, stamp, clean temporary file, served database; every abort keeps the old view; a publish is what the build made of the seeded database, with a higher build id and exactly the surviving overrides, and is well-formed |
| `FullRebuild.ReconcileIsAGoodBuild` | mcap_catalog/mcap_catalog_builder/publish.py:234-275 | a finished reconcile of the seeded database stamps above the seed and brings no override of its own |
| `FullRebuild.SeededRebuildIsTheBucket` | mcap_catalog/mcap_catalog_builder/reconcile.py:158-349 | seeding the build id changes nothing about what a rebuild says |
| `FullRebuild.RebuildAndPublish` | mcap_catalog/mcap_catalog_builder/publish.py:323-423 | reconcile and publish together: a listing that is not exhausted, or a stop, fails the build; without a stop the outcome is exactly what the temporary file and the served database allow; the view stays unless published; then the id is above the old one, overrides survive with their files, and over a steady bucket the catalog is that bucket |
| `EventTier.TranslateBody` | mcap_catalog/mcap_catalog_builder/s3_producer.py:163-190 | all relevant records of a well-formed body in order, or a refusal of the whole |
| `EventTier.PairsAreWhatIsAsked` | mcap_catalog/mcap_catalog_builder/s3_producer.py:163-190 | a create or delete pair is handed on if and only if some record asks for that key |
| `EventTier.PairsInOrder` | mcap_catalog/mcap_catalog_builder/s3_producer.py:163-190 | in the order of the records |
| `EventTier.ProcessMessage` | mcap_catalog/mcap_catalog_builder/s3_producer.py:268-292 | a malformed body is never deleted, an irrelevant one at once, any other is handed on whole |
| `EventTier.RunKeeps` | mcap_catalog/mcap_catalog_builder/s3_producer.py:51-76 | batch countdowns equal their uncounted records after every interleaving |
| `EventTier.AckSafety` | mcap_catalog/mcap_catalog_builder/__main__.py:378-410 | a message is deleted at most once, and only after each of its records was finished as committed in the run so far |
| `EventTier.RaisedKeepsMessage` | mcap_catalog/mcap_catalog_builder/__main__.py:398-410 | a record whose handling raised keeps its message: it is neither acknowledged nor deleted |
| `EventTier.NothingIsStuck` | mcap_catalog/mcap_catalog_builder/__main__.py:378-410 | from every reachable state a message none of whose records failed can still be brought to its deletion |
| `EventTier.ClampsNeverAct` | mcap_catalog/mcap_catalog_builder/s3_producer.py:88-143 | the gate's counters are exact, so no clamp at zero and no double-count guard ever acts |
| `ShardedListing.ShardsPartitionKeys` | mcap_catalog/mcap_catalog_builder/s3_storage.py:206-222 | a key is listed by the root or by exactly one shard |
| `ShardedListing.RunKeeps` | mcap_catalog/mcap_catalog_builder/s3_storage.py:195-303 | root loop, producers and consumer agree after every interleaving; a producer that left its loop on a stop never gets to its end marker |
| `ShardedListing.ListingIsCompleteOrStopped` | mcap_catalog/mcap_catalog_builder/s3_storage.py:195-303 | also while objects come and go: at no time was a key yielded twice, or one that is not an .mcap key under the prefix there at some time; a listing that ends by itself yielded every such key that was there throughout; one that ends early raised or leaves the stop set |
| `ShardedListing.ListingIsTheBucket` | mcap_catalog/mcap_catalog_builder/s3_storage.py:195-303 | over a bucket that stays as it is, an exhausted listing is exactly its .mcap keys under the prefix, each once |
| `ShardedProgress.RaisedMeansFailed` | mcap_catalog/mcap_catalog_builder/s3_storage.py:195-303 | a listing raises only if a request failed |
| `ShardedProgress.FailureIsNotPassedOver` | mcap_catalog/mcap_catalog_builder/s3_storage.py:232-262 | once a producer has met an error no continuation ends as if the listing were whole |
| `ShardedProgress.FailureCanRaise` | mcap_catalog/mcap_catalog_builder/s3_storage.py:256-286 | and the error can be brought up to the caller |
| `ShardedProgress.StopEnds` | mcap_catalog/mcap_catalog_builder/s3_storage.py:206-286 | a listing that is stopped can end at its next look, and then as stopped |
| `ShardedProgress.ListingCanExhaust` | mcap_catalog/mcap_catalog_builder/s3_storage.py:195-303 | from every reachable state without a failure or a stop the listing can be brought to its end |
| `PagedListing.PageContinues` | plugin/toolbox_mcap_cloud/src/backend_connection.cpp:592-615 | a page continues exactly where the ones before it ended, within one generation, and the last one completes the listing |
| `PagedListing.WentOneWay` | plugin/toolbox_mcap_cloud/src/backend_connection.cpp:528-616 | server and caller alone decide how an attempt goes and after how many pages it ends |
| `PagedListing.SteadyIsExhausted` | plugin/toolbox_mcap_cloud/src/backend_connection.cpp:528-616 | a server that serves throughout from one generation is listed whole |
| `PagedListing.Backend.ListOnce` | plugin/toolbox_mcap_cloud/src/backend_connection.cpp:528-616 | pages come from one generation, the filter's if there is one, and make up its listing, unless a request first meets a supersession or no page (given up) or another generation (stale); what is in hand is where the listing begins |
| `PagedListing.Backend.ListSequences` | plugin/toolbox_mcap_cloud/src/backend_connection.cpp:495-636 | complete if and only if the last attempt was exhausted, stale vocabulary if and only if a filtered one went stale; every attempt but the last went stale, three at most, one with a filter; a complete result is one generation's whole listing, held by consumer and index alike; otherwise the index is untouched |
| `PagedListing.Gate.ListFiltered` | plugin/toolbox_mcap_cloud/src/fetch_worker.cpp:512-613 | exactly one terminal result on every path after at most two resolutions, each error if and only if supersession, connection, vocabulary, selection and listing decide so; a good one is the whole listing of the generation the selection resolved in; otherwise the index is the old one or that of such a listing |

## Left out

- Sockets, TLS, protobuf, compression, S3 and SQS clients, SQLite's own machinery: their results are parameters.
- The plugin's dialogs and widgets, the server's query planner and HTTP side, authentication: no shared-state law beyond what is modelled.
- SHA-256 topic-set fingerprints: the set itself is the key, so collisions do not exist in the model.
- SQLite row ids: ids only grow in the model, whereas SQLite may give the largest deleted id again.
- Builder: no key override by a local directory source, and object keys have no leading slash where identity matters (`Canonical`).
- Tags: `derive_tags` returns none, so no row depends on them; `update_tags` writes override rows only, which the model takes as given; schema-version guards stop a process before any of this state is touched.
- FullReconcile: does not sweep failure entries of unlisted keys, because the code does not either; the text of a failure is opaque.
- CatalogIsAFunctionOfTheBucket: compares etag and content, not size and time stamp, of a file that was skipped, because the code keeps the stored ones.
- ReplayChangesNothing: does not cover a create event for an object that is gone followed by a delete event, because the first does nothing there and the second does the work.
- ReadSummaryTargeted: requires a tail of at least a footer (37 bytes); the streamed fallback that follows a refusal is not modelled.
- TargetedSummary.Reader: record bodies are read by an arbitrary function of opcode and declared payload; field layouts inside a record are not modelled.
- TargetedIsLinear: requires the offsets section to list aligned and complete groups, which is what the format asks of a writer; a file that lies about its groups is outside it.
- CompleteMeansAllIff: for streams without empty batches, the only ones the producer flushes, and for a wire that does not tamper; the tampered wire is covered by DeliveryIsAPrefix.
- DownloadResumable: time appears as which checks find a deadline passed; the fault-injection drop is one of the drops a leg may see.
- Liveness: the progress results say that a good end can be reached from every such state, not that the scheduler gets there, nor when.
- RetainBuffer.Buffer.Append: one look of the wait loop; the wake-ups themselves are not modelled.
- LeaseMachine: one identity; a restore may be given up, as the code may, and then its references are lost; the tokens callers hold are counted together.
- Token.Merge: requires both tokens to be about one identity, as the class comment demands.
- CacheTee: file contents are the messages written; the MCAP writer's bytes are not modelled.
- AggregateSessions: 64-bit overflow of a time difference is not modelled.
- SessionsAreComponents: for distinct keys, spans that start at or after zero and do not end before they start, and a threshold that is not negative; the exact failures outside are the two lemmas on splitting.
- ShardedListing: the bound on queued pages only delays a producer and is not modelled; the consumer may take from the shards' queues in any order, which includes the order of the one shared queue; a consumer that abandons the generator uses none of it and is not modelled.
- ListingIsCompleteOrStopped: rests on what the store promises of its listings (`Answers`): each key and each first-level prefix once, and every key that is there throughout.
- ReconcileKeepsFaithful: requires that an object that can be read is the one listed; an overwrite between the listing and the read is outside it, because the code reads without a condition on the etag.
- ListFiltered: error texts are an enumeration.
- ListSequences: a call without a socket, which returns nothing at once, is not modelled.
- The audit coordinator's scheduling and the sessions' expiry timers.
