# Verified model of Nexspence's background services

This project models, in Dafny, the services of Nexspence that work behind the HTTP layer and proves what they are
supposed to keep. The database, Redis and the blob stores are maps in the state; one repository call, and one
transaction or section under a row or key lock, is one atomic step. Where the source changes objects in place the model
is a class whose methods do the same; where several processes interleave it is a state machine, and the theorems are
about every run of it.

| file | what it models |
|---|---|
| `AutoQueue.dfy` | the durable queue of automatic promotions: publishes, claims with leases and tokens, generations |
| `PromotionRequests.dfy` | the request machine: row lock, copy, commit, and the index of pending automatic requests |
| `PromotionGates.dfy`, `PromotionFlow.dfy` | which rule covers a component, the scan gate; on top of both machines, the worker and the operations people call |
| `OciExpansion.dfy`, `OciOrder.dfy` | the closure of a Docker/OCI image over manifest references; which mention of a blob decides |
| `PromotionCopy.dfy` | the copy plan, the copy, and its compensating rollback |
| `BlobWorld.dfy` | uploads, mounts, deletes, migrations and collections, in the pieces in which they interleave, on one set of rows and objects |
| `BlobSafety.dfy`, `BlobSchedule.dfy` | on that: which steps can take a row's bytes, and that none does where actors take turns |
| `BlobBooks.dfy`, `BlobLedger.dfy` | on that: which steps put used_bytes wrong, and that none does where sizes are true |
| `BlobMigration.dfy`, `CleanupRun.dfy`, `BlobGc.dfy` | a whole migration, a whole cleanup run, a whole collection |
| `Blobs.dfy`, `Prelude.dfy` | what the others share |
| `DistLock.dfy`, `CronSlots.dfy` | the Redis token lock with the deadline discipline; one run per cron slot |
| `NexusGroups.dfy`, `NexusRoles.dfy`, `ManifestTransfer.dfy` | the graphs of a Nexus migration |
| `Backup.dfy`, `BackupRestore.dfy`, `RestoreRules.dfy` | export of an instance, its restore under new ids, and what a restore overwrites |
| `CanonicalPath.dfy` | path canonicalisation and routing rules |
| `AuthCache.dfy` | the cache of verified basic-auth credentials |

`dafny verify dfyconfig.toml` checks everything.

## What the proofs assume

- One repository call is atomic, and it does what `internal/repository/interfaces.go` and the SQL behind it say. Where
  the comments leave a question open the SQL decides: filing an automatic request again keeps the later of the two
  publish times (`internal/repository/postgres/promotion_repo.go:173-202`), and deleting a rule or a component deletes
  its queue rows and requests (`internal/db/migrations/038_promotion_auto.sql:42-43`,
  `internal/db/migrations/019_promotion.sql:17-18`).
- In `BlobWorld` a registration (its look at the earlier row, its count of others, its upsert and its charge) is one
  step, and so is a delete, a mount or a flip under its key's lock. A registration of the same path that falls between
  a delete's count and its row delete ends as one that comes before the delete (the upsert keeps the row's id, so the
  row goes too); one that falls between the row delete and the removal of the object ends as one that comes right after
  the delete. The runs have both.
- A migration takes a source of the same length for an unchanged one, before it charges its copy and before it flips
  (`internal/service/blob_store_migration_service.go:373-380`, 434-440). No row is left without bytes for that, but the
  flip may give it the bytes it had when it was copied: `FlippedRowReadsItsBytesExactly`.
- Stores of different id are physically distinct in `BlobWorld` and what builds on it. A migration compares ids only
  (`internal/service/blob_store_migration_service.go:91`), so the code does not establish this. `BlobGc` does not need it,
  but needs stores in one place to be recognised as such by their configuration (`StoresOk`).
- Within one call of `PromotionFlow` a failing call fails however often it is made (`World.down`), but for the inserts
  and settlements of a batch, which fail place by place (`Promote`).
- The manifests under the digest paths the component's own tags name can be read and hold content of that digest
  (`DigestsFaithful`; only the closure of a plan needs it).
- The blob key of a path is injective in the path (`Injective`).
- The MAC of the credential cache is injective.
- A page of a listing is read from one fixed order. (Components are ordered by name and version only, so the database
  may order ties differently from page to page.)

## Where the code differs from its comments or from what one might expect

- Role cycles: the comment at `internal/service/nexus_migration_service.go:1738` and the log line at 1662 say a cyclic
  role keeps only its own privileges. The pass still unions what is already gathered: `CyclicRolesInheritUnevenly`. What a role
  really gets is `PrivilegesExactly`.
- The deadline of a locked job is stamped after the lock is acquired, so exclusion holds up to that gap only, and no gap
  is small enough: `AtMostOnePasses`, `AnyGapOverlaps`.
- A migration trusts an object already in the target. With a copy left by an earlier failed flip, rows are given old
  bytes: `MigratedRowsKeepTheirBytes` is the exact condition, `SecondRunServesStaleBytes` the input.
- A rollback passes over the errors of its deletes, and runs on the context of the call that failed. The target is
  compensated exactly when none of them fails (`RollbackCompensates`); a client that goes away leaves rows whose bytes
  a local store deletes all the same (`FreshRowDanglesExactly`, `CancelledCopyLeavesRowsWithoutBytes`).
- The rollback deletes fresh keys without counting references: bytes are safe from every failing copy exactly under the
  keys that are not a fresh path's (`SurvivorsKeepTheirBytesExactly`; `SharedFreshKeyDangles` is the input).
- An asset whose row carries no SHA-256 is copied again by every automatic promotion: `PromotingAgainCopiesNothing` is
  exact, `UnhashedIsCopiedAgain` the input.
- A refusal whose call to fail the pending request does not get through is logged, and the row is finished all the same:
  `Block` says exactly when the refusal is on record. When it is not, the earlier request can still be approved and
  copies the content that was refused: `RefusedContentIsPromoted`.
- A batch is judged as a whole before its first request exists, but a request that cannot be filed ends the call with
  the earlier ones already promoted: `Promote` is exact, `HalfABatchStaysPromoted` the input.
- A copy whose settlement cannot be written has moved its bytes and leaves its request pending; the worker then finishes
  the row: `Unsettled` in `ProcessAutoEntry`, `lost` in `Approve`.
- A layer excused as foreign by one manifest stays excused when a later manifest names it as an ordinary layer, so the
  order of an index's children decides whether the image expands: `FirstMentionDecides` is exact over the whole walk,
  `ExpansionDependsOnOrder` the input, and `BlobCarriedExactly` says what a returned plan is sure to carry.
- Uploads lock their key only where overwriting is forbidden (`internal/formats/base/write_policy.go:130-155`), so a
  delete, a flip or a collection can take the object between its write and its registration:
  `BlobSafety.SafeStep` says exactly which step is to blame, and `UploadRacesDelete`, `UploadRacesFlip` and
  `CollectionTakesNewBytes` are the inputs. Where uploads hold the lock or have their key to themselves, and nobody
  writes where a migration copies to, no run without collections takes a row's bytes (`BlobSchedule.NoRowLosesItsBytes`),
  and none with collections does if writes and passes are quick for the grace period (`RowsOutliveCollections`); a
  resumed migration is outside the latter (`ResumedFlipFeedsTheCollector`).
- A client's overwrite of the same length, between a migration's copy and its flip, is lost: `SameLengthOverwriteIsLost`.
- `usageDelta` takes a key that any row names for one already counted, since "shared keys live in one store by
  construction" (`internal/formats/base/store.go:547-550`). A mounted key uploaded again after its repository changed
  stores lies in two, and the new bytes are not counted: `MountedKeyGoesUncounted`. An upload that overwrites and is then
  refused, withdrawn or not registered leaves the counter wrong too: `UploadChargesExactly` is exact. Without these the
  counters are right over every run: `BlobLedger.UsedBytesConserved`.
- An export deduplicates by key alone, so it is faithful exactly when no two contents share a key: `Export`. The same
  mount and upload give one key two contents (`MountThenReuploadSplitsTheKey`), and the export then gives an asset
  another's bytes and reports nothing missing (`SplitKeyIsArchivedWrong`).
- The comment of `Restore` says that existing records are skipped (`internal/service/backup_import.go:393-395`). Stores
  and repositories are; a component or asset that is there is overwritten exactly when an archived one of its release
  or path is written, and an object exactly when the archive has bytes that can be written to its place, though the row
  be refused: `Restore` is exact, `ExistingRecordsAreOverwritten` the run.
- The worker judges the scan of the latest publish before it files, and not again when it copies. A publish that lands in
  between is copied unscanned (`UnscannedPublishIsCopied`), and then evaluated again (`PublishMeanwhileIsEvaluatedAgain`).
- A run started by hand just before the minute takes the place of the scheduled one, and a tick that is a whole minute
  late runs its slot again: `ManualRunTakesTheSlot`, `LateTickRunsAgain`. A slot runs twice otherwise only if a node was
  without the lock between its look and its record, or a look or a record failed (`OneRunPerSlot`), and each of these does
  it: `LapsedLockRunsTwice`, `UnreachableLockRunsTwice`, `FailedLookRunsTwice`, `LostRecordRunsTwice`.
- A BLOCK rule that refuses the spelling with a trailing slash does not refuse the one without:
  `RefusedSlashDoesNotRefuseTheName`. The other direction holds for every spelling.

## Model

| member | source | states |
|---|---|---|
| `AutoQueue.NoPublishIsLost` | internal/repository/postgres/auto_promotion_queue_repo.go:55-144 | over every run of any number of replicas and deletions, a recorded publish is still queued, or was claimed after it was recorded and finished under that claim, or its rule or component was deleted since; a queued row knows its latest publish still to be evaluated |
| `AutoQueue.OnlyTheHolderRemoves` | internal/repository/interfaces.go:418-450 | a row disappears only when the holder of its current claim finishes it and no publish came since that claim, or with its rule or component |
| `AutoQueue.StaleWorkerChangesNothing` | internal/service/promotion_auto.go:525-542 | once the pair has been claimed again, an earlier worker's Finish and Retry leave the queue exactly as it was |
| `AutoQueue.OneHolderPerLease` | internal/repository/postgres/auto_promotion_queue_repo.go:78-134 | of two claims of one pair the first was given back in between or its lease had run out |
| `PromotionRequests.CopiedAtMostOnce` | internal/repository/postgres/promotion_repo.go:160-295 | over every interleaving, a request is copied as often as its commits failed or once more: exactly once more when it completed, never more when rejected or pending |
| `PromotionRequests.TerminalForever` | internal/repository/interfaces.go:395-415 | a settled request keeps its status, error and everything else through any later steps, and is there exactly until its rule or component is deleted |
| `PromotionRequests.AutoPendingUnique` | internal/repository/postgres/promotion_repo.go:173-216 | at most one automatic request per rule and component is pending, and none right after a refusal |
| `PromotionRequests.RefilingMovesPublishForward` | internal/repository/postgres/promotion_repo.go:173-202 | filing while one is pending adds no request and never takes its publish time back |
| `PromotionGates.NoSiblingRuleApplies` | internal/service/promotion_service.go:152-177 | passes exactly when no other rule between the two repositories can match the component |
| `PromotionGates.RuleAppliesTo` | internal/service/promotion_service.go:125-140 | passes exactly when the rule covers the component and is the only one that does |
| `PromotionGates.ScanGate` | internal/service/promotion_service.go:326-346 | passes exactly when the rule asks for no scan or the scan has none of the findings the rule fails on |
| `PromotionGates.OneRuleDecides` | internal/service/promotion_service.go:112-177 | of all rules between two repositories at most one ever covers a component; two that match are both refused |
| `PromotionFlow.OpenApprovalMeansAllEvaluated` | internal/service/promotion_service.go:485-519 | whenever the approval gate opens in a reachable state, every publish ever recorded for the pair was evaluated by a claim made after it, or its rule or component was deleted since |
| `PromotionFlow.AutoBackoff` | internal/service/promotion_auto.go:604-613 | the delay is the base doubled once per attempt, cut at the maximum |
| `PromotionFlow.ScanRecheck` | internal/service/promotion_auto.go:592-601 | the recheck stays within its bounds and is half of what was waited in between |
| `PromotionFlow.PromotionService.ExecuteCopy` | internal/service/promotion_service.go:555-666 | every gate is judged again at copy time: the copy succeeds exactly when all hold and the bytes arrive |
| `PromotionFlow.PromotionService.AutoApprovalGate` | internal/service/promotion_service.go:496-519 | open exactly when no newer publish is queued, as far as there is a queue and it can be read, and a passed scan looked at the published content, where the rule asks for one and the publish time is known |
| `PromotionFlow.PromotionService.Approve` | internal/service/promotion_service.go:446-483 | completed exactly when the rule exists, the gate is open, the copy goes through and the settlement is written; pending still exactly when the gate is closed or the settlement is not written; one copy at most; only steps of the request machine |
| `PromotionFlow.PromotionService.Reject` | internal/service/promotion_service.go:524-535 | settles exactly a pending request, if that can be written, and copies nothing |
| `PromotionFlow.PromotionService.Promote` | internal/service/promotion_service.go:349-440 | a batch with one component that does not pass leaves no request; otherwise one request each, in order, with its exact outcome, up to the first that cannot be filed: all-or-nothing exactly when that is the first of the batch or there is none |
| `PromotionFlow.HalfABatchStaysPromoted` | internal/service/promotion_service.go:385-400 | a batch that fails at its second request, with the first component promoted |
| `PromotionFlow.PromotionService.AwaitScan` | internal/service/promotion_auto.go:403-437 | waits exactly while a scan of the latest publish can still come, and otherwise goes on or refuses |
| `PromotionFlow.PromotionService.Screen` | internal/service/promotion_auto.go:308-341 | goes on exactly when every gate of the rule holds for the latest publish; drops exactly what the filter does not match; waits and settles exactly when it must |
| `PromotionFlow.PromotionService.FileAndCopy` | internal/service/promotion_auto.go:343-471 | files, or files and copies, exactly when the target exists, something is missing there and the request can be filed; drops the row exactly when nothing is missing |
| `PromotionFlow.PromotionService.Block` | internal/service/promotion_auto.go:481-511 | finishes the row in any case; the refusal shows as one failed automatic request, with none of the pair pending and no other touched, exactly when the one call that records it works |
| `PromotionFlow.RefusalRecordedExactly` | internal/service/promotion_auto.go:484-505 | that call is the one that fails the pending request if there is one, and otherwise the insert; when it fails, a pending request stays as it was, whatever else is written |
| `PromotionFlow.RefusedContentIsPromoted` | internal/service/promotion_auto.go:476-511 | content that was never scanned is refused, the pending request cannot be failed, and its approval copies that content |
| `PromotionFlow.PromotionService.RetryTransient` | internal/service/promotion_auto.go:516-536 | backs off within bounds while attempts are left, and refuses after the last |
| `PromotionFlow.PromotionService.ProcessAutoEntry` | internal/service/promotion_auto.go:274-387 | one evaluation files or copies exactly when every gate holds for the latest publish it was claimed with and the request can be filed, drops the row exactly when there is nothing to promote, and makes exactly one queue call, whatever others do to the queue meanwhile; what it leaves on the desk is exact in every case, failing calls and a world that has changed by the time of the copy included |
| `PromotionFlow.UnchangedWorldCopies` | internal/service/promotion_auto.go:441-471 | if nothing changes between the gates and the copy, the copy fails only if the bytes do |
| `PromotionFlow.PublishMeanwhileIsEvaluatedAgain` | internal/repository/postgres/auto_promotion_queue_repo.go:55-144 | a publish recorded after a claim keeps the row queued through that claim's Finish |
| `PromotionFlow.UnscannedPublishIsCopied` | internal/service/promotion_auto.go:441-471 | a publish between the gates and the copy is copied under the scan of the one before it, and stays queued |
| `OciExpansion.SplitManifestPath` | internal/service/promotion_oci.go:84-104 | what it splits a path into gives the path back |
| `OciExpansion.SplitOfManifestPath` | internal/service/promotion_oci.go:84-104 | and every manifest path splits into the image and reference it was made of |
| `OciExpansion.ImageExpansion.AddBlob` | internal/service/promotion_oci.go:225-249 | the blob is in the plan, or absent and foreign; otherwise the refusal names a real defect |
| `OciExpansion.ImageExpansion.AddChildManifest` | internal/service/promotion_oci.go:251-277 | the child and all below it are in the plan, at any depth up to the limit; ends on cyclic sources |
| `OciExpansion.ImageExpansion.AddReferences` | internal/service/promotion_oci.go:196-223 | everything the manifest names is in the plan |
| `OciExpansion.ImageExpansion.AddAlias` | internal/service/promotion_oci.go:169-193 | a tag's digest path is in the plan, made up from the tag when the source has no row for it |
| `OciExpansion.ExpandImage` | internal/service/promotion_oci.go:119-149 | on success, and where the component's own digest paths hold what they say, the component's assets plus the returned units are closed under references; they hold no path twice, nothing that is not asked for by something before it, and only genuine rows or aliases; a refusal names a real defect |
| `OciExpansion.BlobCarriedExactly` | internal/service/promotion_oci.go:225-249 | in a returned plan a named blob is carried exactly when it is stored at all; one that is not is given urls by some manifest of the plan |
| `OciOrder.FirstMentionDecides` | internal/service/promotion_oci.go:196-277 | over a whole image: where nothing else is wrong it expands exactly when every blob that is not stored, and is named without urls, was named with urls earlier in the depth-first order of manifests, blobs and children; otherwise a blob is missing |
| `OciExpansion.ExpansionDependsOnOrder` | internal/service/promotion_oci.go:196-277 | an index of two children that expands in one order and is refused in the other |
| `PromotionCopy.MissingInTarget` | internal/service/promotion_service.go:765-779 | the assets, in order, whose path the target lacks or holds with another or no hash |
| `PromotionCopy.PlanCopy` | internal/service/promotion_service.go:696-742 | of each unit, in its order, exactly the assets the target lacks or, by hand, all of them, and no side file automatically; the planned paths are exactly those |
| `PromotionCopy.Copier.CopyAsset` | internal/service/promotion_service.go:782-834 | wherever it stops, the rollback lists account for everything written; on success the target holds the source's hash and bytes |
| `PromotionCopy.Copier.ExecuteCopy` | internal/service/promotion_service.go:600-666 | success: every planned path is held with the source's hash and bytes, and no other row moved; failure at any point: compensated exactly when no delete of the rollback failed |
| `PromotionCopy.RollbackCompensates` | internal/service/promotion_service.go:746-759 | no fresh row, component or blob is left, every earlier row is, and every earlier component that held an asset, exactly when no delete of the rollback fails |
| `PromotionCopy.FreshRowDanglesExactly` | internal/service/promotion_service.go:746-759 | a fresh row is left exactly when its delete fails, and without its bytes exactly when that of its blob does not |
| `PromotionCopy.CancelledCopyLeavesRowsWithoutBytes` | internal/service/promotion_service.go:593-598 | a copy that fails with its context gone, and what its rollback leaves |
| `PromotionCopy.SurvivorsKeepTheirBytesExactly` | internal/service/promotion_service.go:746-759 | the bytes under a key stay through every failing copy of a plan exactly when the key is not that of a planned path the target lacks |
| `PromotionCopy.SharedFreshKeyDangles` | internal/service/promotion_service.go:746-759 | in every target where a row is filed under the key of a path it lacks, a failing copy of that path takes the row's bytes |
| `PromotionCopy.PromotingAgainCopiesNothing` | internal/service/promotion_service.go:669-779 | a second automatic copy has nothing to do exactly when every file recorded a hash |
| `PromotionCopy.UnhashedIsCopiedAgain` | internal/service/promotion_service.go:765-779 | an asset that recorded none, planned again from the target that holds it |
| `BlobSafety.SafeStep` | internal/formats/base/store.go:154-222 | a step leaves some row without its bytes exactly when it registers an object or flips to one that is gone, or deletes without asking at a place a row names; no other step ever does |
| `BlobSchedule.NoRowLosesItsBytes` | internal/formats/base/write_policy.go:123-155 | over every interleaving of uploads that hold their key's lock or have the key to themselves, mounts, deletes, and migrations whose target place nobody else writes, no row is ever without its bytes |
| `BlobSchedule.RowsOutliveCollections` | internal/service/gc_service.go:248-283 | and with collections neither, if no write is in flight for longer than a delay, a pass deletes within a span and only what it listed, and the grace period exceeds both together |
| `BlobSafety.GuardedUploadIsShielded` | internal/formats/base/write_policy.go:123-155 | an upload under the key lock finds its object when it registers, whatever else runs, unless a refusal, a failed copy or a collection deleted it unasked |
| `BlobSafety.UploadRacesDelete` | internal/formats/base/store.go:619-699 | for every row that alone names its key: a write, a delete of the row and the registration leave a row without bytes |
| `BlobSafety.UploadRacesFlip` | internal/service/blob_store_migration_service.go:376-401 | likewise a write of the expected length, a flip and the registration |
| `BlobSafety.CollectionTakesNewBytes` | internal/service/gc_service.go:248-283 | likewise a collection that listed the key before it was uploaded again |
| `BlobSafety.GraceProtects` | internal/service/gc_service.go:268-272 | if rows come to objects within a delay, a pass deletes within a span of reading the rows and only what it listed, and the grace period exceeds both together, no collection takes a row's bytes |
| `BlobSafety.ResumedFlipFeedsTheCollector` | internal/service/blob_store_migration_service.go:340-360 | a flip onto a copy an earlier run left, which a collection has listed, leaves rows without bytes |
| `BlobSafety.MountThenReuploadSplitsTheKey` | internal/formats/base/store.go:539-557 | a mount, a change of store and an upload give one key two contents |
| `BlobMigration.FlipDanglesExactlyWithoutTheCopy` | internal/service/blob_store_migration_service.go:365-401 | a flip leaves a row without bytes exactly when the target lost the copy and the repository still has a row of the key |
| `BlobBooks.ExactStep` | internal/formats/base/store.go:539-557 | a step keeps every store's used_bytes right, writes in flight allowed for, exactly when what it charges is what it changes |
| `BlobLedger.UsedBytesConserved` | internal/service/cleanup_service.go:627-647 | over every interleaving of deletes, migrations, collections, mounts and uploads of new keys, with true sizes and one length per key, used_bytes of every store is the total of its non-backup objects in every state |
| `BlobLedger.CountersAtRest` | internal/service/blob_store_migration_service.go:449-464 | with nothing in flight the counter is plainly that total |
| `BlobBooks.UploadChargesExactly` | internal/formats/base/store.go:154-222 | an upload, registered, refused, withdrawn or not registered, keeps the counters right exactly under a condition on what the store and the rows held before it |
| `BlobBooks.MountedKeyGoesUncounted` | internal/formats/base/store.go:547-552 | a key named by another row and uploaded into another store leaves that store short by the whole upload |
| `BlobBooks.CopyChargesExactly` | internal/service/blob_store_migration_service.go:353-362 | a migration's copy, kept or deleted again, keeps the counters right exactly when the target held no bytes of the key |
| `BlobBooks.DeleteKeepsTrueSizes` | internal/formats/base/store.go:619-699 | deleting a row of true size keeps counters and sizes right |
| `BlobMigration.MigratedRowsKeepTheirBytes` | internal/service/blob_store_migration_service.go:336-401 | staged, checked and flipped, a row reads the same bytes exactly when the target held none or the same before, or the flip gave up on the listed size |
| `BlobMigration.FailedFlipLeavesTheCopy` | internal/service/blob_store_migration_service.go:371-383 | in any store, an overwrite of another length between copy and flip makes the flip give up and leaves the old copy behind |
| `BlobMigration.SecondRunServesStaleBytes` | internal/service/blob_store_migration_service.go:340-360 | the next run trusts that copy and hands the row the overwritten bytes |
| `BlobMigration.FlippedRowReadsItsBytesExactly` | internal/service/blob_store_migration_service.go:365-401 | whatever is done to the source between copy and flip: a moved row reads on what its source held at the flip exactly when that is what was copied, or its length gave the change away |
| `BlobMigration.SameLengthOverwriteIsLost` | internal/service/blob_store_migration_service.go:373-380 | an overwrite of the same length, registered between copy and flip, and the row that reads the old bytes |
| `BlobMigration.BlobStoreMigration.MigrateKey` | internal/service/blob_store_migration_service.go:308-464 | one key: a run of the shared machine, moved exactly when it says so; rows keep bytes if the key had one content, and counters and sizes stay right if they were |
| `BlobMigration.BlobStoreMigration.RunMigration` | internal/service/blob_store_migration_service.go:225-411 | however it ends no row dangles and only rows of the repository moved; done means all of them lie in the target; and where counters and sizes were right, and the target held nothing of another length, every used_bytes is what its store holds |
| `CleanupRun.CleanupService.DeleteStaleAsset` | internal/service/cleanup_service.go:602-655 | the bytes reported are exactly those that left, and only when no other row names the key |
| `CleanupRun.CleanupService.RunPolicy` | internal/service/cleanup_service.go:354-504 | reports exactly the rows gone and the bytes that left, keeps rows and counters sound, ends within three listings per stale row and three more, and unless it gave up leaves no row that still matches |
| `BlobGc.ReferencedSet` | internal/service/gc_service.go:88-147 | the index answers exactly whether some reference names the key in this store, at its physical place, or anywhere |
| `BlobGc.ReachedIsNamed` | internal/service/gc_service.go:88-103 | whatever a row reaches at a place, the pass of every store at that place finds named |
| `BlobGc.Collector.Compact` | internal/service/gc_service.go:237-298 | one pass removes only collectable objects, leaves none if error-free and not cut short, and charges and reports exactly what left |
| `BlobGc.Collector.CompactAll` | internal/service/gc_service.go:179-232 | no object some row reaches is deleted though stores share a place or rows name none; an unaborted error-free collection leaves no unreferenced, non-backup object past its grace |
| `DistLock.RedisLocker.Acquire` | internal/distlock/redis.go:34-44 | succeeds exactly when nobody owns the key, under a token that never owned anything, which then owns it for the given time and no longer |
| `DistLock.RedisLocker.Release` | internal/distlock/redis.go:65-70 | afterwards this holder owns the key no more, at any time, and every other holder owns what it owned |
| `DistLock.RedisLocker.Refresh` | internal/distlock/redis.go:75-84 | succeeds exactly for the owner, who then owns the key for the given time; anyone else learns that the lock is lost and gains nothing, and nobody else gains or loses |
| `DistLock.AtMostOnePasses` | internal/service/lock_deadline.go:11-13 | two jobs of one key pass their deadline checks together only within the gap between acquiring and stamping; with no gap never |
| `DistLock.AnyGapOverlaps` | internal/service/cleanup_service.go:269-299 | for every lifetime and every gap there is a run in which two jobs pass together |
| `DistLock.ForcedReleaseOverlaps` | internal/distlock/redis.go:48-59 | clearing a lock by force lets a second job in with no gap at all |
| `DistLock.OvertakenHolderIsLate` | internal/distlock/redis.go:34-84 | in every run, once another job has acquired the key and is within its lease, a Release or Refresh of the earlier holder changes nothing |
| `CronSlots.OneRunPerSlot` | internal/service/replication_service.go:394-583 | whatever the clocks and the interleaving, a cron slot starts at most one scheduled run, for replication and for scheduled backup, unless a node was without the lock between its look and its record or a look or record failed |
| `CronSlots.ManualRunTakesTheSlot` | internal/service/replication_service.go:456-462 | a run by hand within the skew before the minute makes the scheduled one skip |
| `CronSlots.LateTickRunsAgain` | internal/service/replication_service.go:445-462 | a tick a whole minute late runs a slot that has run |
| `CronSlots.UnreachableLockRunsTwice` | internal/service/backup_scheduled.go:341-396 | without the lock two nodes run one slot |
| `CronSlots.LapsedLockRunsTwice` | internal/service/replication_service.go:485-508 | a lock that lapses under a run lets a second node run the slot |
| `CronSlots.FailedLookRunsTwice` | internal/service/replication_service.go:454-462 | a look that fails counts as nothing having run |
| `CronSlots.LostRecordRunsTwice` | internal/service/replication_service.go:560-581 | a run whose record is lost is run again |
| `NexusGroups.ExpandRepoAllowSet` | internal/service/nexus_migration_service.go:694-728 | the least set that holds the given names and is closed under group membership |
| `NexusGroups.FlattenGroupMembers` | internal/service/nexus_migration_service.go:909-951 | exactly the non-group names reachable through membership, each once, also on cycles |
| `NexusGroups.FlattenedMembersAreAllowed` | internal/service/nexus_migration_service.go:694-951 | what an allowed group flattens to is allowed |
| `NexusRoles.RoleSorter.Visit` | internal/service/nexus_migration_service.go:1740-1777 | a depth-first visit finishes every nested role first or has met a cycle, and reports only roles on one |
| `NexusRoles.TopoSortRoles` | internal/service/nexus_migration_service.go:1740-1777 | a permutation of the roles; a cycle is reported exactly when there is one; without one nested roles come first |
| `NexusRoles.FlattenPrivileges` | internal/service/nexus_migration_service.go:1660-1690 | one pass gives each role exactly the privileges of all it nests on acyclic roles, and never more on any |
| `NexusRoles.PrivilegesExactly` | internal/service/nexus_migration_service.go:1660-1690 | on any roles, cyclic or not, and in any order, a role gets exactly the privileges at the end of a chain of nestings that goes back in the order at every step |
| `NexusRoles.CyclicRolesInheritUnevenly` | internal/service/nexus_migration_service.go:1660-1681 | two roles in a cycle of which one is short of the other's privileges and the other is not |
| `ManifestTransfer.Destination.TransferManifest` | internal/service/nexus_migration_service.go:1301-1368 | every state the destination goes through, also on errors, is closed under references; ends on self-referencing indexes; success stores the reference |
| `ManifestTransfer.Destination.EnsureBlob` | internal/service/nexus_migration_service.go:1373-1394 | the blob is there on success, and nothing changes when it was there before |
| `ManifestTransfer.Destination.RegisterAlias` | internal/service/nexus_migration_service.go:1400-1415 | the alias of a complete manifest keeps the destination closed |
| `ManifestTransfer.PullFindsEverything` | internal/service/nexus_migration_service.go:1291-1300 | in a closed destination a client following manifest references from any stored manifest finds all it is sent to |
| `Backup.CollectAll` | internal/service/backup_export.go:122-153 | all rows in order, or an error exactly when a page that is read fails |
| `Backup.CollectOwned` | internal/service/backup_export.go:214-240 | every row of the repositories listed, each once, with its repository's name |
| `Backup.WriteBlobs` | internal/service/backup_export.go:68-120 | each key once with the bytes of the first asset that names it, and the missing counted exactly |
| `Backup.Export` | internal/service/backup_export.go:157-245 | lists every row once; reports nothing missing exactly when every key is there, as it is when all bytes can be read; and is then faithful exactly when no two contents share a key |
| `Backup.SplitKeyIsArchivedWrong` | internal/service/backup_export.go:68-120 | where one key has two contents, an export succeeds, misses nothing and gives an asset another's bytes |
| `Backup.BlobsFaithful` | internal/service/backup_export.go:63-120 | bytes by key are bytes by asset exactly when assets that share a key share their bytes |
| `BackupRestore.Sorted` | internal/service/backup_import.go:446-450 | sorting keeps every store once and puts a group after all it may name |
| `BackupRestore.RemapGroupMembers` | internal/service/backup_import.go:548-557 | the members in their order, under their new ids, exactly those whose archived name has a store here |
| `BackupRestore.GroupRemapped` | internal/service/backup_import.go:452-472 | a restored group of physical stores has all its members, in order, under their new ids |
| `BackupRestore.FallbackStore` | internal/service/backup_import.go:564-577 | the store named default, or the first by name, or none when there is none, whatever order they are found in |
| `BackupRestore.Restorer.RestoreStores` | internal/service/backup_import.go:436-481 | no store is lost or changed; from empty and without failure a one-to-one renaming that maps group members along |
| `BackupRestore.Restorer.RestoreRepos` | internal/service/backup_import.go:581-619 | likewise for repositories and the stores they are on |
| `BackupRestore.Restorer.RestoreComponents` | internal/service/backup_import.go:676-696 | likewise for components; over rows that were there, the last archived component of a release that is written decides, and one none is written to stays |
| `BackupRestore.Restorer.RestoreAssets` | internal/service/backup_import.go:700-745 | likewise for assets, all but the component; whatever fails, no row is written without the bytes the archive has for its key; objects are exactly those there were and those written |
| `BackupRestore.Restorer.Restore` | internal/service/backup_import.go:396-432 | into an empty instance without failure: the archived instance under a renaming of ids, every link and all bytes preserved; into any instance, and whatever fails: links intact, stores and repositories as they were, and of every earlier component, asset and object exactly whether it is overwritten and with what |
| `BackupRestore.ExistingRecordsAreOverwritten` | internal/service/backup_import.go:393-432 | a restore over an instance that has the archived store, repository, release and path: component, asset and object take the archived content, all but the asset's component |
| `BackupRestore.RestoreOfExport` | internal/service/backup_import.go:393-432 | restore of an export is the exported instance with its ids renamed |
| `CanonicalPath.CheckSegment` | internal/formats/path.go:67-79 | passes exactly when at every layer of encoding below the bound there is no dot segment and no separator and the layers end; the reason given is a real one |
| `CanonicalPath.CanonicalPath` | internal/formats/path.go:44-63 | accepts exactly the paths whose every segment passes and only the last may be empty, returns the cleaned path, and blames the first bad segment |
| `CanonicalPath.SpellingsExactly` | internal/formats/path.go:26-63 | the accepted paths served as a canonical path are exactly it with or without its leading slash and one trailing slash |
| `CanonicalPath.CanonicalIsFixed` | internal/formats/path.go:44-63 | a canonical path is accepted and is its own canonical path |
| `CanonicalPath.DecodedPathStaysPut` | internal/formats/path.go:34-43 | after any number of decodings of an accepted path there is nothing left to clean and no segment has split, emptied or become a dot segment |
| `CanonicalPath.BlockedUnderEverySpelling` | internal/formats/routing.go:37-59 | a BLOCK rule admits some spelling of a canonical path exactly when it admits the canonical path |
| `CanonicalPath.SecondSpellingsRefused` | internal/formats/routing.go:37-59 | no rule admits a path that is not a plain spelling of what is served for it |
| `CanonicalPath.RefusedSlashDoesNotRefuseTheName` | internal/formats/routing.go:47-59 | a BLOCK rule that refuses the slash spelling only |
| `AuthCache.CredentialKeyIsInjective` | internal/service/basic_auth_cache.go:58-78 | no two pairs of username and password have one key, however their bytes divide |
| `AuthCache.VerificationCache.DeleteLocked` | internal/service/basic_auth_cache.go:128-136 | removes one entry and keeps entries and index consistent |
| `AuthCache.VerificationCache.IsValid` | internal/service/basic_auth_cache.go:80-96 | answers as the single map computed from the log does, and leaves entries and index as that map and consistent |
| `AuthCache.VerificationCache.Remember` | internal/service/basic_auth_cache.go:98-126 | the same for remembering |
| `AuthCache.LiveFits` | internal/service/basic_auth_cache.go:98-126 | never more entries than the limit |
| `AuthCache.StoredExactly` | internal/service/basic_auth_cache.go:98-126 | a credential is stored exactly when it was cached already or unexpired entries leave room: a cached one is never dropped |
| `AuthCache.HitMeansRemembered` | internal/service/basic_auth_cache.go:80-96 | a hit means the latest remember of this exact username and password is less than the time to live ago with the same user state, and no check since saw another |
| `AuthCache.RememberedMeansHit` | internal/service/basic_auth_cache.go:80-126 | on a clock that does not run backwards that condition suffices |

## Left out

- SQL, JSON, tar and gzip, CEL, regular expressions, HMAC, bcrypt and AES are abstract: predicates, functions or injective encodings.
- Network clients, the scanner, webhooks, audit events, logging and metrics; what they answer is a parameter or any answer at all.
- Real time and goroutines: time is a value, and concurrency is interleaving of atomic steps. Within a class method that stands for one call under a lock, nothing else is interleaved.
- HTTP handlers, configuration, CRUD validators, LDAP, OIDC, SAML and token minting.
- Cron parsing, beyond ticks firing within their minute by their node's clock.
- Round-robin and fill policies of group blob stores on upload.
- Backup of users, roles, cleanup policies and routing rules, and the links to them: a repository keeps the archived ids of its cleanup policies and routing rule, which mean nothing on another instance, and so does an asset its uploader's.
- ImportRepo, and the byte and entry limits of the archive reader.
- Scheduled backup's retention and archive upload.
- AutoQueue.NoPublishIsLost: says that a publish is evaluated or still queued, not that it will be evaluated in the end: nothing is assumed about replicas making progress.
- PromotionCopy.PlanCopy: the target's write policy is not judged here; a refused plan is an answer of `plan` in `PromotionGates`.
- PromotionCopy.CancelledCopyLeavesRowsWithoutBytes: that a local store deletes although the context is gone is the store's (`internal/storage/local.go:216-228`), and a set of failing deletes here.
- PromotionCopy.Copier.ExecuteCopy: one writer to the target at a time; the per-path locks of guarded write policies are not modelled.
- PromotionFlow.PromotionService.ExecuteCopy: the byte copy is one answer here; what it does to the target is `PromotionCopy.Copier.ExecuteCopy`.
- BlobLedger.UsedBytesConserved: counter updates succeed there, an upload of undeclared length is registered with the length it wrote, and uploads over an earlier object are not in its runs; of those, `BlobBooks.UploadChargesExactly` says which keep the counters right. Failures of counter updates are in `BlobGc`.
- BlobSchedule.NoRowLosesItsBytes: an upload without the lock must have its key to itself, which nothing in the code sees to.
- BlobSafety.GraceProtects: backends that report no modification time, for which the collector has no grace period, are in `BlobGc` only.
- BlobMigration.BlobStoreMigration.MigrateKey: runs alone; what may come between its copy, its check and its flip is in `BlobSchedule`, `BlobLedger` and `FlippedRowReadsItsBytesExactly`.
- BlobMigration.BlobStoreMigration.RunMigration: runs alone too.
- CleanupRun.CleanupService.RunPolicy: no row becomes stale while the run lasts, and the images it releases at the end are any rows at all.
- CanonicalPath.DecodedPathStaysPut: an upstream that decodes only the well-formed escapes of a segment holding a malformed one is not covered; the source treats such a segment as a literal name.
- BackupRestore.Restorer.RestoreComponents: a release is decided where one row has it, as the database's constraint sees to; likewise a path in RestoreAssets.
- PromotionFlow.PromotionService.ProcessAutoEntry: the desk is its own while it runs; approvals and rejections that land meanwhile are in `PromotionRequests`.
- BackupRestore.Restorer.Restore: a row the database refuses or whose identity does not validate is a member of one set of refused ids.
