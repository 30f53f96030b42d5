# A verified model of Fillable's storage, documents, jobs, field anchors and OOXML export

This project models five cores of the application and proves what they promise. `dafny verify dfyconfig.toml` checks all
of it.

1. **Crash-tolerant quota storage** (`Storage*.dfy`). `StorageTables` has each SQL transaction as a function on the rows,
   `StorageFiles` each file-system call as a function on directory entries. `StorageMachine` interleaves any number of
   processes step by step: every transaction, write, link and unlink is a step of its own; a process may crash between
   any two steps, a commit may report failure after it happened, the clock only advances, locks are released by a crash.
   `StorageService` is the same code as two classes, `FileSystem` and `Storage`: each method is tied to the machine's
   steps, and `StorageContracts` has what its caller can rely on.
2. **Documents and jobs** (`Document*.dfy`, `JobTheorems.dfy`). `DocumentTables` has uploads, copies, leases, saves,
   restores, trash, purge, pruning, claims, results and dispatcher recovery as transactions on shared rows; the theorems
   hold over every run of them. `DocumentService` is the imperative form, a class `Workspace`, and `DocumentContracts`
   what its callers can rely on.
3. **Field anchors** (`Utf16`, `Working*`, `FieldAnchors`, `Review*`, `Blanks`, `Discovery`). Code-point offsets per
   paragraph, editor positions and UTF-16 units (section 2.1 of RFC 2781) are three views of one document. The position
   index and the span check refine recursive definitions; what the editor attaches is told from the text alone;
   discovery, attachment and saving are proved to agree.
4. **Copies** (`Rebase`, `Correspondence`, `Transport`, `Copying`, `CopiedReview`). Matching two documents that may differ
   in run boundaries and identities, and carrying discoveries and reviews from one to the other.
5. **WordprocessingML and back** (`Ooxml`, `ImportReads`, `Reimport`, `XmlEdits`, `RunExport`, `ControlExport`,
   `GlyphExport`, `BlockExport`, `KeptSource`, `Identities`, `NativeIds`, `DocxPackage`, `NativeExport`, `DocxExport`,
   `ImportSchema`, `Reread`, `RoundTrip`). Import and export of runs, structured document tags and tables (sections
   17.3.3 and 17.5.2 of ECMA-376 Part 1) over element trees, as two classes, and the round trip between them.
   `ImportReads` relates what is imported to the XML attribute by attribute, `KeptSource` says what an export must leave
   alone. `FreshIds` has the loops that issue native identifiers, `ImportSchema` tells for which packages the import is a
   document the editor has a place for.

`Lifecycle` brings 3, 4 and 5 together: saving, processing and copying a document with the package kept beside it.
`Pagination` is the greedy page division with its optimality.

## What the proofs found

- **A half-removed file.** `_clean` compares the inode of the published name with the staging link. If a deletion crashed
  after the published name was unlinked but before the staging link was, recovery of that operation fails with
  `storage_failure`, every time. `StorageHalfRemoved.HalfRemovedHappens` has a run that gets there,
  `StorageSequential.RecoveryTotal` shows that this is the only case, and `StorageSequential.HalfRemovedPending` that it
  needs a file marked for deletion. There `reconcile` calls `delete_file`
  instead of `recover`, which succeeds (`StorageRecovery.ReconcileTotal`), so no state stays broken.
- **Deleting does not look twice.** The second transaction of `delete_file` uncharges a row without reading its state
  again. That is sound only because the exclusive file lock is held in between; the invariant says so.
- **The guards against shared files never fire** (`DocumentTheorems.GuardsNeverFire`): pruning and purging check that no
  other version names the file, and none ever does.
- **A stray element among rows or cells leaves an upload unusable.** The importer locks every block it does not know, also
  where the editor's schema has no place for one: a bookmark between two rows, a content control around a row, row
  exceptions (`w:tblPrEx`) in a row; likewise it takes a paragraph that stands directly in a table for one. Such a
  package is imported, and the exporter accepts its document unchanged (`RoundTrip.StrayBlock`), but `index` refuses the
  document, so every attempt at processing it fails (`Lifecycle.Inspect`) and it can be neither saved, copied nor
  restored as it is. `ImportSchema.ImportFits` has the exact condition, which can be read off the package: properties
  aside, tables hold nothing but rows, rows nothing but cells, and neither stands elsewhere. For such packages every
  document that can be written can be matched (`RoundTrip.RenderAndMatch`), and in any case every document that has been
  saved can be processed and copied (`Lifecycle.SaveProcessCopy`).
- **A long run makes a document read-only.** The exporter refuses a text of more than 1000000 characters, the importer
  does not: such a document opens and cannot be saved, not even unchanged (`RoundTrip.LongRun`).
  `RoundTrip.UnchangedAcceptable` has the exact condition: it concerns texts standing directly in a paragraph, because
  the content of an unchanged control is not written again.
- **The import that ends an export refuses nothing the document caused.** An accepted document brings no native identifier
  along twice and keeps every column span readable, so apart from the bounds on the package the second reading cannot
  fail (`RoundTrip.AllImportable`); that is why `RoundTrip.Render` has a condition on the document alone.
- **The editor attaches a span the backend refuses.** A range that begins right behind an empty control is refused by the
  snapshot's validation and allowed by the editor (`ReviewTheorem.BehindEmptyControl`). `ReviewTheorem.BackendAccepts` has
  the exact condition; in every other case the two accept the same spans, so nothing validated is lost.
- **A job may rest stale.** A job that turned stale while its document was in trash is not queued again by restoring the
  document; no theorem here says that every revision is processed in the end.

## Model

| member | source | states |
|---|---|---|
| StorageRuns.ApplyStep | backend/app/storage/service.py:339-425 | The invariant survives every step of every process, including crashes between any two steps, exceptions and commits whose response is lost. |
| StorageRuns.RunInv | backend/app/storage/service.py:339-462 | Every state of every run of stores, deletes, purges, recoveries, reads and crashes satisfies the invariant. |
| StorageTheorems.Conservation | backend/app/storage/maintenance.py:120-160 | In every reachable state `used_bytes` is the sum over ready and pending files, `reserved_bytes` the sum of active allocations, and the account check answers "checked". |
| StorageTheorems.PhysicalBound | backend/app/storage/service.py:379-416 | In every reachable state the bytes of all inodes linked for an owner are at most its used and reserved bytes. |
| StorageTheorems.HeadroomKept | backend/app/storage/service.py:97-114 | In every reachable state, whenever a growth is admitted the device has room for it, for all that operations still writing may write within their allocation, and for the headroom; it is refused for the device exactly if what was promised and not reported as written would reach into the headroom. |
| StorageTheorems.LinksTellState | backend/app/storage/filesystem.py:82-145 | Which links exist, and with how many bytes, for every state of the file row or reservation: none for a deleted file, no published name and at most an empty staging file for an aborted operation, the full file for a ready one. |
| StorageTheorems.ReaderFindsBytes | backend/app/storage/service.py:465-505 | A reader past its check finds the bytes the row promises, although the file may be marked for deletion meanwhile. |
| StorageTheorems.ExactlyOnce | backend/app/storage/service.py:116-161 | One reservation per owner and key; its effects ran once if it is committed and never otherwise. |
| StorageTheorems.SameAnswer | backend/app/storage/service.py:213-227 | Two calls that answered for the same owner and key named the same file. |
| StorageTheorems.ReplayOnlySame | backend/app/storage/service.py:116-146 | A taken key is replayed for the same fingerprint, purpose and expected size only; any difference is refused. |
| StorageHistory.ApplyLawful | backend/app/storage/service.py:183-337 | Each step takes each operation at most one step along its life: written from reserved or writing, staged, committed from staged only, aborted from clean-up only and nothing after either. Identities never change, files only move towards deletion, and totals and allocations grow only within their ceilings. |
| StorageHistory.WrittenChargesNothing | backend/app/storage/service.py:183-211 | The advance after a write always succeeds and charges nothing: the bytes were allocated before they were written. |
| StorageHistory.CommitNeverRaises | backend/app/storage/service.py:250-282 | A commit never raises the owner's total: the file is no larger than the allocation it replaces. |
| StorageGuarantees.AbortedNeverSucceeds | backend/app/storage/service.py:284-337 | Once an operation is aborted, no continuation ever answers its key or runs its effects. |
| StorageGuarantees.CommittedForever | backend/app/storage/service.py:250-282 | Committed stays committed, with the same file, size and digest. |
| StorageGuarantees.ReadyUntouched | backend/app/storage/filesystem.py:95-145 | No step unlinks or rewrites a ready file. |
| StorageGuarantees.ReadyKept | backend/app/storage/service.py:465-505 | While a file is ready its published name leads to the same bytes through any run. |
| StorageGuarantees.OverLimitNeverGrows | backend/app/storage/service.py:97-114 | An owner over a lowered limit: no step lets its total grow. |
| StorageGuarantees.CeilingsHold | backend/app/storage/service.py:97-114 | With fixed limits no owner exceeds its limit and active allocations never exceed the staging limit, over whole runs. |
| StorageSequential.CleanSound | backend/app/storage/service.py:284-337 | `_clean` succeeds from every state but a half-removed one and does exactly what the machine's clean-up steps do. |
| StorageSequential.CleanLeaves | backend/app/storage/service.py:284-337 | What `_clean` leaves: an uncommitted operation without entries and allocation, a committed one with its file. |
| StorageSequential.HalfRemovedPending | backend/app/storage/maintenance.py:42-113 | Only a file marked for deletion can be half removed. |
| StorageSequential.RecoveryTotal | backend/app/storage/service.py:427-462 | With the lease over, recovery settles the operation from every crash state, fails exactly on a half-removed file, and then changes nothing. |
| StorageHalfRemoved.HalfRemovedHappens | backend/app/storage/maintenance.py:42-113 | A run with two crashes ends in a half-removed file: with no lease in the way, recovery fails and changes nothing, and reconciliation deletes the file. |
| StorageRecovery.RecoverAgain | backend/app/storage/service.py:427-462 | Recovering what was recovered changes nothing. |
| StorageRecovery.DeletionTotal | backend/app/storage/maintenance.py:42-113 | Deletion succeeds from every crash state, removes both links, then the charge, and nothing of any other operation. |
| StorageRecovery.ReadTotal | backend/app/storage/service.py:465-505 | A ready file always reads back the bytes its row was written for. |
| StorageRecovery.ReconcileTotal | backend/app/storage/maintenance.py:171-236 | One reconciliation of one operation succeeds from every durable state. |
| StorageRecovery.CrashRecovers | backend/app/storage/maintenance.py:171-236 | From any reachable state, after a crash and with the lease over, one reconciliation leaves the operation committed or aborted and a second one changes nothing. |
| StorageRecovery.ReconcileFrames | backend/app/storage/maintenance.py:171-236 | Reconciling one operation leaves every other one alone. |
| StorageRecovery.LiveIsBusy | backend/app/storage/maintenance.py:171-236 | An operation whose lease runs is reported busy and nothing changes. |
| StorageService.FileSystem.Stage | backend/app/storage/filesystem.py:67-80 | Succeeds exactly where there is no staging file; the new one is empty, is a file of its own, and every other name reads as before. |
| StorageService.FileSystem.Link | backend/app/storage/filesystem.py:82-93 | Succeeds exactly when there is a staging file and the name is free; the name then reads as the staged bytes, and no published file is replaced or changed. |
| StorageService.FileSystem.Clean | backend/app/storage/filesystem.py:95-124 | A committed operation loses its staging entry and keeps its published bytes, an uncommitted one loses both; it fails, changing nothing, exactly when the two entries are not one file; no other name notices. |
| StorageService.FileSystem.Remove | backend/app/storage/filesystem.py:137-145 | Both entries are gone and every other name reads as before. |
| StorageService.Storage.Begin | backend/app/storage/service.py:116-161 | From any sound state: a new key opens one operation with unused identifiers, its allocation within the owner's limit and the staging limit; a known key leads back to the only operation that has it, if fingerprint, purpose and size agree; every refusal has exactly its reason, changes nothing, and the state stays sound. |
| StorageService.Storage.Advance | backend/app/storage/service.py:183-211 | The allocation covers the size and never shrinks, exactly its growth is charged to the owner, within both ceilings before a write; the counters still add up; every refusal has its reason and changes nothing. |
| StorageService.Storage.WriteChunks | backend/app/storage/service.py:379-405 | Through partial writes of any size the staged bytes are the concatenated chunks and never exceed the allocation. |
| StorageService.Storage.Finish | backend/app/storage/service.py:229-282 | Staged row, link, effects and commit: afterwards the file is committed and charged once, or the call has failed at a point that clean-up accepts. |
| StorageService.Storage.Clean | backend/app/storage/service.py:284-337 | From any sound state: fails exactly on a half-removed file, changing nothing; otherwise an uncommitted operation leaves only its aborted row and its allocation is given back, a committed one keeps its published bytes, and no other operation notices. |
| StorageService.Storage.Store | backend/app/storage/service.py:339-425 | From any sound state. A known key changes nothing and is answered by its row: a conflict exactly if fingerprint, purpose or size differ; the stored file exactly while it is committed and ready, not found once it is deleted; aborted and in progress as they are. A file over the limit is refused before anything else. A new key is refused at once with its exact reason, or stored: committed with exactly the given bytes and charged once; or given up, its allocation returned, for a reason that held; or kept because only the last answer failed. Nothing of any other operation changes. |
| StorageService.Storage.Recover | backend/app/storage/service.py:427-462 | A writer whose lease runs is left alone; any other operation is settled for good, a second call changing nothing, unless its deletion was cut short between the unlinks; the state stays sound. |
| StorageService.Storage.DeleteFile | backend/app/storage/maintenance.py:42-113 | The first call that may removes both links and uncharges the size once, later ones find nothing to do; refusals exactly for an absent, unfinished or protected file, changing nothing; no other operation notices and the state stays sound. |
| StorageService.Storage.Read | backend/app/storage/service.py:465-505 | In any sound state exactly the owner's ready files can be read, and the bytes have the size and digest of the row. |
| StorageService.Storage.ReconcileAccount | backend/app/storage/maintenance.py:120-160 | From any tables: no counter is lowered, too low ones are raised to the sums, and the status tells right, repaired and too high apart; on a sound state the answer is "checked" and nothing changes. |
| StorageContracts.LimitGoverns | backend/app/storage/service.py:97-114 | An owner's own limit decides admission if there is one, the default otherwise: changing the default touches nobody who has one, and an override touches its owner only. |
| StorageService.Storage.Reconcile | backend/app/storage/maintenance.py:171-236 | For any batch: operations whose lease is over rest, with the status their rows call for; live ones are busy; those and all outside the batch keep rows and links; the state stays sound and every account checks out. |
| DocumentSteps.RunInv | backend/app/documents/revision_commit.py:61-120 | Every run of transactions on the document and job tables keeps the invariant. |
| DocumentTheorems.HistoryIsChain | backend/app/documents/revision_commit.py:61-120 | Versions are numbered 1 to n without gap or repetition, each the child of the one before, and the current one is the last. |
| DocumentTheorems.LeaseTracksCurrent | backend/app/documents/leases.py:62-113 | An existing lease's source version is the document's current one. |
| DocumentTheorems.RetiredIsPowerless | backend/app/documents/leases.py:62-113 | A replaced, released or expired generation never renews or commits again, in any continuation. |
| DocumentTheorems.Retires | backend/app/documents/leases.py:50-113 | Whatever takes a lease away retires its generation. |
| DocumentTheorems.NoInterleavedCommit | backend/app/documents/revision_commit.py:21-58 | Any commit between two commits of one generation used that generation. |
| DocumentTheorems.CommitByHolder | backend/app/documents/revision_commit.py:21-120 | A commit succeeds only for the holder of the lease on the revision it replaces, which becomes the new revision's parent. |
| DocumentTheorems.OneVersionPerFile | backend/app/documents/revision_commit.py:61-97 | A file belongs to exactly one version. |
| DocumentTheorems.LivingFilesReady | backend/app/documents/deletion.py:53-132 | A document that is not deleted has its original and current file ready; a deleted one has no ready file. |
| DocumentTheorems.GuardsNeverFire | backend/app/documents/retention.py:70-138 | The shared-file guards of pruning and purging never fire. |
| DocumentTheorems.PruningRespectsPolicy | backend/app/documents/retention.py:46-138 | While at least K revisions are to be kept, the first version and the last K stay readable through any run. |
| DocumentTheorems.DeletedForever | backend/app/documents/deletion.py:53-132 | A deleted document never returns, is never leased and keeps no ready file. |
| JobTheorems.LateWorkerChangesNothing | backend/app/jobs/worker.py:122-146 | Once an attempt is over, because the job is past it or done or its lease has expired, a late result, claim or loss report of it changes nothing after any further run. |
| JobTheorems.ClaimedOnce | backend/app/jobs/worker.py:59-90 | No attempt of a job is given to two workers. |
| JobTheorems.WorkDescends | backend/app/jobs/dispatcher.py:21-137 | Every automatic change lowers the pair of remaining attempts and status rank. |
| JobTheorems.AtMostThreeClaims | backend/app/jobs/dispatcher.py:21-137 | Between submits a job is claimed at most as often as it has attempts left, three times at the most. |
| JobTheorems.ActiveJobsFollowRevision | backend/app/jobs/service.py:55-121 | Active jobs are for the current version, one to a document and five to an owner; running means exactly that a lease time is set. |
| JobTheorems.SucceedsOnlyCurrent | backend/app/jobs/worker.py:51-146 | A job succeeds only for the current version of an active document and only by the worker whose lease runs. |
| DocumentService.Workspace.Intent | backend/app/jobs/service.py:55-114 | Afterwards the current revision has a usable job unless the owner has five active ones: a usable job is left alone, an unusable one gets three more attempts, no other job changes. |
| DocumentService.Workspace.Upload | backend/app/documents/service.py:206-240 | An upload adds one document with its first version, its ready file and one waiting job, unless its owner already has five active jobs: then nothing is added. |
| DocumentService.Workspace.Copy | backend/app/documents/copies.py:56-107 | A copy of the current revision adds one document. It counts as processed exactly if the same owner has a finished inspection of the source revision with its snapshot; otherwise it waits in line like an upload. |
| DocumentService.Workspace.ChangeLease | backend/app/documents/leases.py:20-113 | Acquire, renew and release succeed exactly when they should, each refusal has its exact reason; a granted lease is on the current revision for a minute, under the holder's live generation if there is one and otherwise under one nobody ever had; a live holder is never replaced, and whoever loses the lease is locked out for good. |
| DocumentService.Workspace.Commit | backend/app/documents/revision_commit.py:61-120 | Succeeds exactly for the holder of the live lease on the current revision, with a restorable source and room for a job; then there is one revision more, numbered one up, child of the one replaced, with its own ready file; lease and pointer follow, older work is stale, nothing else changes. A refusal rolls everything back. |
| DocumentService.Workspace.Purge | backend/app/documents/deletion.py:53-132 | Never refused as shared; a purged document is deleted, unleased, has no ready file and no kept contents, its files left to storage; each refusal has its exact reason; every other document with its files, lease and jobs is untouched. |
| DocumentService.Workspace.PurgeExpired | backend/app/documents/trash.py:92-105 | After the batch exactly its overdue documents are gone; every other document is as it was, and the tables are sound. |
| DocumentService.Workspace.EmptyTrash | backend/app/documents/trash.py:108-151 | Of the owner's trash, the documents of the batch are gone and the others are overdue; a document that was not in that trash is untouched. |
| DocumentService.Workspace.Trash | backend/app/documents/trash.py:39-61 | Sets the deadline thirty days ahead, ends the lease and locks its holder out; a document already in the trash keeps its deadline; nothing else changes. |
| DocumentService.Workspace.Untrash | backend/app/documents/trash.py:64-89 | Refused as conflict exactly once the deadline is over; a document that comes back can be opened, its original and its current file being ready. |
| DocumentService.Workspace.Authorize | backend/app/documents/retention.py:70-138 | Exactly a revision that is neither the first nor among the kept ones of an active document is marked, whoever selected it and when, each refusal having its exact reason; the checks for shared files and for the current revision never decide; nothing a policy retains becomes unreadable. |
| DocumentService.Workspace.Prune | backend/app/documents/retention.py:141-178 | After the batch exactly the revisions that were prunable when it began are marked, and whatever a policy up to the current one retains is still readable. |
| DocumentService.Workspace.Claim | backend/app/jobs/worker.py:59-90 | Granted exactly for a waiting attempt of a current revision, and then for the first and only time: the claims recorded for that attempt go from none to one, and the worker has the lease time. Otherwise nothing changes, but that work no longer worthwhile is marked stale. |
| DocumentService.Workspace.Finish | backend/app/jobs/worker.py:122-146 | Only the worker at work is heard, and only once: success means a finished inspection of the current revision, with its snapshot; a failed attempt waits again under exactly the next number while attempts are left, and has failed otherwise; work on an older revision is stale. |
| DocumentService.Workspace.Dispatch | backend/app/jobs/dispatcher.py:38-137 | A job whose worker's time is over, or that the queue has lost, waits under exactly one attempt more for each of these, and has failed exactly if that was the last one; all other jobs are untouched; the result is the number of jobs that failed. |
| Utf16.DecodeEncode | backend/app/fields/working.py:71-75 | Decoding gives back what was encoded. |
| Utf16.EncodeDecode | backend/app/fields/working.py:158-166 | Whatever the strict decoder accepts is the encoding of its result. |
| Utf16.InsideIsLow | backend/app/fields/working.py:159-164 | A position is inside a character exactly when it is at a low surrogate. |
| WorkingIndex.MeasureNodes | backend/app/fields/working.py:49-99 | The stack pass computes the recursive sizes of all nodes and refuses exactly the trees that break the schema. |
| WorkingIndex.Index | backend/app/fields/working.py:48-132 | Both passes together give the paragraphs of the recursive definition in document order and the controls by identity; refused exactly for broken schemas and repeated controls. |
| WorkingSpans.DocumentApart | backend/app/fields/working.py:100-132 | Paragraph starts strictly increase and paragraphs do not overlap. |
| WorkingSpans.BisectRight | backend/app/fields/working.py:136-149 | The number of ascending values at most x. |
| WorkingSpans.ValidateSpan | backend/app/fields/working.py:135-166 | The double binary search and the walk accept a span exactly when one paragraph contains it, it meets only text, and its UTF-16 slice is the text. |
| WorkingReview.NeighboursDecide | backend/app/fields/working.py:183-194 | Comparing neighbours after sorting decides pairwise disjointness. |
| WorkingReview.ValidateWorking | backend/app/fields/working.py:169-216 | Accepted exactly: a well-formed document, spans of its text pairwise disjoint, every control tracked once with its own key and label. |
| FieldAnchors.Examine | backend/app/fields/validation.py:11-55 | The per-paragraph loop collects the specified text, values and blocked ranges; refused exactly on a repeated control. |
| FieldAnchors.Paragraphs | backend/app/fields/validation.py:11-55 | The stack loop collects every paragraph; refused exactly when identities clash. |
| FieldAnchors.ValidateSnapshot | backend/app/fields/validation.py:58-104 | Accepted exactly: every occurrence anchored, spans clear of blocked ranges and empty controls, no two colliding. |
| ReviewAttach.ClearSpelled | frontend/src/editor/review.ts:53-73 | A clear code-point range is, in positions, a stretch whose units encode its text, whatever stands around it. |
| ReviewDocument.SpotsAgree | frontend/src/editor/review.ts:53-73 | The editor's, the validator's and the index's view of the paragraphs agree. |
| ReviewDocument.AllowedIsSpan | frontend/src/editor/review.ts:42-50 | The editor's `allowedSpan` and the save validator's specification accept the same spans. |
| ReviewTheorem.AttachReview | frontend/src/editor/review.ts:75-118 | It throws exactly when two paragraphs clash or some occurrence cannot be attached, told from the document alone: a control of that value in that paragraph, the only one of its identity, or a stretch of that text in which nothing but text stands. Each one attached becomes the control under its own key and label, or the span from the first position of its first character to the last of its last one. |
| ReviewSpans.PointMeans | frontend/src/editor/review.ts:53-73 | The positions of a character: what stands before its child, the token that opens a field, and the UTF-16 units before it in the child. |
| ReviewSpans.AllowedWhen | frontend/src/editor/review.ts:42-50 | The editor allows the positions of a code-point range exactly if no child that is no text overlaps the range; an empty range only in an empty paragraph. |
| ReviewTheorem.BackendAccepts | backend/app/fields/validation.py:58-104 | The backend accepts exactly the spans the editor can attach that do not begin right behind an empty control. |
| ReviewTheorem.BehindEmptyControl | backend/app/fields/validation.py:58-104 | A span the editor attaches and the backend refuses. |
| ReviewTheorem.DiscoveryAttaches | backend/app/fields/working.py:169-216 | Every valid snapshot of a sound document attaches, and the review passes the save check. |
| Blanks.RunsAreMaximal | backend/app/fields/blanks.py:74-107 | The runs found are exactly the maximal stretches of at least three underlined spaces that no other child divides, in order. |
| Blanks.UnderlinedRuns | backend/app/fields/blanks.py:74-107 | The loop over regex matches with its pending range yields, in order, exactly the stretches of at least three spaces or no-break spaces whose texts are underlined in the source, with nothing but the boundaries of texts between them, that cannot be extended. |
| Discovery.Extract | backend/app/fields/discovery.py:54-139 | Every control and every usable clear token is proposed, paragraph by paragraph, and nothing else; proposals are anchored and compatible. |
| Discovery.Discover | backend/app/fields/blanks.py:129-189 | After the tokens the blanks are added, paragraph by paragraph. Every proposal is anchored, clear and compatible with all others, and nothing is forgotten: in each paragraph the proposed ranges are tokens and blanks, every clear token among them and every clear labelled blank that touches none of them, for any patterns with ordered disjoint matches. |
| Discovery.ProposedIsValid | backend/app/fields/discovery.py:54-139 | What discovery proposes is a valid snapshot covering every control. |
| Discovery.DiscoverAttachSave | backend/app/fields/blanks.py:129-189 | A document is refused exactly if its index is or two of its paragraphs clash; on any other discovery forgets nothing, the snapshot passes its check, every occurrence attaches where its text stands, and the review that comes of it is accepted. |
| Rebase.CanonicalUnique | backend/app/documents/rebase.py:12-60 | Two canonical lists of pieces that show the same stream are the same list. |
| Rebase.SamePieces | backend/app/documents/rebase.py:12-60 | Two lists of children give the same pieces exactly when they show the same styled characters and nodes. |
| Rebase.Children | backend/app/documents/rebase.py:12-60 | The fragment buffer yields the canonical pieces. |
| Correspondence.Correspond | backend/app/documents/rebase.py:63-105 | Succeeds exactly when the documents are the same up to identities, shape fills and run boundaries and the identities are one to one; returns that map. |
| Correspondence.SameMeans | backend/app/documents/rebase.py:63-105 | Two documents are the same exactly if they are equal once identities and fills are left out and each stretch of one style is joined to one text. |
| Transport.SameSize | backend/app/documents/rebase.py:63-105 | Corresponding nodes take the same number of positions. |
| Transport.SameTape | backend/app/documents/rebase.py:63-105 | Corresponding contents have the same text and atoms at the same positions. |
| Copying.ParagraphTwins | backend/app/fields/validation.py:11-55 | Corresponding paragraphs have the same text, blocked ranges and positions, and their controls correspond in order. |
| Copying.SnapshotMoves | backend/app/documents/rebase.py:143-151 | A snapshot valid for the source is valid for the target after renaming by the map. |
| Copying.RebaseDiscovery | backend/app/documents/rebase.py:143-151 | Succeeds exactly when the snapshot is valid for the source; each occurrence keeps its value, part and offsets and names the corresponding paragraph and control; the last check never fails. |
| CopiedReview.SpansTwin | backend/app/documents/rebase.py:108-132 | A span fits one document exactly when it fits the corresponding one. |
| CopiedReview.ReviewMoves | backend/app/documents/rebase.py:108-132 | A review that fits the source fits the copy after binding: live controls tracked once, lost ones still lost. |
| CopiedReview.Bind | backend/app/documents/rebase.py:115-132 | Every span item is the source's; a live control item names the corresponding control under the key and label that one has in the copy; a missing one is named anew and otherwise unchanged. Binding never misses an identity, and its result passes the save check on the copy. |
| FreshIds.NameInjective | backend/app/documents/export.py:207-213 | Different numbers are written differently, in decimal and as eight hexadecimal digits. |
| FreshIds.NameReads | backend/app/documents/export.py:207-213 | A control's number is written in decimal, a paragraph's in at least eight upper-case hexadecimal digits, and both read back. |
| FreshIds.Probe | backend/app/documents/export.py:455-458 | Probing ends within one step per identifier in use, with one nobody has. |
| Reimport.Moved | backend/app/documents/package.py:203-311 | Importing an element elsewhere gives the same inline up to identities. |
| Reimport.BlockMoved | backend/app/documents/package.py:160-201 | Importing an element elsewhere gives the same block up to identities. |
| Identities.BlocksIssue | backend/app/documents/package.py:142-145 | Identities issued by an import lie in the range read or are registered native identifiers, and none repeats. |
| Identities.DistinctIsOneToOne | backend/app/documents/rebase.py:79-91 | Two corresponding documents correspond one to one exactly if neither repeats an identity. |
| Identities.ListsMean | backend/app/documents/export.py:109-116 | The identities listed for a document are those of its nodes, the locks listed those of its locked nodes. |
| DocxPackage.DocxPackage.Inlines | backend/app/documents/package.py:203-311 | The traversal reads the specified nodes, and what each says is told from its element attribute by attribute; it files each node under the element that stands at its place, lists exactly the locked ones although inner locks are taken back, and fails exactly on a repeated native identifier. |
| DocxPackage.DocxPackage.Blocks | backend/app/documents/package.py:160-201 | The same for blocks; it fails exactly on an untold column span or a repeated identifier. |
| DocxPackage.DocxPackage.Load | backend/app/documents/package.py:121-136 | A package is read exactly when each part can be; every part is read as it is written, every element filed stands at its place in its part, the unsupported list is the locked nodes in document order, and the native identifiers registered are those its nodes bring along. |
| ImportReads.UnderMeans | backend/app/documents/package.py:160-201 | A search for a path of two tags finds the first element of the second tag below any of the first, and nothing only if there is none. |
| ImportReads.DeepMeans | backend/app/documents/package.py:289-300 | A search for a path of three tags finds the first element of the last tag in the first element of the first tag that has one below the second. |
| ImportReads.SpanTold | backend/app/documents/package.py:178-189 | A column span can be told exactly if there is none, or its value is a number from 1 to 64 in decimal digits. |
| ImportReads.SectionReads | backend/app/documents/package.py:160-311 | What an importable part is read as, told on the XML: alignment, numbering, column span, the toggles of a run and the values that switch them off, texts, tabs and breaks, keys and labels, which controls are left alone, which value ticks a box, where each node stands, and what becomes locked with which text. |
| RunExport.WriteText | backend/app/documents/export.py:429-438 | Lines, breaks and tabs: the children written are stretches of text that keep their spaces, tabs and breaks, and reading them gives the text back. |
| RunExport.FormattedStyle | backend/app/documents/export.py:411-428 | After writing the chosen formatting the run's style is the source's, overridden by what was chosen. |
| ControlExport.RekeyedShell | backend/app/documents/export.py:150-160 | Changing the tag changes the key and nothing else about the control. |
| ControlExport.RelabelledShell | backend/app/documents/export.py:150-160 | Changing the alias changes the label and nothing else about the control. |
| ControlExport.TickedBox | backend/app/documents/export.py:307-312 | Setting the state of a checkbox leaves a checkbox in that state. |
| ControlExport.ReglyphBox | backend/app/documents/export.py:313-337 | Exchanging the glyph changes neither kind nor state. |
| GlyphExport.SwitchedWhen | backend/app/documents/export.py:307-337 | A checkbox can be switched exactly if both markers, or the usual boxes in their place, are code points in at most six hexadecimal digits, and the wanted one can be written if the other is shown. |
| GlyphExport.SwitchedBox | backend/app/documents/export.py:307-337 | A switched checkbox is one in the state set; every text that was exactly the glyph of the other state is exactly that of this one, every other text is as before, and so is everything else in its content. |
| KeptSource.FormattedKeeps | backend/app/documents/export.py:411-428 | Formatting chosen in the editor replaces its own toggles in the first run properties and leaves all other properties alone. |
| KeptSource.RewrittenControl | backend/app/documents/export.py:357-372 | Writing the content of a control anew leaves all its other properties and elements alone; one placeholder flag goes, and the flag for several lines is set exactly if there are several. |
| KeptSource.RenamedControl | backend/app/documents/export.py:150-160 | A new key or label changes the value of one property each, whose other attributes stay, and nothing else in the control. |
| KeptSource.SplitKeeps | backend/app/documents/export.py:205-218 | A split paragraph has all attributes and properties of its source but for the two identifiers and the section boundary, which is gone. |
| KeptSource.RefilledLaysOut | backend/app/documents/export.py:233-245 | A container keeps all its properties in their order, with the blocks before the first section boundary or last. |
| BlockExport.RefilledRenders | backend/app/documents/export.py:233-245 | Rendered blocks between kept properties give the nodes back in order, and column spans stay. |
| DocxExport.DocxExport.Anchor | backend/app/documents/export.py:121-133 | Succeeds exactly for a known, unchanged node of this part that was not used before. |
| DocxExport.DocxExport.Text | backend/app/documents/export.py:381-439 | Succeeds exactly for a text that is neither empty nor too long, holds only characters XML can hold, and has a known mark; importing the run gives text and style back, and the run keeps every property of its source but the toggles chosen anew. |
| DocxExport.DocxExport.ReviewedField | backend/app/documents/export.py:135-160 | Succeeds exactly for an unused control of this part whose new key and label, if they changed, can be written; the edited control imports with them and its old content, and nothing else in it has changed. |
| DocxExport.DocxExport.NewField | backend/app/documents/export.py:441-468 | Succeeds exactly for an unused editor-made identity with writable key and label; the control imports with them and carries a native identifier that neither the source nor any control made before it has. |
| DocxExport.DocxExport.FieldElement | backend/app/documents/export.py:347-372 | Succeeds exactly when the control is kept or new as above and the text written anew can be written; importing it gives key, label and content back, and everything else of a kept control stays; a new control has the four properties it needs and carries its own new identifier. |
| DocxExport.DocxExport.ShapeRun | backend/app/documents/export.py:252-288 | Succeeds exactly for an unused locked run of this part with at most sixteen fills that can be applied; importing it gives it back, locked, with its text; without new fills it is the very element of the source. |
| DocxExport.DocxExport.CheckBoxRun | backend/app/documents/export.py:290-337 | Succeeds exactly for an unused checkbox of this part whose glyphs can be told and written if its state changed; importing it gives the state back. Unchanged it is the source's element; otherwise the glyph the reader sees follows the state and every other text stays. |
| DocxExport.DocxExport.ReplaceInlines | backend/app/documents/export.py:339-379 | Succeeds exactly when each node is accepted and no identity is used twice; importing the new children gives the nodes back one by one, each keeping what its source had, everything made in the editor has a new identifier of its own, and the children register exactly the native identifiers the nodes bring along. |
| DocxExport.DocxExport.NewParagraph | backend/app/documents/export.py:192-218 | Succeeds exactly for an unused identity split off a paragraph that may stand there, with its attributes and accepted inlines; it imports as the node, keeps its source's properties without section boundary, and carries a paragraph identifier that neither the source nor any paragraph made before it has. |
| DocxExport.DocxExport.Blocks | backend/app/documents/export.py:172-245 | Succeeds exactly when nothing but paragraphs comes or goes, no section boundary goes, every block is accepted and no identity is used twice; importing the new children gives the blocks back; unchanged blocks are the source's elements, changed ones and the container keep all their properties; column spans can be told, and the children register exactly the native identifiers the blocks bring along. |
| DocxExport.BoundariesStay | backend/app/documents/export.py:181-188 | Section boundaries are conserved: each paragraph that ends a section is still there and still ends one, and no paragraph written ends one that did not. |
| DocxExport.FixedStay | backend/app/documents/export.py:175-180 | Whatever is no paragraph stays, in its order: an accepted edit adds, removes and moves paragraphs only. |
| RoundTrip.IndexNodes | backend/app/documents/export.py:46-53 | Every source node and mark is filed under its identity. |
| RoundTrip.ImportIsDistinct | backend/app/documents/package.py:121-145 | No identity occurs twice in what is imported from a package. |
| RoundTrip.Render | backend/app/documents/export.py:55-119 | A document is accepted exactly if it is acceptable (edits the exporter can make, identities used once, the same locked elements): the import at the end never refuses. It then imports again as the same document up to identities, fills and run boundaries, identities one to one. Every part keeps all that was not edited: unchanged parts and blocks are the source's own, every property of a paragraph, run, control, table or section the editor does not show stays where it stood. Across all parts each control and paragraph made in the editor has its own new native identifier, one that no part of the package uses, imported or not, and stands under it in the part written. An unchanged document comes back as the very same parts exactly if its texts can be written. |
| NativeIds.AllByIdentity | backend/app/documents/package.py:142-145 | The native identifiers of a document, in order, can be read off its identities. |
| Reread.PartAreValues | backend/app/documents/export.py:60-64 | Every native identifier an import registers is among those collected from the identifier elements before rendering. |
| Reread.ValuesMean | backend/app/documents/export.py:60-64 | The values collected are those of the elements that stand anywhere in the tree. |
| Reread.BlocksOwned | backend/app/documents/export.py:172-245 | Every identity in accepted blocks is one of the part or made in the editor, and a node brings along what the node known under its identity does. |
| Reread.AcceptedApart | backend/app/documents/package.py:259-269 | Accepted blocks bring no native identifier along twice, whatever is kept, moved or new among them. |
| RoundTrip.AllImportable | backend/app/documents/export.py:117-119 | Every part written for accepted sections can be imported: the import that ends a rendering never refuses. |
| RoundTrip.AllIdentified | backend/app/documents/export.py:192-218 | Every part written holds exactly the native identifiers its section brings along, new ones included, and each new paragraph stands there under its own paragraph identifier. |
| RoundTrip.UnchangedAcceptable | backend/app/documents/export.py:55-119 | A document nobody edited is acceptable exactly if every text standing directly in a paragraph may be written in one run. |
| RoundTrip.LongRun | backend/app/documents/export.py:381-384 | A package the importer reads although its export is refused. |
| RoundTrip.StrayBlock | backend/app/documents/package.py:160-201 | A package the importer reads, whose document has only texts that can be written and yet breaks the editor's schema. |
| RoundTrip.AcceptableFits | backend/app/documents/export.py:172-245 | Whatever can be written keeps the editor's schema if the tables of the package are regular. |
| RoundTrip.RenderAndMatch | backend/app/documents/rebase.py:63-105 | A document whose export was accepted is matched to it exactly if it keeps the editor's schema: always if the tables of its package are regular, and unedited in no other case. The export can then be indexed itself, and the identities are those of the correspondence. |
| ImportSchema.ImportFits | backend/app/documents/package.py:160-201 | The import of a package keeps the editor's schema exactly if in every part, properties aside, tables hold only rows, rows only cells, and neither stands elsewhere; no text in it is empty. |
| ImportSchema.SameFits | backend/app/fields/working.py:58-98 | A document that corresponds to one keeping the editor's schema, and has no empty text, keeps it too. |
| ImportSchema.BlocksStay | backend/app/documents/export.py:172-245 | Blocks the exporter accepts for a place fit there if the blocks of the source did. |
| ImportSchema.ControlsDistinct | backend/app/fields/working.py:99-125 | Where no identity is repeated no control is. |
| Lifecycle.MatchPairs | backend/app/documents/rebase.py:79-91 | A document is matched to a package exactly if it is the same as the package's import and repeats no identity. |
| Lifecycle.ImportMatches | backend/app/documents/rebase.py:63-105 | The import of a package matches that package, as an upload or a new copy must. |
| Lifecycle.MatchIsSound | backend/app/fields/validation.py:11-56 | In a document that keeps the schema and matches a package no two paragraphs clash, none is without a part, and no control occurs twice in one. |
| Lifecycle.Match | backend/app/documents/rebase.py:63-105 | Reading the package and matching the document to it succeeds exactly if the document keeps the schema and matches. |
| Lifecycle.Inspect | backend/app/jobs/worker.py:91-122 | Processing fails only where matching does: everything is found, the snapshot is valid, every control is in it. An upload is processed exactly if the tables of its package are regular. |
| Lifecycle.Prepare | backend/app/documents/rebase.py:134-140 | Preparing a copy succeeds exactly for a validated document that matches its package; indexing the copy never fails. |
| Lifecycle.CopyDocument | backend/app/documents/copies.py:32-107 | A validated document that matches its package can be copied, with its review and any valid discoveries, and in no other case. Spans and missing items say in the copy what they said in the source, live controls and discoveries name what corresponds, under the copy's own keys and labels; the copy is validated, matches the package, and its discoveries are valid, so it can be copied again. |
| Lifecycle.SaveProcessCopy | backend/app/documents/saves.py:33-61 | A document is saved exactly if it is validated, its values are of their types and it can be written; whatever was saved can be processed and copied with what was found. |
| RoundTrip.Open | backend/app/documents/export.py:37-44 | A readable package yields an exporter that satisfies everything rendering relies on: each node is known under the element that stands at its place. |
| Pagination.NoFewerPages | frontend/src/editor/pagination.ts:18-29 | For nondecreasing nonnegative tops no valid division has fewer pages. |
| Pagination.PageStarts | frontend/src/editor/pagination.ts:18-29 | Starts strictly increase, the division is valid, and it is optimal. |

## Left out

- Processes inside the class methods: `StorageService` and `DocumentService` run one call undisturbed; interleaving, locks
  and crashes are in `StorageMachine`, whose steps the classes are proved to take.
- The account lock: row locks are modelled as atomic transactions, the lock held from publish to commit as an explicit
  flag of the machine.
- fsync, directory modes and inode allocation: a completed link or unlink survives a crash; device space is whatever the
  environment reports.
- The `finalize` callback: abstract effects, recorded once per commit; what it writes for a document is the document model.
- Sessions, owners' states and user roles: flags the environment sets.
- Audit rows, the dispatch timestamp and its retry interval, and the queue itself: a queue may lose any job at any time.
- The paging cursors of `reconcile`, `reconcile_accounts` and `prune`: a batch is any list.
- DocumentService.Workspace.Copy: that only a template may be copied is not modelled, because the kind of a document plays
  no other part; the inspection of the source is cloned as `Copying.RebaseDiscovery` does it.
- Liveness of processing: a job gone stale in trash stays so; only the measures above are claimed.
- SHA-256: an injective constructor for digests; the hash that starts a probe is any function.
- Regular expressions and labels: patterns are any functions with ordered disjoint matches; candidates' labels, keys,
  contexts and reasons, and the grouping by key, are not modelled.
- ReviewTheorem.AttachReview: one item for each occurrence; candidates, their identifiers and decisions are not modelled, and
  label and key of a proposal stay blank, because they are not part of its anchor.
- Size caps of reviews, snapshots, contexts and documents: not checked; `discover` fails on a blank longer than its cap.
- DocumentTheorems.OneVersionPerFile: identifiers derived by name from a file's are modelled as fixed offsets of it; that
  the two namespaces of initial and saved versions never collide is taken for granted.
- The `sourceVersion` and origin of a review: `bind` sets them and nothing here depends on them.
- ProseMirror transactions and `mappedReview`: only node sizes and positions are modelled.
- Archives, XML parsing and serialisation, relationships, deadlines: a package is a list of named element trees, so a
  text with a character XML cannot hold could be in it, though no parser yields one.
- The text after an element's end tag: labels of locked elements are their own and their descendants' text.
- `int` of a column span: decimal digits only; the signs, spaces and separators Python also accepts count as no number.
- A control keyed by the text of its own identity although it is tagged: keys are either tagged or the control's own, and
  render refuses to write the control's own.
- DocxExport.DocxExport.ShapeRun: recolouring is any function that keeps the run locked, its text and the native identifiers
  in it, because fills are attributes the importer never reads.
- RoundTrip.Render: the bounds on a package (entries, sizes, number of elements, time), which the final import applies
  again, are not modelled.
- Lifecycle.SaveProcessCopy: whether controls hold values of their types is a parameter, because the types and decisions of
  a review are not modelled.
- Restoring as one operation: it validates and matches exactly as `Lifecycle.Prepare` does and indexes no copy.
- Native identifier tables: fewer than 2147483647 identifiers are in use, as the element cap guarantees.
- HTTP, accounts, presentation, borders, localisation and deployment.
