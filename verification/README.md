# Verified model of the h annotation server

This project models the parts of `h` whose correctness is not local to one function, and proves
what they promise over every input and every run. `dafny verify dfyconfig.toml` checks it.

## What is modelled

**Keeping Elasticsearch in step with Postgres.** An annotation lives in a table and, as a
document, in a search index. Every transaction that changes an annotation also queues a job that
stays invisible for a minute; handlers write the index after the commit and may be slow or fail;
`sync` runs periodically and drops a job only on sight of agreement. `AnnotationStore` holds the
two copies and the transactions, `AnnotationSync` and `JobQueue` the services as classes,
`SyncTimed` the protocol in which reads and writes of the index are separate steps in time,
`SyncAtomic` the one in which handlers are atomic and contents can be followed, and `SyncDrain`
what repeated runs of `sync` achieve. The class methods are proved to take exactly the steps of
these machines. `SystemRuns` runs the services, the purge and `sync` together against the atomic
protocol, and `SystemTimed` against the timed one. A *view* is what `sync` compares: presence,
`updated` and `user`; a document with neither counts as absent.

**The tables around annotations.** `Tables` has the relational tables with their keys and
cascades. `SlimMirror` and `AnnotationWrite` have the write services and the denormalised
`annotation_slim` table, and tie each write to a transaction of the protocol above.
`SearchIndex` has the direct index writes with their recursion to the root of a thread.

**Purging deleted users a few rows at a time.** `PurgeLog` describes a run as the log of
its limited statements, `PurgeRuns` whole sequences of runs, and `UserDelete` the periodic purge
itself, whose method is proved to produce such a run.

**Permissions.** `Predicates` expands predicates that require others into flat clauses, for any
acyclic requirements; `Permissions` has the actual predicates, requirements and permission map, and
proves that evaluating them amounts to a policy written without any of that machinery.

**Codecs and canonical forms.** `UrlSafeUuid` (with `Base64Url`), `Selectors`, `UriPath` (with
`Percent`), `UriQuery` (with `Sorting`) and `Orcid`. Text is a sequence of octets in paths and
queries, and of characters elsewhere.

**Two loop algorithms.** `Bucketing` and `Paginator`.

Clocks, keys of new rows, the choice that a query with LIMIT leaves open, and which index writes
fail are parameters or unspecified choices, so the theorems hold for all of them. Times are whole
microseconds.

### Where the code and its own comments differ

* `h/security/permission_map.py:47` says that any logged-in user can flag what they can see. A user
  who sees a group only through a client of the group's authority cannot:
  `Permissions.FlaggingIsForReaders` and `Permissions.ReaderWhoMayNotFlag`.
* Line 80 of the same file says that the creator of an annotation always has the permissions to update
  and delete it; the creator has them exactly while it is live: `Permissions.CreatorsEditWhileLive`.
* `h/services/annotation_sync.py:31-34` says that a job stays queued to be checked again after its
  annotation was synced. Forced jobs do not (lines 50-55), so a failed index write of a forced job
  can lose an update that left `updated` alone: `SyncAtomic.LostForcedWriteLosesContent`. When
  exactly content is lost is said by `SyncAtomic.ContentIsSafeExactlyWhenNothingIsLost`.
* `h/db/types.py:139-145` says that NUL characters are escaped transparently. Text that contains the
  escape sequence itself comes back as a NUL character: `Selectors.StoredTextReadsBack` and
  `Selectors.LiteralEscapeIsLost`.
* `h/util/uri.py:79-80` says that tracking parameters are stripped, and line 148 that the result is
  a normalised form. Names and values of a query are decoded twice, and names are looked up
  after the first time only, so that normalising again can change the result: `%2567clid=1` becomes
  `gclid=1`, a tracking parameter, and that becomes the empty query
  (`UriQuery.TwiceEncodedIsNotStable`). When nothing changes is said by `UriQuery.NormalisingAgain`.

## Model

| member | source | states |
|---|---|---|
| SyncTimed.SafeExactlyWhenHandlersAreFast | h/services/annotation_write.py:84-89 | over all interleavings of transactions that take time, index reads, landings, losses and `sync`, no state has differing views without a queued non-forced job, if and only if the longest time from scheduling a job to its commit plus the longest time from a database read to its index write fits into the 60 s for which writers hold back their job |
| SyncTimed.RunKeepsInv | h/services/job_queue.py:20-32 | the strengthened invariant behind it (a stale write in flight is covered by a job that is still invisible while the write can land) holds along every run |
| SyncTimed.StepKeepsInv | h/services/annotation_sync.py:45-86 | each kind of step keeps that invariant |
| SyncTimed.SlowHandlerIsUnsafe | h/services/search_index.py:30-49 | whenever the two bounds together exceed 60 s, a concrete run drops both jobs and then lets the old document land |
| SyncDecision.DecisionIsSound | h/services/annotation_sync.py:50-78 | a job is completed iff it is forced or the views agree, indexed iff forced or a live row differs from the index, and a document is deleted iff its row is gone; so every other job causes the write that repairs it |
| AnnotationStore.CommitWatchesItsChanges | h/services/job_queue.py:85-127 | a transaction that moves a view also commits a non-forced job for that annotation, held back for a full minute from the moment at which this one job was queued, and removes no job |
| AnnotationStore.DeletionIsFinal | h/services/annotation_delete.py:23-42 | ids are never reused, so an annotation that left the live set does not come back |
| SyncAtomic.SafeWithoutTiming | h/services/annotation_sync.py:45-86 | with atomic handlers every interleaving is safe, even if any index writes inside `sync` are lost |
| SyncAtomic.ExpungeIsInvisible | h/services/annotation_delete.py:54-77 | expunging rows marked as deleted more than ten minutes ago changes no view |
| SyncAtomic.ContentIsSafeExactlyWhenNothingIsLost | h/services/annotation_write.py:144-153 | along a whole run every differing content has a queued job, a forced one if the views agree, if and only if no step is one of the two losses below |
| SyncAtomic.TransactionLosesExactly | h/services/annotation_sync.py:91-96 | a transaction breaks this iff it is a stamped update of a live row that repeats the timestamp of the indexed document, for the same user and another content, while no forced job is queued |
| SyncAtomic.SyncLosesExactly | h/services/annotation_sync.py:50-55 | `sync` breaks it iff it takes the last forced job of an annotation whose contents differ while the views agree, and its index write is lost |
| SyncAtomic.HandlersKeepContent | h/services/search_index.py:30-83 | handlers never break it |
| SyncAtomic.SilentUpdatesAreNotLost | h/services/annotation_write.py:144-153 | in particular it holds along every run whose stamped updates bring a timestamp other than the indexed one and whose forced writes succeed |
| SyncAtomic.LostForcedWriteLosesContent | h/services/annotation_sync.py:50-55 | a run with increasing timestamps, in which the write of one forced job is the only one lost, loses a silent update |
| SyncAtomic.RepeatedTimestampLosesContent | h/services/annotation_sync.py:91-96 | a run in which no write is lost loses an update that repeats a timestamp |
| SyncAtomic.SyncOutcome | h/search/index.py:35-67 | after `sync` the document of an id is the old one or the current live one, and the latter when a job for it was forced or compared and the write was not lost |
| SyncDrain.SyncLowersWeight | h/services/annotation_sync.py:80-86 | counting a job twice while its annotation is out of date, one run lowers the total by at least the size of its batch |
| SyncDrain.SyncConverges | h/services/annotation_sync.py:36-86 | from any reachable state, ceil(2 * jobs / limit) + 2 runs empty the queue, and then all views agree |
| SyncDrain.ContentsConvergeExactlyWhenSafe | h/services/annotation_sync.py:36-86 | and then all contents agree, silent updates included, if and only if the state the runs start from is content-safe; after a run that loses nothing they do |
| SyncDrain.BatchesExist | h/services/annotation_sync.py:36-37 | so many batches, each as large as the limit and the queue allow, can be drawn from every state |
| AnnotationSync.AnnotationSyncService.Sync | h/services/annotation_sync.py:19-88 | the method takes a batch that the queue may select and changes queue and index exactly as one `Sync` step of the protocol |
| AnnotationSync.AnnotationSyncService.Classify | h/services/annotation_sync.py:41-78 | the loop fills the three sets of the counter with what the decision says of every job |
| AnnotationSync.AnnotationSyncService.ClassifyJob | h/services/annotation_sync.py:50-78 | one job goes to the sets that its decision names |
| AnnotationSync.FetchedViews | h/services/annotation_sync.py:99-181 | for non-forced jobs the two fetched dictionaries hold exactly the views |
| AnnotationSync.BatchIndexer.Index | h/search/index.py:35-67 | indexes the live rows among the ids, skips deleted ones, and returns the ids whose write failed |
| AnnotationSync.BatchIndexer.Delete | h/search/index.py:69-105 | the given ids become tombstones |
| JobQueue.SelectionExists | h/services/job_queue.py:20-32 | the selection (visible, unexpired, by priority then age, at most `limit`, no better row left out) always exists |
| JobQueue.JobQueueService.Get | h/services/job_queue.py:20-32 | returns such a selection |
| JobQueue.JobQueueService.Delete | h/services/job_queue.py:34-36 | removes exactly the given jobs |
| SystemRuns.SystemIsSafe | h/services/annotation_sync.py:45-86 | any run of write services, purge statements, index writers and `sync` on one database and one index follows a legal run of the atomic protocol, and so is safe, mirrored, consistent and ordered by threads |
| SystemRuns.StepRefines | h/services/search_index.py:30-49 | each single step is a run of the protocol: one transaction or none, one index write for each annotation visited up to the thread root, or one `sync` |
| SystemRuns.SystemConverges | h/services/annotation_sync.py:36-86 | from any state so reached, the bounded number of `sync` runs makes all views agree, and all contents if and only if that state is content-safe |
| SystemTimed.SystemIsSafeExactlyWhenFast | h/services/annotation_write.py:84-89 | the same services, purge and `sync` with handlers that read first and write later, and transactions that take time: safe in every run if and only if commit and index write together fit into the 60 s |
| SystemTimed.StepFollows | h/services/user_delete.py:181-190 | each single step is at most one step of the timed protocol, bulk deletions with a moment of its own for each job included |
| SlimMirror.SlimRowsAlwaysMirror | h/models/annotation_slim.py:25-95 | from empty tables, after any writes, purges and cascades, every slim row equals the projection of its annotation |
| SlimMirror.OpKeepsInv | h/services/annotation_write.py:157-179 | each single operation keeps the mirror and all unique and foreign keys |
| SlimMirror.UpsertRestoresMirror | h/services/annotation_write.py:221-273 | an upsert repairs the one row that may be out of date; its early return is harmless because an existing slim row pins its user and group |
| SlimMirror.WritesAreTransactions | h/services/annotation_write.py:39-155 | on annotations and jobs every operation is exactly one transaction of the protocol, or none |
| Tables.MirrorImpliesSlimKeys | h/models/annotation_slim.py:25-95 | the foreign keys of annotation_slim follow from the mirror |
| AnnotationWrite.AnnotationWriteService.UpsertAnnotationSlim | h/services/annotation_write.py:221-273 | insert, update on conflict, or the early return |
| AnnotationWrite.AnnotationWriteService.AddById | h/services/job_queue.py:51-61 | inserts one job iff the annotation row exists |
| AnnotationWrite.AnnotationWriteService.CreateAnnotation | h/services/annotation_write.py:39-91 | which check fails first, nothing written if one does, otherwise the created row in the group of its thread root, slim row and job |
| AnnotationWrite.AnnotationWriteService.UpdateAnnotation | h/services/annotation_write.py:93-155 | the same for updates, with a forced job iff the timestamp is kept |
| AnnotationWrite.AnnotationWriteService.Hide | h/services/annotation_write.py:157-162 | afterwards the annotation is moderated; keys and mirror hold, and the protocol sees no change |
| AnnotationWrite.AnnotationWriteService.Unhide | h/services/annotation_write.py:164-167 | the same for the reverse |
| AnnotationWrite.AnnotationWriteService.ChangeDocument | h/services/annotation_write.py:169-179 | no annotation points at an old document other than the new one; keys and mirror hold, and the protocol sees no change |
| AnnotationWrite.AnnotationDeleteService.Delete | h/services/annotation_delete.py:23-42 | keys and mirror hold, and the protocol sees one marking transaction with its job |
| AnnotationWrite.AnnotationDeleteService.DeleteAll | h/services/annotation_delete.py:44-52 | afterwards each given annotation is deleted and has a job of its own, no other row has changed, and keys and mirror hold |
| AnnotationWrite.DeletionJobsAreNew | h/services/annotation_delete.py:44-52 | those jobs were not queued before, since their keys are new |
| AnnotationWrite.AnnotationDeleteService.BulkDelete | h/services/annotation_delete.py:54-77 | expunges only rows marked as deleted more than ten minutes ago, as many as are due up to 1000 |
| SearchIndex.ThreadsAreOrdered | h/services/annotation_write.py:47-57 | in every reachable store `references[0]` names an annotation created strictly earlier |
| SearchIndex.OpKeepsThreadOrder | h/schemas/annotation.py:200-202 | no operation breaks that order, since updates cannot change references |
| SearchIndex.VisitedIsLive | h/models/annotation.py:211-223 | everything visited on the way to the thread root is live |
| SearchIndex.SearchIndexService.AddAnnotationById | h/services/search_index.py:30-49 | terminates, and leaves the current document of every visited annotation in both indexes and everything else alone |
| SearchIndex.SearchIndexService.AddAnnotation | h/services/search_index.py:51-66 | a deleted annotation is not indexed |
| SearchIndex.SearchIndexService.DeleteAnnotationById | h/services/search_index.py:68-83 | afterwards the synchronisation sees no document |
| SearchIndex.SearchIndexService.IndexAnnotationBody | h/services/search_index.py:116-132 | a re-index in progress receives every write as well |
| PurgeLog.BudgetIsNeverExceeded | h/services/user_delete.py:346-353 | a run charges at most its budget |
| PurgeLog.LogShrinks | h/services/user_delete.py:311-353 | every charged row is a row less that belongs to the users being purged, and no statement adds one, cascades included |
| PurgeLog.LogKeepsInv | h/services/user_delete.py:118-268 | all steps that the database accepts keep the keys and the slim mirror |
| PurgeLog.PurgeFrame | h/services/user_delete.py:139-194 | over any sequence of partial runs: live annotations of others are untouched, groups holding one survive, others keep their memberships of surviving groups, and for each newly deleted annotation a new job was added, and its slim row matches |
| PurgeLog.EventKeepsExhausted | h/services/user_delete.py:92-101 | a step that has nothing left to do gets nothing to do again by later steps, nor, once all are done, by the purge of another user |
| PurgeLog.ExhaustedMeansNothingLeft | h/services/user_delete.py:118-268 | when no step has anything left to do, no table holds a trace of the user: no ticket, token, flag, cohort row, membership, created group, slim row, live annotation or user row |
| PurgeRuns.RunShrinks | h/services/user_delete.py:311-353 | a run lowers what the named users own by at least what it charges |
| PurgeRuns.RunMakesProgress | h/services/user_delete.py:65-107 | a run that fetched a job lowers rows plus queued jobs, and the bound below by one; rows are those owned by the users that queued jobs name |
| PurgeRuns.RunsAreBounded | h/services/user_delete.py:65-107 | at most floor(rows / limit) + ceil(jobs / limit) runs find a non-empty queue, however much other users own |
| PurgeRuns.RunsSpareOtherUsers | h/services/user_delete.py:219-264 | over any number of runs the frame holds for everyone whom no queued job names |
| PurgeRuns.PurgeFinishes | h/services/user_delete.py:92-105 | after that many runs the queue is empty, and no table holds a trace of any named user |
| UserDelete.LeftoverMeansExhausted | h/services/user_delete.py:346-353 | a statement that leaves budget over has exhausted its rows |
| UserDelete.AccountIsDeletable | h/services/user_delete.py:266-268 | when the ninth step runs, no foreign key without a cascade points at the user, so the database does not refuse |
| UserDelete.UserDeleteService.DeleteUser | h/services/user_delete.py:30-63 | marks the account as deleted, records who asked for it and how many annotations it had, and queues a purge job that names the user and is due from the next moment on |
| UserDelete.LimitedWorker.Execute | h/services/user_delete.py:346-353 | refuses on an empty budget, otherwise affects as many selected rows as the budget allows and charges exactly those |
| UserDelete.UserDeleteService.MarkAnnotations | h/services/user_delete.py:139-194 | rows, slim rows and one job for each of the rows |
| UserDelete.UserDeleteService.Perform | h/services/user_delete.py:118-268 | one step, logged and charged; completed with budget over it is exhausted |
| UserDelete.UserDeleteService.PurgeUser | h/services/user_delete.py:91-103 | completed implies that nothing of the user is left; otherwise the budget is spent and the user row still there |
| UserDelete.UserDeleteService.Fetch | h/services/user.py:61-72 | cached answers stay right although rows vanish during the run |
| UserDelete.UserDeleteService.PurgeDeletedUsers | h/services/user_delete.py:65-107 | one run is a valid run: a selected batch, at most `limit` rows charged, completed jobs have no user left, and either all fetched jobs are completed or exactly `limit` rows were charged |
| Predicates.ExpansionIsTheOrderedClosure | h/security/predicates.py:180-201 | for any acyclic requirements the expansion is the least closed set around the clause, without duplicates, every element after all of its ancestors |
| Predicates.ExpansionKeepsTheMeaning | h/security/predicates.py:164-177 | short-circuit evaluation of the expansion equals the recursive reading of the requirements, exceptions included |
| Predicates.ReachedMeansAncestorsHold | h/security/predicates.py:192-201 | when a body is run, all its ancestors have been run and were true |
| Predicates.GuardedNeverRaises | h/security/predicates.py:41-44 | bodies that cannot raise once their requirements hold never raise in an expanded clause |
| Predicates.YieldPredicate | h/security/predicates.py:192-201 | the generator with its shared mutable set computes the specified expansion |
| Predicates.ExpandClause | h/security/predicates.py:180-189 | so does the expansion of a clause |
| Permissions.EvaluationIsThePolicy | h/security/permits.py:22-42 | for every identity, context and permission, evaluating the expanded map grants exactly what the policy says and never raises |
| Permissions.ReferencesLeadDown | h/security/permission_map.py:58-91 | references between permissions go to a lower rank, so evaluation terminates |
| Permissions.BodyIsFact | h/security/predicates.py:36-161 | given its requirements a body computes its fact without raising, and without them the fact is false |
| Permissions.DeletionRevokes | h/security/permission_map.py:60-82 | nobody may read, flag, moderate, update or delete a deleted annotation, while notifications go to the same people as before |
| Permissions.CreatorsEditWhileLive | h/security/permission_map.py:80-82 | the creator of an annotation may update and delete it iff it is not deleted |
| Permissions.FlaggingIsForReaders | h/security/permission_map.py:41-50 | whoever may flag may read; the converse holds for exactly those who do not see the group through a client only |
| Permissions.ReaderWhoMayNotFlag | h/security/permission_map.py:46-50 | such a user exists |
| Base64Url.DecodeEncode | h/db/types.py:96-97 | bytes survive base64url |
| Base64Url.EncodeDecode | h/db/types.py:64-66 | sextets survive decoding iff no bits are dropped |
| UrlSafeUuid.AcceptedIds | h/db/types.py:46-76 | accepted are exactly the ids of 20 or 22 characters of base64, although the decoder itself skips stray characters |
| UrlSafeUuid.HexRoundTrip | h/db/types.py:79-97 | every 32-digit hex id, with or without the magic nibbles, survives encoding and decoding |
| UrlSafeUuid.TextRoundTrip | h/db/types.py:46-97 | every URL-safe id of 20 characters survives decoding and encoding; one of 22 does iff its last character carries two bits only and it does not decode to the magic nibbles |
| UrlSafeUuid.EncodingIsInjective | h/db/types.py:79-97 | different ids get different encodings |
| UrlSafeUuid.EncodedShape | h/db/types.py:117-133 | flake ids encode to 20 characters and ordinary ones to 22 |
| UrlSafeUuid.SpecifiedUuidsAreNotFlakes | h/db/types.py:99-117 | a UUID of a specified version or variant (section 4.1 of RFC 4122) is never shortened, a flake id always |
| UrlSafeUuid.MagicByteRoundTrip | h/db/types.py:120-133 | inserting and removing the nibbles undo each other, the second way iff they are there |
| UrlSafeUuid.SpellingIsIrrelevant | h/db/types.py:89-90 | a value made of hexadecimal digits and hyphens is accepted iff it has exactly 32 digits; two of them then give the same id iff their digits are the same in lower case, and it reads back as those digits |
| Selectors.StoredTextReadsBack | h/db/types.py:181-192 | text survives being stored and read iff it does not contain the escape sequence literally, and what is stored never contains NUL |
| Selectors.LiteralEscapeIsLost | h/db/types.py:181-192 | the escape sequence alone is such a text: it comes back as a NUL character |
| Selectors.ReadTextStoresBack | h/db/types.py:181-192 | text without NUL survives being read and stored again, and only such text |
| Selectors.TransformQuoteSelectors | h/db/types.py:157-178 | the three texts of every text quote selector are transformed in place, and nothing else |
| Percent.UnquoteQuote | h/util/uri.py:254-255 | percent-encoding is undone by decoding for any octets and any safe set without the percent sign |
| UriPath.NormalizePath | h/util/uri.py:241-251 | the loop and the segment-wise rebuild compute the canonical path |
| UriPath.SegmentIsNormal | h/util/uri.py:254-255 | a normalised segment has the same data, gains no slash, and is stable |
| UriPath.NormalPathShape | h/util/uri.py:241-251 | the segment boundaries stay, and no slash ends the path |
| UriPath.NormalPathIsIdempotent | h/util/uri.py:241-255 | normalising twice changes nothing |
| UriPath.NormalPathsAgree | h/util/uri.py:241-255 | two paths share their canonical form iff their decoded segments are equal once trailing slashes are dropped |
| Sorting.SortedIsUnique | h/util/uri.py:267-269 | a stable sort is determined by what is filed under each key |
| UriQuery.CanonicalItemsAgree | h/util/uri.py:258-272 | two queries keep the same items in the same order iff every name that is not blacklisted has the same values in the same order |
| UriQuery.TrackingIsIgnored | h/util/uri.py:271-272 | inserting any tracking parameters anywhere does not change the result |
| UriQuery.OrderOfNamesIsIrrelevant | h/util/uri.py:267-269 | nor does exchanging neighbouring blocks without a common name |
| UriQuery.CanonicalFormReadsBack | h/util/uri.py:280-293 | the result parses again, to the kept items decoded a second time |
| UriQuery.CanonicalFormsAgree | h/util/uri.py:258-293 | results are equal iff those twice decoded items are |
| UriQuery.NormalisingAgain | h/util/uri.py:258-293 | normalising twice changes nothing iff the query does not parse, or its twice decoded items are in order, free of tracking parameters and stable under one more decoding |
| UriQuery.OnceEncodedIsStable | h/util/uri.py:258-293 | so it changes nothing for queries in which nothing is left to decode after parsing |
| UriQuery.TwiceEncodedIsNotStable | h/util/uri.py:258-293 | but it does change `%2567clid=1`, which first becomes a tracking parameter and then nothing |
| Bucketing.Bucket | h/activity/bucketing.py:157-178 | the objects returned show exactly the frames specified, each with valid document buckets |
| Bucketing.FramesSliceTheInput | h/activity/bucketing.py:173-176 | joined together the frames are the input: nothing is lost, repeated or moved |
| Bucketing.FramesAreTheLabels | h/activity/bucketing.py:134-154 | for sorted input the cutoffs strictly decrease and each frame holds, in order, all annotations with its label, at least one |
| Bucketing.MembersAreWithinTheirCutoff | h/activity/bucketing.py:104-122 | a member meets the cutoff of its own frame and of no earlier one, and month frames hold one month |
| Bucketing.ExactlyOneFrame | h/activity/bucketing.py:157-178 | each annotation is in exactly one frame, and there in the bucket of its document only |
| Bucketing.CutoffDecides | h/activity/bucketing.py:147-154 | for the next annotation in order, the cutoff of the current frame decides whether it belongs there |
| Bucketing.AppendToBucket | h/activity/bucketing.py:53-56 | a document bucket holds the in-order subsequence of its document with all its tags and users |
| Bucketing.Timeframe.AppendAnnotation | h/activity/bucketing.py:88-102 | keeps one such bucket for each document, in order of first appearance |
| Bucketing.TimeframeGenerator.Next | h/activity/bucketing.py:135-154 | returns the frame that an annotation belongs to |
| Orcid.ChecksumDigit | h/accounts/util.py:55-75 | the check character makes the weighted sum 1 modulo 11 |
| Orcid.ValidateOrcid | h/accounts/util.py:34-52 | accepts exactly well-formed iDs with the right sum, and tells the two errors apart |
| Orcid.CheckCharacterDetects | h/accounts/util.py:66-75 | for any length, changing one digit or swapping two different neighbours changes the check character |
| Orcid.ErrorsAreRejected | h/accounts/util.py:34-52 | no such error leads from one accepted iD to another, even when it involves the check character |
| Paginator.Paginate | h/paginator.py:7-67 | current page clamped, neighbours, and a switcher that shows exactly the ends and up to three pages around the current one, in at most 11 entries, with an ellipsis exactly where pages are skipped |
| Paginator.NumbersIncrease | h/paginator.py:29-67 | the page numbers strictly increase |
| Paginator.PagesCoverTheTotal | h/paginator.py:8-10 | the number of pages is the least that covers the results, and at least one |
| Paginator.PagesPartitionTheResults | h/paginator.py:130-140 | the windows of all pages joined together are the results, and none of them is empty unless there are no results |

## Left out

- Job expiry: modelled where jobs are selected, and safety holds regardless of it; convergence speaks of batches drawn from all queued jobs, that is of visible and unexpired ones, since an unexpired job is what the system relies on.
- Resolving a target URI and its metadata to a document, checking group scopes and asking for the write permission: the write services take the outcomes as parameters; extra metadata of annotations.
- Metrics: the counts and tags that `sync` returns; they do not influence what is written.
- One call of `sync` observes table and index at one moment, and searches see every landed write (the refresh interval of the index is not modelled); a bulk write that reads its row later than that is a read of its own in the timed protocol.
- Bulk deletion inside `sync` in the timed protocol: decided when `sync` runs and landing any time later; since deletion is final this admits more runs, not fewer.
- `enqueued_at` and `expires_at` of a job are taken at the moment it is scheduled, not at the start of its transaction; they only order and expire jobs.
- Job names: the job table is one table filtered by name; here sync jobs and purge jobs are two sets, and the one-off job that fills annotation_slim appears as a backfill operation.
- `handle_annotation_event`: choosing between a direct write and a Celery task; both are index reads and landings of the timed protocol.
- Malformed userids in purge jobs, which raise, and rows with cascades that the purge never selects (user identities, authorisation codes).
- The same selector object twice in one list; lists come from JSON, so their elements are distinct.
- Document buckets are values inside a time frame, so aliasing between buckets is not captured; title, URI and domain of a document are not part of a bucket here.
- User rename, moderation and NIPSA flags in index documents, thread ids and shared document metadata.
- Expunging takes up to 1000 rows at a time; the model allows any set of such rows.
- The exception mechanism by which a permission inside a clause is told from a predicate; elements are a sum type here.
- UrlSafeUuid.SpellingIsIrrelevant: speaks of values made of hexadecimal digits and hyphens; other spellings that the UUID parser understands (a `urn:uuid:` prefix, braces, digits in Python's integer syntax) and values that are not text are not modelled.
- UTF-8 replacement of invalid sequences and the splitting of URLs; paths and queries are octets.
- Non-ASCII letters that Python folds to ASCII when it ignores case (the long s and the Kelvin sign in x-amz-security-token).
- Scheme, host and port normalisation, profile URLs, and the activity search grammar.
- The page count is computed in floating point by the original; the model divides integers.
