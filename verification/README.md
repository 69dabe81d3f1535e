# CivicOS: a Dafny model of the ingestion, indexing, briefing and evidence cores

The project models the stateful parts of CivicOS and proves what they keep, over every input,
every run and every interleaving. `dafny verify dfyconfig.toml` checks all of it.

Each SQL transaction is one atomic step. Where the program updates rows in place, a class holds the
tables, its methods follow the statements, and each method is proved equal to a step function on
the tables; the theorems are about those functions over all sequences of steps. Functions that the
program writes as expressions are functions here.

## How the files fit together

- **Leases** (`Leases`): the lease columns and the length of a lease, shared by the three job queues.
- **Refresh protocol** (`IngestionProtocol`, `IngestionInvariants`, `IngestionTheorems`, `IngestionRequests`,
  `IngestionSchedules`, `IngestionLifecycles`, `IngestionWitnesses`, `IngestionDatabase`): runs, per-source rows, scans, leased jobs and the workers
  that claim, crash, outlive their lease and report late. One supply of fresh numbers issues runs, scans
  and lease tokens, so comparing numbers compares moments.
- **Vector outbox** (`VectorOutbox`, `VectorFreshness`, `VectorRetries`, `VectorOutboxDatabase`): triggers that
  requeue a job and revoke its lease, completion fenced by the token, and the return of failed and abandoned jobs.
- **Briefings** (`BriefingJobs`, `BriefingReaders`, `BriefingDatabase`): at-least-once work with exactly-once publication. The
  content type is a parameter. The founder brief is the same protocol without subscriptions.
- **Crawler and URL policy** (`Crawler`, `UrlPolicy`): a bounded breadth-first search over an arbitrary,
  possibly infinite web.
- **Evidence store** (`RawEvidence`, `DiscoveryService`): versions of raw documents, observations and the
  counters of a scan.
- **Canonical records** (`CanonicalRecords`, `CanonicalStore`, `CanonicalDrafts`, `Backfill`): snapshots, the change log and the
  rebuild from stored versions.
- **Search** (`StableSort`, `SearchFusion`, `HybridSearch`): reciprocal-rank fusion and the keyword fallback.
- **Rate limiter** (`RateLimiter`): the pruned deque against the full history.
- **Text and evidence spans** (`Strings`, `TextCleaning`, `TextWords`, `SpanLists`, `EvidenceSpans`,
  `SpanMeanings`, `SummaryEvidence`): cleaning, what it does to words, values of patterns, and the text a commercial signal
  or a summary quotes.
- **Grounded claims** (`Distinct`, `GroundedAnswers`, `Notebooks`): answers and notebook summaries bound to the
  evidence they cite.

## Where the code does not keep a stated or natural property

Each of these is proved, most of them together with the exact condition under which the property holds.

- A running refresh can still end iff some worker knows its scan (`RunningRowEndsIff`). One whose scan was
  started by a worker that never learned of it runs for ever, and every later request for its source is
  refused (`StuckForever`, `StuckIsReachable`).
- A completion that commits but is not acknowledged is followed by a failure report: the scan row turns
  failed while the refresh row stays completed (`CompletedScanFailsIff`, `DisagreementIsReachable`).
  With every completion acknowledged the two always agree (`AcknowledgedRunsAgree`).
- Moving a topic assignment to another document (an UPDATE of `document_id`) requeues only the document it
  joins, because the trigger reads NEW. The index of the document it leaves can stay stale with its job
  completed (`MoveKeepsFreshIff`, `MoveHidesChange`).
- The backoff `power(2, attempt_count)` overflows at 1024 attempts, and its `::integer` cast in the briefing
  workers at 31; the failing transaction then changes nothing and the job comes back only through its lease.
  The count is never reset.
- `project_value_increased` is reported for any change of the amounts of a contract or budget record, a decrease
  included (`AmountsChangeReported`).
- A persisted document whose commit is not acknowledged is stored but not counted, so observations can
  exceed `documents_discovered` (`ReportedIffAcknowledged`).
- Rebuilding twice is not the same as rebuilding once: a document rejected because its document already has a
  record of that type under another key becomes acceptable once another document has created its key
  (`RebuildTwiceIff`, `RebuildTwiceCanDiffer`). A third rebuild never changes anything (`RebuildThriceIsTwice`).
- Cleaning drops a tab as a control character before the pattern for tabs and spaces can see it, so words
  parted only by a tab are joined (`TabJoinsWords`). A text keeps its words iff the characters dropped are all
  white space and never all that stands between two words (`CleanKeepsWordsIff`).
- Cleaning stored text again gives the stored text iff normalization leaves it alone, as long as normalization
  brings in nothing to clean (`CleaningAgain`). It may not leave it alone: two letters parted by a control
  character can compose on the second pass (`DroppedControlComposes`).
- A summary cut at 600 characters can end in a space, and then the signal's excerpt is not trimmed
  (`SignalGrounded`, `ExcerptCanEndInSpace`).
- The module text says every non-empty field has an evidence span; a summary joined from short lines has none
  (`SummaryCanLackSpan`). A summary has one iff a sentence qualifies, or what is kept of the text is a single
  line or is repeated with spaces for newlines (`SummaryHasSpanIff`).
- The rate limiter reads its clock before taking the lock; an older reading taken late lets more requests
  into one window than the limit (`OlderReadingOverfills`). A call sees all the granted requests of the 60
  seconds before its reading iff none of them was popped for an earlier call (`SeesAllIff`), and while no call
  misses any, no window holds more than the limit (`GrantedWindowBounded`).
- A host with an allowed domain in front of a foreign one is refused, except when the domain happens to end
  it again (`ForeignHostAdmittedIff`).
- Keyword hits on canonical records can share a document; fusion keeps one of them, so the hybrid fallback
  then returns fewer hits than keyword search (`FallbackKeepsEveryHitIff`), while `docs/search.md` describes it as
  returning the keyword results.

## Model

| member | source | states |
|---|---|---|
| IngestionInvariants.ReachableInvariant | database/migrations/0012_production_ingestion_operations.up.sql:7-47 | every interleaving of requests, claims, scans, completions, failures, crashes and late returns keeps the joint invariant of runs, rows, scans, jobs and workers |
| IngestionTheorems.CompletedRefresh | ingestion/src/civicos_ingestion/repository.py:101-128 | a completed row was served by one scan of its own source, started after the row was queued, that serves no other row; both carry the same counts |
| IngestionTheorems.CompletedOnlyByItsScan | ingestion/src/civicos_ingestion/repository.py:889-896 | a row becomes completed only in the completion step of the worker of its own scan, with that step's counts |
| IngestionTheorems.RunStatusFollowsRows | ingestion/src/civicos_ingestion/repository.py:1067-1080 | a run's stored status is decided by its rows: queued iff all queued, running iff started and some active, completed iff none active and one completed, failed iff none active and none completed |
| IngestionTheorems.OneRefreshPerSource | database/migrations/0012_production_ingestion_operations.up.sql:45-47 | two queued or running rows of one source are the same row |
| IngestionTheorems.EndedNeverChanges | ingestion/src/civicos_ingestion/repository.py:889-920 | ended rows and ended runs are the same after any continuation |
| IngestionTheorems.LeaseExclusive | database/migrations/0002_autonomous_discovery.up.sql:112-152 | two workers never both hold an unexpired lease on one source |
| IngestionTheorems.JobChangesOnlyByHolder | ingestion/src/civicos_ingestion/repository.py:898-926 | a job changes only when pulled earlier, claimed while free, or released under its stored token |
| IngestionTheorems.SchedulesBounded | database/migrations/0002_autonomous_discovery.up.sql:141-148 | schedules stay within max(longest interval the source has had, 3600 s) and leases within 600 s of the clock, whatever interval changes happen |
| IngestionTheorems.EveryJobComesBack | database/migrations/0002_autonomous_discovery.up.sql:129-140 | after that long without a step, every active source's job can be claimed |
| IngestionTheorems.StuckForever | ingestion/src/civicos_ingestion/repository.py:115-127 | a running row whose scan no worker knows never ends and blocks every request for its source |
| IngestionTheorems.RunningRowEndsIff | ingestion/src/civicos_ingestion/repository.py:101-128 | some continuation ends a running row iff some worker knows the scan that serves it |
| IngestionTheorems.CompletedScanFailsIff | ingestion/src/civicos_ingestion/service.py:60-105 | a completed refresh's scan turns failed exactly when its completion was not acknowledged and its worker reports failure |
| IngestionTheorems.AcknowledgedRunsAgree | ingestion/src/civicos_ingestion/repository.py:867-926 | with acknowledged completions, every started row always has the status of its scan |
| IngestionRequests.RefusedIff | backend/src/civicos_api/ingestion.py:27-62 | a request is refused, in this order, iff another was accepted within its cooldown, no active source is named, or a named active source has an active row; a refusal changes nothing |
| IngestionRequests.AcceptedQueuesNamed | backend/src/civicos_api/ingestion.py:40-73 | an accepted request adds one queued run and one queued row for exactly each active source it names |
| IngestionRequests.AcceptedPullsNamed | backend/src/civicos_api/ingestion.py:74-81 | it makes the free job of each such source due at once and leaves every other job, and every leased one, as it is |
| IngestionRequests.RequestTouchesOnly | backend/src/civicos_api/ingestion.py:40-46 | a request for one source, accepted or not, touches no row and no job of another |
| IngestionRequests.AcceptedSpaced | backend/src/civicos_api/ingestion.py:27-39 | over every run two accepted requests are at least the later one's cooldown apart |
| IngestionSchedules.CompletionReschedules | ingestion/src/civicos_ingestion/repository.py:898-903 | a completed scan frees the job its worker still holds and schedules it one interval ahead, and reschedules nothing else |
| IngestionSchedules.FailureReschedules | ingestion/src/civicos_ingestion/repository.py:920-926 | a failed scan frees the job and delays it by a minute times the capped power of its attempts, or changes nothing at 1024 attempts |
| IngestionSchedules.DelayDoubles | ingestion/src/civicos_ingestion/repository.py:922-923 | that delay is one minute at no attempt and doubles up to an hour |
| IngestionSchedules.ScanPace | ingestion/src/civicos_ingestion/repository.py:898-903 | after a completed scan no continuation makes the source due before its interval has passed, unless it is touched or a refresh names it; unclaimed, it is due exactly from then on |
| IngestionSchedules.RetryPace | ingestion/src/civicos_ingestion/repository.py:920-926 | the same after a failed scan, with the retry delay |
| IngestionSchedules.ClaimExcludes | database/migrations/0002_autonomous_discovery.up.sql:138-148 | unless the worker reports, no continuation lets anyone else claim its source for ten minutes |
| IngestionSchedules.WorkerKeepsInterval | database/migrations/0002_autonomous_discovery.up.sql:149-151 | a worker keeps the interval its claim returned, whatever the source's interval becomes |
| IngestionLifecycles.QueuedRowLife | ingestion/src/civicos_ingestion/repository.py:101-128 | in every step a queued row starts under the next scan of its source, or stays as it is |
| IngestionLifecycles.RunningRowLife | ingestion/src/civicos_ingestion/repository.py:880-919 | in every step a running row ends as its scan's worker reports, with the counts reported, or stays as it is |
| IngestionLifecycles.ScanLife | ingestion/src/civicos_ingestion/repository.py:867-919 | a scan changes only by the reports of its own worker, to what they say |
| IngestionLifecycles.ScanBorn | ingestion/src/civicos_ingestion/repository.py:101-128 | a new scan is the one its worker has just started, running, and the worker learns of it iff the commit is acknowledged |
| IngestionLifecycles.RunLife | ingestion/src/civicos_ingestion/repository.py:1067-1080 | a run is started and completed at the instants at which its status says so |
| IngestionLifecycles.WorkerLife | ingestion/src/civicos_ingestion/service.py:60-105 | the phases of a worker follow its own start, completion and failure, and nobody else's |
| IngestionLifecycles.SourceSchedules | database/migrations/0002_autonomous_discovery.up.sql:91-108 | adding or touching an active source makes it due no later than now, and nothing else is rescheduled |
| IngestionWitnesses.StuckIsReachable | ingestion/src/civicos_ingestion/repository.py:101-128 | a refresh that nothing can end is reachable |
| IngestionWitnesses.DisagreementIsReachable | ingestion/src/civicos_ingestion/service.py:60-105 | a completed refresh with a failed scan is reachable |
| IngestionDatabase.BatchIsClaims | database/migrations/0002_autonomous_discovery.up.sql:129-152 | claiming a batch is claiming its jobs one by one at the same instant |
| IngestionDatabase.Database.EnqueueDiscoveryJob | database/migrations/0002_autonomous_discovery.up.sql:91-108 | the source trigger's statements are the scheduling step |
| IngestionDatabase.Database.Enqueue | backend/src/civicos_api/ingestion.py:23-82 | the statements of a refresh request are the request step, with its refusal or its new run |
| IngestionDatabase.Database.ClaimDiscoveryJobs | database/migrations/0002_autonomous_discovery.up.sql:112-152 | the jobs picked are distinct and due, at most the limit clamped to 1..100 and all there are below it, in order of schedule and then creation, and none left out comes earlier in that order |
| IngestionDatabase.Database.Earliest | database/migrations/0002_autonomous_discovery.up.sql:137-139 | the job picked next has the least schedule and, among equal ones, the earliest creation |
| IngestionDatabase.Database.StartScan | ingestion/src/civicos_ingestion/repository.py:101-128 | the statements that start a scan are the start step |
| IngestionDatabase.Database.CompleteJob | ingestion/src/civicos_ingestion/repository.py:867-903 | the statements of a completion are the completion step |
| IngestionDatabase.Database.CompleteIngestionRuns | ingestion/src/civicos_ingestion/repository.py:1067-1080 | the run update closes exactly the active runs without active rows |
| IngestionDatabase.Database.FailJob | ingestion/src/civicos_ingestion/repository.py:905-926 | the statements of a failure are the failure step, rolled back as a whole when the delay overflows |
| VectorFreshness.ReachableInvariant | database/migrations/0004_hybrid_search.up.sql:16-113 | every run that moves no assignment between documents keeps every claimed and completed job fresh |
| VectorFreshness.NoChangeLost | ingestion/src/civicos_ingestion/repository.py:1089-1099 | when the job of a document's latest version is completed, the claim that completed it returned the current title, type, source, department, date, topics and text |
| VectorFreshness.EditFencesWorkers | database/migrations/0004_hybrid_search.up.sql:85-99 | after a watched change the job is due at once, and no earlier claim can complete or reschedule it |
| VectorFreshness.MoveKeepsFreshIff | database/migrations/0004_hybrid_search.up.sql:74-83 | moving an assignment keeps freshness iff the document it leaves has no completed or claimed latest version |
| VectorFreshness.MoveHidesChange | database/migrations/0004_hybrid_search.up.sql:74-83 | otherwise a completed job can stand for topics the document no longer has |
| VectorRetries.UnindexedComesBack | database/migrations/0004_hybrid_search.up.sql:133-150 | over every run, moves included: until a version is indexed its job can be claimed again within an hour, after any failures and also when its worker died |
| VectorRetries.WatchedRequeues | database/migrations/0004_hybrid_search.up.sql:66-105 | a watched change makes the latest version's job pending and due now, free of its lease, and touches no other job |
| VectorRetries.FailureReschedules | ingestion/src/civicos_ingestion/repository.py:1101-1112 | a failure under the stored token delays the job by a minute times the capped power of its attempts; any other changes nothing |
| VectorRetries.RetryPace | ingestion/src/civicos_ingestion/repository.py:1101-1112 | after a failure no continuation lets the job be claimed before its delay has passed, unless its document changes |
| VectorRetries.ClaimExcludes | database/migrations/0004_hybrid_search.up.sql:142-150 | unless its worker reports or its document changes, a claimed job is nobody else's for ten minutes |
| VectorRetries.DocumentLife | database/migrations/0004_hybrid_search.up.sql:107-113 | a document has the metadata last given and the assignments given and not taken away |
| VectorRetries.ReachableNumbersRise | ingestion/src/civicos_ingestion/repository.py:247-269 | over every run later versions of a document carry higher numbers |
| VectorOutboxDatabase.Database.NewestVersion | database/migrations/0004_hybrid_search.up.sql:86-92 | the loop finds the version with the highest number, if any |
| VectorOutboxDatabase.Database.EnqueueDocumentVectorReindex | database/migrations/0004_hybrid_search.up.sql:66-105 | the trigger's upsert is the reindex step for the newest version |
| VectorOutboxDatabase.Database.UpdateDocument | database/migrations/0004_hybrid_search.up.sql:107-109 | a watched document update is the document step |
| VectorOutboxDatabase.Database.InsertTopicAssignment | database/migrations/0004_hybrid_search.up.sql:111-113 | inserting an assignment changes the topics and requeues |
| VectorOutboxDatabase.Database.DeleteTopicAssignment | database/migrations/0004_hybrid_search.up.sql:111-113 | deleting an assignment changes the topics and requeues |
| VectorOutboxDatabase.Database.UpdateTopicAssignment | database/migrations/0004_hybrid_search.up.sql:81-83 | moving an assignment requeues only the document it joins |
| VectorOutboxDatabase.Database.InsertVersion | ingestion/src/civicos_ingestion/repository.py:247-269 | a new version takes the next number of its document and a pending job |
| VectorOutboxDatabase.Database.ClaimOne | database/migrations/0004_hybrid_search.up.sql:142-164 | a claim stores a fresh lease and returns the document as it is now |
| VectorOutboxDatabase.Database.CompleteVectorIndexJob | ingestion/src/civicos_ingestion/repository.py:1089-1099 | completion changes the job only under its stored token |
| VectorOutboxDatabase.Database.FailVectorIndexJob | ingestion/src/civicos_ingestion/repository.py:1101-1112 | failure reschedules under the stored token, or raises and changes nothing when the delay overflows |
| BriefingJobs.BriefingIffCompleted | ingestion/src/civicos_ingestion/briefing.py:173-209 | in every reachable state a briefing exists iff its job is completed |
| BriefingJobs.ExactlyOnePublication | ingestion/src/civicos_ingestion/briefing.py:173-209 | over every run exactly one completion takes effect for each published key and none for any other |
| BriefingJobs.PublishedForever | backend/src/civicos_api/briefings.py:103-129 | published content, deliveries and first read times survive every continuation unchanged |
| BriefingJobs.LostLeaseLeavesNoTrace | ingestion/src/civicos_ingestion/briefing.py:173-223 | a worker whose token is not stored changes no briefing, delivery or job |
| BriefingJobs.DeliversToActiveSubscribers | ingestion/src/civicos_ingestion/briefing.py:173-209 | publication delivers to exactly the subscriptions active then |
| BriefingJobs.NoLateDelivery | ingestion/src/civicos_ingestion/briefing.py:173-209 | no later step adds a delivery of a published briefing |
| BriefingJobs.UnpublishedComesBack | database/migrations/0006_daily_briefings.up.sql:113-136 | until its briefing is published every job can be claimed again within an hour |
| BriefingJobs.OneDeliveryPerReader | database/migrations/0006_daily_briefings.up.sql:3-13 | over every run a reader has at most one delivery of a briefing, however often they subscribed |
| BriefingReaders.SubscribeActivates | backend/src/civicos_api/briefings.py:48-62 | after subscribing the reader has an active subscription, and nobody else's has changed |
| BriefingReaders.UnsubscribeDeactivates | backend/src/civicos_api/briefings.py:64-79 | unsubscribing deactivates the reader's own row and no other, and leaves the reader none that is active |
| BriefingReaders.ActiveIffWanted | backend/src/civicos_api/briefings.py:48-79 | over every run a reader is active iff the last subscription or effective unsubscription was a subscription |
| BriefingReaders.DeliveredIffWanted | ingestion/src/civicos_ingestion/briefing.py:173-209 | at any time after publication a reader has a delivery iff their last word before it was to subscribe |
| BriefingReaders.EnqueuedForReaders | database/migrations/0006_daily_briefings.up.sql:94-111 | the daily job covers an organization iff the last word of some reader was to subscribe |
| BriefingReaders.ReadIffMarked | backend/src/civicos_api/briefings.py:103-129 | an unread delivery is read later iff its own reader marked that briefing meanwhile |
| BriefingReaders.FailureReschedules | ingestion/src/civicos_ingestion/briefing.py:211-223 | a failure under the stored token delays the job by the capped power of its attempts in seconds; any other changes nothing |
| BriefingReaders.RetryPace | ingestion/src/civicos_ingestion/briefing.py:211-223 | after a failed attempt no continuation lets the job be claimed before its delay has passed |
| BriefingReaders.ClaimExcludes | database/migrations/0006_daily_briefings.up.sql:127-136 | unless its worker reports, a claimed job is nobody else's for ten minutes |
| BriefingDatabase.Database.Subscribe | backend/src/civicos_api/briefings.py:48-62 | the upsert reactivates the reader's subscription or creates it |
| BriefingDatabase.Database.Unsubscribe | backend/src/civicos_api/briefings.py:64-79 | only the reader's own subscription is deactivated, and a missing one is reported |
| BriefingDatabase.Database.ClaimOne | database/migrations/0006_daily_briefings.up.sql:127-136 | a claim stores a fresh lease under a fresh token |
| BriefingDatabase.Database.EnqueueForDate | database/migrations/0006_daily_briefings.up.sql:94-111 | enqueueing is the job step for the subscribed organizations, with the number of new jobs |
| BriefingDatabase.Database.InsertJobs | database/migrations/0006_daily_briefings.up.sql:103-108 | the insert adds exactly the missing jobs and counts them |
| BriefingDatabase.Database.CompleteJob | ingestion/src/civicos_ingestion/briefing.py:173-209 | the statements of a completion are the publication step, rolled back when the lease is lost |
| BriefingDatabase.Database.InsertDeliveries | ingestion/src/civicos_ingestion/briefing.py:173-209 | the delivery insert covers the active subscriptions of the organization |
| BriefingDatabase.Database.FailJob | ingestion/src/civicos_ingestion/briefing.py:211-223 | the failure statement is the failure step, or raises and changes nothing |
| BriefingDatabase.Database.MarkRead | backend/src/civicos_api/briefings.py:103-129 | marking read keeps an earlier read time |
| Crawler.Crawl | ingestion/src/civicos_ingestion/crawler.py:62-141 | for some order of fetching: pages are fetched once each, in order of link distance, within the budget; nothing left out is nearer; with budget left exactly the reachable URLs were visited; a crawl raises iff a fetch raised |
| Crawler.Search | ingestion/src/civicos_ingestion/crawler.py:88-141 | the queue loop settles true distances and ends with an empty queue, a spent budget or a raised fetch |
| Crawler.FollowLinks | ingestion/src/civicos_ingestion/crawler.py:108-141 | following a page's links keeps every nearest unvisited URL behind the queue |
| Crawler.UnvisitedIsBehindQueue | ingestion/src/civicos_ingestion/crawler.py:88-141 | every path to an unvisited URL passes a queued URL at its level |
| Crawler.CrawlEnds | ingestion/src/civicos_ingestion/crawler.py:88-141 | settled depths give the breadth-first order and, with an empty queue, exactly the reachable set |
| Crawler.ResourcesWithinPages | ingestion/src/civicos_ingestion/crawler.py:108-141 | there are never more resources than fetched pages |
| UrlPolicy.AllowedUrlMeansLabels | ingestion/src/civicos_ingestion/crawler.py:27-34 | the domain test holds iff the URL is http or https with a host and no credentials and an allowed domain's labels end the host's labels |
| UrlPolicy.AllowedPathMeansSegments | ingestion/src/civicos_ingestion/crawler.py:37-44 | the path test holds iff an approved prefix is a leading run of whole segments |
| UrlPolicy.CleanHostMeaning | ingestion/src/civicos_ingestion/crawler.py:33 | hosts compare in lower case and without trailing dots |
| UrlPolicy.ForeignHostAdmittedIff | ingestion/src/civicos_ingestion/crawler.py:27-34 | a host with an allowed domain in front of another domain is admitted iff the allowed domain's labels end the host again |
| UrlPolicy.ForeignHostRejected | ingestion/src/civicos_ingestion/crawler.py:27-34 | such a host is refused whenever neither part ends the other, however few labels the foreign part has |
| RawEvidence.VersionsAreUnstutteredFetches | ingestion/src/civicos_ingestion/repository.py:235-288 | version hashes are the observed hashes with consecutive repeats removed, and numbers are 1..n |
| RawEvidence.UnstutteredIsReduced | ingestion/src/civicos_ingestion/repository.py:246-247 | the reduced list has no equal neighbours and the same ends, and reducing it again changes nothing |
| RawEvidence.EveryObservationPoints | ingestion/src/civicos_ingestion/repository.py:341-367 | every observation points to a version of its document with its hash |
| RawEvidence.StoreOnlyGrows | database/migrations/0001_civic_core.up.sql:700-706 | stored versions and observations are never altered or removed |
| RawEvidence.VersionsHoldChangingFetches | ingestion/src/civicos_ingestion/repository.py:246-288 | over every run the versions of a document hold hash, text and scan of exactly the committed fetches that changed its hash |
| RawEvidence.ScanConservation | ingestion/src/civicos_ingestion/service.py:60-105 | discovered = changed + skipped, and a scan's observations and versions are those it counted plus those it was not told about |
| RawEvidence.ReportedIffAcknowledged | ingestion/src/civicos_ingestion/service.py:60-105 | the reported count equals the stored observations iff every commit of the scan was acknowledged |
| DiscoveryService.EvidenceDatabase.LatestVersion | ingestion/src/civicos_ingestion/repository.py:236-244 | the loop finds the row with the highest number |
| DiscoveryService.EvidenceDatabase.PersistResource | ingestion/src/civicos_ingestion/repository.py:194-367 | persisting is the store step, or leaves no trace when a later statement raises |
| DiscoveryService.RunJob | ingestion/src/civicos_ingestion/service.py:60-105 | for a whole scan over the resources of its crawl: discovered = changed + skipped, and discovered with the commits it was not told about are the rows stored, within the pages and the page cap; the reported count is exact iff every commit was acknowledged; a crawl that raises leaves the evidence as it was |
| DiscoveryService.PersistAll | ingestion/src/civicos_ingestion/service.py:60-105 | the loop over the resources runs the store over those that could be processed and counts what it was told |
| DiscoveryService.FetchesCarry | ingestion/src/civicos_ingestion/service.py:60-105 | what is persisted is the processable resources in order, each with its own document, hash and text |
| CanonicalRecords.DiffReplays | ingestion/src/civicos_ingestion/repository.py:543-566 | replaying the differences over the old snapshot gives the new one |
| CanonicalRecords.DiffDescribes | ingestion/src/civicos_ingestion/repository.py:543-566 | each difference holds the old and the new value of a field that differs, and each field that differs has one |
| CanonicalRecords.ChangesRebuild | ingestion/src/civicos_ingestion/repository.py:527-566 | the changes against a snapshot rebuild the new one and are empty iff the snapshots are equal |
| CanonicalRecords.StatusChangeReported | ingestion/src/civicos_ingestion/repository.py:557-564 | an approval, denial, award or adoption is reported iff the record has its type and its status became the one named |
| CanonicalRecords.AmountsChangeReported | ingestion/src/civicos_ingestion/repository.py:555-556 | a project value increase is reported iff the amounts of a contract or budget record changed in any way |
| CanonicalStore.EveryStoreSound | ingestion/src/civicos_ingestion/repository.py:390-525 | over every sequence of extractions: versions are numbered 1..n, replaying the log to any version gives its snapshot, every row holds what the version before held, live columns equal the last snapshot, and a document has one record of a type |
| CanonicalStore.LogRebuildsRecord | ingestion/src/civicos_ingestion/repository.py:402-524 | the log replayed to its end is the live record, column by column |
| CanonicalStore.IdenticalExtractionLogsNothing | ingestion/src/civicos_ingestion/repository.py:543-566 | an extraction adds no change row iff its snapshot is the current one |
| CanonicalStore.StoreOnlyGrows | database/migrations/0013_canonical_civic_records.up.sql:59-83 | versions and change rows of a record are only ever appended to |
| CanonicalDrafts.SnapshotReads | ingestion/src/civicos_ingestion/repository.py:527-541 | a snapshot reads back as the draft it was taken from, field by field |
| CanonicalDrafts.SnapshotsAgreeIff | ingestion/src/civicos_ingestion/repository.py:527-541 | two drafts have the same snapshot iff they agree on everything but the deduplication key |
| CanonicalDrafts.EveryFieldLogged | ingestion/src/civicos_ingestion/repository.py:543-566 | for each of the 22 fields: one change under its name, with the draft's old and new value, iff that field of the draft changed |
| CanonicalDrafts.DeadlineChangeReported | ingestion/src/civicos_ingestion/repository.py:552-554 | a deadline change is reported iff the deadlines changed |
| CanonicalDrafts.NothingLoggedIffSameDraft | ingestion/src/civicos_ingestion/repository.py:543-566 | an accepted extraction of a known record adds no change row iff it is the live draft once more |
| CanonicalDrafts.LogReadsAsLive | ingestion/src/civicos_ingestion/repository.py:402-524 | over every sequence of extractions the change log of a record, replayed and read back, is its live draft |
| CanonicalDrafts.LiveIsLastAccepted | ingestion/src/civicos_ingestion/repository.py:390-525 | over every sequence of extractions a record is live as the last accepted extraction of its key left it |
| CanonicalDrafts.PersistStores | ingestion/src/civicos_ingestion/repository.py:390-525 | an accepted extraction stores its draft live and as a new version from its raw version, and leaves every other record alone |
| CanonicalStore.CanonicalDatabase.CanonicalChanges | ingestion/src/civicos_ingestion/repository.py:543-566 | the loop over the snapshot's keys builds the change list |
| CanonicalStore.CanonicalDatabase.PersistCanonicalRecord | ingestion/src/civicos_ingestion/repository.py:390-525 | the statements raise iff a uniqueness rule refuses the extraction, and otherwise are the persist step |
| CanonicalStore.CanonicalDatabase.PersistInTransaction | ingestion/src/civicos_ingestion/repository.py:194-367 | in its own transaction a refused extraction leaves no trace |
| Backfill.NewestIsLastWithText | ingestion/src/civicos_ingestion/repository.py:977-994 | the version selected is the newest one with text |
| Backfill.SelectedDistinct | ingestion/src/civicos_ingestion/repository.py:977-994 | a rebuild selects each document and each version at most once |
| Backfill.SelectedAreRows | ingestion/src/civicos_ingestion/repository.py:977-994 | the rows selected are those of the documents with text, each from its newest text, without a draft when no address can be cited; a limit takes the first of them |
| Backfill.AcceptedAdds | ingestion/src/civicos_ingestion/repository.py:1026-1039 | what one accepted document adds to keys, versions and documents, and nothing else |
| Backfill.UnchangedIff | ingestion/src/civicos_ingestion/repository.py:997-1048 | a pass leaves the store alone iff no selected row is acceptable at its start |
| Backfill.SecondPassUnchangedIff | ingestion/src/civicos_ingestion/repository.py:997-1048 | a second pass changes nothing iff no key arrives late, a condition on the store and rows before the first |
| Backfill.ThirdPassUnchanged | ingestion/src/civicos_ingestion/repository.py:997-1048 | a third pass never changes the store |
| Backfill.CountsMeasureTheStore | ingestion/src/civicos_ingestion/repository.py:997-1048 | processed = created + merged + rejected; created is the number of new records; rejected is the number of rows without a version afterwards |
| Backfill.PassIsItsAcceptedExtractions | ingestion/src/civicos_ingestion/repository.py:997-1048 | a rejected document leaves no trace |
| Backfill.RebuildTwiceIff | ingestion/src/civicos_ingestion/repository.py:937-1065 | rebuilding an organization twice equals once iff it is skipped or no key arrives late |
| Backfill.RebuildThriceIsTwice | ingestion/src/civicos_ingestion/repository.py:937-1065 | rebuilding three times equals rebuilding twice |
| Backfill.RebuildTwiceCanDiffer | ingestion/src/civicos_ingestion/repository.py:1026-1048 | a concrete organization, with every stored reference in place, whose second rebuild changes its records |
| Backfill.CompletedIffAllVersioned | ingestion/src/civicos_ingestion/repository.py:1049-1062 | a rebuild is marked completed iff every selected document has a record version afterwards |
| Backfill.RunReports | ingestion/src/civicos_ingestion/repository.py:1049-1062 | the stored run reports the rows taken, the records that are new and the rows left without a version |
| Backfill.EachRebuilt | ingestion/src/civicos_ingestion/repository.py:950-973 | every organization is rebuilt by itself, and a skipped one is left as it is |
| Backfill.CountsReported | ingestion/src/civicos_ingestion/repository.py:1063-1065 | an organization adds to the totals what its run reports, a skipped one nothing |
| Backfill.TotalsBalance | ingestion/src/civicos_ingestion/repository.py:1063-1065 | the totals over all organizations balance too |
| Backfill.BackfillDatabase.BackfillRow | ingestion/src/civicos_ingestion/repository.py:997-1048 | between savepoint and release or rollback, a row has the outcome and effect of its step |
| Backfill.BackfillDatabase.BackfillOrganization | ingestion/src/civicos_ingestion/repository.py:950-1062 | the loop over the rows of one organization is the rebuild step with its counts |
| Backfill.BackfillDatabase.BackfillCanonicalRecords | ingestion/src/civicos_ingestion/repository.py:937-1065 | the whole job rebuilds every organization and returns the totals |
| SearchFusion.Fuse | backend/src/civicos_api/search.py:487-503 | min(limit, distinct ids) documents in descending exact score, ties by first appearance, nothing left out beats anything kept |
| SearchFusion.AccumulateKeyword | backend/src/civicos_api/search.py:487-495 | the keyword loop tallies every rank of every document |
| SearchFusion.AccumulateSemantic | backend/src/civicos_api/search.py:495-499 | the semantic loop adds its ranks and keeps the keyword record of a shared document |
| SearchFusion.ReciprocalRank | backend/src/civicos_api/search.py:492-497 | rank r adds exactly one over sixty plus r |
| StableSort.SortRanked | backend/src/civicos_api/search.py:499-503 | the sort is stable: equal keys keep their order |
| HybridSearch.Search | backend/src/civicos_api/search.py:433-485 | what each mode returns for every state of the semantic backend |
| HybridSearch.FallbackIsKeywordSearch | backend/src/civicos_api/search.py:433-503 | with no semantic results and distinct ids, hybrid results are the keyword results in order, also after the newest-first sort of a sorted list |
| HybridSearch.FallbackKeepsEveryHitIff | backend/src/civicos_api/search.py:137-170 | the fallback keeps every keyword hit iff no two share a document |
| HybridSearch.NewestFirst | backend/src/civicos_api/search.py:478-482 | newest first keeps every hit, dated ones by descending date and undated ones as if of the first day |
| RateLimiter.DequeIsRecentHistory | backend/src/civicos_api/observability.py:97-115 | for nondecreasing readings the deque is the accepted requests of the last 60 seconds of the full history |
| RateLimiter.SeesAllIff | backend/src/civicos_api/observability.py:105-115 | for any readings: a call sees every granted request of the 60 seconds before its reading iff none of them was popped already |
| RateLimiter.GrantedWindowBounded | backend/src/civicos_api/observability.py:105-115 | as long as no call misses a granted request, every half-open 60-second window holds at most the limit of requests the deque grants |
| RateLimiter.OrderedFollowsHistory | backend/src/civicos_api/observability.py:105-115 | for nondecreasing readings the deque grants exactly what a decision from the full history accepts, and no call misses a request |
| RateLimiter.OrderedWindowBounded | backend/src/civicos_api/observability.py:105-115 | for nondecreasing readings every window holds at most the limit of requests the deque grants |
| RateLimiter.WindowBounded | backend/src/civicos_api/observability.py:105-115 | the full-history reference never accepts more than the limit in a window, for any readings |
| RateLimiter.OlderReadingOverfills | backend/src/civicos_api/observability.py:105-110 | four readings, the last one older: the deque of a limiter of two grants all four, and three of them fall into one window |
| RateLimiter.InMemoryRateLimiter.Allow | backend/src/civicos_api/observability.py:105-115 | a request is admitted iff fewer than the limit are in the deque of its key after pruning, which for nondecreasing readings is the decision from the full history; other keys are untouched |
| RateLimiter.InMemoryRateLimiter.PopOld | backend/src/civicos_api/observability.py:109-111 | the popping loop removes exactly the leading events outside the window |
| TextCleaning.CleanIsClean | ingestion/src/civicos_ingestion/processing.py:67-71 | cleaned text has no characters below the space but newlines, no doubled spaces, no blank and no padded lines |
| TextCleaning.CleanFixedIff | ingestion/src/civicos_ingestion/processing.py:67-71 | cleaning leaves a text alone iff it is such a text |
| TextCleaning.CleaningAgain | ingestion/src/civicos_ingestion/repository.py:1012-1016 | cleaning stored text again gives the stored text whenever normalization leaves it alone and, if normalization brings in nothing to clean, only then |
| TextCleaning.CleanKeepsWords | ingestion/src/civicos_ingestion/processing.py:67-71 | past the control characters, cleaning keeps the words in order |
| TextWords.CleanKeepsWordsIff | ingestion/src/civicos_ingestion/processing.py:67-71 | a text keeps its words iff every character dropped is white space and no two words are parted by dropped characters alone |
| TextWords.TabJoinsWords | ingestion/src/civicos_ingestion/processing.py:69-70 | two letters parted by a tab become one word |
| TextWords.LineBreaksAgree | ingestion/src/civicos_ingestion/processing.py:68 | a carriage return, a newline and both together end a line alike |
| TextCleaning.ControlJoinsNeighbours | ingestion/src/civicos_ingestion/processing.py:69-70 | a dropped control character, a tab among them, leaves its neighbours adjacent in the cleaned text |
| TextCleaning.DroppedControlComposes | ingestion/src/civicos_ingestion/processing.py:67-71 | a normalization that composes two letters parted by a control character makes cleaning twice differ from once |
| SpanLists.FirstOfIsFirst | ingestion/src/civicos_ingestion/canonical.py:155-162 | one span for each value of some match, taken from the first match with it |
| SpanLists.NextDecision | ingestion/src/civicos_ingestion/canonical.py:172-174 | spans added for earlier decisions do not disturb a later look-up |
| EvidenceSpans.DecisionsListed | ingestion/src/civicos_ingestion/canonical.py:171-174 | the look-up of a decision always finds an item |
| EvidenceSpans.EachValueHasOneSpan | ingestion/src/civicos_ingestion/canonical.py:155-174 | every value taken from a pattern, decisions included, has exactly one span of its field |
| SpanMeanings.MatchEvidence | ingestion/src/civicos_ingestion/canonical.py:155-171 | the spans of a pattern's field are those of its matches, for each value the first match with it |
| SpanMeanings.GroupSpan | ingestion/src/civicos_ingestion/canonical.py:155-162 | parcel, case and permit numbers are the trimmed group, quoted from the whole match at its offsets |
| SpanMeanings.AgendaSpan | ingestion/src/civicos_ingestion/canonical.py:273-280 | agenda items are the trimmed group, quoted from the whole match at the offsets of the group |
| SpanMeanings.DecisionEvidence | ingestion/src/civicos_ingestion/canonical.py:171-174 | an action has a decision span iff it decides, with source and offsets of the first item listed with its value |
| SpanMeanings.TitleEvidence | ingestion/src/civicos_ingestion/canonical.py:176-178 | the title has one span, at its first occurrence, iff it occurs in the text |
| SpanMeanings.SummaryQuoted | ingestion/src/civicos_ingestion/canonical.py:179-182 | a summary has one span, at its first occurrence, iff it is not empty and occurs in the text |
| SpanMeanings.AgendaEvidence | ingestion/src/civicos_ingestion/canonical.py:200 | agenda items have spans in records that list an agenda and in no others |
| SpanMeanings.PublishedEvidence | ingestion/src/civicos_ingestion/canonical.py:183-194 | the publication date has the span of its candidate, if it has one |
| SpanMeanings.SummaryMeaning | ingestion/src/civicos_ingestion/canonical.py:253-259 | the summary is the first sentence of 35 normalized characters that is not boilerplate, or else the whole text, normalized and cut at 600 |
| SpanMeanings.EvidenceInRankOrder | ingestion/src/civicos_ingestion/canonical.py:164-200 | the list goes through the fields in the order of the program |
| SpanMeanings.SignalIsFirst | ingestion/src/civicos_ingestion/canonical.py:372-377 | a signal quotes the first span of a signal field in that order |
| EvidenceSpans.SignalGrounded | ingestion/src/civicos_ingestion/canonical.py:344-396 | a signal quotes one of the evidence spans at a non-empty stretch of the text with the same trimmed characters, and its excerpt is trimmed iff it is not a summary cut after a space |
| EvidenceSpans.SignalIff | ingestion/src/civicos_ingestion/canonical.py:344-377 | a signal appears iff something changed, the record is of one of the five commercial types, and an action, amount, permit or case number matched or the summary has a span |
| EvidenceSpans.ExcerptCanEndInSpace | ingestion/src/civicos_ingestion/canonical.py:253-259 | a family of texts whose signal excerpt ends with a space |
| EvidenceSpans.SummaryCanLackSpan | ingestion/src/civicos_ingestion/canonical.py:1-6 | a family of texts with a non-empty summary and no span for it |
| SummaryEvidence.SummaryHasSpanIff | ingestion/src/civicos_ingestion/canonical.py:179-182 | for cleaned text and its own sentences: a summary has a span iff a sentence qualifies, or the kept part of a non-empty text is one line or occurs further on with spaces for its newlines |
| SummaryEvidence.QualifyingSentenceHasSpan | ingestion/src/civicos_ingestion/canonical.py:253-258 | a summary taken from a qualifying sentence of the text always has a span |
| SummaryEvidence.FallbackHasSpanIff | ingestion/src/civicos_ingestion/canonical.py:259 | a summary made of the whole text has a span iff the part kept was single-spaced already or occurs single-spaced further on |
| SummaryEvidence.TidyNormalized | ingestion/src/civicos_ingestion/canonical.py:256-259 | normalizing text without doubled or outer white space turns each white-space character into a space and changes nothing else |
| EvidenceSpans.Canonicalizer.AddFirst | ingestion/src/civicos_ingestion/canonical.py:155-162 | the loop over matches adds the first span of each new value and returns the values |
| EvidenceSpans.Canonicalizer.AddDecisions | ingestion/src/civicos_ingestion/canonical.py:171-174 | the loop adds a span for each decision from the first item with its value |
| EvidenceSpans.Canonicalizer.Canonicalize | ingestion/src/civicos_ingestion/canonical.py:141-205 | the evidence list is the blocks of the patterns, decisions, title, summary, date, projects and agenda items, in order |
| GroundedAnswers.ValidateClaims | backend/src/civicos_api/assistant.py:272-289 | the loop with early exit accepts the whole draft, normalized, or nothing |
| GroundedAnswers.GroundedAnswer | backend/src/civicos_api/assistant.py:213-270 | the service returns the specified answer or refusal |
| GroundedAnswers.AnsweredIff | backend/src/civicos_api/assistant.py:213-289 | an answer is given iff records were found and a draft of 1..max claims has every claim supported by enough different known citations |
| GroundedAnswers.RefusalReasons | backend/src/civicos_api/assistant.py:227-247 | a refusal names no records, no valid draft or not enough evidence, in this order |
| GroundedAnswers.AnswerKeepsClaims | backend/src/civicos_api/assistant.py:272-289 | every drafted claim is shown in order, with its words and its different citations |
| GroundedAnswers.CitationsAreThoseUsed | backend/src/civicos_api/assistant.py:249-257 | the citation list is exactly the ids used, in evidence order, without repeats |
| GroundedAnswers.AnswerScore | backend/src/civicos_api/assistant.py:291-312 | the score lies in 0.40..1.00, is 1.00 iff citations cover the claims and sources reach the target, and its level is read off the thresholds |
| GroundedAnswers.AnswerScoreMeaning | backend/src/civicos_api/assistant.py:291-297 | the score is a third of one, the share of claims that citations cover and the share of the target that sources cover, rounded half to even |
| GroundedAnswers.SourcesMeaning | backend/src/civicos_api/assistant.py:294 | cited documents are counted by source name, or by title where there is none |
| GroundedAnswers.EvidenceIdsDiffer | backend/src/civicos_api/assistant.py:223-226 | the ids C1..Cn are all different |
| GroundedAnswers.EvidenceIdReads | backend/src/civicos_api/assistant.py:223-226 | evidence number n has the id C followed by n in decimal |
| Notebooks.GatherEvidence | backend/src/civicos_api/notebooks.py:461-475 | the loop with a set of seen keys keeps the first row of each key |
| Notebooks.GatheredKeys | backend/src/civicos_api/notebooks.py:461-475 | the gathered keys are those of the rows without repeats, in order |
| Notebooks.GatheredIsFirstRows | backend/src/civicos_api/notebooks.py:461-475 | a row is gathered iff no earlier row agrees with it in everything but the title |
| Notebooks.ClaimsEvidence | backend/src/civicos_api/notebooks.py:885-905 | the nested loops return the cited evidence, or the failure of the first claim at fault |
| Notebooks.AcceptedIff | backend/src/civicos_api/notebooks.py:885-905 | a draft is accepted iff it has 1..max claims, each with a word and with citations of the notebook only |
| Notebooks.CitedIffUsed | backend/src/civicos_api/notebooks.py:885-905 | evidence is returned iff some claim cites it |
| Notebooks.CitedNoRepeats | backend/src/civicos_api/notebooks.py:893-904 | no piece of evidence is returned twice |
| Notebooks.EntryLinksItsEvidence | backend/src/civicos_api/notebooks.py:477-513 | a new entry takes the next position and links exactly a citation for each piece of its evidence; everything else stays |
| Notebooks.EntriesStayNumbered | backend/src/civicos_api/notebooks.py:547-590 | over every run of commands entries are numbered 1..n and link known citations |
| Notebooks.PlainEntries | backend/src/civicos_api/notebooks.py:547-590 | a note links nothing; a highlight links one new citation of its version and excerpt |
| Notebooks.NotebookDatabase.AddGeneratedEntry | backend/src/civicos_api/notebooks.py:477-513 | the entry and the loop of links are the entry step |
| Notebooks.NotebookDatabase.GenerateSummary | backend/src/civicos_api/notebooks.py:768-831 | a summary links exactly the versions its claims cite; a faulty draft changes nothing |

## Left out

- Concurrency inside a transaction: transactions are serial. Two completions of the last two sources of a run
  that race under READ COMMITTED could each miss the other, so the run-status theorem is about serial steps.
- Row-level security, memberships and tenants: one organization, or a list of them in the rebuild and briefings.
- HTTP, object storage, PDF, DOCX and HTML parsing, robots.txt, embeddings and language models: arbitrary
  functions, outcomes or drafts. A web page always answers the same way within one crawl.
- The vector index itself: a slow worker's write is not fenced and can overwrite a newer point, so nothing is
  said about its contents, only about the jobs.
- Liveness of refresh runs: a row left running by a crashed worker is not picked up again; that it stays running
  is proved instead.
- The checks of a source's acquisition policy before a crawl; the crawl starts from its result.
- Heartbeats and error texts. A source also carries the longest interval it has had, which the program does not
  store; only the bounds on schedules mention it.
- Jobs with equal schedule and equal creation time are claimed in any order.
- SHA-256 is an injective tag of the content, and Unicode normalization an arbitrary function.
- Pattern engines and sentence splitting: any list of in-bounds, non-empty matches, and any sentences.
- Confidence, opportunity and signal scores other than the answer score; wording of signals and answers.
- Answer scores are exact; binary rounding of the three ratios is not modelled.
- Evidence rows of canonical records, founder signals, watchlists and entities in the database: their inserts add
  rows only. A persist that fails in them is the raise of PersistResource.
- Record columns outside the snapshot (jurisdiction, agency, URL, confidence) are not part of the change log and
  are left out of the record.
- EvidenceSpans.Canonicalizer.Canonicalize: agenda items keep group offsets with the whole match as source text, and
  entities and topics have no spans, as in the code; nothing is claimed of their offsets.
- VectorFreshness.NoChangeLost: excludes moving an assignment to another document, because there the property is
  false; MoveKeepsFreshIff gives the exact condition.
- RateLimiter.DequeIsRecentHistory: readings must not decrease, because OlderReadingOverfills shows the bound
  failing otherwise; SeesAllIff and GrantedWindowBounded are about all readings.
- TextCleaning.CleaningAgain: when normalization of stored text brings in something to clean, only one direction is
  claimed.
- SummaryEvidence.SummaryHasSpanIff: only for text without other white space than spaces and newlines.
- Clock readings of the rate limiter are real numbers; rounding of their difference is not modelled.
- Notebook timelines, saved searches, exports, and the ownership check of a notebook.
- Frontend, routing, settings, authentication, metrics and the migration runner.
