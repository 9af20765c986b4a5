# Verified model of the web-data service

The service scrapes product catalogues of shops, keeps the scraped products with their price history,
syncs what is complete into a shared catalogue (PIM), and enriches catalogue products with images.
This project models its stateful cores in Dafny and proves what holds over whole runs of them.

| Part | Files |
|---|---|
| A. Scraping jobs: a claim, execute, count protocol between workers, cancellers, retriers and the scheduler; the source counters; the circuit breaker | `ScrapingJob`, `JobProtocol`, `JobInvariant`, `JobSteps`, `JobExecution`, `JobTimes`, `JobCounters`, `JobLosses`, `ScrapeUseCases`, `Scheduler`, `Timetables`, `SourceHealth` |
| B. Products: in-place brand filter, create or merge, price history, frozen rows, and workers that do so at once | `RawProduct`, `Product`, `Shop`, `PriceTrail`, `FrozenRows`, `UpsertBatch`, `UpsertUseCase`, `UpsertRaces`, `UpsertSchedules`, `FrozenRaces`, `UpsertStatements`, `ScrapedBatch` |
| C. Catalogue: search before create, alone and at once, and draining the pending rows page by page | `Catalogue`, `Namesakes`, `SyncRaces`, `SyncStatements`, `DrainBound`, `DrainOrder`, `DrainPacking`, `PendingSync`, `SyncPendingUseCase` |
| D. Enrichment: source cascade, batches with a limit, costs, permanent rejections, and visits and rejections at once | `Enrichment`, `EnrichmentRuns`, `EnrichmentRaces`, `EnrichmentStatements`, `EnrichmentBatches`, `EnrichmentUseCases` |
| E. Recognisers: two paginators, two EAN validators, the relevance tokenizer | `VtexPaginator`, `CoopPaginator`, `Ean`, `Relevance`, `Text` |

Entities and stores that the service updates are classes whose methods are proved against functions
on values; the theorems are about those functions, over every sequence of operations. Concurrency is
a state machine. Each event of `JobProtocol` is one atomic store statement, so every interleaving of
the use cases is a sequence of events, and the imperative use cases are proved to be such sequences.
`UpsertRaces`, `SyncRaces` and `EnrichmentRaces` do the same for products, catalogue and images: whole
operations first, then the exact condition under which an interleaving of their statements keeps what
the whole operations keep. What the network, the enhancer and the remote catalogue answer is part of
the input of every step.

Each specification function that a method is proved against is itself tied down by laws that do not name
it: written-out digits, characters, numbers and columns (`Ean.AcceptedIffDigitsAddUp`, `Namesakes`,
`Scheduling.PlanIsTick`, `JobTimes`, `PriceTrails.StoredTimesAreFold`, `Enrichment.StoredVisitShows`). Latin
names are those of ASCII and accented western European characters.

Prices and costs are whole cents, times are minutes. The relevance threshold of 0.6 is three fifths.
`dafny verify dfyconfig.toml` checks the project.

## What the code does not promise

These statements, which its comments or its design suggest, are false of the code. Each is proved to
hold exactly under a stated condition, and each has a witness.

- Counters against the recount: `JobLosses.AgreementByEvents`, and the run
  `JobCounters.SplitCancelBreaksAgreement`. A cancel reads and writes in two statements without a guard.
- "Finds and syncs all products pending": `DrainBound.DrainsIffFewEnough` for pages of any pending rows,
  `DrainPacking.OrderedPagesDrainIff` for pages of those last seen, and `PendingSync.UnreadyPagesStall`. Rows
  that are not ready stay on page 1 for all 500 pages.
- A source is not due again before the time its expression gives: `Timetables.NoPageTwiceInAPeriod` and
  `OnceIffNoneStraddles`, and `StaleWriteServesTwice`. An update writes back the next run that it has read.
- One catalogue entry for each name: `Catalogues.NamesStayUniqueIff`, and `BadStatusDuplicates`. A search
  that fails with a status, or whose ten results leave the match out, is read as "not found".
- One catalogue entry for each EAN: `Catalogues.EansStayUniqueIff`, `EansStayUniqueIffUnpadded`, and
  `PaddedEanDuplicates`. The search uses the raw code, the creation the trimmed one.
- One catalogue entry although workers sync at once: `SyncRaces.UniqueIffNoRace`, and the run `BothCreate`.
- A second run of a batch adds no history: `UpsertBatches.RerunAddsNothingIffOnePrice`, and `RerunAddsHistory`.
- Stored products are never less complete than what was observed, although three workers write at once:
  `UpsertSchedules.FoldsIffSerial`, and the run `SecondWriteLosesImage`.
- Blocked and hidden products are not sent: true of whole operations (`FrozenRows.FrozenRowsAreNotSent`);
  among statements exactly as `FrozenRaces.SentWhileFrozenIff` says, and the runs `LateBlockIsSent` and
  `LateBlockOnPageIsSent`.
- The content key identifies what was observed: `Products.KeyIsSharedIff`, and `KeysMergeSomeTitles`.
- A rejected image never comes back: true of whole operations (`EnrichmentRuns.RejectionIsPermanent`);
  among statements exactly as `EnrichmentRaces.RejectedInUseIff` says, and the run `RejectedImageReturns`.
- A card shows the image in use: true of whole operations while no call fails (`EnrichmentRuns.CardsFollowRows`);
  among statements exactly as `EnrichmentRaces.CardAgreesIff` says, and the run `LateCardShowsRejected`.

A comment that the code contradicts: the Coop adapter stops at two empty pages in a row, not at the
first (src/scraping/infrastructure/adapter/coop_obrera_adapter.go:127). The model follows the code.

## Model

| member | source | states |
|---|---|---|
| `JobExecution.ClaimedAtMostOnce` | src/scraping/infrastructure/persistence/postgres_job_repository.go:120-167 | over every run of any workers, cancels, retries and submissions, two claims of one job are the same step |
| `JobExecution.NeverPendingAgain` | src/scraping/infrastructure/persistence/postgres_job_repository.go:103-118 | once a job has left the pending status, no step of any run puts it back |
| `JobExecution.DiscardedErrorsNeverOccur` | src/scraping/application/usecase/execute_scrape_usecase.go:47-94 | whenever a worker looks its source up or finishes, `Fail` and `Complete` succeed, and the row gets the status that matches the outcome |
| `JobExecution.WhoChangesATerminalStatus` | src/scraping/application/usecase/cancel_job_usecase.go:18-27 | a step that changes a terminal status is the late write of a cancel that read the job pending before its claim, or the claiming worker's write after such a cancel |
| `JobExecution.AtomicCancelKeepsTerminal` | src/scraping/application/usecase/cancel_job_usecase.go:18-27 | if every cancel is one step, a terminal status never changes |
| `JobExecution.RetryChainsAreBounded` | src/scraping/application/usecase/retry_job_usecase.go:21-43 | in every reachable state a job's retry count is the length of its chain of originals, each of which exists, and is at most 3 |
| `JobTimes.ColumnsFitStatus` | src/scraping/domain/entity/scraping_job.go:44-99 | in every state of every run, split cancels included, the times, counts and error of each row fit its status: a waiting or cancelled job is untouched, a running one started after its creation, a completed one ended after its start without an error, a failed one ended with nothing found or saved; no time lies in the future |
| `JobTimes.PageNeverChanges` | src/scraping/infrastructure/persistence/postgres_job_repository.go:103-118 | over every run a job keeps the page it was submitted for |
| `JobInvariant.RunKeepsInv` | src/scraping/application/usecase/execute_scrape_usecase.go:42-95 | the inductive invariant holds in every state of every run: rows match their history, each held job has its one holder, copies are of existing rows, counters are the counted jobs |
| `JobCounters.CountersConserveRuns` | src/scraping/application/usecase/execute_scrape_usecase.go:58-94 | in every state, split cancels included: rows a recount sees plus rows lost to late cancels equal the counted runs plus workers between the two writes plus jobs without a source |
| `JobCounters.FinishedJobsAreCounted` | migrations/018_recalculate_source_counters_from_jobs.up.sql:9-26 | with atomic cancels, finished jobs equal total_runs plus the jobs that failed for want of their source plus the workers between the two writes |
| `JobCounters.RecountAgreement` | migrations/018_recalculate_source_counters_from_jobs.up.sql:9-26 | at rest with atomic cancels the success counter is exact, and all counters and the health equal the recount if and only if no job failed for want of its source |
| `JobCounters.AgreementWithSplitCancels` | migrations/018_recalculate_source_counters_from_jobs.up.sql:9-26 | at rest after any run, in terms of the rows: the counters equal the recount if and only if no completed row was lost to a late cancel and as many failed rows were as jobs failed for want of their source |
| `JobLosses.LossesAreEvents` | src/scraping/application/usecase/cancel_job_usecase.go:18-27 | over every run: a final row is lost exactly when some earlier late write of a cancel met it completed or failed, and a job lacks its source exactly when some earlier look-up found none |
| `JobLosses.AgreementByEvents` | migrations/018_recalculate_source_counters_from_jobs.up.sql:9-26 | at rest after any run, in terms of its events: counters and health equal the recount if and only if no cancel wrote over a completed row and cancels wrote over as many failed rows as look-ups were in vain; without such cancels, if and only if none was in vain |
| `JobCounters.SplitCancelBreaksAgreement` | src/scraping/application/usecase/cancel_job_usecase.go:18-27 | a concrete run with one worker and one canceller, every source found, that ends at rest with total_runs 1 and a recount of 0 |
| `JobCounters.LateCancelLosesARun` | src/scraping/application/usecase/cancel_job_usecase.go:18-27 | a cancel that writes over a finished row takes exactly one run out of the recount and leaves the counters |
| `JobCounters.WindowIsCounted` | src/scraping/application/usecase/execute_scrape_usecase.go:92-93 | workers between the job update and `RecordJobResult` correspond one to one to the jobs in that window |
| `ScrapingJobs.ScrapingJob.Start` | src/scraping/domain/entity/scraping_job.go:60-68 | succeeds exactly from pending; then running, with the start time; a refused call changes nothing |
| `ScrapingJobs.ScrapingJob.Complete` | src/scraping/domain/entity/scraping_job.go:70-80 | succeeds exactly from running; then completed, with the counts and the time; a refused call changes nothing |
| `ScrapingJobs.ScrapingJob.Fail` | src/scraping/domain/entity/scraping_job.go:82-91 | succeeds exactly from running; then failed, with the reason and the time; a refused call changes nothing |
| `ScrapingJobs.ScrapingJob.Cancel` | src/scraping/domain/entity/scraping_job.go:93-99 | succeeds exactly from pending; a refused call changes nothing |
| `ScrapeUseCases.JobTable.Save` | src/scraping/infrastructure/persistence/postgres_job_repository.go:25-38 | inserts the row; a duplicate identifier is refused and changes nothing |
| `ScrapeUseCases.JobTable.FindByID` | src/scraping/infrastructure/persistence/postgres_job_repository.go:40-48 | finds a row of the tenant only |
| `ScrapeUseCases.JobTable.Update` | src/scraping/infrastructure/persistence/postgres_job_repository.go:103-118 | overwrites the updated columns of the tenant's row whatever its status; no row is not an error |
| `ScrapeUseCases.JobTable.ClaimPendingJob` | src/scraping/infrastructure/persistence/postgres_job_repository.go:120-167 | whatever rows others have locked: fails only if nothing is pending or the pending rows of a tenant are all locked; otherwise starts the oldest unlocked pending job of one tenant and changes no other row |
| `ScrapeUseCases.SourceTable.FindByID` | src/source/infrastructure/persistence/postgres_source_repository.go:45-56 | finds exactly the active rows of the tenant |
| `ScrapeUseCases.SourceTable.RecordJobResult` | src/source/infrastructure/persistence/postgres_source_repository.go:190-205 | counts one run and its outcome on that row, active or not, and health times runs is the number of successes |
| `ScrapeUseCases.Execute` | src/scraping/application/usecase/execute_scrape_usecase.go:42-95 | with a given outcome and nothing in between: exactly the look-up, final write and count of the protocol (or the source-not-found branch); the row is the claimed job with the final status, its counts or the error, and the time; no other job is touched |
| `ScrapeUseCases.WorkersMayRely` | src/scraping/application/usecase/execute_scrape_usecase.go:38-95 | in every reachable state, whatever other processes have done, each point of a worker's code finds what the next statement requires |
| `ScrapeUseCases.LookUpSource` | src/scraping/application/usecase/execute_scrape_usecase.go:47-52 | at any moment of any run the look-up is the protocol's event: found iff the source row is active in the tenant, otherwise the job fails in memory with that error at this time |
| `ScrapeUseCases.WriteUnfound` | src/scraping/application/usecase/execute_scrape_usecase.go:49-51 | at any moment the write of a job without a source is the protocol's event and counts nothing |
| `ScrapeUseCases.WriteFinal` | src/scraping/application/usecase/execute_scrape_usecase.go:86-92 | at any moment the final write is the protocol's event: the row is the worker's copy, completed with both numbers or failed with the reason, at this time; no other row changes |
| `ScrapeUseCases.CountRun` | src/scraping/application/usecase/execute_scrape_usecase.go:93 | at any moment the count is the protocol's event |
| `ScrapeUseCases.WorkerTick` | src/scraping/infrastructure/scheduler/worker.go:54-72 | claims and executes one job if any is pending, as a sequence of protocol events |
| `ScrapeUseCases.RunWorker` | src/scraping/infrastructure/scheduler/worker.go:44-74 | alone over n ticks a worker executes min(n, pending) jobs, each ends completed or failed, no other row changes, and the whole is a sequence of protocol events |
| `ScrapeUseCases.CancelJob` | src/scraping/application/usecase/cancel_job_usecase.go:18-27 | succeeds exactly on a pending job of the tenant; undisturbed its two statements are the protocol's split cancel, which is then its one-step cancel |
| `ScrapeUseCases.ReadForCancel` | src/scraping/application/usecase/cancel_job_usecase.go:18-24 | at any moment the read, with the check in memory, is the protocol's read of a split cancel; a job that is not pending by then is refused and nothing changes |
| `ScrapeUseCases.WriteCancel` | src/scraping/application/usecase/cancel_job_usecase.go:25-27 | at any later moment the write is the protocol's late write: it overwrites the row with the cancelled copy whatever its status is by then, and no other row |
| `ScrapeUseCases.ReadForRetry` | src/scraping/application/usecase/retry_job_usecase.go:21-30 | at any moment the read is the protocol's read of a retry, refused exactly when the retry count has reached the maximum |
| `ScrapeUseCases.SaveRetry` | src/scraping/application/usecase/retry_job_usecase.go:30-43 | at any later moment the save is the protocol's save of a retry: a new row, column by column, pending, without a page and with one retry more; no other row changes |
| `ScrapeUseCases.RetryJob` | src/scraping/application/usecase/retry_job_usecase.go:21-43 | succeeds exactly while retries are left; undisturbed it is the protocol's retry read and save |
| `Scheduling.ScheduleRuns` | src/scraping/infrastructure/scheduler/scheduler.go:57-84 | in terms of the rows: old jobs stay as they are; for each due source with a maximum n > 0 there is exactly one new row for each page 1..n, without one exactly one of page 0, pending, scheduled, of that source and tenant, without retries; nothing else is added; each due source gets the next run of its cron, or ten minutes, and no other changes. And as protocol events |
| `Scheduling.ScheduleSource` | src/scraping/infrastructure/scheduler/scheduler.go:68-77 | one job without a page, or one for each page from 1 to the maximum |
| `Scheduling.CreateJob` | src/scraping/infrastructure/scheduler/scheduler.go:86-113 | one new row, column by column, with a fresh identifier and the page asked for; and that is the protocol submission |
| `Scheduling.Timetable.FindDue` | src/source/infrastructure/persistence/postgres_source_repository.go:207-231 | lists every active source with a cron expression whose next run is unset or not later than now, each once |
| `Scheduling.Timetable.Advance` | src/scraping/infrastructure/scheduler/scheduler.go:120-160 | stores the next run that cron gives, or ten minutes from now when the expression is empty or does not parse |
| `Scheduling.PlanIsExact` | src/scraping/infrastructure/scheduler/scheduler.go:67-77 | a tick submits a job for a page of a source exactly when the source is due and has that page |
| `Scheduling.PlanSubmitsOnce` | src/scraping/infrastructure/scheduler/scheduler.go:67-77 | no page of a source gets two jobs in one tick |
| `Scheduling.PlanIsTick` | src/scraping/infrastructure/scheduler/scheduler.go:67-92 | carrying out the plan for the due sources leaves exactly those rows |
| `Timetables.ServedAgainFromNextRun` | src/scraping/infrastructure/scheduler/scheduler.go:57-84 | over any sequence of ticks with anything in between: two ticks that serve one source are separated by the next run computed at the first, unless some tick did not find the next run that the tick before had left |
| `Timetables.NoPageTwiceInAPeriod` | src/scraping/infrastructure/scheduler/scheduler.go:79-82 | over any sequence of ticks with anything in between: if two ticks submit a job for one page and the later comes before the next run computed at the earlier, somebody wrote the next run between two of the ticks, or an advance was lost |
| `Timetables.ServedOnceIffCronAdvances` | src/scraping/infrastructure/scheduler/scheduler.go:120-160 | a source that nobody writes is never served twice at one moment, however ticks fall, if and only if its expression always gives a strictly later next run |
| `Timetables.ReadForUpdate` | src/source/application/usecase/update_source_usecase.go:21-25 | the read of an update holds the row as it is |
| `Timetables.WriteUpdate` | src/source/infrastructure/persistence/postgres_source_repository.go:144-166 | the write of an update puts back the next run as it was read, and the expression edited or as it was read, whatever the row is by now |
| `Timetables.OnceIffNoneStraddles` | src/source/application/usecase/update_source_usecase.go:21-68 | for every order of ticks and updates of a source: whatever the times, expressions and edits, and whenever the next tick comes, it is served once in a period if and only if no tick falls between the read and the write of an update |
| `Timetables.StaleWriteServesTwice` | src/source/application/usecase/update_source_usecase.go:21-68 | an update that a tick falls into makes the source due again within the period that the tick began |
| `SourceHealth.Source.RecordSuccess` | src/source/domain/entity/source.go:141-151 | the new counters, the reset run of failures and the score |
| `SourceHealth.Source.RecordFailure` | src/source/domain/entity/source.go:156-188 | the new counters and score, and deactivation or the backoff time |
| `SourceHealth.Source.RecalculateScore` | src/source/domain/entity/source.go:190-196 | the share of successes, 1 without runs |
| `SourceHealth.ConsecutiveIsTrailing` | src/source/domain/entity/source.go:141-188 | over every history the counter is the length of the trailing run of failures |
| `SourceHealth.InactiveIffFiveInARow` | src/source/domain/entity/source.go:172-175 | over every history the source is inactive if and only if some five results in a row were failures |
| `SourceHealth.BackoffDoubles` | src/source/domain/entity/source.go:175-184 | every failure is answered by 5, 10, 20 or 40 minutes for the first four in a row and by the breaker from the fifth, so the 24-hour clamp is never reached |
| `SourceHealth.StatementMatchesEntity` | src/source/infrastructure/persistence/postgres_source_repository.go:190-205 | the SQL statement and the entity agree on runs, successes, failures and health over every history |
| `SourceHealth.StatementNeverDeactivates` | src/source/infrastructure/persistence/postgres_source_repository.go:190-205 | the statement, over any history, leaves is_active as it is |
| `PriceTrails.StoredProductIsFold` | src/product/application/usecase/upsert_products_usecase.go:127-170 | over every sequence of whole scrapes, syncs, blocks and hides from an empty store: a row exists iff an observation of its key was accepted, history plus current price is the accepted prices without consecutive repeats, and image, category, brand, description and url are the first non-empty accepted values |
| `PriceTrails.StoredTimesAreFold` | src/product/application/usecase/upsert_products_usecase.go:127-202 | over every such sequence a row was first seen at the first accepted observation of its key, last seen at the last, and changed its price at the last one whose price differs from the price reported before it, never if there is none; its price is the last one reported, and it is in stock unless the first said otherwise |
| `UpsertRaces.FoldWithoutOverlap` | src/product/application/usecase/upsert_products_usecase.go:127-245 | the same with any number of workers at once, each find, write and sync an event of its own, pages loaded earlier and moderators in between: it holds for a key if nobody writes under it between a find and the write that follows from it |
| `UpsertSchedules.FoldsIffSerial` | src/product/application/usecase/upsert_products_usecase.go:132-202 | for every order in which observations of one product are found, written and synced: whatever was observed, when, and whatever the catalogue does, the fold holds at every point if and only if nobody writes between a find and the write that follows from it |
| `UpsertSchedules.SecondWriteLosesImage` | src/product/application/usecase/upsert_products_usecase.go:132-202 | a concrete order of two finds and two writes after which the row lacks the image that was written |
| `FrozenRaces.SentWhileFrozenIff` | src/product/application/usecase/upsert_products_usecase.go:250-262 | for every run and every sync in it: it sends a product whose row is blocked or hidden if and only if the product is otherwise ready, its row was neither at the worker's last read of it, and a moderator blocked or hid it, for good, between that read and the sync |
| `FrozenRaces.NoneSentIff` | src/product/application/usecase/upsert_products_usecase.go:250-262 | a whole run sends no blocked or hidden product if and only if no otherwise ready product is blocked or hidden between a worker's last read of it and its sync |
| `FrozenRaces.SentAsRead` | src/product/application/usecase/upsert_products_usecase.go:250-262 | what a worker is about to sync is sent if and only if it is otherwise ready and its row was neither blocked nor hidden at the worker's last read |
| `FrozenRaces.LateBlockIsSent` | src/product/application/usecase/upsert_products_usecase.go:172-262 | a concrete run of an upsert in which the new product is blocked between its write and its sync, and then sent |
| `FrozenRaces.LateBlockOnPageIsSent` | src/product/application/usecase/sync_product_to_pim_usecase.go:160-191 | a concrete run in which a product on a loaded page of pending products is blocked, and then sent |
| `UpsertStatements.FindCopy` | src/product/application/usecase/upsert_products_usecase.go:132-135 | at any moment the find is the event of the interleaved runs: a fresh copy of the row, or none |
| `UpsertStatements.SaveCopy` | src/product/application/usecase/upsert_products_usecase.go:136-202 | at any later moment the write is the event: merged into the copy or new, with the price record of the copy; refused exactly on a frozen row; a product that could not be created is not synced |
| `UpsertStatements.SyncTheCopy` | src/product/application/usecase/upsert_products_usecase.go:250-262 | at any later moment the sync is the event: it sends the product as it is in memory |
| `UpsertStatements.LoadPage` | src/product/application/usecase/sync_product_to_pim_usecase.go:160-174 | reading a page is a load event for each product on it |
| `Products.ScrapedProduct.EnrichFields` | src/product/domain/entity/scraped_product.go:166-198 | fills exactly the missing fields, keeps the others, reports whether anything was filled |
| `Products.ScrapedProduct.UpdatePrice` | src/product/domain/entity/scraped_product.go:133-139 | the new price, and now as change time and last-seen time; nothing else changes |
| `Products.ScrapedProduct.TouchLastSeen` | src/product/domain/entity/scraped_product.go:141-145 | sets the last-seen time, and nothing else |
| `Products.ScrapedProduct.MarkSynced` | src/product/domain/entity/scraped_product.go:158-162 | changes the synced mark only |
| `Products.HashInputIdentifiesKey` | src/product/domain/value_object/content_hash.go:12-16 | two hashed strings are equal exactly when tenant, source and the text "title:url" are |
| `Products.KeysSeparatePlainTitles` | src/product/domain/value_object/content_hash.go:12-16 | observations whose titles have no colon share a key if and only if tenant, source, title and url are equal |
| `Products.KeyIsSharedIff` | src/product/domain/value_object/content_hash.go:12-16 | an observation shares its key with one of another title if and only if its title or url has a colon; among titled observations, if and only if the colon is not the first character of the title |
| `Products.KeysMergeSomeTitles` | src/product/domain/value_object/content_hash.go:12-16 | two concrete observations that differ in title and url and share a key |
| `UpsertUseCase.FilterBrands` | src/product/application/usecase/upsert_products_usecase.go:82-111 | in place on the batch: the kept places hold the order-preserving filter of the original, the places after them are untouched |
| `UpsertUseCase.KeptAreNotExcluded` | src/product/application/usecase/upsert_products_usecase.go:82-111 | the filter keeps exactly the observations whose trimmed lower-case brand is not excluded |
| `UpsertUseCase.DroppedAreExcluded` | src/product/application/usecase/upsert_products_usecase.go:82-111 | in terms of characters: no brand equal to an excluded one up to case and surrounding spaces is kept, and of Latin brands no other is dropped |
| `UpsertUseCase.ProductStore.FindByContentHash` | src/product/infrastructure/persistence/postgres_product_repository.go:83-92 | finds the row under the key, as a fresh in-memory product |
| `UpsertUseCase.ProductStore.Upsert` | src/product/infrastructure/persistence/postgres_product_repository.go:25-66 | inserts, or overwrites the listed columns; refuses a blocked or hidden row and then changes nothing |
| `UpsertUseCase.ProductStore.SavePriceRecord` | src/product/infrastructure/persistence/postgres_product_repository.go:250-259 | appends one price to the history of that product |
| `UpsertUseCase.ProductStore.MarkSynced` | src/product/infrastructure/persistence/postgres_product_repository.go:353-361 | sets the mark of the row of that tenant and identifier, if there is one, and changes nothing else |
| `UpsertUseCase.ProductStore.SoftDelete` | src/product/infrastructure/persistence/postgres_product_repository.go:192-205 | hides the visible row of that tenant and identifier; fails if there is none |
| `UpsertUseCase.ProductStore.UpdateBlocked` | src/product/infrastructure/persistence/postgres_product_repository.go:224-237 | blocks or unblocks the visible row of that tenant and identifier; fails if there is none |
| `Shops.ModerationById` | src/product/infrastructure/persistence/postgres_product_repository.go:192-237 | hiding and blocking by identifier are the hide and block operations on the one row that has it |
| `UpsertUseCase.Merge` | src/product/application/usecase/upsert_products_usecase.go:134-166 | whatever the row is by now: the in-memory product is the observed copy; it overwrites the row unless that is frozen, and the copy's old price goes on record |
| `UpsertUseCase.CreateNew` | src/product/application/usecase/upsert_products_usecase.go:172-202 | whatever is under the key by now: a product of a fresh identifier is inserted, or overwrites the columns of a row it meets, or is refused by a frozen one |
| `UpsertUseCase.TrySyncProduct` | src/product/application/usecase/upsert_products_usecase.go:250-262 | syncs the product as it is in memory and marks the row of its identifier, if a catalogue is configured |
| `UpsertUseCase.UpsertOne` | src/product/application/usecase/upsert_products_usecase.go:127-245 | one observation with nothing in between is one store operation, with the verdict ignored, created, updated or refused; `StoredProductIsFold` and `StoredTimesAreFold` say what such operations leave |
| `UpsertUseCase.UpsertProducts` | src/product/application/usecase/upsert_products_usecase.go:74-248 | the batch is the run of the kept observations one by one; created and updated count their verdicts, and rows grow by created |
| `UpsertBatches.CountsAddUp` | src/product/application/usecase/upsert_products_usecase.go:127-247 | created is the growth in rows; created, updated and refused add up to the titled observations |
| `UpsertBatches.NoneRefused` | src/product/application/usecase/upsert_products_usecase.go:127-247 | without frozen rows nothing is refused, so created plus updated is the number of titled observations |
| `UpsertBatches.RerunAddsNothingIffOnePrice` | src/product/application/usecase/upsert_products_usecase.go:127-170 | without frozen rows, a second run of a batch creates nothing, and leaves a product's history as it is if and only if the batch reports one price for it |
| `UpsertBatches.RerunAddsHistory` | src/product/application/usecase/upsert_products_usecase.go:127-170 | a concrete batch of two prices for one product whose second run adds to the history |
| `FrozenRows.FrozenStep` | src/product/infrastructure/persistence/postgres_product_repository.go:33-46 | an operation on a blocked or hidden row changes no data, history, mark or catalogue entry, is refused, and only a moderator unfreezes it |
| `FrozenRows.HiddenForever` | src/product/infrastructure/persistence/postgres_product_repository.go:192-237 | once hidden, a row is the same after any operations |
| `FrozenRows.BlockedUntilUnblocked` | src/product/infrastructure/persistence/postgres_product_repository.go:224-237 | a blocked row keeps its data and history over any run in which it is not unblocked |
| `FrozenRows.FrozenRowsAreNotSent` | src/product/domain/entity/scraped_product.go:148-155 | in any run of scrapes, syncs, blocks and hides of any products, an operation aimed at a row that is frozen at its turn changes nothing anywhere, and an observation among them is refused and counted as such |
| `ScrapedBatches.FillFallbacks` | src/scraping/application/usecase/execute_scrape_usecase.go:73-80 | in place: each missing url and category is the source's |
| `ScrapedBatches.FilterIgnoresFallbacks` | src/scraping/application/usecase/execute_scrape_usecase.go:73-82 | filling fallbacks and filtering brands can change places |
| `ScrapedBatches.ReadyWithFallback` | src/scraping/application/usecase/execute_scrape_usecase.go:69-81 | a new product is ready for the catalogue iff it has a price, an image, and a category of its own or of its source |
| `ScrapedBatches.ExecuteScrape` | src/scraping/application/usecase/execute_scrape_usecase.go:42-95 | the whole use case over job, source, product and catalogue stores: it succeeds iff the source is visible and the fetch worked; then the row holds the numbers found and saved of exactly the run of the kept, filled observations; otherwise no product is touched; on the job tables it is the protocol's events |
| `ScrapedBatches.SaveScraped` | src/scraping/application/usecase/execute_scrape_usecase.go:69-90 | found is the size of the whole batch although it is compacted in place; saved is the titled kept observations less the refused ones, and at most found |
| `Catalogues.Client.SearchByEan` | src/product/infrastructure/adapter/pim_catalog_syncer_adapter.go:70-107 | the first entry with that exact code, nothing on a bad status, an error without an answer |
| `Catalogues.Client.SearchByNameBrand` | src/product/infrastructure/adapter/pim_catalog_syncer_adapter.go:109-156 | the first entry of that brand with the same trimmed name up to case; in terms of characters see `Namesakes.NameSearchFindsNamesakes` |
| `Catalogues.Client.Create` | src/product/infrastructure/adapter/pim_catalog_syncer_adapter.go:158-196 | adds one entry, unless the write is not applied |
| `Catalogues.Client.Update` | src/product/infrastructure/adapter/pim_catalog_syncer_adapter.go:198-232 | overwrites price and image when they are given, in that entry only |
| `Catalogues.Client.SyncProduct` | src/product/application/usecase/sync_product_to_pim_usecase.go:35-117 | search, then update or create, then mark, as the sync function says; the in-memory mark is set exactly on success |
| `Catalogues.FindExistingFinds` | src/product/application/usecase/sync_product_to_pim_usecase.go:52-63 | what is found matches by valid code or by name and brand; a search that is answered misses no match, whatever happens to the other; and when the search fails |
| `Catalogues.SyncsCreateOnce` | src/product/application/usecase/sync_product_to_pim_usecase.go:35-117 | over any sequence of syncs: unique (name, brand) stay unique if each sync is safe for names, unique codes if each is safe for codes; lost replies and marks and a failed code search do no harm to names |
| `Catalogues.NamesStayUniqueIff` | src/product/infrastructure/adapter/pim_catalog_syncer_adapter.go:109-156 | a sync can be made to every catalogue of unique names without duplicating one if and only if the product needs no sync, or the name search is not read wrongly as "not found", or the write does not take effect, or the search for a valid code errs first |
| `Catalogues.EansStayUniqueIff` | src/product/infrastructure/adapter/pim_catalog_syncer_adapter.go:70-107 | the same for codes: no sync needed, no valid code, a search that errs, a write that does not take effect, or an answered search for a code that is not padded |
| `Catalogues.EansStayUniqueIffUnpadded` | src/product/application/usecase/sync_product_to_pim_usecase.go:52-63 | with the code search never read wrongly as "not found", a ready product can be synced into every catalogue without duplicating a code if and only if its code is not both valid once trimmed and padded with spaces |
| `Catalogues.PaddedEanDuplicates` | src/product/application/usecase/sync_product_to_pim_usecase.go:52-63 | a concrete catalogue in which a padded code gets a second entry though all goes well |
| `Catalogues.BadStatusDuplicates` | src/product/infrastructure/adapter/pim_catalog_syncer_adapter.go:132-134 | a name search with a status other than 200 is read as "not found" and duplicates an existing entry, even if all else goes well |
| `Catalogues.ResyncCreatesNothing` | src/product/application/usecase/sync_product_to_pim_usecase.go:105-117 | after any other syncs, a sync of a product of a created entry's name and brand adds no entry if and only if it is safe for names or its code is found, even if the reply or the mark of the first was lost |
| `Catalogues.CreatedCodeIsFound` | src/product/application/usecase/sync_product_to_pim_usecase.go:105-117 | after any other syncs, an answered search for the unpadded code of a created entry finds an entry |
| `Catalogues.EntriesStay` | src/product/infrastructure/adapter/pim_catalog_syncer_adapter.go:198-232 | no sync removes or renames an entry |
| `Namesakes.NameSearchFindsNamesakes` | src/product/infrastructure/adapter/pim_catalog_syncer_adapter.go:109-156 | in terms of characters: an answered search finds an entry whenever one has the brand and a trimmed name equal position by position up to case, and among Latin names it finds the first such entry and nothing else |
| `Namesakes.NamesakeIsNotDuplicated` | src/product/application/usecase/sync_product_to_pim_usecase.go:52-63 | a sync adds no entry beside one of the brand and a name equal up to case, unless its name search is misread |
| `Namesakes.FairSyncShowsProduct` | src/product/application/usecase/sync_product_to_pim_usecase.go:35-117 | in fair weather, field by field: an unsendable product changes nothing; the first entry with its valid code, or else the first namesake, gets its price and image; otherwise one entry with all its fields is added |
| `Namesakes.SyncInAnyWeather` | src/product/application/usecase/sync_product_to_pim_usecase.go:35-117 | in any weather: a sync errs exactly when a search it makes fails or its write is not confirmed, marks exactly when it does not err and the mark is stored, and writes exactly when no search fails and the write takes effect, confirmed or not |
| `Namesakes.FairObservationIsSynced` | src/product/application/usecase/upsert_products_usecase.go:127-262 | after an accepted observation synced in fair weather the row is marked exactly if it was or has price, image and category, and the catalogue is synced with it |
| `Namesakes.UniqueNamesMeans` | src/product/infrastructure/adapter/pim_catalog_syncer_adapter.go:149-156 | names are unique exactly if no two entries of a brand have Latin names equal up to case |
| `SyncRaces.UniqueIffNoRace` | src/product/application/usecase/sync_product_to_pim_usecase.go:35-63 | for every order of the search, search and write requests with which workers sync products of one name and brand, of any codes and in any weather in which each sync alone is safe for names: names stay unique in every catalogue at every point if and only if, whichever codes the catalogue has, among the workers that can then only create none searches by name before the first of them writes and writes after another |
| `SyncRaces.ThreeRequestsAreSync` | src/product/application/usecase/sync_product_to_pim_usecase.go:35-117 | with nothing in between, the three requests are one sync, in any weather |
| `SyncRaces.BothCreate` | src/product/application/usecase/sync_product_to_pim_usecase.go:35-117 | a concrete order in which two workers sync one ready product in fair weather and create it twice |
| `SyncStatements.WorkersMayRely` | src/product/infrastructure/adapter/pim_catalog_syncer_adapter.go:198-232 | in every order of requests, an entry that a worker has found is still there when it writes |
| `SyncStatements.SearchForCode` | src/product/application/usecase/sync_product_to_pim_usecase.go:52-61 | at any moment the code search is the slot: skipped without a valid code, and an error ends the sync |
| `SyncStatements.SearchForName` | src/product/application/usecase/sync_product_to_pim_usecase.go:62 | at any later moment the name search is the slot: skipped if the first search found an entry |
| `SyncStatements.PutProduct` | src/product/application/usecase/sync_product_to_pim_usecase.go:64-108 | at any later moment the write is the slot: an update of the entry that was found, or a creation |
| `UpsertUseCase.ProductStore.FindPending` | src/product/infrastructure/persistence/postgres_product_repository.go:94-190 | page 1 of the pending rows: different visible unmarked rows of the tenant, 200 or all of them, those last seen first, in memory as they are |
| `SyncPendingUseCase.SyncListed` | src/product/application/usecase/sync_product_to_pim_usecase.go:174-191 | one product of a page is one sync operation, counted as skipped, synced or failed |
| `SyncPendingUseCase.SyncPage` | src/product/application/usecase/sync_product_to_pim_usecase.go:174-192 | a page is the run of its sync operations; unready products count as consumed, failed ones do not |
| `SyncPendingUseCase.FetchAndSync` | src/product/application/usecase/sync_product_to_pim_usecase.go:160-192 | reads what is pending now and syncs it; nothing is consumed of an empty page |
| `SyncPendingUseCase.SyncPending` | src/product/application/usecase/sync_product_to_pim_usecase.go:153-220 | at most 500 pages; each holds 200 visible unsynced rows of the tenant, or all of them, those last seen first; it stops at the first page of which nothing is consumed; in any weather only rows with all a sync needs are marked, and as many as it counts as synced if no mark is lost; in fair weather nothing fails, all r sendable rows are marked if r <= 500*(200-u), u < 200 the other pending ones (and, by order, if they fit on 500 pages packed), and it reads 500 pages if u > 0 and otherwise ceil(r/200)+1, at most 500 |
| `PendingSync.FairPagesDrain` | src/product/application/usecase/sync_product_to_pim_usecase.go:151-201 | whatever pending rows each page returns, the pages form a drain: exactly the ready rows on them leave, unready rows stay, each is counted as synced once |
| `PendingSync.PagesAreSyncs` | src/product/application/usecase/sync_product_to_pim_usecase.go:174-192 | in any weather the catalogue after the pages is the result of one sync attempt for each product counted as synced or failed |
| `PendingSync.DrainsCreateOnce` | src/product/application/usecase/sync_product_to_pim_usecase.go:151-201 | a drain in which replies and marks are lost creates no second entry of a name and brand if no name search is read wrongly, and none of a code if no code search is and no code is padded |
| `PendingSync.UnreadyPagesStall` | src/product/application/usecase/sync_product_to_pim_usecase.go:159-201 | in any weather, 200 rows that are not ready can be every page of a drain of any length, which then changes nothing and never stalls by its own test |
| `PendingSync.StoredPages` | src/product/application/usecase/sync_product_to_pim_usecase.go:174-192 | in any weather without lost marks, as many rows leave the ready ones as are counted as synced |
| `DrainBound.DrainsIffFewEnough` | src/product/application/usecase/sync_product_to_pim_usecase.go:151-201 | 500 pages of 200 sync every ready row whichever pending rows they hold if and only if there are at most 500*(200-u), u < 200 the unready ones; with 200 unready ones only if no row is ready |
| `DrainBound.DrainLeavesAtMost` | src/product/application/usecase/sync_product_to_pim_usecase.go:151-201 | n pages leave at most r - n*(200-u) ready rows |
| `DrainBound.WorstDrain` | src/product/infrastructure/persistence/postgres_product_repository.go:94-190 | some choice of n pages leaves exactly that many |
| `DrainBound.FullPagesOfUnreadyStall` | src/product/application/usecase/sync_product_to_pim_usecase.go:159-201 | with 200 unready rows some choice of 500 pages syncs nothing |
| `DrainBound.UnhinderedDrain` | src/product/application/usecase/sync_product_to_pim_usecase.go:151-201 | without unready rows n pages leave exactly max(0, r - 200*n) ready rows |
| `DrainOrder.OrderedDrainsIff` | src/product/infrastructure/persistence/postgres_product_repository.go:94-190 | with pages in the order of the last sighting, some number of pages is sure to sync every ready row if and only if each has fewer than 200 unready rows before it; then one page for each ready row is enough |
| `DrainPacking.OrderedPagesDrainIff` | src/product/application/usecase/sync_product_to_pim_usecase.go:151-201 | for every number of pages in the order of the last sighting, 500 included: they are sure to sync every ready row if and only if the ready rows, packed page after page in that order together with the unready rows before them, fit on that many pages |
| `DrainOrder.OrderedDrainLeavesAtMost` | src/product/application/usecase/sync_product_to_pim_usecase.go:151-201 | if each ready row has at most m unready ones before it, n pages leave at most r - n*(200-m) ready rows |
| `DrainOrder.NeverReached` | src/product/application/usecase/sync_product_to_pim_usecase.go:159-201 | a ready row with 200 unready rows seen later than it is never synced |
| `EnrichmentUseCases.FindProductData` | src/enrichment/application/run_enrichment_batch.go:201-241 | the first source whose answer is acceptable |
| `Enrichment.CascadeTakesFirst` | src/enrichment/application/run_enrichment_batch.go:201-241 | what the cascade returns comes from the first acceptable source, and it returns nothing only if there is none |
| `Enrichment.CascadeGuards` | src/enrichment/application/run_enrichment_batch.go:206-239 | with a code a source is asked for it, otherwise for the name, with category and business type, in that order, if there is one of them; what is found answers that question, with an image that is not rejected and a relevant title, given by the generator for what is sold loose; and it is found as soon as some source answers so |
| `Enrichment.LooseIff` | src/enrichment/application/run_enrichment_batch.go:253-286 | in terms of characters: sold loose are exactly the products without a code that have no brand or whose Latin name has one of nine texts in it, up to case |
| `Enrichment.FailureTellsStep` | src/enrichment/application/run_enrichment_batch.go:156-200 | for each step of a visit exactly when it is the one that fails, all before it having gone well |
| `Enrichment.StoredVisitShows` | src/enrichment/application/run_enrichment_batch.go:163-200 | what a visit stores, column by column: image, source and URL found; key by found GTIN, found EAN, item EAN or name; 4 cents if generated, otherwise the cost of the enhancer |
| `Enrichment.UpdatedVisitShows` | src/enrichment/application/run_enrichment_batch.go:308-322 | what a visit shows on the card: the new image, and GTIN, EAN, brand and category where they were found |
| `Enrichment.SanitizedAscii` | src/enrichment/application/run_enrichment_batch.go:334-345 | of an ASCII name letters and digits stay and everything else becomes an underscore |
| `Enrichment.SanitizedOther` | src/enrichment/application/run_enrichment_batch.go:334-345 | any other character becomes one underscore for each of its bytes |
| `EnrichmentUseCases.IsRejected` | src/enrichment/application/run_enrichment_batch.go:281-288 | finds exactly the listed URLs |
| `EnrichmentUseCases.ProcessItem` | src/enrichment/application/run_enrichment_batch.go:163-199 | the visit of an item without the skip check: the first failing step decides, and a card failure leaves the row saved |
| `EnrichmentUseCases.VisitItem` | src/enrichment/application/run_enrichment_batch.go:118-144 | one turn of the loop: world and counts after the visit |
| `EnrichmentUseCases.ExecuteBatch` | src/enrichment/application/run_enrichment_batch.go:100-154 | whatever the paging, visits a prefix of the queue once each and stops exactly where a plain loop with the limit would; the counts add up; a listing error leaves whole pages visited |
| `EnrichmentUseCases.ExecuteOnDemand` | src/enrichment/application/run_enrichment_batch.go:61-98 | refuses more than 100 identifiers; otherwise visits every fetched item and accounts for each |
| `EnrichmentUseCases.ResolutionStore.Save` | src/enrichment/infrastructure/persistence/postgres_enrichment_repository.go:35-61 | overwrites the row of the product and keeps its rejected list |
| `EnrichmentUseCases.ResolutionStore.RejectImage` | src/enrichment/infrastructure/persistence/postgres_enrichment_repository.go:63-81 | lists the URL once and clears raw_url, inserting a row if there is none |
| `EnrichmentUseCases.CatalogClient.UpdateImage` | src/enrichment/application/run_enrichment_batch.go:308-325 | sets the image and the non-empty fields of the card |
| `EnrichmentUseCases.CatalogClient.ListPage` | src/enrichment/application/run_enrichment_batch.go:110-117 | a slice of the fixed queue, shorter only at its end |
| `EnrichmentUseCases.RejectImage` | src/enrichment/application/reject_image.go:28-51 | needs an identifier; rejects the stored URL, then clears the card; stops at the first failure |
| `EnrichmentBatches.StopIsUnique` | src/enrichment/application/run_enrichment_batch.go:109-151 | there is one place where a run with a limit stops |
| `EnrichmentBatches.TallyAddsUp` | src/enrichment/application/run_enrichment_batch.go:118-144 | each visited item is counted once: as processed, at its cost, as skipped or as failed; and the errors are the failures, in order |
| `EnrichmentBatches.ResolvedIff` | src/enrichment/application/run_enrichment_batch.go:156-199 | after a run an item is resolved iff it was before or some visit of it saved |
| `EnrichmentBatches.SavedItemsAreSkippedNext` | src/enrichment/application/run_enrichment_batch.go:156-199 | what a run saved, the next run that is not forced skips, items lost at their card included |
| `EnrichmentBatches.CostsAreConserved` | src/enrichment/application/run_enrichment_batch.go:163-199 | the table's cost column grows by the reported total plus the cost of items lost at their card, less the cost of the rows overwritten |
| `EnrichmentRuns.RejectionIsPermanent` | src/enrichment/infrastructure/persistence/postgres_enrichment_repository.go:35-81 | over every run of whole visits and rejections no image in use is a rejected one, lists only grow and hold each URL once |
| `EnrichmentRuns.RejectedImageNeverReturns` | src/enrichment/application/reject_image.go:28-51 | after a rejection the product is not skipped by the next batch, and no run puts the image back |
| `EnrichmentRaces.RejectedInUseIff` | src/enrichment/application/run_enrichment_batch.go:163-220 | over every run of visits and rejections at once, each statement an event: a rejected image is in use again if and only if the last write of the row saved an image that was rejected between that visit's look at the rejected list and its save |
| `EnrichmentRaces.RejectedImageReturns` | src/enrichment/application/reject_image.go:28-51 | a concrete run of one forced visit and one rejection that ends with the rejected image in use |
| `EnrichmentRaces.CardAgreesIff` | src/enrichment/application/run_enrichment_batch.go:189-196 | after any run of visits and rejections at once, a card agrees with its row if and only if the last write of the card shows the image that the last write of the row is about |
| `EnrichmentRaces.LastOperationAgrees` | src/enrichment/application/reject_image.go:28-51 | if the operation that writes the row last also writes the card last, the card agrees with the row |
| `EnrichmentRaces.LateCardShowsRejected` | src/enrichment/application/run_enrichment_batch.go:189-196 | a concrete run of one visit and one rejection that ends with the rejected image on the card and none in the row |
| `EnrichmentRaces.LookSavePushAreVisit` | src/enrichment/application/run_enrichment_batch.go:163-199 | with nothing in between, look, save and card update are a forced visit |
| `EnrichmentRaces.ReadRejectClearAreReject` | src/enrichment/application/reject_image.go:28-51 | with nothing in between, read, reject and clear are a rejection |
| `EnrichmentStatements.LookAndAsk` | src/enrichment/application/run_enrichment_batch.go:201-241 | at any moment the read of the rejected list and the cascade on it are the look event |
| `EnrichmentStatements.SaveFound` | src/enrichment/application/run_enrichment_batch.go:185-188 | at any later moment the save is the event: it keeps the rejected list of the row as it is by then |
| `EnrichmentStatements.PushCard` | src/enrichment/application/run_enrichment_batch.go:189-196 | at any later moment the card update is the event |
| `EnrichmentStatements.ReadCurrent` | src/enrichment/application/reject_image.go:28-36 | at any moment the read of a rejection is the event |
| `EnrichmentStatements.RejectCurrent` | src/enrichment/application/reject_image.go:37-39 | at any later moment the rejection of what was read is the event |
| `EnrichmentStatements.ClearCard` | src/enrichment/application/reject_image.go:41-44 | at any later moment the clearing of the card is the event |
| `EnrichmentRuns.CardsFollowRows` | src/enrichment/application/run_enrichment_batch.go:189-196 | while no card call fails, a card shows the stored image of a resolved product and none otherwise |
| `EnrichmentRuns.LostCardStaysLost` | src/enrichment/application/run_enrichment_batch.go:189-196 | after a failed card update, visits that are not forced never change that card again |
| `VtexPaginator.Fetch` | src/scraping/infrastructure/adapter/vtex_adapter.go:99-169 | a conforming server yields the prefix of the length `FetchedInNumbers` states, total known or not; any server gets at most 2500 requests, all from below 2500 and 1 to 50 wide |
| `VtexPaginator.FetchPages` | src/scraping/infrastructure/adapter/vtex_adapter.go:105-169 | the loop, for a page size between 1 and 50 |
| `VtexPaginator.CapForIsCap` | src/scraping/infrastructure/adapter/vtex_adapter.go:122-127 | whole pages that begin below the cap hold at most p*ceil(2500/p) products, and exactly that many once the cap is reached |
| `VtexPaginator.FetchedInNumbers` | src/scraping/infrastructure/adapter/vtex_adapter.go:99-169 | up to 2500 wanted products come back whole; of more, the first number of whole pages that reaches 2500 |
| `VtexPaginator.TotalRoundTrip` | src/scraping/infrastructure/adapter/vtex_adapter.go:300-314 | the header "range/n" is read back as n |
| `VtexPaginator.OnlyTotalsAreRead` | src/scraping/infrastructure/adapter/vtex_adapter.go:300-314 | a header gives a total only with exactly one slash, followed by a decimal numeral up to spaces; any other shape gives none |
| `CoopPaginator.Fetch` | src/scraping/infrastructure/adapter/coop_obrera_adapter.go:130-178 | succeeds iff two empty pages in a row come early enough; then returns all pages before them, isolated empty ones tolerated, after exactly k+2 requests |
| `CoopPaginator.PositivePriceWins` | src/scraping/infrastructure/adapter/coop_obrera_adapter.go:242-266 | the mapped price is positive iff some listed price is, and is one of them |
| `CoopPaginator.ArticleIsMapped` | src/scraping/infrastructure/adapter/coop_obrera_adapter.go:242-266 | which field of an article goes where; a positive current price wins over a promotional one, and that over the former one |
| `Ean.IsValidEan13` | src/product/domain/value_object/ean.go:10-34 | accepts exactly the strings that trim to thirteen digits with a good checksum, which `AcceptedIffDigitsAddUp` writes out |
| `Ean.IsValidGtin13` | src/enrichment/infrastructure/sources/perplexity/adapter.go:167-184 | accepts exactly the 13-character strings whose last character is the computed check digit; for digits see `AcceptedIffDigitsAddUp` |
| `Ean.ExtractValidGtin` | src/enrichment/infrastructure/sources/perplexity/adapter.go:156-164 | the first candidate that is accepted, or nothing when none is |
| `Ean.ValidatorsAgree` | src/product/domain/value_object/ean.go:10-34 | the first validator accepts a string iff its trimmed form is thirteen digits that the second accepts |
| `Ean.AcceptedIffDigitsAddUp` | src/product/domain/value_object/ean.go:10-34 | thirteen digits are accepted, by either validator, if and only if d0+d2+...+d12 + 3*(d1+d3+...+d11) is a multiple of ten |
| `Ean.CheckDigitAloneIsNotEnough` | src/enrichment/infrastructure/sources/perplexity/adapter.go:167-184 | the second alone accepts a string that is not a number |
| `Ean.SingleChangeIsDetected` | src/product/domain/value_object/ean.go:10-34 | no single changed character of a valid code is accepted (section 7.9 of the GS1 General Specifications) |
| `Ean.SwapIsDetectedUnlessFive` | src/product/domain/value_object/ean.go:10-34 | a swap of neighbours is accepted iff they are equal or differ by five |
| `Ean.NormalizeIsIdempotent` | src/product/domain/value_object/ean.go:41-46 | what is sent is empty or a valid trimmed code, and normalising twice is normalising once |
| `Relevance.Tokenize` | src/enrichment/application/relevance.go:79-87 | the lower-case, accent-free words, in order |
| `Relevance.SignificantTokens` | src/enrichment/application/relevance.go:58-67 | exactly the tokens that are neither stop words nor numbers |
| `Relevance.TokenSet` | src/enrichment/application/relevance.go:70-76 | exactly the tokens |
| `Relevance.CountMatched` | src/enrichment/application/relevance.go:46-52 | the number of query tokens found |
| `Relevance.RelevanceScore` | src/enrichment/application/relevance.go:35-55 | the share of significant tokens found, 1 without any, and the verdict at three fifths |
| `Relevance.TokensOfParts` | src/enrichment/application/relevance.go:79-87 | the tokens of s, a separator and t are those of s followed by those of t |
| `Relevance.TokenizingIsStable` | src/enrichment/application/relevance.go:79-87 | tokenizing the joined tokens gives them back |
| `Relevance.ScoreIsAShare` | src/enrichment/application/relevance.go:41-55 | the score lies between 0 and 1, and the threshold on it is 5*matched >= 3*wanted |
| `Relevance.CaseAndAccentsDoNotMatter` | src/enrichment/application/relevance.go:99-115 | texts that differ in case and accents have the same tokens |
| `Relevance.ScoreIgnoresSpelling` | src/enrichment/application/relevance.go:35-115 | case, accents and word order change neither score nor verdict |
| `Relevance.LongerTitleScoresNoLess` | src/enrichment/application/relevance.go:35-55 | text after a separator never lowers the score |
| `Relevance.ContainedNameScoresOne` | src/enrichment/application/relevance.go:35-55 | a title that contains the name as delimited text scores 1 |
| `Relevance.AccentedIsPlain` | src/enrichment/application/relevance.go:79-115 | a capital or accented letter in a text gives the same tokens as the plain letter |
| `Relevance.AsciiTokens` | src/enrichment/application/relevance.go:79-87 | small letters and digits with nothing in between are one token, and any other ASCII character than a letter or digit ends it |
| `Relevance.OnlySayingWordsCount` | src/enrichment/application/relevance.go:23-67 | a stop word, one of a written-out list, or a number changes no score; any other word alone scores 1 or 0, as it is in the title or not |
| `Text.PaddingIsTrimmed` | src/product/infrastructure/adapter/pim_catalog_syncer_adapter.go:149-151 | ASCII blanks around a text are trimmed, and a printing ASCII character never is |
| `Text.SameNameIffEqualUpToCase` | src/product/infrastructure/adapter/pim_catalog_syncer_adapter.go:149-151 | trimmed names that are equal up to case are the same name, and Latin names no others |
| `Text.SameBrandIffEqualUpToCase` | src/product/application/usecase/upsert_products_usecase.go:85-89 | the same of brands |

## Left out

- Full-row updates of sources (src/source/application, src/source/infrastructure/persistence/postgres_source_repository.go:144-166): they overwrite counters too, and are not events of the job protocol; what they do to the next run is in `Timetables`.
- `RecordSuccess` and `RecordFailure` have no caller in the service; the entity's circuit breaker is modelled as written, and `SourceHealth.StatementNeverDeactivates` says what production code does instead.
- ScrapeUseCases.Execute: nothing acts between its statements; each statement alone is proved at any moment of any run, and `JobProtocol` has every interleaving of them.
- ScrapeUseCases.WorkerTick: nothing acts between the claim and the execution, nor within it.
- ScrapeUseCases.RunWorker: one worker alone; the interleavings of several are the runs of `JobProtocol`.
- ScrapeUseCases.CancelJob: nothing acts between its two statements; `ReadForCancel` and `WriteCancel` are proved at any moment.
- ScrapeUseCases.RetryJob: nothing acts between its two statements; `ReadForRetry` and `SaveRetry` are proved at any moment.
- ScrapedBatches.ExecuteScrape: nothing acts between its statements, and what the source row says about scrapes is an input beside the protocol's source row.
- PriceTrails.StoredProductIsFold: whole operations; `UpsertRaces.FoldWithoutOverlap` and `UpsertSchedules.FoldsIffSerial` say what remains of it among statements.
- UpsertUseCase.UpsertOne: nothing acts between its statements; `UpsertStatements` has each of them at any moment.
- UpsertSchedules.FoldsIffSerial: finds, writes and syncs of one product; over all events, blocks and other products included, `UpsertRaces.FoldWithoutOverlap` gives the sufficient half, because a write that a block refuses harms nobody.
- UpsertRaces.FoldWithoutOverlap: a row and its price record are written in one event, though they are two statements; only the order of records can depend on it. A sync's searches and its write are one event there.
- UpsertStatements.SaveCopy: writes the row and its price record in one event.
- UpsertStatements.SyncTheCopy: the searches and the write of a sync are one event; apart from each other they are in `SyncRaces`.
- SyncRaces.UniqueIffNoRace: names only; for codes see `Catalogues.SyncsCreateOnce`, sync after sync.
- EnrichmentRuns.RejectionIsPermanent: whole operations; among statements see `EnrichmentRaces.RejectedInUseIff`. Costs and counts are those of whole operations.
- Store and network faults, except where a contract names them: lost replies and marks and bad statuses in the catalogue sync, every step of an enrichment visit, listing and fetching errors, failed requests of the paginators.
- `JobProtocol` lets a claim take any pending job, which covers every order that SKIP LOCKED can give; the order of the real claim is in `ScrapeUseCases.JobTable.ClaimPendingJob`.
- Identifiers are numbers and fresh ones are assumed fresh; the SHA-256 of the content hash is taken as injective on its input.
- Catalogues.Client.SearchByNameBrand: the exact comparison over all entries of the brand; a limit of ten results or a substring search that leaves the match out is the reply that is read as "not found". The same holds for the search by code.
- Cron expressions are a function from a time to the next run; nothing is assumed of it, and `Timetables.ServedOnceIffCronAdvances` says what depends on it.
- EnrichmentUseCases.ExecuteBatch: the queue stays as it is during a run, because the service that serves it is not part of this repository.
- Ean.IsValidGtin13: strings are sequences of characters here; the length test counts characters where Go counts bytes.
- Ean.ExtractValidGtin: takes the matches of the regular expression as its input.
- Relevance.Tokenize: lower case covers ASCII and Latin-1; other scripts are left as they are, here and where the service folds case.
- Rounding: DECIMAL columns and float64 prices are whole cents, health and relevance scores are exact.
- Business types and their resolvers, currency, original price, normalised category, raw data, job references of products, and the batch helper `SyncBatch`, which is a page without re-reading.
- Trigger names are an enumeration. The use case that asks for a third name, and is always refused, is not modelled.
- HTTP, JSON, URL building, image bytes, upload, authentication, tenants' middleware, logging, statistics, filters and read-only use cases.
