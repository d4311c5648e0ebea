# Verified models of the MYOTA back-end services

This project models the parts of the repository whose correctness is an argument about
state, time or arithmetic rather than about one function, and proves what they promise.
`dafny verify dfyconfig.toml` checks everything.

**Participation statistics** (`Ledger`, `Aggregates`, `Batches`, `DeduplicationKey`,
`Cascades`, `StoredRows`, `AwardQueue`, `ActivityRepository`). Activations and QSOs are
the authority; counters and side tables per subject are an index over them, kept row by
row by inserts and recomputed for some subjects by an entity cascade. The main result is
that the index is exact in every run; for the one column where it is not, the exact
condition is given. So are the exact conditions for two contacts to share a deduplication
key, and for the order of a batch to matter. The awards of everybody a transaction
concerns are recalculated exactly when the key of its job is new, or an earlier job still
has the subject before it (`AwardQueue`); it is not new for a second cascade of an entity.
Every stored contact lies inside the validity window of its own activation (`StoredRows`).

**The work queue** (`WorkTables`, `WorkRepository`, `WorkProtocol`, `WorkSafety`,
`WorkRuns`, `WorkLeases`, `ActivityWorker`). Jobs with leases, a transactional outbox, a
broker that redelivers and workers that crash between any two calls form one transition
system. No job is forgotten, leases are exclusive, a live lease is never taken from its
holder, and a late worker is harmless. An open job loses its command exactly when the last
holder of each of its messages quits after the eighth delivery; that is reachable, with
and without crashes, and a running job stays so unless the relay dead-letters a command of
that very job. The message handler itself, written over the repository methods, only ever
takes steps of that system.

**Maidenhead coverage** (`Maidenhead`, `Clipping`, `GridCoverage`, `LineCoverage`,
`PolygonCoverage`). Locators name the cells of one flat grid, the clipping loop decides
exactly whether a segment meets a rectangle, and the covered cells of points, lines and
polygons are characterised geometrically. The tolerance of the code is a parameter:
completeness holds for every value of it, exactness for 0.

**Imports and promotion** (`Batching`, `Staging`, `ImportRuns`, `Promotion`,
`PromotionQueue`). Greedy batches are optimal and unique, staging survives crash and
replay, disappearance is judged correctly exactly when the last batch saw every reference,
a candidate is promoted at most once, and one that a queue lists can be queued again only
after a replay of preprocessing.

**Notifications** (`Notifications`, `NotificationConsumer`). Redelivery, duplicates,
concurrent replicas and crashes give at most one notice for an event exactly when its id
is always spelled in one way, and a message is dropped only by losing its last delivery.

**Multipart uploads** (`Multipart`, `MultipartReader`). The streaming reader gives, for
every chunking, what parsing the whole body gives, and parsing inverts printing
(section 5.1.1 of RFC 2046).

**Awards** (`Awards`, `AwardWorker`). Conditions evaluate to their meaning, counts only
help where they should, and the API and both workers give the same levels.

**Retention** (`ImportRetention`, `AdifRetention`). Sweeps end, do not retry a failure,
and at every crash point no object has lost the row that owns it.

`Wrappers` and `Sequences` hold what several of them share.

Two conventions run through all modules. A database transaction is one atomic step, and a
step that is not enabled changes nothing, so a run is any sequence of steps. Classes hold
the tables their methods update in place; each method is proved against a function of the
tables, and the theorems are about those functions.

## Model

| member | source | states |
|---|---|---|
| Aggregates.UpsertChangesOneView | services/activity_repository.py:237-279 | an upsert adds its deltas and its distinct values to the row it is for, and no other subject's row or side-table entries change |
| Aggregates.TruthExtends | services/activity_repository.py:1822-1863 | one more QSO changes what the rebuild queries say about its operator and its hunter, and about nobody else |
| Aggregates.StoreQsoKeepsExact | services/activity_repository.py:387-505 | recording one QSO keeps every stored counter equal to what the rebuild queries would compute |
| Aggregates.CreateKeepsExact | services/activity_repository.py:281-350 | opening an activation keeps them equal |
| Aggregates.CloseKeepsExact | services/activity_repository.py:616-647 | closing an activation keeps them equal |
| Batches.BatchIsEach | services/activity_repository.py:507-614 | a batch inside the window leaves exactly the tables that the same records leave one by one |
| Batches.StoreBatchKeepsExact | services/activity_repository.py:507-614 | a batch keeps every stored counter equal to what the rebuild queries would compute |
| Batches.StoredRowsAreNew | services/activity_repository.py:507-614 | the rows the batch returns are exactly the new ones, each once, and every record of the batch is stored afterwards |
| Batches.ApplyQsoCommutes | services/activity_repository.py:237-279 | the upserts of two QSOs of one activation give the same tables in either order |
| Batches.ApplyOrderIrrelevant | services/activity_repository.py:561-583 | the upserts of a batch give the same tables in every order |
| Batches.BatchOrderIrrelevant | services/activity_repository.py:507-614 | the order and the repetition of the records never matter to a refused batch, and they do not matter to an accepted one if and only if each key not yet stored names one record |
| DeduplicationKey.NormalizeIsIdempotent | services/activity_domain.py:69-78 | normalizing a normalized callsign changes nothing, whatever upper case and white space are outside ASCII, so the key may normalize again |
| DeduplicationKey.NormalizeCallsignIs | services/activity_domain.py:69-78 | a callsign is accepted exactly if its words in upper case, with one blank between them, make a text of 1 to 32 letters, digits, slashes, blanks and hyphens, and that text is the result |
| DeduplicationKey.WordsSplit | services/activity_domain.py:70 | white space separates words, however much of it there is |
| DeduplicationKey.KeysMeet | services/activity_domain.py:104-116 | two normalized records have one key if and only if callsign, instant, band and mode agree and the two ids read the same with the separator in between |
| DeduplicationKey.KeyInjective | services/activity_domain.py:104-116 | one key, one record, if neither hunter id, or neither worked-entity id, contains the separator |
| DeduplicationKey.BatchIsAnySequence | services/activity_repository.py:387-614 | a batch of normalized records inside the window gives the tables of inserting the same records singly, in any order and with duplicates, if and only if no two of its new contacts differ only in where the separator stands between their ids |
| DeduplicationKey.PipeFreeIsUnambiguous | services/activity_domain.py:104-116 | so it always does if no hunter id, or no worked-entity id, of the batch contains the separator |
| DeduplicationKey.KeyIsOwn | services/activity_domain.py:104-116 | a record is the only one with its key if and only if neither of its ids contains the separator; otherwise the ids split at another separator give a second record |
| Cascades.RebuildView | services/activity_repository.py:1822-1863 | rebuilding some subjects leaves each of them the row the queries derive, and leaves the others alone |
| Cascades.RebuildOneMore | services/activity_repository.py:1822-1863 | rebuilding subjects one after another is rebuilding them together |
| Cascades.CascadeKeepsExact | services/activity_repository.py:1715-1820 | an entity cascade keeps counters and distinct callsigns exact for every subject, collected or not |
| Cascades.CollectedSuffice | services/activity_repository.py:1715-1863 | rebuilding only the collected subjects gives the presence and the callsigns of every subject, and the row of exactly those, that rebuilding any larger set gives, apart from subjects whose entity count was wrong before the cascade; so all rows if and only if there is no such subject |
| Cascades.CascadeClears | services/activity_repository.py:1715-1820 | afterwards no QSO refers to the entity, its activations are closed as invalid, and every other QSO is untouched |
| Cascades.PreviewIsDelivered | services/activity_repository.py:1691-1820 | the QSOs a preview counts are the fall in the number of QSOs, the activations it counts are those the cascade closes as invalid, and a preview afterwards counts no QSO |
| Cascades.CascadeIsIdempotent | services/activity_repository.py:1715-1863 | a second cascade for the same entity changes no table |
| Cascades.RunsAreExact | services/activity_repository.py:237-279 | after every run from empty tables each subject's counters equal the rebuild queries, a missing row meaning zeros; an activator's entity count in every run whose cascades all come last |
| Cascades.RunsKeepCounters | services/activity_repository.py:470-473 | after every run each activation's three counters equal what its stored QSOs say |
| StoredRows.StoredInsideWindow | services/activity_repository.py:410-416 | in every run each stored QSO lies between the start and the end, if there is one, of its own activation, both included |
| StoredRows.RowsAreSubmitted | services/activity_repository.py:418-440 | in every run each stored QSO is a submitted record under its key, column by column, with the programme and operator of an activation, and valid |
| StoredRows.RowsCountTheLedger | services/activity_repository.py:1822-1863 | after every run from empty tables a subject's row counts the QSOs, activations, callsigns and entities that the columns of the ledger give the operator or hunter in the programme |
| StoredRows.ActivationsCountTheirQsos | services/activity_repository.py:470-473 | after every run each activation's counters are the QSOs, callsigns and entities of the rows that name it |
| StoredRows.CascadeDeletes | services/activity_repository.py:1734-1775 | a cascade deletes exactly the QSOs that worked the entity or were made from it, keeps every other row, and closes exactly the entity's activations as invalid |
| StoredRows.StatusAfter | services/activity_repository.py:616-647 | a new activation is open with the given site and window; afterwards only closing it and a cascade of its entity change its status, to closed or closed as invalid |
| Cascades.ActivatorColumnAfterCreate | services/activity_repository.py:274-279 | after a new activation the activator's entity count is right if and only if the side table already listed every other activated entity |
| Cascades.ActivatorColumnAfterQso | services/activity_repository.py:274-279 | the same condition decides it after a new QSO |
| Cascades.ListedAfterCascade | services/activity_repository.py:1859-1861 | after a cascade the side table lists exactly the entities with an activation that still has a QSO |
| Cascades.ActivatorColumnCanFail | services/activity_repository.py:1841-1861 | cascading the entity of any activation and then opening one elsewhere makes the count forget an entity still activated |
| ActivityRepositories.ActivityRepository.UpsertSubject | services/activity_repository.py:237-279 | the three statements leave the subject tables of one upsert |
| ActivityRepositories.ActivityRepository.CreateActivation | services/activity_repository.py:281-350 | a fresh id opens the activation, counts it for its operator and queues no award job; a used one is refused and changes nothing |
| ActivityRepositories.ActivityRepository.InsertQso | services/activity_repository.py:387-505 | the transaction takes the tables and the award queue to the next state, with one job under the id of a new row; the new row is the record column by column; a missing activation, one that is not open, or an instant before its start or after its end is refused, exactly these, without a change |
| ActivityRepositories.ActivityRepository.InsertQsoBatch | services/activity_repository.py:507-614 | the same for a batch; one record before the start or after the end refuses all, the returned keys are the rows stored, and the job is queued under the first record |
| ActivityRepositories.ActivityRepository.EntityDeletionImpact | services/activity_repository.py:1691-1713 | the counts are the number of QSOs by which a cascade would shrink the table and the number of activations it would leave closed as invalid |
| ActivityRepositories.ActivityRepository.CascadeDeleteEntity | services/activity_repository.py:1715-1820 | the cascade takes the tables to the cascade of the ledger and the award queue to its next state, and returns exactly the previewed counts; a retry under a known response key gives the same answer and changes nothing |
| ActivityRepositories.ActivityRepository.CollectAffected | services/activity_repository.py:1747-1760 | the walk collects every operator and hunter whose rows can change, every activation to recount and every programme concerned |
| ActivityRepositories.SelectedCallsigns | services/activity_repository.py:1852-1857 | the rows that the two SELECTs put in the callsign table are those of the rebuilt subjects |
| ActivityRepositories.SelectedEntities | services/activity_repository.py:1858-1863 | the same for the entity table, the join with the QSOs included |
| AwardQueue.ServedIffCovered | services/activity_worker.py:149-188 | in every run: however workers drain the queue they recalculate a subject's award if and only if some job of the programme that is waiting, or being handled, still has the subject before it |
| AwardQueue.RecordedIsServedIff | services/activity_repository.py:205-234 | in every run: everybody whose counters a transaction changes is recalculated afterwards if and only if the key of its job is new or an earlier job still has the subject before it; a known key queues nothing, even if its job is done |
| AwardQueue.CascadeIsServedIff | services/activity_repository.py:1777-1794 | a cascade reaches a subject it concerns if and only if it is the first of that entity in the programme, or an earlier job still has the subject before it |
| AwardQueue.SecondCascadeForgets | services/activity_repository.py:1777-1794 | the failing run from the start: after a cascade and its job, whoever activates the entity next, the same operator or another, is not recalculated after the second cascade |
| AwardQueue.SecondBatchForgets | services/activity_repository.py:591-613 | the failing run of a batch: when its first record began an earlier batch whose job is done, the new contacts behind it are stored and nobody is recalculated |
| AwardQueue.ActivationIsForgotten | services/activity_repository.py:281-350 | opening an activation changes a counter that awards may use and queues no job |
| AwardQueue.KnownIffBrought | services/activity_repository.py:205-216 | a key is known exactly if an earlier event of the run offered a job under it |
| AwardQueue.UntouchedKeepTruth | services/activity_repository.py:1822-1863 | a transaction changes what the rebuild queries say about nobody but those it is said to concern |
| ActivityRepositories.ActivityRepository.RebuildSubjectAggregates | services/activity_repository.py:1822-1863 | the loop over subjects leaves what one rebuild of all of them leaves |
| WorkRepositories.WorkRepository.EnqueueJob | services/activity_repository.py:205-235 | a new key inserts one queued job and its command, a known key reuses the job and never a second command |
| WorkRepositories.WorkRepository.ClaimWorkJob | services/activity_repository.py:1015-1033 | exactly a due queued job, or a due running one whose lease has expired, gets the token, a lease of 120 seconds and one more attempt; anything else is refused without a change |
| WorkRepositories.WorkRepository.HeartbeatWorkJob | services/activity_repository.py:1035-1043 | exactly the holder of the current token extends the lease, to 120 seconds from now |
| WorkRepositories.WorkRepository.RetryWorkJob | services/activity_repository.py:1045-1064 | exactly the holder of the current token returns the job to the queue, due after the delay |
| WorkRepositories.WorkRepository.CompleteJob | services/activity_repository.py:1066-1075 | only the current holder completes a job |
| WorkRepositories.WorkRepository.FailWorkJob | services/activity_repository.py:1077-1106 | only the current holder fails a job, and the dead letter is written in the same transaction |
| WorkRepositories.WorkRepository.RedriveFailedWorkJob | services/activity_repository.py:1129-1177 | exactly a failed or queued job of a registered kind, with actor and reason of admissible length, gets a fresh command and an audit row and its dead letters are resolved; a refusal names its cause and leaves the tables alone |
| WorkRepositories.WorkRepository.ReconcileQueuedWorkOutbox | services/activity_repository.py:991-1013 | exactly the queued jobs of a registered kind without a command under their own id get one, and the number returned is theirs |
| WorkTables.TrimmedCuts | services/activity_repository.py:1132-1139 | the texts whose lengths are checked are actor and reason without the white space at both ends |
| WorkRuns.StepKeepsInv | services/activity_worker.py:329-562 | every step of queue, relay, broker and workers, crashes included, keeps the whole invariant |
| WorkRuns.NoJobIsForgotten | services/activity_worker.py:329-562 | in every reachable state an accepted job of a registered kind is finished, or its newest command is still in the outbox or on an unsettled message, or its deliveries are used up |
| WorkRuns.ExhaustedIff | services/activity_worker.py:533-562 | in every run a message is out of deliveries, unsettled and in nobody's hands if and only if the last worker that held it quit after the eighth delivery: it stopped, gave the message back, failed to answer, or found its lease lost |
| WorkRuns.OpenJobIsLostIff | services/activity_worker.py:329-562 | in every run the newest command of an open job is dead if and only if it was published and every message that carries it was exhausted in that way |
| WorkRuns.LeasesAreExclusive | services/activity_repository.py:1015-1106 | a token is on a row exactly while it is running, no two jobs share one, and attempts counts the granted claims |
| WorkRuns.SupersededForever | services/activity_repository.py:1015-1033 | a token that was replaced or cleared never becomes current again |
| WorkRuns.LateWorkerIsHarmless | services/activity_repository.py:1035-1106 | whatever a worker does with a superseded token changes no table, in every later state of every run |
| WorkLeases.LiveLeaseIsKept | services/activity_repository.py:1015-1106 | no step but an act of a worker with the token changes the row of a running job whose lease has not run out |
| WorkLeases.TokensHaveOneHolder | services/activity_repository.py:1015-1033 | in every run no two workers believe in one token |
| WorkLeases.HolderKeepsLease | services/activity_worker.py:476-500 | a worker that beats at least every 120 seconds keeps its lease through whatever else happens, and its completion then succeeds |
| WorkLeases.LateHolderLosesLease | services/activity_repository.py:1022-1023 | one second later a claim takes the job over |
| WorkLeases.RetryDelayDoubles | services/activity_worker.py:514 | the delay before a retry is 2 seconds and doubles with every delivery up to 256 |
| WorkLeases.RetriedJobWaits | services/activity_worker.py:548-556 | a failed delivery before the eighth makes its job due again after that delay |
| WorkLeases.EighthFailureIsLast | services/activity_worker.py:537-547 | a failed delivery from the eighth on fails the job and writes its dead letter |
| WorkLeases.EightDeliveries | services/activity_worker.py:73 | in every run no message is delivered more than eight times, and an unsettled one delivered less often can be delivered again |
| WorkRuns.SucceededForever | services/activity_repository.py:1066-1106 | a succeeded row never changes again |
| WorkRuns.AttemptsNeverDecrease | services/activity_repository.py:1015-1033 | the attempts of a job never go down |
| WorkRuns.LettersAndAudits | services/activity_repository.py:1077-1177 | a job of a registered kind has one unresolved dead letter while failed and none otherwise, redrives and fresh commands correspond one to one, and reconciliation never finds anything to repair |
| WorkRuns.SettledWithCause | services/activity_worker.py:368-391 | a command is acknowledged only after its job was finished, and terminated only after a dead letter was committed |
| WorkRuns.StrandedForever | services/activity_worker.py:533-562 | a running job whose deliveries are used up stays as it is throughout a continuation, redrives included, if and only if the relay dead-letters none of its own commands there |
| WorkRuns.StrandedIsReachable | services/activity_worker.py:73 | eight deliveries lost to crashes lead to such a job |
| WorkRuns.StrandedWithoutCrash | services/activity_worker.py:533-535 | so do eight deliveries whose claim loses its answer, without any crash: even the eighth is given back |
| ActivityWorkers.ActivityWorker.HandleCommand | services/activity_worker.py:410-562 | one delivery of a command, any call of which may raise, is a run of steps of this worker alone and of time, and ends with the message out of its hands; the message is acknowledged only for a finished job and terminated only for a mismatched one behind its dead letter, and no other message is touched |
| ActivityWorkers.ActivityWorker.HandleGarbage | services/activity_worker.py:368-391 | an envelope that does not parse is a run of this worker's steps that touches no job; the message is terminated only together with exactly one new dead letter |
| ActivityWorkers.ActivityWorker.ClaimLoop | services/activity_worker.py:411-457 | left to itself the claim loop ends: with a lease, a finished job, a job that is missing or of another kind and has its dead letter, or an exception |
| ActivityWorkers.ActivityWorker.RecordFailure | services/activity_worker.py:533-556 | on the last delivery a lease that is still held ends in a failed job and an acknowledgement due, on an earlier one in a retry; without a lease the message is given back, and a lost lease leaves it unsettled |
| Maidenhead.LocatorNamesCell | services/maidenhead.py:20-51 | the nested field, square and subsquare letters name the cell of one flat grid; only an unknown precision or a point off the globe fails |
| Maidenhead.LocatorNamesOwner | services/maidenhead.py:14-51 | exactly one cell owns a point, shared edges going north-east and the outer edges to the last cells, and the locator names it |
| Maidenhead.DecodedCellHoldsPoint | services/maidenhead.py:20-51 | decoding the locator of any WGS84 point gives a cell that contains the point |
| Maidenhead.CentreNamesCell | services/maidenhead.py:279-286 | naming the centre of a cell and decoding the name gives the cell back |
| Maidenhead.NamesAreDistinct | services/maidenhead.py:279-286 | different cells have different locators |
| Maidenhead.NameDecode | services/maidenhead.py:10-11 | every text that decodes is the name of the cell it decodes to |
| Maidenhead.PointPrefix | services/maidenhead.py:40-51 | the short locator of a point is the front of the long one |
| Clipping.Clip | services/maidenhead.py:79-106 | the loop accepts every segment that meets the closed rectangle, and an accepted one meets the rectangle grown by the tolerance |
| Clipping.WindowIsExact | services/maidenhead.py:88-105 | without tolerance the running bounds are, after any number of constraints, exactly the parameters that satisfy them |
| Clipping.CutIs | services/maidenhead.py:88-105 | one constraint, case by case: when it passes, when it empties the window, and which bound it moves |
| Clipping.ClipIsExact | services/maidenhead.py:79-106 | without tolerance the test holds if and only if some point of the segment lies in the closed rectangle |
| Clipping.ClipIsComplete | services/maidenhead.py:79-106 | for every tolerance a segment that meets the rectangle is accepted |
| Clipping.ClipIsSound | services/maidenhead.py:79-106 | for every tolerance an accepted segment comes as near the rectangle as the tolerance allows |
| GridCoverage.CandidatesAreComplete | services/maidenhead.py:54-66 | no index whose closed interval reaches into the range is left out, at grid lines and clamped ends included, for every tolerance |
| GridCoverage.FirstCandidateIsLeast | services/maidenhead.py:54-66 | the first candidate is the least index whose interval comes within the tolerance of the lower bound |
| GridCoverage.RoundHalfEvenIs | services/maidenhead.py:54-66 | rounding gives the nearest integer, and of two equally near the even one |
| GridCoverage.PointInRectIs | services/maidenhead.py:69-76 | a point counts as in a rectangle exactly if some point of it is no further away than the tolerance along each axis |
| GridCoverage.FindPointInRing | services/maidenhead.py:109-121 | the toggling loop answers as the walk over the edges does |
| GridCoverage.CellsForComponent | services/maidenhead.py:185-218 | the nested loops collect exactly the candidate cells that the component touches |
| GridCoverage.CellIndices | services/maidenhead.py:245-278 | the walk over lines and polygons collects the union of their cells, with one-point lines and empty outer rings treated apart |
| GridCoverage.CoveredCells | services/maidenhead.py:221-286 | the result names exactly the covered cells; it fails exactly for an unsupported type or a point off the globe |
| GridCoverage.CoveredInGrid | services/maidenhead.py:185-286 | every covered cell is a cell of the grid, so it has a name |
| LineCoverage.LinesAreExact | services/maidenhead.py:144-151 | the cells of lines are exactly the grid cells some part of a line meets |
| LineCoverage.LinesAreComplete | services/maidenhead.py:185-278 | for every tolerance no cell that a line meets is missed |
| LineCoverage.SegmentIsSound | services/maidenhead.py:185-218 | for every tolerance a reported cell is met once grown by it |
| LineCoverage.SquaresAreParents | services/maidenhead.py:289-294 | for points and lines the covered squares are exactly the parents of the covered subsquares, one-point lines and points off the globe included |
| LineCoverage.MaidenheadFields | services/maidenhead.py:289-294 | the two fields name the covered cells, and for points and lines the short ones are exactly the fronts of the long ones |
| PolygonCoverage.PointInRingIsEvenOdd | services/maidenhead.py:109-121 | the toggling walk accepts a point exactly when it lies on the ring or an odd number of edges cross to its right |
| PolygonCoverage.OnRingIs | services/maidenhead.py:112-114 | on a ring is exactly a point of one of its edges |
| GridCoverage.CrossesIs | services/maidenhead.py:115-120 | an edge toggles exactly if its ends lie on different sides of the latitude, an end on it counting as below, and it passes the latitude east of the point |
| PolygonCoverage.InRingIsInBox | services/maidenhead.py:109-121 | a point of, or inside, a closed ring lies in the box of the ring's vertices |
| PolygonCoverage.HoleRule | services/maidenhead.py:124-141 | a point is kept exactly when the first hole that holds it, if there is one, has it on its edge |
| PolygonCoverage.HoleOrderMattersIff | services/maidenhead.py:124-141 | this differs from keeping exactly the points that no hole holds strictly if and only if the first hole that holds the point has it on the edge and another holds it strictly |
| PolygonCoverage.BoundaryIsCovered | services/maidenhead.py:154-170 | for every tolerance the cell of every vertex and of every edge is covered |
| PolygonCoverage.PolygonIsExact | services/maidenhead.py:154-218 | a polygon whose outer ring is closed covers exactly the grid cells that hold a vertex, meet an edge, or have a corner inside |
| PolygonCoverage.PolygonsAreExact | services/maidenhead.py:221-286 | the same for a whole Polygon or MultiPolygon |
| PolygonCoverage.GeometriesAreExact | services/maidenhead.py:221-286 | which cells every kind of geometry covers, lines of a single point included |
| Batching.BoundedImportBatches | services/geodata.py:73-107 | the loop gives the greedy split; it joins to the input, no batch is empty, all obey the limits, and no other split of the input that obeys them has fewer batches |
| Batching.StaysAhead | services/geodata.py:73-107 | after any number of batches the greedy split has consumed at least as much as any other |
| Batching.GreedyIsOptimal | services/geodata.py:73-107 | a split whose batches could not have taken one feature more is shortest |
| Batching.GreedyIsUnique | services/geodata.py:73-107 | there is only one such split, so where each batch starts is determined |
| Batching.OneBatchIff | services/geodata.py:73-107 | it has at most one batch if and only if all features obey the limits together |
| Staging.StagedChain | services/geodata.py:1590-1781 | staging adjacent or overlapping ranges of ordinals is staging the whole range once |
| Staging.FinalCandidates | services/geodata.py:1745-1771 | however a run was interrupted, replayed and reviewed, and whatever other runs staged meanwhile, once an attempt gets through there is one candidate for each staged ordinal, with the content its feature yields, and no other |
| Staging.IdsSurvive | services/geodata.py:1745-1753 | a candidate keeps its id and ordinal through everything later |
| Staging.ReviewsSurvive | services/geodata.py:1750-1765 | what reviewers last left on a candidate is still there after any number of attempts, replays and other runs |
| Staging.OutcomesAddUp | services/geodata.py:1588-1781 | every ordinal of a range is staged, skipped or an error, and there is one manifest entry for each staged one |
| ImportRuns.ImportWorker.CandidatesForOrdinals | services/geodata_store.py:658-675 | the window maps exactly the staged ordinals of the range to their candidates |
| ImportRuns.ImportWorker.ImportFeatures | services/geodata.py:1571-1781 | a batch stages exactly its range of ordinals and reports the candidate of each staged one, the manifest entries, the skipped and the failed features, in order |
| ImportRuns.ImportWorker.ApplyDisappearance | services/geodata.py:1239-1296 | exactly the entities of the same programme, adapter and source key with a reference that was not seen get the source state the policy names, are retired exactly by that policy, gain one history entry, and are reported; every other entity is unchanged |
| ImportRuns.ImportWorker.ProcessImportRun | services/geodata.py:2605-2763 | an attempt that gets through stages the whole source, stores its manifest and reports all features, whatever the batch limits; a complete snapshot treats the catalogue so, with what the last greedy batch staged as seen, and nothing else changes it; over 5000 features a snapshot changes nothing |
| ImportRuns.DisappearanceIsRightIff | services/geodata.py:1782-1795 | the marking is right for every catalogue if and only if the last batch staged every reference the source staged, or the policy is to change nothing, or the source is no complete snapshot |
| ImportRuns.RightIffOneBatch | services/geodata.py:2640-2708 | a snapshot whose features are all staged under different references is judged rightly if and only if it fits one batch |
| ImportRuns.TwoBatchesForget | services/geodata.py:2699-2708 | the smallest failing source: with one feature per batch, an approved entity that only the first of two features mentions is marked as disappeared |
| Promotion.StepKeepsInv | services/geodata.py:3986-4150 | every step of submission, claim, promotion, completion, crash and replay keeps the invariant |
| Promotion.MaterializedOnce | services/geodata.py:3986-4040 | in every run a candidate is materialized at most once, and once exactly when it says it is processed |
| Promotion.PassesAddUp | services/geodata.py:3991-4070 | every finished queue reports each listed occurrence in exactly one list; one without errors has promoted all it lists |
| Promotion.ProcessedStays | services/geodata.py:3999-4007 | a processed candidate keeps its status and its entity |
| Promotion.RemovedOnlyUnqueued | services/geodata.py:3876-3900 | a candidate disappears only when it is removed, and only one that names no queue is |
| Promotion.CandidateAfter | services/geodata.py:1745-1766 | staging makes a new candidate pending and in no queue, a replay takes it out of its queue, and a confirmation confirms it unless it is processed |
| Promotion.QueueAfter | services/geodata.py:3941-4070 | a claim starts an empty pass, the end of a pass stores its report and its status, and a crash loses the pass and nothing else |
| Promotion.ApprovedIsLeftAlone | services/geodata.py:1959-1966 | an approved entity stays approved through every run in which nobody edits it otherwise: no promotion touches it |
| Promotion.QueuedAgainIff | services/geodata.py:4181-4205 | in every run a record that an unfinished queue lists can be queued again if and only if it names no queue, or one that has failed on it; it names that queue exactly as long as preprocessing was not replayed over it since |
| Promotion.RestagedIsQueuedTwice | services/geodata.py:4181-4205 | a run from the start in which a replay lets one record wait for two queues; the first can then only refuse it, the second promotes it |
| PromotionQueues.GeodataStore.ProcessImportCandidates | services/geodata.py:4158-4228 | a request is accepted exactly when every listed record is of the run, unprocessed, and in no queue or confirmed in one that failed on it; then all of them are confirmed and queued, and otherwise nothing changes |
| PromotionQueues.GeodataStore.PromoteOne | services/geodata.py:3991-4060 | exactly a confirmed record of this queue, or of none, whose entity is not approved is promoted to the status of the target, and reported as updated if the entity was there and as created otherwise; a processed one is reported again and any other is an error |
| PromotionQueues.GeodataStore.ProcessImportQueue | services/geodata.py:3941-4150 | a delivery that claims the queue is one whole pass of it, or, if something other than a refusal is raised, a pass that stops where it stands; one that does not claim changes nothing, and only a live lease asks for redelivery |
| Notifications.StepKeepsInv | services/event_consumer.py:158-379 | every step of broker and replicas keeps the invariant |
| Notifications.SettledHasEvidence | services/event_consumer.py:230-379 | an acknowledged message has its event in the processed table, a terminated one has a dead letter |
| Notifications.CommitIs | services/event_consumer.py:255-283 | what a commit writes, row by row: the notice under the id as spelled unless it is there, the processed event, the resolution of its dead letter, and nothing else |
| Notifications.FailureIs | services/event_consumer.py:311-330 | a failure is permanent exactly if the envelope was not acceptable or the handler raised a ValueError |
| Notifications.AfterFailure | services/event_consumer.py:311-379 | a transient failure before the eighth delivery is given back, every other gets a dead letter |
| Notifications.ContradictedIff | services/event_consumer.py:285-379 | an event ends processed and with an unresolved dead letter in exactly the runs in which its first dead letter is written behind a commit of it and no commit follows |
| Notifications.ProcessedAndBuried | services/event_consumer.py:285-379 | such a run: the acknowledgement of the last delivery fails, and the event is processed and has an unresolved dead letter |
| Notifications.NotifiedOnce | services/activity_repository.py:1496-1536 | an event whose messages that name a recipient spell its id in one way has at most one notice |
| Notifications.NotifiedOnceIff | services/activity_repository.py:1496-1536 | for every published list of messages: every run over it leaves at most one notice of the event if and only if the messages that name a recipient spell the id in one way |
| Notifications.NoticesStay | services/activity_repository.py:1496-1536 | a notice belongs to a processed event and never changes |
| Notifications.ProcessedIsNotified | services/event_consumer.py:255-283 | a processed event whose messages all name a recipient has a notice |
| Notifications.TwoSpellingsTwoNotices | services/activity_notification_consumer.py:60-73 | any two published messages that spell the id differently: two replicas that look before either commits leave two notices |
| Notifications.DroppedIff | services/event_consumer.py:311-379 | a message is dropped in exactly the runs that never settle it and in which the replica that holds its last delivery stops, or loses the acknowledgement, at that moment; other stops do no harm |
| Notifications.NothingIsDropped | services/event_consumer.py:311-379 | otherwise a message that has used up its deliveries is in hand, or its event is processed, or it has a dead letter |
| Notifications.CrashesDropMessage | services/event_consumer.py:311-379 | such a run: eight deliveries end in a crash and leave no trace |
| NotificationConsumers.NotificationConsumer.ConsumeOne | services/event_consumer.py:188-379 | one delivery, any call of which may raise, is a run of steps of this replica alone, and unless a second exception cuts it short the message is settled or may be delivered again |
| Multipart.ForgetsNothing | services/common.py:458-469 | dropping all but the last bytes that could begin the delimiter loses no occurrence |
| Multipart.DelimiterEndsText | services/common.py:461-465 | a text without the delimiter, followed by it, has its first occurrence right there |
| Multipart.Search | services/common.py:461-462 | the search returns the first occurrence, or none if there is none |
| Multipart.ParseOfPrint | services/common.py:471-532 | parsing a printed list of parts gives back the parts, whatever follows them |
| Multipart.PrintOfParse | services/common.py:471-532 | every accepted body is the printed form of its parts and an epilogue |
| Multipart.AcceptedIffFile | services/common.py:524-532 | a request whose parts all parse is accepted if one of them is the uploaded file or metadata that names one, and refused for lack of a file otherwise |
| Multipart.BoundaryBytes | services/common.py:471-474 | the delimiter is a line break, two hyphens and the boundary |
| MultipartReaders.MultipartReader.Fill | services/common.py:436-443 | reading a chunk changes nothing about the input still to come, and fails only when the buffer holds all of it |
| MultipartReaders.MultipartReader.Read | services/common.py:445-449 | returns the next bytes of the input, for every chunking |
| MultipartReaders.MultipartReader.ReadLine | services/common.py:451-456 | returns the input up to the first line break and goes on behind it |
| MultipartReaders.MultipartReader.ReadPart | services/common.py:458-469 | writes exactly the bytes before the first occurrence of the delimiter and leaves exactly those behind it; ends without one exactly when there is none |
| MultipartReaders.ReadMultipart | services/common.py:471-532 | for every chunking the result, or the error, is that of parsing the whole declared input |
| Awards.EvaluateIsHolds | services/awards.py:94-139 | a condition whose leaves can all be read evaluates, in spite of the short cuts, to its meaning, in which a comparison is a statement about order and equality of the named count; empty groups are false |
| Awards.OperatorLaws | services/awards.py:84-91 | exactly one of less, equal and greater is met, the other two comparisons are theirs with equality, and an unknown operator is never met |
| Awards.NeverTurnsIffDirected | services/awards.py:84-91 | a single comparison is never lost, or never gained, by raising its count if and only if its operator looks in that direction |
| Awards.EvaluateIsMonotone | services/awards.py:84-139 | a condition whose comparisons look upward, with NOT turning them around, never fails on readable counts and is never lost by raising one; one that looks downward is never gained |
| Awards.RaisingCanLose | services/awards.py:94-139 | under NOT over a lower bound, or behind a short cut that hid an unsupported kind, raising a count does lose it |
| Awards.StandingsAt | services/awards.py:982-989 | a level is eligible exactly when the condition is met and its threshold is a number reached |
| Awards.EvaluationMeans | services/awards.py:965-998 | an evaluation says whether the condition holds, the count its metric code names, and for each level in order whether the condition holds and the count has reached the threshold |
| Awards.LevelsAreMonotone | services/awards.py:965-998 | raising counts loses no level of an award that counts upward |
| AwardWorkers.AwardWorker.Compute | services/activity_worker.py:270-288 | the worker's own evaluation agrees with the API's wherever the award has levels |
| AwardWorkers.ComputedIs | services/activity_worker.py:179-201 | it is the API's evaluation for an award with levels, and the API's for an empty list of them otherwise |
| AwardWorkers.AwardWorker.ProcessAwardEvaluation | services/activity_worker.py:262-309 | one award and subject: the stored progress is the evaluation of the payload's facts, or of the stored ones, and an eligible level leaves one notice for the award and subject, the first |
| AwardWorkers.AwardWorker.ProcessAwardRecalculation | services/activity_worker.py:149-230 | every published award of the programme, or only the one or the version named, is stored for every subject named, or for all of its category, and an eligible set of levels has its notice; no notice changes, nothing else is touched, and an error names an evaluation that fails |
| AwardWorkers.FactsCountTheLedger | services/activity_repository.py:649-671 | after any run the facts of a subject count its QSOs, activations and worked callsigns in the ledger, and its entities for a hunter or in a run whose cascades come last |
| AwardWorkers.RunAdvances | services/activity_repository.py:237-279 | in a run without cascades no counter of any subject ever goes down |
| AwardWorkers.QualifiedStaysQualified | services/activity_worker.py:179-201 | in every run without cascades, from empty tables, a level once reached in an award that counts upward is never lost |
| AwardWorkers.LevelSurvivesUpsert | services/activity_repository.py:274-279 | a level just reached survives the next upsert exactly when the side table lists enough entities, which after a cascade it may not |
| ImportRetention.SafeKeysAreCanonical | services/import_retention.py:31-65 | a key is accepted exactly when it is its own resolved path without backslashes |
| ImportRetention.SourceObjectIs | services/import_retention.py:31-65 | an object is found exactly for a key the metadata names in this bucket that is not blank and safe, and none exactly if the metadata gives no key |
| ImportRetention.SplitIs | services/import_retention.py:50 | the segments of a key contain no slash and give the key when joined by slashes |
| ImportRetention.Retention.PurgeOne | services/import_retention.py:189-201 | one run: the row goes only after every object its metadata names is gone, nothing else goes, and a failure keeps the row |
| ImportRetention.Retention.PurgeRun | services/import_retention.py:68-124 | the transaction rechecks the run, processed before the cutoff or without a sign of life since, and removes it or nothing |
| ImportRetention.Retention.PurgeExpiredImports | services/import_retention.py:127-203 | a batch purges or fails each selected run once, never an excluded one, and leaves only failures due if it was not full |
| ImportRetention.Retention.PurgeSweep | services/geodata_retention_worker.py:15-33 | the sweep ends and counts every run once; every batch but the last was full and purged something, and the last leaves due only what failed, or was full and failed on every run it selected; a row that is gone has taken every object its metadata names with it, no other object goes, and at every crash point no object has lost its owner |
| AdifRetention.Retention.Clean | services/adif_retention_worker.py:40-56 | an import is marked only after its object is gone |
| AdifRetention.Retention.MarkSourceDeleted | services/activity_repository.py:984-989 | the marker is set once and keeps its first time |
| AdifRetention.Retention.RunRetentionPass | services/adif_retention_worker.py:19-64 | the pass ends with every overdue import marked with the time and their number, or with the imports that failed, which are all still due; nothing but overdue imports and their objects is touched |

## Left out

- Aggregates.StoreQsoKeepsExact: the entity count of an activator is only bracketed between the side table and the activated entities, because after a cascade the code itself breaks equality; Cascades.ActivatorColumnAfterQso gives the exact condition.
- Cascades.CollectedSuffice: the entity side table is not part of the comparison; an activator's does differ after a wider rebuild, for the same reason.
- ActivityRepositories.ActivityRepository.CreateActivation: the event and the idempotency record of the transaction are not modelled.
- ActivityRepositories.ActivityRepository.InsertQso: nor are its event and its idempotency record.
- ActivityRepositories.ActivityRepository.InsertQsoBatch: nor are the events of a batch.
- ActivityRepositories.ActivityRepository.EntityDeletionImpact: the count of award progress rows is not modelled.
- ActivityRepositories.ActivityRepository.CascadeDeleteEntity: nor are its event and the deleted corrections.
- AwardQueue.ServedIffCovered: jobs are seen through one published award; a failed job counts as waiting for its redrive, and a request without named subjects is not modelled.
- Staging.FinalCandidates: the entity id and the timestamps inside a candidate are made afresh on every replay and are not part of its content; the catalogue is held fixed during a run.
- ImportRetention.Retention.PurgeRun: the run's events, manifests and audit rows, deleted in the same transaction, are not part of the state.
- ImportRetention.Retention.PurgeExpiredImports: rows are selected in some order; the code orders them by age, and no other process changes rows during a sweep.
- ImportRetention.Retention.PurgeSweep: the expiry of upload sessions that follows a sweep is not modelled.
- MultipartReaders.ReadMultipart: header parsing and the JSON decoder are parameters; of the metadata only whether it is an object, and whether it names an upload path, is kept. A part's size limit is kept.
- ActivityWorkers.ActivityWorker.HandleCommand: nobody else takes a step during it; the interleavings are those of the transition system. Sleeps are whole seconds.
- NotificationConsumers.NotificationConsumer.ConsumeOne: the same; the fetch loop around it and its message limit are not modelled.
- PromotionQueues.GeodataStore.ProcessImportQueue: the same; the statistics of the import run and the completion event are not modelled.
- Notifications.NotifiedOnce: subject and checkpoint rows are not part of the state.
- AwardWorkers.AwardWorker.ProcessAwardEvaluation: the parts of a notice key are ids without separators, so a key is its parts.
- AwardWorkers.AwardWorker.ProcessAwardRecalculation: the same; each save is one statement, so an error keeps what was stored before it.
- Correcting a reviewed QSO (services/activity_repository.py:1449-1458) changes QSOs without touching the statistics, so it is not a step of the ledger.
- The last entity type; empty ids are treated as absent.
- SHA-256 is taken to be injective, so a deduplication key is its canonical text, and instants are rendered by an injective stand-in.
- No code sets a QSO to VOID; the filters on that status are kept.
- UUIDs are fresh numbers. Tokens handed out, dead-letter origins, verdicts and crash points are recorded as history for the proofs.
- What a job handler does, progress acknowledgements and sleeping times are not part of the work protocol.
- Coordinates are real numbers, so rounding is not modelled; coordinates that are not numbers are not either.
- For polygons the covered cells are those with a vertex, an edge or an inner corner; that no other cell meets the area of a simple ring is an argument of the Jordan curve kind and is not proved, nor is the prefix property for polygons.
- The order of the sorted locator lists.
- An error in the middle of a submission is rolled back; the in-memory store used for tests keeps the records it had already confirmed.
- Promotion assumes that all workers of a queue see one set of candidates; a stale projection in another process is not modelled.
- A database conflict while a candidate is stored counts as a refusal in the code; the model has no such conflict. The row store behind the durable candidate table is not part of this model.
- Location enrichment, conflation candidates, events and source-reference repair of a promotion.
- The import lease, import cancellation and the heartbeat thread: import leases carry no fencing token.
- Route plumbing, authorization, file decoders, PDF rendering, reprojection, distances and name scores.
