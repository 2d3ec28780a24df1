# BONDA EigenDA monitor: a verified model

The monitor probes EigenDA operators for erasure-coded chunks, indexes ejection events, snapshots
stake, collects blobs and shows the results on dashboards.  This project models the parts of it that
keep state, run a protocol over unreliable calls or compute a bound, and proves what those parts
promise.  Calls that leave the program (gRPC, HTTP, Ethereum, SQL) are parameters: an answer that may
be missing, or a flag that says whether a write takes effect.  Every theorem holds for all of them.

`dafny verify --verification-time-limit 0 dfyconfig.toml` checks everything.

## Reading guide

| file | what it holds |
|---|---|
| `Common`, `Operators` | optional values, sequences as bags, the values exchanged between workers |
| `ProbeFanout` | `probeSet` as a step machine: spawner, goroutines, semaphore, mutex, wait group |
| `Retries` | the schedule-free reference of the retry loop, and the three-way verdict |
| `OperatorVerifier` | the worker itself, proved against the two files above |
| `FailStreaks`, `StableSort`, `Discovery`, `Sockets` | failure counters, ordering, the cached operator list, socket strings |
| `DiscoveryRaces` | the cached operator list under concurrent callers |
| `DeadOperators` | two dashboard panels and their agreement with the blacklist |
| `EjectionScan`, `EjectionIndexer` | the cursor protocol as a step machine with crashes, and the worker that runs it |
| `Database`, `BlobTable`, `BlobCollector` | the tables, the blob upsert of two writers, the collector's watermark |
| `RelayRegistry` | the relay URL cache under concurrent callers |
| `RealOrder`, `Wilson`, `StakeConcentration` | real arithmetic, the Wilson interval, the HHI |

How the concurrency is modelled: a goroutine's steps are one access to shared state each, and reading
and writing the shared tally are two separate steps, so that the absence of lost updates is proved
from the mutex and not assumed.  A theorem about runs quantifies over every schedule.  The class
`OperatorVerifier` picks any enabled step, so its contracts hold for every scheduler.

Two places where the code and its own words differ, and the model follows the code:

* `eigenda/internal/worker/operator_verifier.go:212-214` says that AT_RISK is only reported after a
  full round returned no new chunks.  The loop also stops when the retries run out (line 236) or when
  nobody is left failing.  `Retries.EmptyLastRoundIff` states exactly when the comment is right and
  `Retries.AtRiskWithoutEmptyRound` gives a run where it is not.
* The collector's page of 100 blobs is the whole feed a poll sees.  `BlobCollector.CompleteIffKeepsUp`
  shows that blobs are skipped for good as soon as one poll finds more than 100 new ones,
  `BlobCollector.BurstLosesBlob` gives such a feed, and `BlobCollector.TakenOnce` says that a failed
  upsert is never repeated.

## Model

| member | source | states |
|---|---|---|
| `ProbeFanout.SweepIsSchedulingIndependent` | eigenda/internal/worker/operator_verifier.go:156-205 | for every interleaving of spawner and goroutines that gets past `wg.Wait`: chunks is the sum over the contributors, okCount their number, failed all the others as a multiset, okCount + failed = all, and every operator took one slot |
| `ProbeFanout.ReturnedCompletes` | eigenda/internal/worker/operator_verifier.go:157-204 | when `wg.Wait` returns, every operator has been reported, recorded, merged and has given its slot back exactly once, and semaphore and wait group are at zero |
| `ProbeFanout.SlotSafety` | eigenda/internal/worker/operator_verifier.go:158-184 | in every reachable state at most 32 operators are in flight and the spawner waits for a slot exactly while 32 are, at most one goroutine is in the critical section, slots taken = slots given back + slots in use, and nobody gives one back twice |
| `ProbeFanout.SlotBalance` | eigenda/internal/worker/operator_verifier.go:163-184 | after any number of steps the sends to the semaphore are the tokens in it plus those taken out |
| `ProbeFanout.SomeStepEnabled` | eigenda/internal/worker/operator_verifier.go:162-204 | no deadlock: before `wg.Wait` has returned, some goroutine or the spawner can move |
| `ProbeFanout.RunsTerminate` | eigenda/internal/worker/operator_verifier.go:156-205 | every run has at most 12n + 1 steps, those of exactly that length are the ones that return, and any other can be continued |
| `ProbeFanout.StepUsesOne` | eigenda/internal/worker/operator_verifier.go:156-205 | the measure behind termination: each step, whoever takes it, uses up exactly one remaining step |
| `ProbeFanout.StepInv` | eigenda/internal/worker/operator_verifier.go:156-205 | each step keeps the invariant: spawner and phases, counters = launched and unfinished goroutines, mutual exclusion with no lost update of the shared tally, logs without repetition, tally = sequential sweep over the merged operators |
| `ProbeFanout.MutexAdvance` | eigenda/internal/worker/operator_verifier.go:192-200 | only the owner of the mutex lies between Lock and Unlock, and what it has read of the shared variables is still current when it writes |
| `ProbeFanout.TallyAdvance` | eigenda/internal/worker/operator_verifier.go:193-199 | reading and writing the shared variables in two separate steps amounts to one sequential merge |
| `ProbeFanout.PassMeaning` | eigenda/internal/worker/operator_verifier.go:193-199 | what a sequential sweep computes: the sum, the number of contributors and the list of the silent ones, without reference to the loop |
| `ProbeFanout.PassPermutation` | eigenda/internal/worker/operator_verifier.go:193-199 | sweeping the same operators in another order changes nothing but the order of failed |
| `Retries.RoundAdds` | eigenda/internal/worker/operator_verifier.go:228-240 | one more sweep over the pending operators adds exactly what the schedule-free reference (first contributing answer per operator) gains in that round |
| `Retries.SweepAdds` | eigenda/internal/worker/operator_verifier.go:229-239 | the same whatever order the pending operators come in, so the order of failed cannot influence later rounds |
| `Retries.Rounds` | eigenda/internal/worker/operator_verifier.go:228-240 | the number of rounds is between 1 and 3; it ended with 1024 chunks there, no gain, nobody failing or three rounds done, and no earlier round did |
| `Retries.RoundsExactly` | eigenda/internal/worker/operator_verifier.go:233-238 | the run has exactly k rounds when k is the least number after which 1024 chunks are there, nothing was gained or nobody is left failing, or else 3; so it stops at once when 1024 are reached |
| `Retries.PendingShrinks` | eigenda/internal/worker/operator_verifier.go:236-239 | each round that does not end the loop leaves strictly fewer, but some, operators pending |
| `Retries.WhoIsAsked` | eigenda/internal/worker/operator_verifier.go:227-239 | every operator is asked at least once; one that never contributes is asked in every round; one that does is asked until its first contribution and never again, so it is counted once |
| `Retries.Totals` | eigenda/internal/worker/operator_verifier.go:230-231 | contributors and pending operators add up to the whole set in every round, and each contributor brought at least one chunk |
| `Retries.JudgeIsExact` | eigenda/internal/worker/operator_verifier.go:242-266 | the quotient test on doubles agrees with the integer test 4 okCount <= totalChunks for all operands that can reach it; an inconclusive run has at most 255 contributors |
| `Retries.WhyItEnded` | eigenda/internal/worker/operator_verifier.go:233-238 | an unrecoverable run ended because its last round brought no chunks, nobody was left failing, or three rounds were done |
| `Retries.EmptyLastRoundIff` | eigenda/internal/worker/operator_verifier.go:212-214 | the comment promises an empty last round before AT_RISK; the code delivers one exactly when some round among the first three, with an operator still to ask, brings nothing |
| `Retries.AtRiskWithoutEmptyRound` | eigenda/internal/worker/operator_verifier.go:212-238 | four operators that discovery can list (distinct nonzero IDs, with sockets) and a response table for which the run ends AT_RISK although every round brought chunks |
| `OperatorVerifier.OperatorVerifier.ProbeAndRetrieve` | eigenda/internal/worker/operator_verifier.go:215-288 | rounds, counts and verdict depend on the response table alone, not on the schedule; every operator is reported with exactly the answers it gave until it contributed; every new probe row tells one of these answers column by column, and with no lost insert the success rows of this blob grow by totalChunks; exactly one retrieval row is added, with these counts and decodeSuccess iff totalChunks >= 1024, unless 0 < 4 okCount <= totalChunks < 1024 or the insert failed; an empty discovery changes nothing |
| `OperatorVerifier.OperatorVerifier.ProbeOperators` | eigenda/internal/worker/operator_verifier.go:221-288 | the same once the operators are known, for any list with distinct IDs |
| `OperatorVerifier.OperatorVerifier.Collect` | eigenda/internal/worker/operator_verifier.go:226-240 | the retry loop under an arbitrary scheduler in every round ends with the reference counts in the reference number of rounds |
| `OperatorVerifier.LoopTests` | eigenda/internal/worker/operator_verifier.go:233-238 | the two break conditions single out exactly the reference's last round |
| `OperatorVerifier.OperatorVerifier.ProbeSet` | eigenda/internal/worker/operator_verifier.go:156-205 | one sweep, its scheduler choosing among the enabled steps, leaves the sequential tally up to the order of failed, one report per operator, and one row for each insert that took effect |
| `OperatorVerifier.OperatorVerifier.StepOnce` | eigenda/internal/worker/operator_verifier.go:166-200 | any enabled step keeps counters, table and machine state together and comes closer to the end |
| `OperatorVerifier.OperatorVerifier.RunSweep` | eigenda/internal/worker/operator_verifier.go:162-204 | the loop over scheduler choices terminates, and only when every goroutine is done |
| `OperatorVerifier.OperatorVerifier.MakeReport` | eigenda/internal/worker/operator_verifier.go:169 | the report of a goroutine extends the history in the order in which goroutines report |
| `OperatorVerifier.OperatorVerifier.MakeRow` | eigenda/internal/worker/operator_verifier.go:183-190 | the row of a goroutine carries its blob, age, 8-byte prefix, socket, success and chunk count, in the order of the inserts that took effect |
| `OperatorVerifier.OperatorVerifier.ProbeRound` | eigenda/internal/worker/operator_verifier.go:229-232 | round k over the operators still pending takes counts, pending list, reports and rows from the reference's k rounds to its k + 1 |
| `OperatorVerifier.OperatorVerifier.RecordVerdict` | eigenda/internal/worker/operator_verifier.go:242-287 | one retrieval row, given column by column, with decodeSuccess iff totalChunks >= 1024; none when inconclusive or the insert failed |
| `OperatorVerifier.OutcomePartition` | eigenda/internal/worker/operator_verifier.go:242-287 | RECOVERABLE, INCONCLUSIVE and AT_RISK partition all runs by exact integer tests, in at most 3 rounds |
| `OperatorVerifier.OutcomeIgnoresOrder` | eigenda/internal/worker/operator_verifier.go:216-240 | the outcome does not depend on the order in which discovery lists the operators |
| `OperatorVerifier.ReportRound` | eigenda/internal/worker/operator_verifier.go:169 | a sweep extends the report history of each operator by the answer it gave if it was asked, and nobody else's |
| `OperatorVerifier.RowRound` | eigenda/internal/worker/operator_verifier.go:183-190 | with no lost insert a round's success rows add up to the chunks it collected, and the other blobs' sums do not move |
| `OperatorVerifier.RowsToldRound` | eigenda/internal/worker/operator_verifier.go:183-190 | each row that a round adds carries the blob key and age of the call, prefix and socket of a pending operator, and success and chunk count of the answer it gave in that round |
| `OperatorVerifier.AcceptedIsWritten` | eigenda/internal/worker/operator_verifier.go:183-190 | the rows that reach the table are exactly those whose insert succeeded, once each, in any order |
| `OperatorVerifier.PanelOfRows` | eigenda/grafana/dashboards/eigenda-threat-model.json:26 | the panel's SUM(chunks_returned) FILTER (WHERE success) over a sweep's rows is the sweep's chunk count |
| `OperatorVerifier.SweepKeepsInStep` | eigenda/internal/worker/operator_verifier.go:168-190 | reports and rows made in two different orders still leave every operator with the same outcome sequence in counters and table |
| `OperatorVerifier.OperatorVerifier.PanelsShowBlacklist` | eigenda/grafana/dashboards/eigenda-operators.json:86 | between probe sets, from an empty table without lost inserts and with distinct 8-byte prefixes: the operators panel counts exactly the blacklisted operators, and the threat panel's are among them |
| `DeadOperators.PanelMeaning` | eigenda/grafana/dashboards/eigenda-operators.json:86 | "five failures among the last five rows" means the last five rows exist and all failed, and "at least five rows, no success" implies it |
| `DeadOperators.PanelIsBlacklist` | eigenda/grafana/dashboards/eigenda-threat-model.json:116 | with table and reports in step, panel set = image of the blacklist, equal cardinalities, threat panel contained |
| `FailStreaks.CountedKeepsStreaks` | eigenda/internal/operator/discovery.go:335-343 | one report keeps every operator's counter equal to the length of its trailing run of failures |
| `FailStreaks.StreakIsMaximal` | eigenda/internal/operator/discovery.go:345-350 | a trailing run of at least k failures is the same as the last k reports having failed |
| `Discovery.Discovery.ReportResult` | eigenda/internal/operator/discovery.go:335-343 | appends to the history and keeps all counters equal to the trailing runs |
| `Discovery.Discovery.IsBlacklisted` | eigenda/internal/operator/discovery.go:345-350 | blacklisted exactly when the last five reports exist and all failed |
| `Discovery.Discovery.BlacklistedCount` | eigenda/internal/operator/discovery.go:352-363 | the number of operators whose last five reports all failed |
| `Discovery.Discovery.GetOperators` | eigenda/internal/operator/discovery.go:156-211 | distinct IDs in stable order of the present failure counters; when the cache is nonempty and younger than ttl, a fresh permutation of the last fetch that leaves the cache alone; otherwise the quorums up to the first error, which become the cache; an empty fetch changes nothing |
| `Discovery.Discovery.CallTwice` | eigenda/internal/operator/discovery.go:157-208 | two calls in a row, the first a fetch: less than ttl later the second returns the same operators and leaves the cache alone, from ttl on it returns and caches what the quorums then answer |
| `Discovery.Discovery.CollectQuorums` | eigenda/internal/operator/discovery.go:172-190 | the loops with the `seen` map collect the first entry of every ID among the quorums before the first error |
| `Discovery.Discovery.AddQuorum` | eigenda/internal/operator/discovery.go:184-189 | the inner loop extends the gathered list and the `seen` map by one quorum |
| `Discovery.FetchOperators` | eigenda/internal/operator/discovery.go:232-267 | one quorum: the indices whose calls succeed and that have an ID and a socket, in index order; a failed index is skipped, a failed count is an error |
| `Discovery.ListedExactly` | eigenda/internal/operator/discovery.go:254-263 | an operator is listed exactly when it has an ID and a socket and some index answered with both |
| `Discovery.ListedInOrder` | eigenda/internal/operator/discovery.go:253-263 | one entry for each index with an ID and a socket, in index order |
| `Discovery.OnlyListable` | eigenda/internal/operator/discovery.go:156-211 | every operator that discovery returns has a nonzero ID and a nonempty socket |
| `Discovery.Discovery.SortedCopy` | eigenda/internal/operator/discovery.go:159-168 | a fresh array with the same operators in stable order; the list it was made from is untouched |
| `Discovery.FirstSeenDistinct` | eigenda/internal/operator/discovery.go:172-190 | deduplication leaves distinct IDs and loses none |
| `Discovery.FirstSeenKeepsFirst` | eigenda/internal/operator/discovery.go:184-189 | an entry survives deduplication exactly when it is the first of its ID |
| `Discovery.FirstSeenKeepsOrder` | eigenda/internal/operator/discovery.go:184-189 | entries come out in the order of first appearance |
| `Discovery.FetchedStopsAtError` | eigenda/internal/operator/discovery.go:176-180 | nothing fetched after the first error matters |
| `DiscoveryRaces.EveryAnswerIsOneFetch` | eigenda/internal/operator/discovery.go:156-211 | under every interleaving of any number of callers and reports, an answer lists the operators of one single fetch, each ID once, in the order of the counters at some moment of the call; one from the cache was copied less than ttl after a fill with the same operators |
| `DiscoveryRaces.CacheIsOneFetch` | eigenda/internal/operator/discovery.go:205-208 | however many fetches overlap, the cache is empty or the whole of one of them |
| `DiscoveryRaces.FreshCacheIsServed` | eigenda/internal/operator/discovery.go:157-170 | under every interleaving a call takes the operators of the last fill if that is less than ttl old, and fetches if it is not |
| `DiscoveryRaces.AlwaysInv` | eigenda/internal/operator/discovery.go:156-211 | the invariant behind both, kept by every step between two lock operations |
| `DiscoveryRaces.OnlyStoresChangeCache` | eigenda/internal/operator/discovery.go:192-208 | hits, reports and fetches that bring nothing never change the cache |
| `StableSort.SortByFailCount` | eigenda/internal/operator/discovery.go:196-201 | the array becomes ascending in failure count, and operators with equal counts keep their order |
| `StableSort.SwapKeepsGroups` | eigenda/internal/operator/discovery.go:196-201 | exchanging neighbours with different counters never reorders operators with equal ones |
| `StableSort.StableOrderIsUnique` | eigenda/internal/operator/discovery.go:164-166 | there is only one such order, so any stable sorting algorithm gives the same list |
| `StableSort.SameGroupsPermute` | eigenda/internal/operator/discovery.go:164-166 | keeping the order within each failure count implies that the list was only permuted |
| `Sockets.ParsePrinted` | eigenda/internal/operator/discovery.go:369-383 | printing host:p0;...;pk and parsing it with index i gives host:pi for i <= k and the unchanged socket past the end |
| `Sockets.EverySocketIsPrinted` | eigenda/internal/operator/discovery.go:373-378 | every socket with a colon is the print of a colon-free host and semicolon-free ports, so the round trip covers them all |
| `Sockets.NoColonUnchanged` | eigenda/internal/operator/discovery.go:373-376 | a socket without a colon comes back unchanged |
| `Sockets.SplitJoin` | eigenda/internal/operator/discovery.go:378 | splitting at a separator undoes joining with it |
| `Sockets.JoinSplit` | eigenda/internal/operator/discovery.go:378 | and joining undoes splitting, no piece containing the separator |
| `Sockets.RetrievalSockets` | eigenda/internal/operator/discovery.go:385-393 | the two retrieval sockets of a printed socket are those of its second and fourth port |
| `EjectionScan.AlwaysSafe` | eigenda/internal/worker/ejection_indexer.go:70-144 | after any schedule of polls, failed calls, crashes, restarts and moving heads: the scanned ranges tile 1..cursor, each query spans at most 10001 blocks, and all their events are stored or had a failed insert; every row comes from a queried log |
| `EjectionScan.CursorNeverFalls` | eigenda/internal/worker/ejection_indexer.go:141-143 | the stored cursor never decreases, whatever the head does |
| `EjectionScan.CursorMeansScanned` | eigenda/internal/worker/ejection_indexer.go:83-143 | every block in 1..cursor lies in a range of at most 10001 blocks whose log query succeeded; the cursor stays 64 behind the largest head seen |
| `EjectionScan.MaxHeadWasSeen` | eigenda/internal/worker/ejection_indexer.go:77-83 | the largest head of the record is one that a head query answered |
| `EjectionScan.SafeHeadIsFinal` | eigenda/internal/worker/ejection_indexer.go:83 | for every uint64 head the wrapped 64-bit subtraction never yields a safe head nearer than 64 blocks |
| `EjectionScan.TableIsSingleScan` | eigenda/internal/worker/ejection_indexer.go:94-143 | with unchanging finalised logs and successful inserts the rows of 1..cursor are at every moment those of one single scan, however ranges were cut, repeated or interrupted |
| `EjectionScan.EveryEventHasItsRow` | eigenda/internal/worker/ejection_indexer.go:105-134 | with unchanging finalised logs, distinct (tx_hash, log_index) and successful inserts: a log of blocks 1..cursor has a row exactly if it has at least two topics, and the row holds its block number, the first 8 bytes of topic 1, and data byte 31 or 0 when the data is short |
| `EjectionScan.RowTellsItsLog` | eigenda/internal/worker/ejection_indexer.go:109-131 | also when inserts fail, a row that is there holds exactly these values |
| `EjectionScan.InsertKeepsPrefix` | eigenda/internal/db/db.go:464-474 | inserting a log that was met before changes nothing, a new one extends the scan by one: inserts are idempotent |
| `EjectionScan.OnlyFailedInsertsMissing` | eigenda/internal/worker/ejection_indexer.go:125-134 | when inserts may fail, the only chain events up to the cursor without a row are those whose insert failed |
| `EjectionIndexer.EjectionIndexer.Poll` | eigenda/internal/worker/ejection_indexer.go:70-144 | one poll performs exactly the machine steps that the answers and the process lifetime allow, so the theorems about runs of the machine speak of the stored rows; the stored cursor moves to min(safe head, cursor + 10001) exactly when every call succeeds and the process lives |
| `EjectionIndexer.PollEffect` | eigenda/internal/worker/ejection_indexer.go:70-144 | whatever the answers and wherever the process dies, a poll moves the cursor to min(safe head, cursor + 10001) if every call succeeds and leaves it alone otherwise |
| `EjectionIndexer.EjectionIndexer.Run` | eigenda/internal/worker/ejection_indexer.go:54-67 | the stored cursor after any run of polls is that of the machine, and depends on the completing polls alone |
| `EjectionIndexer.OnlyCompletedPollsCount` | eigenda/internal/worker/ejection_indexer.go:70-144 | over any run of polls, failures and deaths included, the cursor is that of the completing polls one after the other |
| `EjectionIndexer.RunAgainstFixedHead` | eigenda/internal/worker/ejection_indexer.go:83-92 | if all completing polls of a run see safe head S above cursor c, the cursor is min(S, c + 10001 times their number) |
| `EjectionIndexer.CaughtUpIff` | eigenda/internal/worker/ejection_indexer.go:83-92 | such a run has caught up exactly when ceil((S - c) / 10001) polls have completed, and no further one completes |
| `EjectionIndexer.RunLagFalls` | eigenda/internal/worker/ejection_indexer.go:83-92 | in a run without failures against a head growing by at most 10000 blocks per poll, a poll that does not catch up leaves a strictly smaller lag |
| `EjectionIndexer.RunCatchesUp` | eigenda/internal/worker/ejection_indexer.go:83-92 | and such a run catches up within as many polls as it was blocks behind |
| `EjectionIndexer.EjectionIndexer.PlanRange` | eigenda/internal/worker/ejection_indexer.go:83-92 | the range computation agrees with the machine, and there is none exactly when the safe head is not above the cursor |
| `EjectionIndexer.EjectionIndexer.InsertLoop` | eigenda/internal/worker/ejection_indexer.go:105-135 | the insert loop takes the machine through all logs, or through as many as the process lives for |
| `EjectionIndexer.EjectionIndexer.ScanRange` | eigenda/internal/worker/ejection_indexer.go:94-143 | a failed log query ends the poll with the cursor kept; otherwise the events are inserted before the cursor moves |
| `EjectionIndexer.EjectionIndexer.InsertOne` | eigenda/internal/worker/ejection_indexer.go:109-134 | a log with fewer than two topics is skipped; otherwise block, 8-byte prefix of topic 1 and last byte of a full data word become the row |
| `EjectionIndexer.EjectionIndexer.StoredRowsAreSingleScan` | eigenda/internal/worker/ejection_indexer.go:70-144 | between polls the stored rows up to the stored cursor equal a single scan |
| `EjectionIndexer.EjectionIndexer.StoredRowsTellTheirLogs` | eigenda/internal/worker/ejection_indexer.go:70-144 | between polls the same holds of the stored rows and the stored cursor |
| `EjectionIndexer.EjectionIndexer.StoredRowsMissOnlyFailedInserts` | eigenda/internal/worker/ejection_indexer.go:125-134 | between polls a chain event up to the stored cursor is missing only if its insert failed |
| `Database.Database.InsertEjectionEvent` | eigenda/internal/db/db.go:464-474 | a second insert of the same (tx_hash, log_index) changes nothing |
| `Database.Database.UpsertBlob` | eigenda/internal/db/db.go:313-328 | the on-conflict merge, tied to the function that RowIsHistory is about |
| `BlobTable.RowIsHistory` | eigenda/internal/db/db.go:313-328 | after any sequence of upserts to a key: identity of the first, self flag the OR of all, latency the last non-zero one or 0, payment the last non-null one |
| `BlobTable.OrderFreeIff` | eigenda/internal/db/db.go:319-322 | the three merged columns are independent of the order of the upserts exactly when non-zero latencies agree and payments agree |
| `BlobTable.AgreeingIsOrderFree` | eigenda/internal/db/db.go:319-322 | two histories with the same upserts in different orders leave the same merged columns when the written values agree |
| `BlobTable.ProberAmongCollectors` | eigenda/internal/worker/write_prober.go:108-124 | the write prober's upsert at any position among any number of collector upserts of the same blob: the row is self-dispersed with the prober's latency and the blob's payment |
| `BlobTable.FlagMeansProber` | eigenda/internal/db/db.go:319-321 | in a history of upserts by the two workers the row is marked as self-dispersed exactly if the prober wrote, and shows a latency only then |
| `BlobTable.IdentityIsOfFirst` | eigenda/internal/worker/write_prober.go:114-120 | the worker that writes a blob first fixes its identity columns: those of the feed, or the prober's status, size and time |
| `BlobCollector.BlobCollector.CollectBlobs` | eigenda/internal/worker/collector.go:47-92 | the loop with early break upserts exactly the entries before the first old one and counts those that take effect, the watermark becomes the newest timestamp and never falls, an error changes nothing |
| `BlobCollector.PollTakes` | eigenda/internal/worker/collector.go:57-86 | over an append-only increasing feed a poll takes exactly the positions of its page not seen before |
| `BlobCollector.TakenOnce` | eigenda/internal/worker/collector.go:58-61 | no blob is taken by two polls, so a failed upsert is never repeated |
| `BlobCollector.RunIsObserved` | eigenda/internal/worker/collector.go:47-92 | after any run of polls the watermark is the newest blob seen and the table holds exactly the keys of the taken positions whose upsert succeeded |
| `BlobCollector.RowsAreOfTakenBlobs` | eigenda/internal/worker/collector.go:67-78 | every row that a run of polls leaves is that of a taken position whose upsert took effect, with that blob's identity columns, not self-dispersed, without latency, and with its payment exactly if that is nonzero |
| `BlobCollector.CompleteIffKeepsUp` | eigenda/internal/worker/collector.go:47-92 | every blob from the oldest of the first page to the watermark is taken exactly when no later poll finds more than 100 new ones |
| `BlobCollector.BurstLosesBlob` | eigenda/internal/worker/collector.go:47-92 | a concrete feed: polls that see 1 and then 102 blobs leave the second blob out of the table for good, below the watermark |
| `BlobCollector.TableIsEveryBlob` | eigenda/internal/worker/collector.go:47-92 | then, with distinct keys and successful upserts, the table holds exactly those blobs |
| `RelayRegistry.RelayRegistry.GetRelayURL` | eigenda/internal/registry/relay_registry.go:214-253 | one caller: a fresh entry is served and the cache kept, otherwise the lookup's answer is stored and served for ttl, and a failed lookup changes nothing |
| `RelayRegistry.AlwaysInv` | eigenda/internal/registry/relay_registry.go:214-253 | under every interleaving of any number of callers each cache entry and each answer goes back to a successful lookup of its own key |
| `RelayRegistry.CachedUrlsWereLookedUp` | eigenda/internal/registry/relay_registry.go:248-250 | every cached URL is the result of some successful lookup of that same key |
| `RelayRegistry.ServedUrlsAreRecent` | eigenda/internal/registry/relay_registry.go:215-219 | a URL served from the cache was stored less than ttl earlier, and looked up less than ttl plus the longest lookup earlier |
| `RelayRegistry.OnlyStoresChangeCache` | eigenda/internal/registry/relay_registry.go:222-250 | a key's entry changes only when a caller holding a URL for that key stores it; failed lookups never change the cache |
| `Wilson.HandleSurvival` | eigenda/internal/api/server.go:131-148 | one bucket per scanned row in order, with the Wilson interval from ten probes on and zeros below |
| `Wilson.FillBucket` | eigenda/internal/api/server.go:138-146 | one bucket: the Wilson interval of its counts from ten probes on |
| `Wilson.ScannedInOrder` | eigenda/internal/api/server.go:133-137 | one entry for each row that could be scanned, in row order |
| `Wilson.FormulaIsInterval` | eigenda/internal/api/server.go:139-145 | the formula as written, clamps included, equals the unclamped interval |
| `Wilson.EndpointsAreRoots` | eigenda/internal/api/server.go:141-143 | the endpoints are exactly the solutions x of (p - x)^2 = z^2 x (1 - x) / n |
| `Wilson.EndpointsBracket` | eigenda/internal/api/server.go:144-145 | 0 <= lower <= p <= upper <= 1 |
| `Wilson.IntervalBrackets` | eigenda/internal/api/server.go:139-145 | the shown ends bracket the shown rate within 0 and 100, so the clamps never change the exact value, and are the two solutions x of (p - x)^2 = 1.96^2 x (1 - x) / n |
| `Wilson.FailuresMirror` | eigenda/internal/api/server.go:139-145 | counting failures instead of successes mirrors the interval |
| `Wilson.MoreSuccesses` | eigenda/internal/api/server.go:139-145 | both endpoints grow strictly with the successes |
| `Wilson.LargerSample` | eigenda/internal/api/server.go:139-145 | for equal rates the interval of a larger sample lies within that of a smaller one |
| `StakeConcentration.TakeSnapshot` | eigenda/internal/worker/stake_indexer.go:80-136 | only readable positive stakes enter; total, count, HHI and each percentage are those of that list, and there is no snapshot exactly when it is empty |
| `StakeConcentration.FilterStakes` | eigenda/internal/worker/stake_indexer.go:80-96 | the loop collects the readable positive stakes in order with their exact total |
| `StakeConcentration.StakedInOrder` | eigenda/internal/worker/stake_indexer.go:87-96 | one entry for each operator whose stake was read and is positive, in list order, with its own ID and stake |
| `StakeConcentration.ComputeHhi` | eigenda/internal/worker/stake_indexer.go:102-111 | the loop computes the sum of squared percentages of the list |
| `StakeConcentration.PercentagesAddUp` | eigenda/internal/worker/stake_indexer.go:124-132 | the percentages of a nonempty list of positive stakes sum to exactly 100 |
| `StakeConcentration.HhiBounds` | eigenda/internal/worker/stake_indexer.go:102-111 | HHI of n positive stakes lies in [10000/n, 10000], reaching the lower end exactly for equal stakes and the upper exactly for n = 1 |
| `StakeConcentration.MergeRaisesHhi` | eigenda/internal/worker/stake_indexer.go:102-111 | merging stakes a and b, wherever they stand, raises HHI by exactly 20000ab/T^2 |
| `StakeConcentration.HhiIgnoresOrder` | eigenda/internal/worker/stake_indexer.go:102-111 | the order of the operators does not matter |

## Left out

- gRPC, HTTP and Ethereum clients, ABI packing and protobuf code: answers are parameters; a timeout or error is a failed answer.
- Metadata lookup and operator sampling in discovery.
- SQL execution, migrations, connection pools and views: tables are sequences and maps; the rows of operator_probes are kept in order of probe_time, and ties in probe_time are not modelled.
- The one-hour window of the recoverability panel: the sum is stated over the rows added since the call began.
- `InsertOperatorRetrieval` and the chain-state client: their source is not part of this model; the insert appends one row to a log.
- Columns that carry no logic: latencies, chunk hashes and sizes, error messages, quorum 0, insertion times.
- Hexadecimal printing: operator IDs, prefixes and transaction hashes are numbers, the 8-byte prefix being the leading 64 bits of the ID.
- Event times of ejections: the answer of the block query or the local clock is a parameter, and the single-scan theorem leaves that column aside.
- Block 0: the cursor starts at 0 and the first range at block 1, so the theorems speak of blocks 1..cursor.
- StableSort.SortByFailCount: sorts by insertion instead of the library's algorithm; StableOrderIsUnique shows that the result is the same.
- Workers that would write into the operator list they share with the cache after a miss: none of the three callers does, and discovery itself never writes an array again after storing it.
- OperatorVerifier.OperatorVerifier.Collect: the endless loop with two breaks is written with a flag that the tests set, because the round and its tests are separate methods.
- OperatorVerifier.OperatorVerifier.ProbeSet: asks for distinct IDs, which its only caller has from GetOperators; the theorems of ProbeFanout hold with repetitions too.
- OperatorVerifier.OperatorVerifier.ProbeAndRetrieve: other workers that refresh the operator cache during a probe are not interleaved with it; it reads the cache once, at its beginning, and nobody else reports to the counters.
- Retries.JudgeIsExact: rounding to doubles is any monotone function that keeps 4 and 4095/1024; bit patterns are not modelled.
- EjectionScan.AlwaysSafe: the steps of two indexer processes at once are not interleaved; a restart is the end of one poll and the beginning of another.
- EjectionIndexer.EjectionIndexer.Poll: the process can die before any insert, before storing the cursor, or instead of a call that would have failed; a death right after a call that took effect is the same as one before the next call.
- Wilson.HandleSurvival: exact reals with the square root as a parameter; rounding of doubles is not modelled. The SQL's guarantee that successes do not exceed the total is a requirement.
- StakeConcentration.ComputeHhi: exact reals; the rounding of big.Float quotients and doubles is not modelled.
- StakeConcentration.TakeSnapshot: one quorum; the loop over quorums 0..2 and the failures of the two snapshot inserts are left out.
- RelayRegistry.RelayRegistry.GetRelayURL: the clock is a parameter that never goes back in the concurrent machine.
- Sockets.ParsePrinted: a negative port index is not modelled; the two callers pass 1 and 3.
- BlobCollector.RunIsObserved: timestamps are positive and strictly increasing along the feed, as the completeness claim needs; CollectBlobs itself is stated for every feed.
- The verifier's `Run` loop and its fairness, the other workers, API handlers, configuration, logging, health recording, sleeps and tickers: wiring with only easy members.
- The KZG check accepts any nonempty blob with nonempty commitments, and Reed-Solomon decoding is never done: nothing to prove.
