# Verified model of the blog backend's hard parts

A Dafny model of four cores of the blog API backend, with the properties their code and comments
promise proved for all inputs and all runs. `dafny verify dfyconfig.toml` checks everything.

| module | what it models |
|---|---|
| `Common`, `Relational`, `Ranking` | the SQL the rollups are written in: GROUP BY, joins, row_number(), ORDER BY ... LIMIT, as functions on sequences of rows, with their laws |
| `RawEvents`, `SiteRollup`, `PageRollup`, `SearchRollup`, `AudienceRollup` | the raw event tables and the eight rollup queries |
| `FirstSeen`, `RollupStore`, `Reports` | first-seen and cohorts, the rollup tables and the jobs that rebuild them, the report sums |
| `Ingest` | folding, chunking and upserting heartbeats |
| `CacheKeys`, `KeySpace`, `ReadCache`, `GenerationLoss`, `CacheClient` | the generation-based read cache: its string keys, the protocol of many clients interleaving single Redis commands, the loss of generation keys, and the client code |
| `Transactions` | units of work: transactions, savepoints, and the events recorded in them |
| `Backoff`, `Relay`, `Delivery` | the outbox relay with its 64-bit retry delay, and delivery end to end |
| `Consumer`, `Copies`, `Handling` | the consumer chain with its circuit breaker, several handler copies sharing one, and the chain around an idempotent handler |
| `Hub` | the realtime hub |
| `Exports` | the export claim queue |

Code that changes state is modelled by classes and methods (`RollupStore.Repository`,
`Ingest.Store`, `CacheClient.Redis`, `Transactions.Database`, `Relay.Outbox`,
`Consumer.CircuitBreaker`, `Hub.Hub`, `Exports.Repository`), each proved against a specification
function or predicate; protocols with several participants are state machines over single atomic
steps. A failing database or Redis call, a clock reading, the order in which other clients act and
what a publisher or handler answers are parameters.

## What the code does not do

Some properties one would expect are false of the code. Each has the inputs on which it fails and
the exact condition under which it holds:

- The stored `started_at` of a page view depends on how heartbeats were split into batches
  (`Ingest.StartDependsOnSplit`). It is the earliest heartbeat of the first batch that stored the
  view, and the earliest of all exactly when no later batch brought an earlier one
  (`Ingest.StartExactIff`).
- `Backoff` is the documented delay at every attempt exactly when the ceiling is at most the largest
  doubling of the base below 2^63 nanoseconds; above it some attempt gets a negative delay
  (`Backoff.ExactIffCeilingFits`).
- Losing a generation key can make the read cache serve a stale value. It cannot exactly as long as
  every generation becomes current while no value older than the last invalidation is stored under it
  or held for it (`ReadCache.CleanIffNeverStale`). Clock readings above every generation used,
  together with losses only outside a client's seed reading, SETNX and INCR, ensure that
  (`GenerationLoss.NeverStale`), and neither condition alone does
  (`GenerationLoss.RepeatedClockServesStale`, `GenerationLoss.LossBeforeSetNXServesStale`,
  `GenerationLoss.LossBeforeIncrServesStale`).
- A family name with a colon can share entry keys with another family, exactly when one extends the
  other by a generation (`CacheKeys.CollideIffNested`); the declared families have no colon.
- A search query spelled `(other)` shares the row of the folded queries, with the minimum of two
  visitors and any cap (`SearchRollup.OtherQueryShares`); the row counts that query alone exactly when
  nothing is folded (`SearchRollup.OtherRowExact`).
- A statement the database refuses and the code catches dooms the whole transaction unless a savepoint
  around it is rolled back: the call that owns the transaction commits exactly when its body ends
  without an error, the commit succeeds, and no such refusal is left (`Transactions.OwnerCommitsIff`).
- The circuit breaker does not always bound dead letters. Every run of transient failures whose retry
  waits are at most g stays within floor(Failures / (MaxRetries + 1)) exactly when g is at most the
  breaker's open time, MaxRetries is at least 1, and no wait is cut short by a shutdown
  (`Consumer.FewIffPromptRetries`). Longer waits, or no retries, lose every message of the run
  (`Consumer.SlowRetriesDeadLetterAll`).
- With several handler copies on one breaker, prompt retries are not enough for that bound: calls under
  way when the breaker opens run on uncounted. What can be lost is then exactly i + j messages with
  j <= copies - 1 and j * (MaxRetries - 1) + i * (MaxRetries + 1) <= Failures, one less when i is 0
  (`Copies.LosesIffFeasible`). With q = floor(Failures / (MaxRetries + 1)) and r the failures over, the
  bound of one consumer holds for the copies exactly when
  2 * min(copies - 1, q) < MaxRetries + 1 - r, and copies - 1 <= q or 2 * (q + 1) < MaxRetries + 2 - r
  (`Copies.OneConsumerBoundIff`).
- A retry never runs an idempotent handler again. The first run leaves the message with its
  transaction's context, and every later try of the delivery is refused by that finished transaction:
  a delivery is acked exactly when its last try is let through and succeeds and no earlier one reached
  the handler (`Handling.AckedIffFirstRunSucceeds`), and one transient failure of the handler is enough
  to dead-letter the message (`Handling.OneTransientFailureIsFatal`).

## Assumptions about libraries and the database

- PostgreSQL: a transaction is atomic; after an SQL error it refuses statements until rolled back to
  a savepoint; COMMIT of such a transaction rolls back and reports an error; a row lock is held to
  the end of the transaction; an INSERT ... ON CONFLICT DO NOTHING waits for a concurrent insert of
  the same key.
- gorm's nested Transaction issues SAVEPOINT first and, when that is refused, returns the error without
  running the function; a finished transaction refuses every statement.
- Redis commands are atomic; INCR of an absent key counts from 0; a pipeline is not a transaction.
- watermill's Retry runs a handler once and then up to MaxRetries times while ShouldRetry agrees, hands
  the same message to every try without restoring its context, gives up with the last error when that
  context ends during a wait, and returns the last error; its poison queue publishes an error its filter accepts and then acks.
- gobreaker counts consecutive failures, opens when ReadyToTrip says so, refuses while open, lets a
  trial through once the timeout has passed, and counts a panic as a failure.
- A publisher reports success only for a message the broker took.

## Model

| member | source | states |
|---|---|---|
| `SiteRollup.SessionsAreDistinct` | internal/adapters/outbound/persistence/analytics_rollup_repository.go:164-176 | the site row's sessions, counted over a GROUP BY, are the distinct sessions of the period |
| `SiteRollup.BouncesAreSingleViews` | internal/adapters/outbound/persistence/analytics_rollup_repository.go:167-177 | the site row's bounces are the sessions with exactly one view |
| `PageRollup.OneFirstRow` | internal/adapters/outbound/persistence/analytics_rollup_repository.go:188-193 | row_number() gives number 1 to exactly one page view of each session |
| `PageRollup.FirstRowsAreSessions` | internal/adapters/outbound/persistence/analytics_rollup_repository.go:188-200 | the views numbered 1 are as many as the sessions |
| `PageRollup.PagesConserveSite` | internal/adapters/outbound/persistence/analytics_rollup_repository.go:160-208 | for every set of raw events and every n the page rows add up to the site row: views, focus seconds and focus views to its totals, entries and exits each to its sessions; one row per path and at most n + 1 rows |
| `PageRollup.PageRowMeaning` | internal/adapters/outbound/persistence/analytics_rollup_repository.go:187-208 | every page row, through ranks, fold and full join, is the direct count of its name on the raw events; entries and exits are the sessions whose first or last view falls under the name |
| `PageRollup.PageNames` | internal/adapters/outbound/persistence/analytics_rollup_repository.go:194-208 | no viewed path is missing: its name or the folded bucket has a row |
| `PageRollup.KeptPathsAreTheTop` | internal/adapters/outbound/persistence/analytics_rollup_repository.go:194-195 | a path that keeps its name has more views than any folded one, or as many and a smaller name |
| `PageRollup.KeptPathsCount` | internal/adapters/outbound/persistence/analytics_rollup_repository.go:194-195 | exactly min(n, viewed paths) paths keep their name |
| `SearchRollup.SharedMeaning` | internal/adapters/outbound/persistence/analytics_rollup_repository.go:149-155 | a query is shared if and only if at least k distinct visitors searched it on one UTC day |
| `SearchRollup.SearchesConserveSite` | internal/adapters/outbound/persistence/analytics_rollup_repository.go:248-270 | searches, zero results, searches with a click and clicks of the searches rollup add up to the site row; one row per query |
| `SearchRollup.KeptAreTopShared` | internal/adapters/outbound/persistence/analytics_rollup_repository.go:260-264 | ranking all queries with the shared ones first keeps exactly the top n of the shared ones alone: an unshared query never takes a slot |
| `SearchRollup.KeptQueriesCount` | internal/adapters/outbound/persistence/analytics_rollup_repository.go:260-265 | exactly min(n, shared queries) names are kept, all of them shared |
| `SearchRollup.KeptQueriesComeFirst` | internal/adapters/outbound/persistence/analytics_rollup_repository.go:260-265 | a kept query comes before every folded shared one by count, then text |
| `SearchRollup.SearchRowMeaning` | internal/adapters/outbound/persistence/analytics_rollup_repository.go:249-270 | every searches row is the direct count of its name on the raw events |
| `SearchRollup.NamedRowsAreShared` | internal/adapters/outbound/persistence/analytics_rollup_repository.go:249-270 | a row named after a query was searched by at least k distinct visitors on one UTC day and counts exactly that query's searches |
| `SearchRollup.OtherRowExact` | internal/adapters/outbound/persistence/analytics_rollup_repository.go:265-270 | the row named (other) counts only a query of that spelling if and only if no other query is folded |
| `SearchRollup.OtherQueryShares` | internal/adapters/outbound/persistence/analytics_rollup_repository.go:265-270 | with the minimum of two visitors and every cap, three searches of one day: the query (other) keeps its name and its row counts 3 where the query has 2 |
| `SearchRollup.SearchNames` | internal/adapters/outbound/persistence/analytics_rollup_repository.go:265-270 | every search is counted: the row of its folded query exists |
| `SearchRollup.PositionsConserveSite` | internal/adapters/outbound/persistence/analytics_rollup_repository.go:272-277 | clicks per position add up to the site's search clicks, one row per position |
| `SearchRollup.ResultRowsAreShared` | internal/adapters/outbound/persistence/analytics_rollup_repository.go:279-288 | a clicked result is kept only for a shared query, with the number of clicks on it; exactly min(n, results) rows, each result once, none left out ranks before a kept one |
| `AudienceRollup.ReferrersConserveSite` | internal/adapters/outbound/persistence/analytics_rollup_repository.go:210-220 | every session is attributed to one host: sessions add up to the site's, one row per host |
| `AudienceRollup.ReferrerRowMeaning` | internal/adapters/outbound/persistence/analytics_rollup_repository.go:210-220 | every referrer row counts the sessions whose first view came from its host, or from a folded one, and their distinct visitors |
| `AudienceRollup.KeptHostsAreTheTop` | internal/adapters/outbound/persistence/analytics_rollup_repository.go:218-220 | when a host is folded exactly n hosts keep their name, each with more sessions, or as many and a smaller name |
| `AudienceRollup.DimensionsConserveSite` | internal/adapters/outbound/persistence/analytics_rollup_repository.go:222-232 | each of country, device and browser splits all the views of the period |
| `AudienceRollup.DimensionRowMeaning` | internal/adapters/outbound/persistence/analytics_rollup_repository.go:222-232 | every dimension row counts the views with its value and their distinct visitors |
| `AudienceRollup.NavigationConserves` | internal/adapters/outbound/persistence/analytics_rollup_repository.go:234-246 | no transition is lost to the fold, one row per step |
| `AudienceRollup.NavigationRowMeaning` | internal/adapters/outbound/persistence/analytics_rollup_repository.go:234-246 | a row named after a step is one of the top n steps and counts exactly its transitions |
| `AudienceRollup.KeptStepsAreTheTop` | internal/adapters/outbound/persistence/analytics_rollup_repository.go:240-246 | when a step is folded exactly n steps keep their name, each taken more often, or as often and earlier as text |
| `RollupStore.Repository.RecomputePeriod` | internal/adapters/outbound/persistence/analytics_rollup_repository.go:91-120 | every row of the period is replaced by what the queries answer and everything else kept; any failing statement, the commit included, leaves all tables as they were |
| `RollupStore.Repository.DeleteFrom` | internal/adapters/outbound/persistence/analytics_rollup_repository.go:65-76 | every period and cohort from the date on is removed and nothing else, or nothing when a statement or the commit fails |
| `RollupStore.Repository.RefreshFirstSeen` | internal/adapters/outbound/persistence/analytics_rollup_repository.go:78-89 | known subjects never get a later time, times stay those of stored views, and a table holding the minima over any windows now holds them over this one too |
| `RollupStore.Repository.RecomputeCohort` | internal/adapters/outbound/persistence/analytics_rollup_repository.go:122-147 | the cohort's row is replaced by its size and its return counts |
| `FirstSeen.RefreshIsMinimum` | internal/adapters/outbound/persistence/analytics_rollup_repository.go:78-89 | from an empty table, refreshing over any windows, overlapping or repeated, leaves the minimum page view time per consented subject over their union, for exactly the subjects with one |
| `FirstSeen.RefreshOrderIrrelevant` | internal/adapters/outbound/persistence/analytics_rollup_repository.go:78-89 | only the union of the windows matters |
| `FirstSeen.RefreshGuarantees` | internal/adapters/outbound/persistence/analytics_rollup_repository.go:78-89 | what one refresh keeps of any table: no later times, only times of stored views, minima over one more window |
| `FirstSeen.RunSeen` | internal/adapters/outbound/persistence/analytics_rollup_repository.go:78-89 | over any run of inserts and refreshes, with consent changing, each first-seen time is that of a stored view of the subject |
| `FirstSeen.NewVisitorsAreTheCohort` | internal/adapters/outbound/persistence/analytics_rollup_repository.go:122-147 | after any such run a day's new visitors are its cohort's size, each return count is at most the size, and it is NULL if and only if incomplete |
| `Reports.JobEffect` | internal/adapters/outbound/persistence/analytics_rollup_repository.go:91-120 | a recompute changes exactly its period's rows, a delete exactly the later ones, in every table |
| `Reports.UntouchedPeriods` | internal/adapters/outbound/persistence/analytics_rollup_repository.go:91-120 | over any run of jobs, periods no job touches keep their rows |
| `Reports.JobsMakeCurrent` | internal/adapters/outbound/persistence/analytics_rollup_repository.go:91-120 | whatever the order and however often, every covered period ends up holding what the queries answer |
| `Reports.WindowSum` | internal/adapters/outbound/persistence/analytics_report_repository.go:20-37 | if every day's rows add up to a count over the day, the window's rows add up to the count over the window, or bound it for distinct counts |
| `Reports.SiteReportAgrees` | internal/adapters/outbound/persistence/analytics_report_repository.go:28-37 | however a window of days was rebuilt, its site totals equal direct raw counts for views, searches, zero results, searches with a click and clicks, and are at least the distinct visitors and sessions |
| `Reports.SearchReportAgrees` | internal/adapters/outbound/persistence/analytics_report_repository.go:149-188 | the search report's totals equal direct raw counts over the window |
| `Reports.SearchQueries` | internal/adapters/outbound/persistence/analytics_report_repository.go:149-188 | one scan splits into the totals of all rows, the top queries and the top zero-result queries |
| `Reports.ListedQueries` | internal/adapters/outbound/persistence/analytics_report_repository.go:160-172 | the i-th listed query is the one numbered i + 1, and the zero-result list never names the folded bucket |
| `Ingest.TimeSpentTable` | internal/adapters/outbound/persistence/analytics_repository.go:133-182 | the loop over a map and an order list yields one row per page view, in order of first appearance, folded from exactly its heartbeats |
| `Ingest.FoldTouchesOnce` | internal/adapters/outbound/persistence/analytics_repository.go:133-135 | no two folded rows have the same key, so no statement touches a row twice |
| `Ingest.Store.InsertBatch` | internal/adapters/outbound/persistence/analytics_repository.go:40-62 | the five tables are written chunk by chunk; a failed chunk makes the call fail and the others are still written; nothing is written when a search does not encode; no statement touches a heartbeat row twice |
| `Ingest.InsertIgnoring` | internal/adapters/outbound/persistence/analytics_repository.go:49-58 | one table's rows in chunks: exactly the rows of the chunks that did not fail are inserted, and the failed chunks reported |
| `Ingest.FirstIsKept` | internal/adapters/outbound/persistence/analytics_repository.go:40-42 | a table holds the first stored event of each uuid, for exactly the uuids stored |
| `Ingest.ReplayChangesNothing` | internal/adapters/outbound/persistence/analytics_repository.go:40-42 | events already stored are ignored: a replay in any order changes nothing |
| `Ingest.BatchesAreExact` | internal/adapters/outbound/persistence/analytics_repository.go:40-62 | for any batches and any failed chunks the table holds, for exactly the page views stored, the maximum focus and last-seen time over their stored heartbeats |
| `Ingest.NothingLost` | internal/adapters/outbound/persistence/analytics_repository.go:40-62 | without failures every heartbeat sent is stored |
| `Ingest.SplitIrrelevant` | internal/adapters/outbound/persistence/analytics_repository.go:40-42 | split, replay and reordering do not change any stored focus or last-seen time |
| `Ingest.StartDependsOnSplit` | internal/adapters/outbound/persistence/analytics_repository.go:168-171 | started_at does depend on the split: every pair of heartbeats that arrives later one first |
| `Ingest.StartIsFirstBatch` | internal/adapters/outbound/persistence/analytics_repository.go:168-171 | started_at is the earliest heartbeat of the first batch that stored the view |
| `Ingest.StartExactIff` | internal/adapters/outbound/persistence/analytics_repository.go:168-171 | it is the earliest of all stored heartbeats if and only if no later batch brought an earlier one |
| `CacheKeys.DecimalReadsBack` | internal/adapters/outbound/cache/redis.go:144-146 | a printed generation reads back, so different generations print differently |
| `CacheKeys.EntryKeysDistinct` | internal/adapters/outbound/cache/redis.go:144-146 | entry keys are distinct per family, generation and key for families without a colon, whatever the key contains |
| `CacheKeys.GenerationKeysDistinct` | internal/adapters/outbound/cache/redis.go:140-146 | a generation key is no entry key and belongs to one family |
| `CacheKeys.CollideIffNested` | internal/adapters/outbound/cache/redis.go:140-146 | two families share an entry key if and only if one extends the other by a generation |
| `CacheKeys.DeclaredFamiliesHaveNoColon` | internal/core/readcache/readcache.go:14-24 | the declared families are safe |
| `KeySpace.SetNXAgrees` | internal/adapters/outbound/cache/redis.go:140-146 | SETNX on the string keys is SETNX of the protocol's store, for families without a colon |
| `KeySpace.IncrAgrees` | internal/adapters/outbound/cache/redis.go:140-146 | INCR on the string keys is INCR of the protocol's store |
| `KeySpace.SetAgrees` | internal/adapters/outbound/cache/redis.go:140-146 | SET of an entry on the string keys is SET of the protocol's store |
| `KeySpace.DeleteAgrees` | internal/adapters/outbound/cache/redis.go:140-146 | losing a generation key and expiry of an entry agree likewise |
| `ReadCache.NextFresh` | internal/adapters/outbound/cache/redis.go:42-138 | every atomic step of any client or of the environment that makes no generation current over a waiting stale value keeps all entries and reads fresh |
| `ReadCache.CleanNeverStale` | internal/core/readcache/readcache.go:29-36 | over every such interleaving, whatever the clocks and whichever keys are lost, a finished read holds a value of its own family and key, loaded no earlier than the last INCR before it saw the generation |
| `ReadCache.CleanIffNeverStale` | internal/adapters/outbound/cache/redis.go:119-138 | a step that makes a generation current is harmless if and only if no older value is stored under that generation or held for it: otherwise some continuation serves a stale value |
| `GenerationLoss.NextKeeps` | internal/adapters/outbound/cache/redis.go:83-138 | under the two conditions every step is clean and keeps the generations, seeds and pipelines in order |
| `GenerationLoss.NeverStale` | internal/core/readcache/readcache.go:29-36 | with clock readings above every generation used and losses only outside seed reading, SETNX and INCR, no read is stale, over every interleaving |
| `GenerationLoss.NeverStaleWithoutLoss` | internal/core/readcache/readcache.go:29-36 | without loss of generation keys no read is stale, whatever the clocks say |
| `ReadCache.ReadSeesCommits` | internal/core/readcache/readcache.go:52-77 | in every clean run a read that starts after a writer's commits and the INCR of its Invalidate sees all those commits |
| `GenerationLoss.CarefulReadSeesCommits` | internal/core/readcache/readcache.go:52-77 | the same under the two conditions an operator can check |
| `GenerationLoss.LossFreeReadSeesCommits` | internal/core/readcache/readcache.go:52-77 | the same in every run that loses no generation key, whatever the clocks say |
| `GenerationLoss.GenerationsAreNew` | internal/adapters/outbound/cache/redis.go:119-138 | under the two conditions a generation that becomes current was never used before and has no entries waiting under it |
| `GenerationLoss.RepeatedClockServesStale` | internal/adapters/outbound/cache/redis.go:119-138 | for every family, key and seed, a reachable stale read when the clock reading repeats |
| `GenerationLoss.LossBeforeSetNXServesStale` | internal/adapters/outbound/cache/redis.go:119-134 | for every family, key and seed, a reachable stale read when the key is lost between the seed reading and its SETNX |
| `GenerationLoss.LossBeforeIncrServesStale` | internal/adapters/outbound/cache/redis.go:88-98 | for every family, key and rising seeds, a reachable stale read when the key is lost between SETNX and INCR |
| `CacheClient.Redis.Generation` | internal/adapters/outbound/cache/redis.go:119-134 | the current generation, seeded when absent, other clients acting and keys being lost between the commands; None only when a command failed or the key was lost again |
| `CacheClient.Redis.Get` | internal/adapters/outbound/cache/redis.go:42-80 | a hit, or the entry of the generation seen for fill to store under, or neither when a command fails or the family is not cached |
| `CacheClient.Redis.FillEntry` | internal/adapters/outbound/cache/redis.go:69-79 | the value is stored under the generation that Get saw |
| `CacheClient.Redis.Invalidate` | internal/adapters/outbound/cache/redis.go:83-98 | every family whose commands ran has its floor at the commits made before the call or above; none given changes nothing |
| `CacheClient.Redis.Through` | internal/core/readcache/readcache.go:52-70 | whatever others do, whichever commands fail and keys are lost, the read fails only if load does and returns a value of its own family and key; as long as every step is clean the value counts every commit invalidated before the read began |
| `Transactions.Database.Execute` | internal/adapters/outbound/persistence/tx.go:31-38 | a statement runs on the open transaction or commits alone; a refused one aborts the open transaction |
| `Transactions.Database.RecordEvents` | internal/core/event/event.go:68-75 | events are appended until one fails, or dropped without a recorder |
| `Transactions.Database.Call` | internal/adapters/outbound/persistence/tx.go:22-29 | for any tree of nested calls that may fail and be caught, the rows kept, business and outbox, are exactly those whose whole chain of enclosing calls succeeded; in an aborted transaction a nested call is refused at its savepoint |
| `Transactions.Database.Run` | internal/core/event/event.go:52-66 | the same for a body run with or without a transaction around it |
| `Transactions.SmoothKeepsAll` | internal/core/event/event.go:40-50 | when nothing fails every row asked for is kept, in order |
| `Transactions.FailedSavepointIsInvisible` | internal/adapters/outbound/persistence/tx.go:22-24 | a failed nested call that is caught leaves the outer transaction as if it had not been made |
| `Transactions.AbortedStays` | internal/adapters/outbound/persistence/tx.go:22-24 | once aborted a transaction takes no more rows whatever is run in it |
| `Transactions.BodyReadsOff` | internal/adapters/outbound/persistence/tx.go:22-29 | whether a body errs and whether it leaves the transaction aborted can be read off the tree of statements alone |
| `Transactions.OwnerCommitsIff` | internal/adapters/outbound/persistence/tx.go:22-29 | the call that owns the transaction succeeds if and only if its body ends without an error, its commit succeeds and no refused statement was caught outside a savepoint that rolled back; it keeps its body's rows then and nothing otherwise |
| `Transactions.CaughtWithSavepointCostsNothing` | internal/adapters/outbound/persistence/tx.go:22-29 | a nested call that fails and is caught, anywhere in the owning call, changes neither the result nor the other rows |
| `Backoff.WithDefaults` | internal/adapters/outbound/outbox/relay.go:40-70 | every field usable, base at most ceiling, sound settings kept |
| `Backoff.DefaultsAreStable` | internal/adapters/outbound/outbox/relay.go:40-70 | applying the defaults again changes nothing |
| `Backoff.Backoff` | internal/adapters/outbound/outbox/relay.go:209-218 | the wrapping 64-bit loop, equal to min(base * 2^(attempt-1), ceiling) when the ceiling fits |
| `Backoff.ExactIffCeilingFits` | internal/adapters/outbound/outbox/relay.go:209-218 | right at every attempt if and only if the ceiling is at most the largest doubling of the base below 2^63 |
| `Backoff.ModestCeilingIsExact` | internal/adapters/outbound/outbox/relay.go:209-218 | a ceiling up to 2^62 nanoseconds always fits |
| `Backoff.LoopNeverOverflows` | internal/adapters/outbound/outbox/relay.go:213-215 | no doubling the loop performs then overflows |
| `Backoff.DelayGrowsWithinBounds` | internal/adapters/outbound/outbox/relay.go:209-218 | delays never shrink with the attempt and stay between base and ceiling |
| `Relay.ClaimIsFirstDue` | internal/adapters/outbound/persistence/outbox_repository.go:141-149 | the claim is the first min(limit, due) unlocked due rows by next attempt then id, each once |
| `Relay.Outbox.Publish` | internal/adapters/outbound/outbox/relay.go:152-182 | the outcome of one publish: published, retried after the delay, or parked on the last attempt |
| `Relay.Outbox.RelayBatch` | internal/adapters/outbound/persistence/outbox_repository.go:133-172 | all outcomes of the claim are stored or, on any error, none; each lowers the potential |
| `Relay.SettledRow` | internal/adapters/outbound/persistence/outbox_repository.go:174-190 | after a batch every row is the outcome of its claim or exactly as before |
| `Relay.Outbox.Drain` | internal/adapters/outbound/outbox/relay.go:133-150 | terminates however publishes fail and retries come due; the total is at most the sum over pending rows of the attempts left; without an error it stops on a short batch |
| `Relay.DrainLeavesNothingDue` | internal/adapters/outbound/outbox/relay.go:133-150 | after an error-free drain no unlocked row is due at its last clock reading |
| `Delivery.NextKeeps` | internal/adapters/outbound/outbox/relay.go:72-74 | every step of relays, broker, handlers, operator and retention keeps the delivery invariant |
| `Delivery.EventIsAccountedFor` | internal/adapters/outbound/outbox/relay.go:72-74 | in every run a committed event is pruned, or exactly one of pending, published and parked; published or pruned only after the broker took a copy; pending only with attempts left |
| `Delivery.OneRelayAtATime` | internal/adapters/outbound/outbox/relay.go:72-74 | no row is held by two relays, and a held row is pending |
| `Delivery.OneRunPerRecord` | internal/adapters/outbound/persistence/processed_message_repository.go:25-54 | with any redelivery and any number of handler copies, between two successful runs of a consumer on one event its dedupe record was pruned |
| `Delivery.RunsFollowAcceptance` | internal/platform/messaging/consumer.go:76-99 | a handler succeeds only on a message the broker had taken before |
| `Consumer.CircuitBreaker.Execute` | internal/platform/messaging/breaker.go:41-76 | one call through the breaker: refused while open, permanent errors counted as success, trial after the timeout |
| `Consumer.CircuitBreaker.Handle` | internal/platform/messaging/consumer.go:41-59 | one delivery through poison queue, retry, recoverer and breaker, with a context that may end during a wait |
| `Consumer.DeadLetterMeansGivenUp` | internal/platform/messaging/consumer.go:31-59 | a dead-lettered delivery ended on the handler's own error: permanent, or with every retry used or the wait cut short; one whose last call was refused is nacked |
| `Consumer.OpenRefuses` | internal/platform/messaging/breaker.go:12-14 | while open nothing runs, nothing is retried, nothing is dead-lettered |
| `Consumer.BeforeTheBreakerOpens` | internal/platform/messaging/breaker.go:27-30 | with no condition on clocks, an unbroken run of transient failures dead-letters its first floor(Failures / (MaxRetries + 1)) messages, and the breaker opens on the last try of the last of them or during the next |
| `Consumer.OpenNeverDeadLetters` | internal/platform/messaging/breaker.go:20-30 | once open, trial calls included, no message is dead-lettered as long as no retry waits longer than the open time |
| `Consumer.TransientFailuresDeadLetterFew` | internal/platform/messaging/breaker.go:27-30 | for runs of any length, with at least one retry and no retry wait longer than the open time: exactly min(messages, floor(Failures / (MaxRetries + 1))) dead letters, and the breaker is open exactly once the failures reached the limit |
| `Consumer.FewIffPromptRetries` | internal/platform/messaging/breaker.go:41-76 | the bound holds for all runs with retry waits up to g if and only if g is at most the open time, MaxRetries is at least 1 and no wait is cut short |
| `Consumer.SlowRetriesDeadLetterAll` | internal/platform/messaging/breaker.go:41-76 | for every Failures and MaxRetries, waits just longer than the open time, or no retries, dead-letter every message |
| `Consumer.CutRetriesDeadLetterMore` | internal/platform/messaging/consumer.go:47-57 | waits cut short dead-letter one message per failure up to the limit |
| `Consumer.DisabledBreakerDeadLettersAll` | internal/platform/messaging/breaker.go:30-33 | Failures below 1: every message of such a run is dead-lettered |
| `Consumer.AddConsumer` | cmd/worker.go:238-257 | one handler copy per unit of concurrency, with distinct names, one shared breaker and the consumer's name as dedupe key |
| `Copies.LossesAreFeasible` | cmd/worker.go:238-257 | however the calls of the copies overlap on the shared breaker and however long the run, trial calls included, what is lost is i messages with every run counted and j late ones with j <= copies - 1 and j * (MaxRetries - 1) + i * (MaxRetries + 1) <= Failures, one less when i is 0 |
| `Copies.FeasibleIsReached` | cmd/worker.go:238-257 | for every Failures, MaxRetries and number of copies, each such i and j is reached or exceeded by a run |
| `Copies.LosesIffFeasible` | cmd/worker.go:238-257 | some run loses at least n messages if and only if such i and j add up to n: the exact maximum |
| `Copies.OneConsumerBoundIff` | cmd/worker.go:238-257 | floor(Failures / (MaxRetries + 1)) holds for the copies in every run if and only if a condition on Failures, MaxRetries and copies alone holds |
| `Copies.OneCopyIsTheConsumer` | internal/platform/messaging/breaker.go:41-76 | for one copy every run of deliveries in turn through the consumer chain is a run of this machine, with the same breaker and the same dead letters |
| `Handling.AckedIffFirstRunSucceeds` | internal/platform/messaging/consumer.go:85-99 | a delivery to an idempotent handler is acked if and only if its last try is let through and succeeds and no earlier try ran the handler |
| `Handling.RetriesNeverRunAgain` | internal/platform/messaging/consumer.go:93-97 | every try after one that ran the handler is refused by the finished transaction |
| `Handling.OneTransientFailureIsFatal` | internal/platform/messaging/consumer.go:41-59 | one transient failure of the handler uses up every retry and dead-letters the message, even where each retry would have succeeded |
| `Handling.OneTransientFailureIsFatalUnguarded` | internal/platform/messaging/consumer.go:41-59 | the same with the breaker disabled, from any state |
| `Hub.Conn.Offer` | internal/adapters/inbound/realtime/hub.go:88-100 | queued in order if there is room, otherwise counted as dropped |
| `Hub.Conn.TakeDropped` | internal/adapters/inbound/realtime/hub.go:139-142 | the drops since the last call, and the count starts again |
| `Hub.Conn.Stop` | internal/adapters/inbound/realtime/hub.go:122-126 | closed the first time only |
| `Hub.WithinInOrder` | internal/adapters/inbound/realtime/hub.go:88-100 | the events read and queued stand in the events delivered at increasing positions |
| `Hub.Hub.constructor` | internal/adapters/inbound/realtime/hub.go:39-46 | cap and buffer are at least 1 |
| `Hub.Hub.Register` | internal/adapters/inbound/realtime/hub.go:48-74 | refused after shutdown, refused at the cap, otherwise one new stream filed under its user |
| `Hub.Hub.Unregister` | internal/adapters/inbound/realtime/hub.go:76-86 | the stream is removed, no empty set is kept, and calling again changes nothing |
| `Hub.Hub.Deliver` | internal/adapters/inbound/realtime/hub.go:88-100 | every stream of the recipient and no other is offered the event |
| `Hub.Hub.Connections` | internal/adapters/inbound/realtime/hub.go:102-113 | the sum over users is the number of registered streams |
| `Hub.Hub.Shutdown` | internal/adapters/inbound/realtime/hub.go:115-127 | every registered stream has been closed exactly once, and queues and counts are untouched |
| `Hub.Perform` | internal/adapters/inbound/realtime/hub.go:48-142 | every call keeps: no user over the cap, no empty set, own user, delivered = read + queued + dropped + reported in order; only Shutdown closes streams, those registered then |
| `Hub.Drive` | internal/adapters/inbound/realtime/hub.go:48-142 | the same for every sequence of calls from a new hub, with the registered streams before each call: exactly those registered before the first Shutdown have been closed, once each |
| `Exports.Repository.Create` | internal/adapters/outbound/persistence/analytics_export_repository.go:48-64 | a pending export, or ErrExportOpen when the user has one open |
| `Exports.Repository.ClaimNext` | internal/adapters/outbound/persistence/analytics_export_repository.go:84-99 | the claimed export is running, started now and has one more attempt |
| `Exports.Repository.Complete` | internal/adapters/outbound/persistence/analytics_export_repository.go:101-107 | completed whatever its status was, or not found |
| `Exports.Repository.Fail` | internal/adapters/outbound/persistence/analytics_export_repository.go:109-118 | requeued or failed for good, not found, or refused by the one-open index when requeueing beside another open export |
| `Exports.Oldest` | internal/adapters/outbound/persistence/analytics_export_repository.go:87-93 | the claimable unlocked export that no other such one precedes, None only if there is none |
| `Exports.AttemptsAreClaims` | internal/adapters/outbound/persistence/analytics_export_repository.go:84-118 | in every run attempts are the number of claims, and no user has two open exports |
| `Exports.ClaimTakesOldest` | internal/adapters/outbound/persistence/analytics_export_repository.go:84-100 | in every run a claim takes the export older than every other claimable unlocked one |
| `Exports.SuccessiveClaims` | internal/adapters/outbound/persistence/analytics_export_repository.go:84-118 | in every run, between two successive claims of one export there was a non-final Fail, or the first had started before the second's stale cutoff |

## Left out

- HTTP routing, controllers, configuration loading, logging, metrics, mail, storage and broker clients: no hard property.
- The rounded `click_seconds` column and `computed_at`: not modelled, and nothing is claimed to add up for rounded values.
- Time zones and the calendar: periods are half-open intervals, days are integers, and a recomputed (grain, date) always means the same interval.
- Text order: compared character by character; database collations differ.
- The referrer pattern's host is modelled on text; other URL parsing is not.
- Report lists other than SiteRows and SearchQueries: sums of the same kind.
- Deleting a consent subject or raw events between rollup runs: first-seen and report theorems are about runs without deletions.
- CacheClient.Redis.FillEntry: JSON encoding and decoding are a flag that may fail; time-to-live expiry is an environment step.
- Generation numbers are unbounded integers: INCR past 2^63 is not modelled.
- readcache.Key and Redis.Probe: easy string building and a diagnostic.
- Consumer.CircuitBreaker.Execute: calls do not overlap; overlapping calls on one breaker are the subject of Copies, where every run of the handler fails, there is at least one retry and no wait is cut short.
- Delivery: payloads and headers, and the message without an id that Idempotent refuses.
- Relay.Run, maintain and Backlog: timers and statistics.
- Exports: archives, listing, the columns besides status, attempts and start, and deletion with the user. A completed export can be requeued by Fail, as in the code; nothing is claimed about completed being final.
- Exports.Repository.Create: inserts a pending export, the only status its callers pass.
