# Mem OS verification

Mem OS keeps PostgreSQL as the truth and drives everything else with leases, fencing tokens and derived copies. This
project models its core protocols and algorithms and proves what they promise, over every input, every interleaving and
every run. `dafny verify dfyconfig.toml` checks all of it.

## How it is organised

Protocols whose steps of different callers interleave are state machines: a `Step` is one transaction, one statement or
one external write; `Apply` says what it does, with a step whose guard fails leaving the state alone; `Run` is any
sequence of steps. Main results speak about `Run(Initial, steps)` for all `steps`. Beside each machine a class holds the
rows that the code updates in place; its methods carry the branches and loops of the code and are proved to make exactly
the machine's step. Expressions and recursion in the source are functions here, and loops over local lists are methods
proved against them.

| modules | what they model |
|---|---|
| `Outbox`, `OutboxSafety`, `OutboxWorker` | the delivery protocol that keeps the vector index equal to the store, the maintenance gate, generation rebuilds, and one worker's `drain` |
| `Jobs`, `Windows` | durable jobs and leases; conversation windows leased inside them and retired exactly once |
| `Budget` | reserve, call, log, reconcile and recover against the monthly ceiling; pricing |
| `Json`, `Filters`, `JsonPath`, `FilterSql`, `Criteria`, `VectorFilters` | the filter algebra, its compiler to parameterised SQL, the search criteria and the index pushdown |
| `Grouping`, `Components`, `Consolidate`, `Supersession` | union-find components, the blocked all-pairs scan, clusters, merges and supersession |
| `Erasure`, `Dream` | erasure that outlives backups; dream plans and watermarks |
| `Packing`, `Fusion` | greedy packing under token budgets; reciprocal rank fusion |

## Results that correct the documentation

- Parity. Nothing pending means the index equals the store only if no point of a row that expired by the clock alone, and
  none of an erased row, is served: `OutboxSafety.DrainedParity` is an equivalence, `OutboxSafety.LapsedStillServed` a
  run in which it fails.
- Erasure of the index. The removal selects points by the payload they serve, not by their ids
  (`src/memkit/vectors.py:333-352`). `OutboxSafety.ErasedPointFate` says exactly which points survive it: those that
  served, when the row was deleted, something it does not select. `OutboxSafety.DeliveredIsErased`: none whose newest
  event had been delivered. `OutboxSafety.MovedIsMissed` is a run in which a shared memory, moved into its author's own
  scope and erased before the move was delivered, stays served with nothing pending and nothing owed.
- The cost ceiling. Spend plus active reservations can exceed the limit, because recovery releases a reservation whose
  call is still out and the call is logged anyway. `Budget.CorrectedCeiling` is the law that holds;
  `Budget.PlainCeilingExactly` says exactly when the plain one does.
- A logged cost can exceed its reservation: `Budget.WithinReservationExactly` says it never does if and only if the price
  did not rise between the two days in a component whose bound is positive, `Budget.DearerExactly` says when that is,
  and `Budget.PriceChangeOvershoots` is the night of 31 August 2026.
- Confirming a memory re-activates it without clearing its supersession link, so a replaced memory becomes active and can
  replace others. `Supersession.ConfirmExactly`: confirming is safe if and only if the memory has no link;
  `Supersession.ConfirmOpensACycle` builds the cycle.
- The dream watermark skips a memory that is committed late, with an `updated_at` at or behind a recorded watermark or
  the end of a run under way. `Dream.WatermarkSkipsNothing` is about every memory written on time; `Dream.SkippedExactly`
  is an equivalence over all of them, `Dream.LateCommitCanBeSkipped` a run that leads there, and `Dream.SkippedForever`
  says it stays skipped.
- A memory can be superseded twice. The extractor reads the memory it supersedes without a lock, so a concurrent merge can
  have superseded it first and the link is overwritten (`Supersession.SupersededTwice`). `Supersession.SupersededOnce`:
  while nobody brings memories back, each is superseded at most once if and only if every replacement the extractor
  writes finds a memory none of whose revisions is superseded, and by an active memory if and only if every claim it
  files behind another finds that one active. A target that was merely archived meanwhile, never superseded, is no
  violation; one that was superseded and then archived has lost its link and is, so the absence of a link would not do.
- The criteria of a search are an error in PostgreSQL and a plain answer in Python exactly when its filter sends a NUL, an
  unpaired surrogate or a number that is not finite (`1e999` and `NaN` are decoded to one), or one of its kinds or roles holds a NUL or an
  unpaired surrogate: `FilterSql.CompilerIsFaithful` for the filter, `Criteria.SearchCriteria` for the whole search, and
  `Criteria.UnstorableKind` an instance without any filter. On all others the two agree, as far as Python's
  floats compare like the decimals they are written as.
- The index pushdown rejects matching rows when a context field is named with other characters than letters, digits, `_`
  and `-`, because the index reads brackets and quotes in a key as syntax. `VectorFilters.NeverRejectsExactly` is an
  equivalence, `VectorFilters.BracketKey` an instance.
- Agreement wins in `fuse` only at ranks below 61(m-1): `Fusion.AgreementWinsExactly` is an equivalence in the bound.

## What is assumed

- PostgreSQL transactions, row locks and advisory locks work; each `Step` is atomic.
- Every mutation of an indexed row enqueues, in its own transaction, an event matching the new value
  (`src/memkit/store.py:652`, `:825`, `:890`, `:940`); event ids ascend in commit order per entity; identifiers, tokens
  and holders are never reused.
- A row's scope and author exist, so none is written for an owner whose erasure deleted them.
- Text that was decoded from JSON holds no high surrogate directly followed by a low one (`Json.DecodedText`).
- Qdrant reads a payload key as names, quoted names, indices and empty brackets, as `VectorFilters.ReadKey` does.
- No external write lands after its worker's database connection is gone. Expiry by the clock alone is its own step
  (`Lapse`), because no event announces it.
- The service is stopped while a backup is restored, and reopens only after a replay completed.
- Providers count no more tokens than the output cap and the input estimate, which is made on the prompt before its
  redaction.
- `Budget.CorrectedCeiling` takes every call logged in its reservation's month to cost at most the reservation, which is
  priced before its month is read: `Budget.JudgeCallPricedExactly` says exactly when that holds.

## Model

| member | source | states |
|---|---|---|
| `OutboxSafety.StepKeeps` | src/memkit/outbox.py:78-285 | every step, of writes, claims, fences, external writes, commits, rollbacks, crashes, retries, reclaims, rebuilds and erasures keeps the protocol's invariant, from which the reachable-state results follow |
| `OutboxSafety.IndexCoherence` | src/memkit/outbox.py:223-257 | in every reachable state, for each entity, index and store agree, or its newest event is outstanding or failed, or it expired by the clock, or it was erased and its removal is owed or missed it |
| `OutboxSafety.DrainedParity` | src/memkit/operations.py:427-440 | with nothing pending every stored payload is served as stored, and index equals store exactly when no expired point and no erased one, owed or missed, is still served |
| `OutboxSafety.LapsedStillServed` | src/memkit/operations.py:427-440 | a memory written, delivered and expired by the clock leaves nothing pending and its point served |
| `OutboxSafety.DeliveryOrder` | src/memkit/outbox.py:112-125 | in every reachable state, once an event has been claimed every earlier event of its entity has left pending and processing, through failures, backoff, reclaims and terminal failure |
| `OutboxSafety.ProcessingIsLowest` | src/memkit/outbox.py:115-121 | at most one event of an entity is processing, and it is the lowest outstanding one |
| `OutboxSafety.ErasedStaysGone` | src/memkit/privacy.py:422-431 | an erased point that is gone stays gone in every continuation: no late delivery, rebuild or other erasure brings it back |
| `OutboxSafety.ServedAfterErasure` | src/memkit/privacy.py:737-763 | in every reachable state an erased entity is not stored, and once its removal is no longer owed its point is served exactly if it is one the removal missed |
| `OutboxSafety.ErasedPointFate` | src/memkit/vectors.py:333-352 | however long the removal is put off, a point whose row was erased survives it exactly if it was served and what it serves is not what the removal selects |
| `OutboxSafety.DeliveredIsErased` | src/memkit/vectors.py:333-352 | the removal reaches every point whose newest event had been delivered when its row was erased |
| `OutboxSafety.ErasureDeletes` | src/memkit/privacy.py:398-432 | erasing takes exactly the stored rows of the private scope, the user's raw messages and the inferences dreamt for them, with all their events, and owes their points; everything else stays |
| `OutboxSafety.RemovalTakes` | src/memkit/vectors.py:333-352 | the removal takes exactly the points that serve what it selects, and settles what was owed for its owner alone |
| `OutboxSafety.MovedIsMissed` | src/memkit/routers/memory.py:178-183 | a shared memory moved into the private scope and erased before delivery stays served, with nothing pending or owed |
| `OutboxSafety.RetryDelayDoubles` | src/memkit/outbox.py:267 | the delay doubles per attempt up to 256 seconds, so the cap of 300 is never reached |
| `OutboxSafety.FailedAttempt` | src/memkit/outbox.py:264-282 | after a fenced attempt that raises the row has one attempt more and no token, is failed if and only if that reaches its maximum and otherwise pending, and is due min(300, 2^min(attempts, 8)) seconds later |
| `OutboxSafety.GivenUpExactly` | src/memkit/outbox.py:264-282 | over every run under one limit an event has as many attempts as failures of it were recorded, and it is given up exactly when they reach the limit, or one; until then it is retried |
| `OutboxSafety.FrozenStep` | src/memkit/maintenance.py:25-63 | while a rebuild holds the gate no step of anyone changes the served index, and only the clock changes the store |
| `OutboxSafety.RebuildExact` | src/memkit/reindex.py:81-128 | whatever happens meanwhile, an activated generation equals what the store held when it was validated; every row still stored at the swap is served exactly, and without expiry in between index equals store |
| `OutboxSafety.AbandonedRebuild` | src/memkit/reindex.py:86-123 | a rebuild that never reaches its swap leaves the served index as it was, whatever happened during it |
| `OutboxWorker.AttemptRuns` | src/memkit/outbox.py:214-285 | one delivery, in each of its outcomes, is a run of the protocol's steps, so everything proved of runs holds of it |
| `OutboxWorker.LiveAttemptLowersWork` | src/memkit/outbox.py:264-284 | an undisturbed attempt, failing or not, strictly lowers the sum over outstanding events of the attempts they have left |
| `OutboxWorker.Worker.ClaimNext` | src/memkit/outbox.py:78-133 | frees the leases that ran out, and leases the lowest row that is pending, due and behind no outstanding event of its entity, or finds that there is none; no other row changes |
| `OutboxWorker.Worker.Deliver` | src/memkit/outbox.py:203-285 | in each outcome exactly what becomes of the row and of the served point: done and served, done with nothing written, retried or given up, given back, or untouched; and it reports applied exactly when it was |
| `OutboxWorker.Worker.ClaimBatch` | src/memkit/outbox.py:310-318 | at most the batch size of claims, in distinct held tickets; work and pending count unchanged; within one lease all of them are still leased |
| `OutboxWorker.Worker.DeliverBatch` | src/memkit/outbox.py:322-332 | one attempt per claimed row unless maintenance interrupts; as many rows settled as are counted applied; within one lease each attempt lowers the work; without faults each settles one event |
| `OutboxWorker.Worker.Drain` | src/memkit/outbox.py:288-334 | keeps the protocol's invariant; makes at most `limit` attempts, and stops before only when nothing is left to claim; what it counts as applied is what is no longer pending; each attempt lowers the work left; with everything due, no faults and a large enough limit nothing is left pending and every stored payload is served |
| `Jobs.EndsOnceWithinItsCalls` | src/memkit/jobs.py:307-328 | over all executions and recoveries a job ends at most once, exactly when its status is terminal, and with a positive limit is never granted more provider calls than it |
| `Jobs.TerminalAbsorbs` | src/memkit/jobs.py:276-294 | the row of a finished job never changes again |
| `Jobs.SupersededForever` | src/memkit/jobs.py:229-260 | an execution that lost its row never again renews, passes the fence, defers or finishes, whatever anyone does |
| `Jobs.ExpiredForever` | src/memkit/jobs.py:132-145 | nor does one whose lease ran out, recovered or not, while no clock runs backwards |
| `Jobs.JobStore.Create` | src/memkit/jobs.py:66-87 | a queued job under a new id, recorded |
| `Jobs.JobStore.Claim` | src/memkit/jobs.py:97-129 | succeeds exactly on a queued, available job, under a holder of its own that is then current |
| `Jobs.JobStore.Renew` | src/memkit/jobs.py:132-145 | extends the lease exactly when the caller is current |
| `Jobs.JobStore.RequestCancel` | src/memkit/jobs.py:211-222 | marks exactly a queued or running job, and refuses a finished or unknown one unchanged |
| `Jobs.JobStore.Defer` | src/memkit/jobs.py:240-260 | exactly for a current caller, queues the job again for later with neither holder nor lease |
| `Jobs.JobStore.Finish` | src/memkit/jobs.py:263-304 | ends a job in a terminal status exactly when the caller is current, and says which refusal otherwise |
| `Jobs.JobStore.ConsumeCall` | src/memkit/jobs.py:307-328 | grants one call exactly when the job is running and has no limit or is below it, counts it, and says which refusal otherwise |
| `Jobs.JobStore.RecoverStale` | src/memkit/jobs.py:414-446 | queues again exactly the running jobs without a live lease, changes no other row, and leaves no abandoned one |
| `Jobs.RecoverySparesCurrent` | src/memkit/jobs.py:422-435 | recovery changes no row that is current for some holder |
| `Windows.CommitsPartitionProcessed` | src/memkit/extract.py:1067-1106 | in every interleaving each processed message was retired by exactly one commit, and no message is in two windows that could still commit |
| `Windows.CommitFenced` | src/memkit/extract.py:1021-1040 | over every run, a window that is committed is held, whole and with its messages unchanged, in every state from its claim to the one step that commits it; that step finds it unexpired and its execution's lease live, and makes exactly its messages processed |
| `Windows.LostForever` | src/memkit/extract.py:1076-1087 | a window that lost any message, to expiry, release, recovery or a commit, is never committed again |
| `Windows.RecoveredWindowsDie` | src/memkit/jobs.py:447-458 | recovering a stale job takes every window of its executions away for good |
| `Windows.LowestAreLowest` | src/memkit/extract.py:162-174 | a claim takes free messages of the session in order, at most ten, and passes none over |
| `Windows.ClaimedWindow` | src/memkit/extract.py:137-174 | a claim leases a whole window under a new token, or nothing was left to claim |
| `Windows.MessageStore.ClaimWindow` | src/memkit/extract.py:137-174 | leases the lowest ten, or fewer if there are no more, of the session's unprocessed messages that carry no unexpired claim, under a token of its own; frees its other expired ones; changes nothing else |
| `Windows.ClaimSparesLive` | src/memkit/extract.py:153-161 | a window that is held and unexpired is held and unexpired after every claim at that time, whoever makes it |
| `Windows.RecoveryFrees` | src/memkit/jobs.py:447-458 | recovery frees exactly the messages claimed by executions of running jobs without a live lease |
| `Windows.JobsAreARun` | src/memkit/jobs.py:414-458 | the jobs under every run of windows are a run of the job protocol, so its laws hold of them |
| `Windows.MessageStore.ReleaseWindow` | src/memkit/extract.py:177-185 | gives back what the token still holds and nothing processed |
| `Windows.MessageStore.RequireWindow` | src/memkit/extract.py:1067-1087 | the row by row check passes exactly when the execution is current and every message of the window is unprocessed under its token and unexpired |
| `Windows.MessageStore.CommitWindow` | src/memkit/extract.py:1021-1040 | retires exactly the window's messages and records the commit exactly when it may, and changes nothing otherwise |
| `Budget.CorrectedCeiling` | src/memkit/jobs.py:344-389 | over every run, spend plus active reservations plus released calls still out is at most the limit plus what was ever released in flight plus what calls of other months cost in this one |
| `Budget.PlainCeilingExactly` | src/memkit/jobs.py:459-464 | the plain ceiling holds in all quiet continuations if and only if no call is out whose reservation was released under it or made in another month |
| `Budget.ExposureReachable` | src/memkit/jobs.py:436-441 | a reservation and a recovery lead there |
| `Budget.PriceTable` | src/memkit/judge.py:78-96 | the price of every known model on either side of the end of the introductory rates, and the dearest for any other |
| `Budget.CostOfOutcome` | src/memkit/judge.py:582-598 | a counted or successful call costs its tokens at their prices per million; one that failed without counts costs nothing if surely unbilled, and otherwise its estimated input, a positive amount |
| `Budget.CostWithinReservation` | src/memkit/judge.py:582-598 | a call logged in the month of its reservation costs at most the reservation, in the counted, unbilled and cost-unknown cases |
| `Budget.JudgeCallPriced` | src/memkit/judge.py:509-519 | so every such call, reserved on its estimate and cap at the price of a day of its month, meets the premise of the ceiling law in whatever month it is logged |
| `Budget.JudgeCallPricedExactly` | src/memkit/judge.py:508-511 | priced before its month is read, a call meets that premise whatever comes back if and only if it is logged in another month than reserved or the price did not rise between pricing and costing in a component whose bound is positive |
| `Budget.CostMonotone` | src/memkit/judge.py:338-345 | cost is nonnegative and monotone in both token counts |
| `Budget.PeriodPrice` | src/memkit/judge.py:326-335 | a price cannot change within a month |
| `Budget.WithinReservationExactly` | src/memkit/judge.py:582-598 | every outcome within estimate and cap costs at most the reservation if and only if the price did not rise between the two dates in a component whose bound is positive |
| `Budget.DearerExactly` | src/memkit/judge.py:326-335 | which is exactly a nonempty call on the one model with introductory rates, reserved under them and logged after them |
| `Budget.PriceChangeOvershoots` | src/memkit/judge.py:89-96 | across the end of August 2026 a fully used reservation of 2 dollars is logged at 3 |
| `Budget.Ledger.ReserveBudget` | src/memkit/jobs.py:344-389 | reserves exactly when spend, reservations and the amount fit the limit; names the refusal otherwise |
| `Budget.Ledger.ReleaseBudget` | src/memkit/jobs.py:403-411 | gives an unused reservation back, and complains when recovery was first |
| `Budget.Ledger.LogCall` | src/memkit/judge.py:602-629 | the run row and the reconciliation land together, whatever the reservation's status |
| `Budget.Ledger.LogMergeCall` | src/memkit/consolidate.py:579-592 | a merge's run row is rolled back with the refusal of an inactive reservation |
| `Json.EqualIsEquality` | src/memkit/filters.py:12-22 | the recursive comparison is equality of JSON values, with booleans never equal to numbers and a value that holds a NaN equal to nothing |
| `Filters.Split` | src/memkit/filters.py:64 | joining the parts with dots gives the field back, and no part has a dot |
| `Filters.ValidChildren` | src/memkit/filters.py:28-36 | a conjunction validates exactly when every child is a filter |
| `Filters.ValidateExactly` | src/memkit/filters.py:25-45 | which objects are filters, with the keys and the four operators spelled out, and the verdict on every other one |
| `Filters.FirstFault` | src/memkit/filters.py:28-36 | a conjunction is refused for its first child that is not a filter, as that child would be |
| `Filters.Traverse` | src/memkit/filters.py:63-68 | the loop reaches the value at the path, or null where a step fails |
| `Filters.Matches` | src/memkit/filters.py:48-83 | raises exactly what validation raises and otherwise decides the filter's meaning |
| `JsonPath.PathRoundTrip` | src/memkit/eligibility.py:46 | the path text names exactly the field's parts, whatever characters they hold, and is an error exactly when one has a NUL or an unpaired surrogate |
| `FilterSql.CompilerIsFaithful` | src/memkit/eligibility.py:25-60 | on every document the compiled condition with its parameters bound in order decides the filter's meaning at every nesting, or is an error exactly when the filter sends a NUL, an unpaired surrogate or a number that is not finite |
| `FilterSql.FilterSqlExactly` | src/memkit/eligibility.py:25-36 | the compiler raises exactly where validation does, with its verdict, and otherwise its result decides the meaning |
| `FilterSql.SlotsMatchParameters` | src/memkit/eligibility.py:30-36 | the condition has exactly as many slots as parameters |
| `FilterSql.Positional` | src/memkit/eligibility.py:31-36 | a compiled child takes its own parameters from the front and leaves the rest to what follows |
| `Criteria.MemorySql` | src/memkit/eligibility.py:63-79 | the clauses consume exactly the values and are true of exactly the unexpired rows that match filter, kinds and roles, or are an error exactly when one of these cannot be sent |
| `Criteria.RangeSql` | src/memkit/retrieval.py:410-430 | true of exactly the rows the Python window check keeps, over all missing dates and bounds, never unknown for a kept row |
| `Criteria.SearchCriteria` | src/memkit/retrieval.py:505-511 | the SQL arms return exactly the active rows the recheck keeps, and every arm is an error if and only if the filter, a kind or a role cannot be sent |
| `Criteria.UnstorableKind` | src/memkit/eligibility.py:74-76 | without a filter, a second kind that holds a NUL makes the arms an error while the recheck keeps a row of the first |
| `VectorFilters.NeverRejectsAMatch` | src/memkit/eligibility.py:82-107 | an up-to-date point whose row matches the filter meets every condition pushed under a plain key, for memories and raw messages |
| `VectorFilters.ReadsAsSplit` | src/memkit/eligibility.py:94-100 | the index reads a key as the parts of the field if and only if every part is nonempty and of letters, digits, `_` and `-` |
| `VectorFilters.NeverRejectsExactly` | src/memkit/eligibility.py:94-106 | what a leaf pushes rejects no match if and only if its field is such a key |
| `VectorFilters.BracketKey` | src/memkit/eligibility.py:96-97 | the field context.a[0] names one key of the context and is read as an element of an array |
| `VectorFilters.KeyRoundTrip` | src/memkit/eligibility.py:96-106 | names without a quote, indices and empty brackets are read back from a key as they were written |
| `VectorFilters.ReadIsSpelled` | src/memkit/eligibility.py:96-106 | and a key is read as a path only if it is spelled so, step by step |
| `VectorFilters.ValuesExactly` | src/memkit/eligibility.py:96-106 | the values a path is compared at are exactly those that lie at its end |
| `VectorFilters.MemoryVectors` | src/memkit/eligibility.py:110-130 | every up-to-date point whose row the recheck keeps meets every condition of the dense arm whose key is plain; and every point that meets them all is unexpired, of one of the kinds and roles, and shows under each plain key what the filter asks for there, of strings, booleans, small integers and lists of strings |
| `VectorFilters.PushedReflected` | src/memkit/eligibility.py:82-107 | whatever a match must meet, and the index can compare, is pushed, for memories and raw messages |
| `VectorFilters.AskedAreMeant` | src/memkit/filters.py:48-62 | a filter means exactly that all its leaves hold |
| `Components.SameRootIffConnected` | src/memkit/consolidate.py:64-65 | two ids have one root exactly when a walk along the edges joins them |
| `Components.UnionFind.Find` | src/memkit/consolidate.py:58-62 | terminates on every forest, returns the root, and path halving changes no root |
| `Components.UnionFind.Union` | src/memkit/consolidate.py:64-65 | moves exactly the class of the first root to the second and keeps the forest |
| `Grouping.GroupBy` | src/memkit/consolidate.py:66-68 | each key once in order of first occurrence, with exactly its items in order |
| `Consolidate.ConnectedComponents` | src/memkit/consolidate.py:54-69 | exactly the classes of the edges' reflexive, symmetric, transitive closure with more than one member, each once, disjoint, members in order |
| `Consolidate.AllPairsExact` | src/memkit/consolidate.py:220-233 | each pair i < j at or above the threshold exactly once, in rising order, and no other |
| `Consolidate.SimilarPairs` | src/memkit/consolidate.py:220-233 | the blocked scan yields that list for every matrix and block size |
| `Consolidate.SemanticGroups` | src/memkit/consolidate.py:259-283 | exactly the components of one identity each that have the members of no exact group, each once, two to six members as clusters and larger ones as oversized, no memory in two |
| `Supersession.SupersessionAcyclic` | src/memkit/store.py:1111-1140 | over every run of adds, merges, updates, extractor supersedes, archives and restores, and confirmations of unlinked memories, supersession is acyclic and every chain ends at a memory that is not superseded |
| `Supersession.SupersededOnce` | src/memkit/extract.py:711-777 | over every run in which nobody brings a memory back, each memory is superseded at most once if and only if every replacement of the extractor finds a memory never superseded, and by an active memory if and only if every claim filed behind another finds that one active |
| `Supersession.SupersededOnceByActive` | src/memkit/extract.py:711-718 | both hold when what the extractor read as active still is as it writes |
| `Supersession.SupersededTwice` | src/memkit/extract.py:770-776 | a merge between the extractor's read and its write: a memory is superseded twice and the first link is lost |
| `Supersession.ConfirmExactly` | src/memkit/store.py:925-932 | confirming keeps every such continuation acyclic if and only if the memory has no supersession link |
| `Supersession.ConfirmOpensACycle` | src/memkit/store.py:925-932 | otherwise a restore, an edit of the claim and a dream update, under the dream's guards, close a cycle |
| `Supersession.GroupMerged` | src/memkit/consolidate.py:374-383 | after a group's merges the survivor cites the union of the group's citations, the members are superseded by it, and nothing else changed |
| `Supersession.MemoryStore.LockGroup` | src/memkit/consolidate.py:434-447 | passes exactly when every member is still live and as planned |
| `Supersession.MemoryStore.MergeExact` | src/memkit/consolidate.py:368-383 | merges into the first member exactly when the whole group is as planned, and otherwise changes nothing |
| `Supersession.MemoryStore.MergeCluster` | src/memkit/consolidate.py:608-657 | a new memory with exactly the union of the members' citations supersedes all of them, or nothing changes |
| `Erasure.ErasedUsersStayErased` | src/memkit/privacy.py:592-763 | across crashes at any step, backups, restores and replays, a user whose erasure ever committed has a receipt outside the database, and neither they nor any of their rows exist while the service is open |
| `Erasure.AcceptedNeverCancelled` | src/memkit/jobs.py:199-210 | an accepted erasure never ends cancelled, in the database or in any backup |
| `Erasure.ReceiptBeforeDelete` | src/memkit/privacy.py:717-736 | no step deletes a user whose receipt is not durable |
| `Erasure.ErasureFinishes` | src/memkit/privacy.py:676-763 | a queued erasure, new or resumed after any interruption, runs to its end unless the user has authored shared memories: receipt before deletion, exactly the user and their rows gone, the job complete |
| `Erasure.CancelledExactly` | src/memkit/jobs.py:199-210 | asking to cancel ends a queued erasure cancelled, with nothing deleted, exactly if it has not been accepted |
| `Erasure.CrashedIsResumed` | src/memkit/jobs.py:414-435 | recovery queues the job of a crashed execution with its checkpoint, so that it can be resumed |
| `Erasure.ReplaySanitizes` | src/memkit/privacy.py:775-789 | a replay completes exactly when no present user of a receipt has authored shared memories, and then exactly those users and their rows are gone |
| `Erasure.ReplayIdempotent` | src/memkit/privacy.py:766-790 | replaying again changes nothing, and an interrupted replay started over ends where an uninterrupted one does |
| `Erasure.ReplaySavesCleanup` | src/memkit/privacy.py:769-789 | a completed replay saves one queued and accepted job for each user it removes, under new ids, and keeps every other job |
| `Erasure.CleanupFinishes` | src/memkit/privacy.py:769-770 | which has only its cleanup left to complete |
| `Erasure.BackupRestores` | src/memkit/operations.py:271-276 | restoring a backup at any later time brings back the database it was made of and touches no receipt |
| `Erasure.StoppedChangesNothing` | src/memkit/operations.py:271-276 | in every reachable state in which the service is stopped, no request, job or backup changes anything |
| `Erasure.ReplayedMayReopen` | src/memkit/operations.py:271-276 | a completed replay is a run of the protocol after which the service may reopen |
| `Erasure.RestoredThenReplayed` | src/memkit/operations.py:271-276 | whatever backup is restored, replaying every receipt removes exactly the users with one and their rows, unless one of them has authored shared memories, so nobody erased is left before anything reopens |
| `Erasure.RestoredDatabase.ReplayManifest` | src/memkit/privacy.py:766-790 | the loop stops at the first blocked receipt, keeping what it reapplied |
| `Dream.PlanClusters` | src/memkit/dream.py:148-209 | every considered memory has no neighbour, seeds a cluster, or lies inside one chosen up to it; it stops early only with the allowed number chosen |
| `Dream.Process` | src/memkit/dream.py:247-314 | what is marked is explained by clusters called and applied, and the first memory not marked is the first failed seed, even when a budget ends the run |
| `Dream.WatermarkSkipsNothing` | src/memkit/dream.py:90-107 | over any number of dreams, a memory written past the watermark and past every run under way that does not change is not passed by a later watermark unless it was marked, and had no neighbour or was in an applied cluster |
| `Dream.RunMarksExactly` | src/memkit/dream.py:110-137 | a run completed as it was begun marks exactly the live memories changed since the watermark up to the last it was done with, whose position is the new watermark |
| `Dream.CatchesUp` | src/memkit/dream.py:110-137 | so one that read fewer than its limit and was done with them leaves no live memory past the watermark |
| `Dream.SkippedExactly` | src/memkit/dream.py:110-137 | a live memory can be skipped if and only if, unmarked, it lies behind the watermark or behind the end of a run under way that did not read it |
| `Dream.LateCommitCanBeSkipped` | src/memkit/dream.py:110-137 | a run in which a memory committed while a dream is under way can be skipped |
| `Dream.SkippedForever` | src/memkit/dream.py:128-137 | once so skipped, a memory that does not change is never dreamt |
| `Dream.WatermarkRises` | src/memkit/dream.py:310-318 | over every run, what a completed dream records is strictly past the watermark it began from, whatever others recorded meanwhile, the watermark is never behind it afterwards, and no step moves it back |
| `Packing.FillBudget` | src/memkit/retrieval.py:361-374 | the loop chooses the greedy filling and returns its cost: rows in their order, of which no other would still fit unless the limit was reached |
| `Packing.FillWithin` | src/memkit/retrieval.py:361-374 | the filling keeps to budget and limit |
| `Packing.FillPacked` | src/memkit/retrieval.py:367-373 | the filling takes rows at rising positions, and every row it leaves out costs more than what is left, unless the limit was reached |
| `Packing.SkippedStillDoesNotFit` | src/memkit/retrieval.py:369-371 | a skipped row still does not fit at the end, unless the limit was reached |
| `Packing.FillAgain` | src/memkit/retrieval.py:361-374 | what was packed is packed again unchanged |
| `Packing.PackAlternately` | src/memkit/context_assembly.py:40-52 | facts and passages in turn are the greedy filling of their alternation, split by side; each side keeps its order, `used` is what the returned rows cost, and no row left out would still fit unless the limit was reached |
| `Packing.PackContext` | src/memkit/context_assembly.py:26-64 | facts, passages and each fact's citations are taken in their order, `used` is exactly what they cost and within the one budget, at most `limit` facts and passages; no fact or passage left out would still have fitted before the citations, and no citation left out would fit at the end |
| `Packing.ProfileBudget` | src/memkit/profiles.py:214-230 | used and remaining add up to the budget, and every block but the last keeps to its share |
| `Packing.ProfileRows` | src/memkit/profiles.py:219-227 | blocks show their own candidates and no memory is in two |
| `Packing.Portions` | src/memkit/profiles.py:205-216 | the percentages of the blocks' shares |
| `Packing.ProfileLeavesOut` | src/memkit/profiles.py:214-230 | no block leaves out a row that is shown nowhere and would still fit its allowance, which for the last is all that is left |
| `Packing.Render` | src/memkit/profiles.py:159-230 | the nested loops render exactly those blocks |
| `Fusion.AgreementWins` | src/memkit/retrieval.py:703-707 | an item of m lists at ranks below 61(m-1) has more points than any item of one list, whatever the raw scores |
| `Fusion.AgreementWinsExactly` | src/memkit/retrieval.py:688 | for m > 1, items of m rankings at ranks below a bound always beat items of one ranking if and only if the bound is at most 61(m-1) |
| `Fusion.AgreementPrecedes` | src/memkit/retrieval.py:710 | so it comes first in the merged order |
| `Fusion.FuseOne` | src/memkit/retrieval.py:691-726 | fusing one packed ranking under the same budget and limit returns it unchanged |
| `Fusion.Fuse` | src/memkit/retrieval.py:691-726 | each returned item once, as its best copy, by points, raw score and id; then packed |

## Left out

- Embedding, tokenisation, cross-encoder and LLM calls: costs, similarities, neighbourhoods and call outcomes are parameters.
- HTTP routes, authentication, the CLI, installers, dashboards and evaluation scripts: plumbing around these protocols.
- Prompt text, operation parsing, redaction patterns and passage splitting: string matching without an invariant to prove.
- Heartbeat threads: replaced by renewals at any moment.
- The per-scope advisory lock around a delivery: it only removes interleavings that are proved harmless without it.
- Retry errors, timestamps and logs of outbox rows, and the two-collection layout of a rebuild: entities carry their collection, and both aliases switch in one step.
- The maintenance gate and the scope check inside a window's commit: both only refuse commits.
- `run_session_extraction` and the continuation jobs of the runner: bounded repetition of the windows proved here.
- Decay, expiry and demotion of a consolidation pass, and the wording of a merge: they neither link nor cite.
- Erasing a memory that others link to, which clears their links (`src/memkit/privacy.py:365-371`): `Supersession` has no erasure.
- The identity and expiry checks of a consolidation lock are one parameter, and a merge step may join any two live memories.
- Retired generations of the index: an erasure sweeps them with the same filter, and only the served one is modelled.
- The files of managed exports and the index cleanup after an erasure: retried work after the database is clean (the index half is in `Outbox`).
- Other jobs, keys, sessions and telemetry an erasure deletes with a user: one step drops any job row, the rest hangs on the user's rows.
- Floating-point rounding and the 1e-12 slack of the ceiling: money, scores, points and finite JSON numbers are exact reals.
- FilterSql.CompilerIsFaithful: a float is the decimal it is written as; 1e23 is not in Python, where it differs from the integer PostgreSQL equates it with.
- VectorFilters.VectorFilters: a number written 1.0 is pushed like 1, where the code pushes nothing for it; the pushed conditions are only more.
- OutboxWorker.Worker.Drain: describes one worker that nothing interleaves with; the interleavings are the steps of `Outbox`, of which its deliveries are runs.
- OutboxWorker.Worker.ClaimNext: takes the lowest eligible row, as happens when no other claim holds a row lock; the protocol's claim step may take any eligible one.
- Windows.RecoveredWindowsDie: rows deleted with their session or user are not modelled, so a window's messages stay in the table.
- Packing.ProfileBudget: is per requested block, and a block requested twice is shown once with both portions; a share is the exact percentage rounded down, where the code truncates a product of floats.
- Consolidate.SimilarPairs: the score of a pair is a function of the two indices, so a matrix product is not computed.
