# Aichestra: Conflict Manager, run-agent protocol, RBAC and webhook dedupe

This project models the stateful core of Aichestra, a control plane for coding agents, and proves what holds over
all its inputs and runs.

* **Conflict Manager store.** Tasks, branch leases, dry-run merge simulations, merge-queue entries and an audit log. From
  these the store derives the pairwise conflict risks of the active leases of a repo, the newest simulation of a lease
  and of a lease pair, and the risk, status and reasons of each live queue entry. There are two implementations: arrays
  changed in place, and Postgres tables read with `ORDER BY` and rewritten row by row.
* **Run-agent protocol.** Handlers of `POST /tasks/:id/run-agent` that check for an active run, create one, await the
  agent and then finish the run, interleaved in any way.
* **RBAC.** Resolving an auth context from the catalog, deciding a check, and the audit events appended on the way.
* **Webhook deliveries, sync-state upserts, SQL text, dashboard costs.** A classifier folded over a delivery stream, two
  keyed upserts, a hand-written SQL printer with a reader for it, and a double sum.

## How it is laid out

| file | content |
|---|---|
| `Sequences.dfy`, `Keyed.dfy` | filter, find, stable sort; records found and replaced by id |
| `Domain.dfy` | the records, the task state machine, and `Env`: scoring, the queue decision and two collations |
| `ConflictRisks.dfy`, `RiskTheorems.dfy` | the risk lists for any pair score, and how the repo, lease and run views determine each other |
| `RiskMeaning.dfy` | what those lists and the simulation lookups hold, in the fields of the records |
| `LatestSimulation.dfy` | newest simulation of a lease and of a pair, in both stores |
| `Queue.dfy`, `Stores.dfy` | derived queue fields; every store operation as a function of a snapshot, for either backend |
| `RefreshTheorems.dfy`, `Recording.dfy`, `StoreRisks.dfy`, `QueueMeaning.dfy` | refreshing entries, recording a simulation, finishing an entry, what the derived fields mean |
| `OperationMeaning.dfy`, `ListingMeaning.dfy` | what each operation leaves behind and each list shows, field by field, in either store |
| `SafetyTheorems.dfy`, `AuditReplay.dfy`, `RunOutcomes.dfy` | invariants over all runs of calls, and which calls end an entry |
| `TaskStatuses.dfy` | what the task state machine allows |
| `ConflictScoring.dfy` | `createConflictRisk` and `mergeQueueDecision`, and that they meet what `Env` assumes |
| `Agreement.dfy`, `Listings.dfy`, `RunRiskOrder.dfy` | forward simulation of one store by the other, and exactly where they differ |
| `ConcreteRuns.dfy` | legal runs that reach the differences |
| `MemoryStore.dfy`, `PostgresStore.dfy` | the two stores as classes, each method proved against the functions of `Stores` |
| `SqlText.dfy` | the SQL printer and a reader following section 5.3 of ISO/IEC 9075-2 |
| `RunAgent.dfy`, `RunAnswers.dfy` | the protocol as steps, its invariant, the server as a class, and what every request gets back |
| `AuthCatalog.dfy`, `AuthService.dfy`, `AuthTheorems.dfy`, `AuthMeaning.dfy` | catalog and context, decision and class, theorems, what a check and a context say field by field |
| `WebhookDelivery.dfy`, `SyncState.dfy`, `SyncRows.dfy`, `SyncMeaning.dfy`, `CostModel.dfy` | delivery streams, sync-state upserts in memory and over a table with its constraints, costs |

`dafny verify dfyconfig.toml` checks everything.

`Env.Valid` is what the store theorems assume of the imported scoring functions; `ConflictScoring.ScoringMeetsContract`
proves it of the source's own functions. A collation is an injective rank of ids into the reals, which every countable total
order has. Times are integers; scores and costs are reals. Ids, clock readings and the answers of external calls are
parameters.

## What turned out to differ

* The two stores look a lease pair up differently: only Postgres filters by repo. The request body of
  `POST /merge-simulations` may name any repo (`apps/api/src/main.ts:3425`), so the difference is reachable
  (`ConcreteRuns.ForeignSimulationIsReachable`, with the exact condition in `LatestSimulation.PairLookupsAgree`).
* A task's score and the score of its queue entries are set by different formulas in one call and agree only under
  the condition of `Recording.TaskScoreMatchesQueue`; `ConcreteRuns.ScoresComeApart` is a run where it fails.
* A lease can be created with any task id. If its task is not stored, recording a simulation of the lease fails and leaves the
  simulation recorded (`Recording.RecordingFailsExactly`).
* What the in-memory store returns in insertion order, Postgres returns in the order of its rows: the queue list, the entries
  a refresh returns, tasks, repos, leases, the audit log, and the risks of a task run. `Listings` and `RunRiskOrder` say exactly
  when each is the same.
* The audit table is read by time and a random id. Two entries of one task in one instant can come back in the wrong order,
  and the log then does not replay (`AuditReplay.ListedExactly`, `ConcreteRuns.AuditListComesApart`).
* Postgres refuses a second simulation with an id; the array takes it (`Recording.RecordingFailsExactly`).
* An allowed check answers "allowed" and logs "rbac_and_policy_allowed" (`AuthTheorems.OneFinalEvent`).
* A task patch that changes the status is not logged, so the log no longer replays (`AuditReplay.PatchIsTruthfulExactly`).
* A webhook record's `attemptCount` is taken from the first record of the id, so it never exceeds 2
  (`WebhookDelivery.AttemptCountStopsAtTwo`).
* A run-agent handler that dies while awaiting the agent leaves its run active, so the task is refused from then on
  (`RunAgent.DeathBlocksForever`). The repository's own README (lines 379-382) speaks of a later run after completion or failure
  only.
* An upsert of a sync state with an explicit id can give two states one key in memory, where Postgres throws, and the two
  stores can pick different states for it (`SyncState.KeysStayUniqueExactly`, `SyncRows.ConstraintCatchesExactly`,
  `SyncState.LookupsAgreeExactly`).

## Model

| member | source | states |
|---|---|---|
| `RiskTheorems.StarsCountEnds` | packages/db/src/repository.ts:311-332 | summing the per-lease risks over any chosen set of active leases counts every pair of the double loop once per chosen end |
| `RiskTheorems.Handshake` | packages/db/src/repository.ts:311-332 | the per-lease lists of a repo's active leases together hold every risk of the repo list exactly twice and nothing else |
| `RiskTheorems.EachPairOnce` | packages/db/src/repository.ts:311-323 | the repo list is exactly the risks of the pairs of leases that are both active in the repo, of different runs and different tasks, and no unordered pair appears twice |
| `RiskTheorems.TaskRunIsDisjointUnion` | packages/db/src/repository.ts:334-338 | the task-run list is, with multiplicities, the per-lease lists of the run's leases in registered repos; its length is the sum of theirs and no pair repeats |
| `RiskTheorems.ReleaseRemovesItsPairs` | packages/db/src/repository.ts:249-254 | a lease turned inactive leaves the old repo list filtered, in order; its repo loses exactly its risk count, other repos lose nothing |
| `ConflictRisks.PairsMembers` | packages/db/src/repository.ts:314-321 | what the index loop emits is exactly the risks of the pairs of different runs and different tasks |
| `RiskMeaning.RepoRisksAre` | packages/db/src/postgres.ts:358-370 | in either store a risk is in a repo's list if and only if it is the score of two stored leases with different ids, both active, both of the repo, of different task runs and different tasks |
| `RiskMeaning.LeaseRisksAre` | packages/db/src/postgres.ts:372-379 | in either store a risk is in a lease's list if and only if the lease is active and the risk is its score against another active lease of its repo, of another task run and another task |
| `RiskMeaning.UnknownLeaseHasNoRisks` | packages/db/src/repository.ts:325-327 | a lease that is not stored has no risks |
| `RiskMeaning.RunRisksAre` | packages/db/src/postgres.ts:381-386 | in either store a risk is in a run's list if and only if it is the score of two such leases of a registered repo, one of them of the run |
| `RiskMeaning.RiskListsOrdered` | packages/db/src/repository.ts:322 | the repo and lease lists have the highest score first, ties in the order of localeCompare |
| `RiskMeaning.NewestOfLease` | packages/db/src/postgres.ts:340-352 | the lookup of a lease finds a simulation if and only if it is the newest that names the lease, ties to the smaller id of the store's collation; Postgres leaves out the condition for an empty id |
| `RiskMeaning.NewestOfPair` | packages/db/src/postgres.ts:826-831 | the lookup of a pair finds a simulation if and only if it is the newest that names one of the two leases, in Postgres among those of the source's repo |
| `StoreRisks.RepoListIsHalfOfLeaseLists` | packages/db/src/repository.ts:311-332 | the handshake law for the store's own lists |
| `StoreRisks.RunListIsUnionOfLeaseLists` | packages/db/src/repository.ts:325-338 | the disjoint-union law for the store's own lists |
| `StoreRisks.FinishingRemovesPairs` | packages/db/src/repository.ts:594-617 | marking merged or cancelling filters exactly the lease's pairs out of every repo's list, with the exact length |
| `StoreRisks.RowListIsHalfOfLeaseLists` | packages/db/src/postgres.ts:358-379 | the handshake law for the Postgres lists, whatever repos the simulations name |
| `StoreRisks.RowRunListIsUnion` | packages/db/src/postgres.ts:372-386 | the disjoint-union law for the Postgres lists |
| `StoreRisks.RowFinishingRemovesPairs` | packages/db/src/postgres.ts:594-608 | finishing an entry in Postgres filters exactly the pairs of its lease out of every list |
| `LatestSimulation.LatestIsRunningMaximum` | packages/db/src/repository.ts:285-309 | filter, sort, head after a push is an O(1) update: the newcomer replaces the latest only if strictly better |
| `LatestSimulation.PairIsSymmetric` | packages/db/src/repository.ts:304-309 | the pair lookup does not depend on which lease is the source |
| `LatestSimulation.PairIsBetterOfTwo` | packages/db/src/repository.ts:296-309 | the pair's latest simulation is the better of the two leases' own latest ones |
| `LatestSimulation.PairLookupsAgree` | packages/db/src/postgres.ts:826-831 | the two stores' pair lookups are equal if and only if the newest simulation of the pair was recorded against the lease's repo |
| `LatestSimulation.LeaseLookupsAgreeExactly` | packages/db/src/postgres.ts:340-352 | the two stores' lease lookups are equal if and only if the in-memory winner has the database's smallest id among the simulations of its instant |
| `LatestSimulation.LeaseLookupsAgree` | packages/db/src/postgres.ts:340-352 | so they are equal when simulations tied on lease and time are ordered alike by both collations |
| `LatestSimulation.DistinctTimesTieAlike` | packages/db/src/postgres.ts:340-348 | distinct times within a lease order all ties alike, whatever the collations |
| `LatestSimulation.AgreeingCollationsTieAlike` | packages/db/src/postgres.ts:340-348 | agreeing collations order all ties alike, whatever the times |
| `Queue.UniqueOrderedIsSet` | packages/db/src/repository.ts:76-78 | no reason repeats, none is lost, and a list without repeats is left alone |
| `Queue.UniqueOrderedKeepsOrder` | packages/db/src/repository.ts:76-78 | reasons stay in the order of their first occurrence |
| `QueueMeaning.FieldsMean` | packages/db/src/postgres.ts:392-409 | in either store the conflict score is the highest risk of the lease, the risk score the higher of that and the newest contribution, the simulation fields are the newest simulation's, reasons do not repeat |
| `QueueMeaning.BlockedByExactly` | packages/core/src/conflicts/scoring.ts:236-291 | in either store an entry is blocked if and only if the newest simulation is a text conflict or contributes at least one half, or some risk of the lease scores that much; and if and only if it has blocking reasons |
| `QueueMeaning.RecommendedExactly` | packages/core/src/conflicts/scoring.ts:236-291 | in either store, each of the six recommendations if and only if: by the status of the newest simulation, or, when it is clean or missing, by whether some risk or its contribution reaches 0.5 and 0.85 |
| `QueueMeaning.ReasonsAre` | packages/db/src/repository.ts:352-359 | in either store the first reason is that of the case, a reason is listed if and only if it is that one or a reason of the first risk in the lease's list, and their order is kept |
| `QueueMeaning.BlockingReasonsAre` | packages/core/src/conflicts/scoring.ts:236-291 | the blocking reasons case by case: none unless blocked, else exactly one |
| `QueueMeaning.NewEntryMeans` | packages/db/src/repository.ts:537-556 | in either store a new entry scores at least the given and the derived score, has the reasons of both once, the given first, and carries the derived fields when the caller gives nothing |
| `QueueMeaning.EnqueuedIs` | packages/db/src/postgres.ts:545-564 | enqueueing adds one entry at the end: ids and pull request are the input's, each optional field is the given one or else the derived one, the times are now, and it is neither merged nor cancelled |
| `RefreshTheorems.RefreshLeaseIsExact` | packages/db/src/postgres.ts:583-592 | in either store a refresh changes exactly the live entries of the lease, each to the recomputed fields |
| `RefreshTheorems.RefreshLeaseInPlace` | packages/db/src/repository.ts:577-592 | in memory every entry also keeps its place |
| `RefreshTheorems.RefreshOrderIrrelevant` | packages/db/src/repository.ts:588-592 | any order and any repetition of the single refreshes gives the same state |
| `RefreshTheorems.RefreshOrderSameRecords` | packages/db/src/postgres.ts:588-592 | in either store, any order and repetition leaves the same records |
| `RefreshTheorems.RefreshTwice` | packages/db/src/repository.ts:588-592 | refreshing twice is refreshing once at the later time |
| `RefreshTheorems.RefreshReturnsRefreshed` | packages/db/src/repository.ts:588-592 | in either store the refresh returns the live entries of the lease, refreshed, in list order |
| `Recording.RecordingFailsExactly` | packages/db/src/postgres.ts:327-338 | in any state, recording fails if and only if Postgres already has the id, and then nothing changes, or the simulation names a stored lease whose task is not stored, and then only the insert remains |
| `Recording.RecordingRefreshesExactly` | packages/db/src/postgres.ts:327-338 | in either store a successful recording adds the simulation, rescores the task of the named lease if it is stored, refreshes exactly the live entries filed under the named lease, stored or not, and changes nothing else |
| `Recording.RecordingInPlace` | packages/db/src/repository.ts:272-283 | in memory tasks and entries also keep their places |
| `Recording.ScoreKept` | packages/db/src/repository.ts:304-309 | a simulation that does not become the newest of its lease changes no conflict risk of the lease |
| `Recording.TaskScoreMatchesQueue` | packages/db/src/repository.ts:272-283 | in either store, after the call the task and its live entries have the same score if and only if, before it, the simulation becomes the newest, or contributes as much as the newest, or neither contributes more than the highest risk |
| `OperationMeaning.RecordedIs` | packages/db/src/postgres.ts:327-338 | in either store, after recording a simulation of a stored lease with a stored task: the task scores the higher of the contribution and the highest risk the lease then has, each unfinished entry of the lease has the fields then derived, and all else is as before |
| `ConcreteRuns.ScoresComeApart` | packages/db/src/repository.ts:272-283 | a legal run after which they differ |
| `SafetyTheorems.FinishIsAllOrNothing` | packages/db/src/repository.ts:594-617 | finishing fails if and only if entry or lease is missing and then changes nothing; otherwise the entry is finished and its lease released |
| `OperationMeaning.MergedIs` | packages/db/src/postgres.ts:594-598 | in either store, after a successful merge the entry has status merged, mergedAt and updatedAt now and every other field as before; its lease is released now; every other record is as before |
| `OperationMeaning.CancelledIs` | packages/db/src/postgres.ts:600-608 | in either store, after a successful cancel the entry has status cancelled, cancelledAt and updatedAt now, its old reasons followed by the given one and every other field as before; its lease is released now; every other record is as before |
| `OperationMeaning.NotFinished` | packages/db/src/repository.ts:594-617 | without the entry or its lease neither call changes anything, and the error names the missing record |
| `OperationMeaning.RefreshedIs` | packages/db/src/postgres.ts:583-586 | refreshing one entry, finished or not, gives it the derived fields of its own lease and the time, and changes nothing else |
| `RunOutcomes.CallTouches` | packages/db/src/repository.ts:515-617 | a call that neither merges nor cancels an entry leaves whether and when it was merged or cancelled |
| `RunOutcomes.EndingCall` | packages/db/src/repository.ts:594-617 | a merge or cancel call leaves the entry it names as it was, or merged or cancelled just now |
| `RunOutcomes.EndedOnlyByCalls` | packages/db/src/repository.ts:594-617 | over every run of either store, a merge time is that of a merge call for the entry and a merged entry has one; the same for cancelling |
| `RunOutcomes.MergedOnlyByMerge` | packages/db/src/repository.ts:594-617 | so from the empty store an entry is merged only through a merge call for it, and cancelled only through a cancel call |
| `SafetyTheorems.CallIsSafe` | apps/api/src/main.ts:3420-3490 | every call of either store keeps unique ids, keeps finished entries finished and released leases released, and keeps every finished entry's lease released |
| `SafetyTheorems.RunIsSafe` | apps/api/src/main.ts:3420-3490 | the same over every run of calls |
| `SafetyTheorems.EmptyIsSafe` | packages/db/src/postgres.ts:163-193 | the empty store satisfies the invariant |
| `AuditReplay.CallIsLogged` | packages/db/src/repository.ts:144-197 | every call keeps each task's entries, in the order they are recorded, a chain of allowed transitions that ends in its current status |
| `AuditReplay.RunIsLogged` | packages/db/src/repository.ts:144-197 | so does every run, in either store |
| `AuditReplay.ListedExactly` | packages/db/src/postgres.ts:738-740 | the table lists a task's history as it was recorded if and only if it was recorded in the order of times and ids |
| `AuditReplay.ListedReplays` | packages/db/src/postgres.ts:738-740 | under that condition the log as it is read replays to the current statuses; the array needs none |
| `AuditReplay.LogReplays` | packages/db/src/repository.ts:784-796 | in every reachable state the log as it is read gives every task its current status: from the array whatever the clock does, from the table when no transition's entry sorts before an earlier one of its task |
| `ConcreteRuns.AuditListComesApart` | packages/db/src/postgres.ts:728-740 | a legal run after which the array replays and the table, listed change first, does not |
| `AuditReplay.PatchIsTruthfulExactly` | packages/db/src/postgres.ts:234-239 | in either store a patch keeps the log as it is read truthful if and only if the task is missing, the patch sets no status, or it sets the one the task has |
| `AuditReplay.StatusPatchEscapesTheLog` | packages/db/src/repository.ts:167-175 | a concrete state and patch for which it does not |
| `OperationMeaning.CreatedTaskIs` | packages/db/src/repository.ts:144-165 | a new task is a draft with the given fields at the end of the list, and one log entry says so |
| `OperationMeaning.UpdatedTaskIs` | packages/db/src/postgres.ts:234-239 | in either store a patched task has the given fields, the others as before and the time, and no other record changes |
| `OperationMeaning.TransitionedTaskIs` | packages/db/src/postgres.ts:241-256 | in either store a transition is refused with both statuses, changing nothing, if and only if the status is neither the task's nor entered from it; else the task has the status and the time and one log entry has both statuses |
| `OperationMeaning.UnknownTask` | packages/db/src/repository.ts:167-181 | updating or moving a task that is not stored fails with its id and changes nothing |
| `OperationMeaning.UpdatedLeaseIs` | packages/db/src/postgres.ts:299-304 | in either store a patched lease has the given fields, the others as before and the time, and no other record changes |
| `OperationMeaning.ReleasedLeaseIs` | packages/db/src/repository.ts:249-254 | a released lease has status released, releasedAt and updatedAt now and is otherwise as before |
| `OperationMeaning.UnknownLease` | packages/db/src/repository.ts:240-254 | updating or releasing a lease that is not stored fails with its id and changes nothing |
| `OperationMeaning.AppendsOnly` | packages/db/src/repository.ts:130-142 | adding a repo, a lease or a log entry appends it and changes nothing else |
| `TaskStatuses.TransitionsBackwards` | packages/core/src/domain/status.ts:35-65 | the transition table read backwards: for each status, exactly the statuses it can be entered from |
| `TaskStatuses.TerminalAndRetry` | packages/core/src/domain/status.ts:35-65 | only a cancelled task can go nowhere; a task is queued again exactly after it completed or failed; it can be cancelled exactly until it is merged, completed or failed |
| `TaskStatuses.CompletableExactly` | packages/core/src/domain/status.ts:35-65 | some sequence of transitions leads from a status to completed if and only if it is neither blocked by policy nor cancelled |
| `RunOutcomes.CancelledStays` | packages/db/src/repository.ts:177-197 | over every run of either store a cancelled task stays cancelled |
| `ConflictScoring.StringLeTotal` | packages/core/src/conflicts/scoring.ts:213 | the string order that decides which lease is left is total and antisymmetric |
| `ConflictScoring.StringLeIs` | packages/core/src/conflicts/scoring.ts:213 | that order: a prefix first, else the smaller character where the ids first differ |
| `ConflictScoring.RiskMeans` | packages/core/src/conflicts/scoring.ts:207-234 | a risk names both leases, the smaller id first; its score is the higher of the overlap and the contribution, with the simulation's fields and a level by thresholds |
| `ConflictScoring.ReasonsMean` | packages/core/src/conflicts/scoring.ts:176-205 | its reasons are those of the overlap, with the simulation's own last in place of "no_overlap" |
| `ConflictScoring.RiskRecommendationMeans` | packages/core/src/conflicts/scoring.ts:87-107 | each recommendation if and only if, by score and reasons |
| `ConflictScoring.BlockedExactly` | packages/core/src/conflicts/scoring.ts:236-291 | a decision blocks if and only if there is a text conflict or a score of one half, if and only if it has blocking reasons, and never finishes an entry |
| `ConflictScoring.RiskIdNames` | packages/core/src/conflicts/scoring.ts:218 | risk ids of pairs with equally long lease ids determine both lease ids |
| `ConflictScoring.ScoringMeetsContract` | packages/core/src/conflicts/scoring.ts:207-234 | the source's scoring is symmetric, names both leases and separates pairs, which is all the store theorems assume |
| `ConflictScoring.EnvironmentsExist` | packages/core/src/conflicts/scoring.ts:207-291 | there are collations with which the source's scoring meets all of it |
| `Agreement.RepoRisksAgree` | packages/db/src/postgres.ts:358-370 | over related states both stores return the same repo risk list, order included |
| `Agreement.LeaseRisksAgree` | packages/db/src/postgres.ts:372-379 | the same for the lease risk list |
| `Agreement.FieldsAgree` | packages/db/src/postgres.ts:392-409 | the same for the derived queue fields |
| `Agreement.CallAgrees` | packages/db/src/postgres.ts:195-338 | any call returns the same outcome from both stores, the entries of a refresh up to their order, and keeps them related |
| `Agreement.RunsAgree` | packages/db/src/postgres.ts:545-608 | over every run of calls the outcomes are the same one by one, the entries of a refresh up to their order, and the records stay the same, in whatever order the tables keep them; clocks need not be ordered nor collations agree, only ties within a lease be ordered alike |
| `Agreement.ObservablesAgree` | packages/db/src/postgres.ts:372-409 | after every run from empty stores: same repo risks, lease risks, queue fields, tasks and entries |
| `Listings.QueueListsAgree` | packages/db/src/postgres.ts:578-581 | the queue lists are equal if and only if entries tied on priority and time were queued in id order |
| `ListingMeaning.QueueListIs` | packages/db/src/postgres.ts:578-581 | in either store the queue is listed with the lower priority first, then the older entry; Postgres has ties by id, memory in the order they were queued |
| `ListingMeaning.TablesOldestFirst` | packages/db/src/postgres.ts:199-228 | Postgres lists repos, tasks, log entries and active leases with the oldest first, ties by id |
| `ListingMeaning.ActiveLeasesAre` | packages/db/src/postgres.ts:306-321 | the active leases of a repo are exactly the stored ones with that status and repo; in Postgres an empty repo id stands for every repo |
| `ConcreteRuns.QueueListsComeApart` | packages/db/src/repository.ts:571-575 | a legal run after which the two lists differ |
| `Listings.RefreshListsAgree` | packages/db/src/postgres.ts:588-592 | a refresh returns the same list from both stores if and only if the live entries of the lease were queued in the order of priority, time and id |
| `ConcreteRuns.RefreshListsComeApart` | packages/db/src/repository.ts:588-592 | a legal run after which the two lists differ |
| `Listings.ListsAgreeExactly` | packages/db/src/postgres.ts:310-317 | the lists of tasks, of repos and of leases under any filter are equal if and only if the listed records were added in the order of times and ids |
| `Listings.AuditListsAgree` | packages/db/src/postgres.ts:738-740 | the audit lists are equal if and only if the log was written in the order of times and ids |
| `Listings.SimulationListsAgree` | packages/db/src/postgres.ts:340-348 | the simulation lists under any filter are equal if and only if both collations order the listed simulations of one instant alike |
| `RunRiskOrder.RunRisksAgree` | packages/db/src/postgres.ts:381-386 | the task-run lists have the same risks, and are equal if and only if the repos in which the run has a risk were registered in creation order |
| `RunRiskOrder.FlatMapInjective` | packages/db/src/repository.ts:336 | lists that share no value can be told apart in their concatenation |
| `ConcreteRuns.RunRisksComeApart` | packages/db/src/repository.ts:334-338 | a legal run after which the two lists differ |
| `Listings.ForeignSimulationSplits` | packages/db/src/postgres.ts:826-831 | recording the newest simulation of a pair keeps the two pair lookups equal if and only if it names the pair's repo |
| `Listings.ForeignSimulationIsVisible` | packages/db/src/postgres.ts:826-831 | in any states with two active leases of a repo and one simulation of the first against another repo, the two risk lists differ |
| `ConcreteRuns.ForeignSimulationIsReachable` | apps/api/src/main.ts:3420-3460 | such states are reached by a legal run of either store |
| `MemoryStore.PairLoop` | packages/db/src/repository.ts:314-321 | the double index loop computes the list of pairs |
| `MemoryStore.InMemoryStore.CreateTask` | packages/db/src/repository.ts:144-157 | pushes a draft task and its creation log entry, and nothing else |
| `MemoryStore.InMemoryStore.UpdateTask` | packages/db/src/repository.ts:167-175 | patches the task in its place or reports it missing |
| `MemoryStore.InMemoryStore.TransitionTask` | packages/db/src/repository.ts:177-197 | moves and logs an allowed transition; refuses a missing task or a forbidden one unchanged |
| `MemoryStore.InMemoryStore.UpdateBranchLease` | packages/db/src/repository.ts:240-247 | patches the lease in its place or reports it missing |
| `MemoryStore.InMemoryStore.ReleaseBranchLease` | packages/db/src/repository.ts:249-254 | releases the lease with a release time |
| `MemoryStore.InMemoryStore.ComputeRepoConflictRisks` | packages/db/src/repository.ts:311-323 | returns the specified sorted list of pair risks |
| `MemoryStore.InMemoryStore.ComputeConflictRisksForLease` | packages/db/src/repository.ts:325-332 | returns the specified list; empty for a missing or inactive lease |
| `MemoryStore.InMemoryStore.ComputeConflictRisksForTaskRun` | packages/db/src/repository.ts:334-338 | returns the specified filtered concatenation over the repos |
| `MemoryStore.InMemoryStore.MergeQueueFieldsForLease` | packages/db/src/repository.ts:344-364 | returns the derived fields whose meaning QueueMeaning proves |
| `MemoryStore.InMemoryStore.CreateMergeQueueEntry` | packages/db/src/repository.ts:515-556 | appends one entry with given fields over derived ones |
| `MemoryStore.InMemoryStore.UpdateMergeQueueEntry` | packages/db/src/repository.ts:562-569 | patches the entry in its place or reports it missing |
| `MemoryStore.InMemoryStore.RefreshMergeQueueEntryRisk` | packages/db/src/repository.ts:577-586 | recomputes one entry's fields |
| `MemoryStore.InMemoryStore.RefreshMergeQueueEntriesForLease` | packages/db/src/repository.ts:588-592 | the loop over the live entries leaves the state the refresh theorems describe and returns the refreshed entries |
| `MemoryStore.InMemoryStore.RecordMergeSimulation` | packages/db/src/repository.ts:272-283 | push, rescore, refresh, with the failing case between them |
| `MemoryStore.InMemoryStore.MarkMergeQueueEntryMerged` | packages/db/src/repository.ts:594-604 | releases the lease, then marks the entry; unchanged on failure |
| `MemoryStore.InMemoryStore.CancelMergeQueueEntry` | packages/db/src/repository.ts:606-617 | releases the lease, then cancels with the reason appended; unchanged on failure |
| `PostgresStore.PostgresStore.UpdateTask` | packages/db/src/postgres.ts:234-239 | reads, patches and rewrites one task row |
| `PostgresStore.PostgresStore.TransitionTask` | packages/db/src/postgres.ts:241-256 | an allowed transition is written and logged; a refused one changes nothing |
| `PostgresStore.PostgresStore.UpdateBranchLease` | packages/db/src/postgres.ts:299-304 | reads, patches and rewrites one lease row |
| `PostgresStore.PostgresStore.ListActiveBranchLeases` | packages/db/src/postgres.ts:310-321 | sorted by creation time and id; holds exactly the active leases of the repo, or of all repos for an empty id; none twice |
| `PostgresStore.PostgresStore.ComputeRepoConflictRisks` | packages/db/src/postgres.ts:358-370 | returns the specified list over rows |
| `PostgresStore.PostgresStore.ComputeConflictRisksForLease` | packages/db/src/postgres.ts:372-379 | returns the specified list over rows |
| `PostgresStore.PostgresStore.ComputeConflictRisksForTaskRun` | packages/db/src/postgres.ts:381-386 | goes through the repos in created_at, id order |
| `PostgresStore.PostgresStore.MergeQueueFieldsForLease` | packages/db/src/postgres.ts:392-409 | the derived fields over rows |
| `PostgresStore.PostgresStore.ListMergeQueueEntries` | packages/db/src/postgres.ts:578-581 | sorted by priority, creation time and id; every stored entry exactly as often as it is stored |
| `PostgresStore.PostgresStore.ListAuditLogs` | packages/db/src/postgres.ts:738-740 | sorted by creation time and id; every row exactly once per insertion |
| `PostgresStore.PostgresStore.CreateMergeQueueEntry` | packages/db/src/postgres.ts:545-564 | inserts one entry with given fields over derived ones |
| `PostgresStore.PostgresStore.UpdateMergeQueueEntry` | packages/db/src/postgres.ts:571-576 | reads, patches and rewrites one entry row |
| `PostgresStore.PostgresStore.RefreshMergeQueueEntriesForLease` | packages/db/src/postgres.ts:588-592 | the loop over the live entries leaves the state the refresh theorems describe and returns the refreshed entries |
| `PostgresStore.PostgresStore.RecordMergeSimulation` | packages/db/src/postgres.ts:327-338 | insert, rescore, refresh, with both failing cases: the stored id before any change, the missing task between |
| `PostgresStore.PostgresStore.MarkMergeQueueEntryMerged` | packages/db/src/postgres.ts:594-598 | releases the lease, then marks the entry; unchanged on failure |
| `PostgresStore.PostgresStore.CancelMergeQueueEntry` | packages/db/src/postgres.ts:600-608 | releases the lease, then cancels with the reason appended; unchanged on failure |
| `SqlText.LiteralReadsBack` | packages/db/src/postgres.ts:948-950 | reading a printed literal gives back the string and the rest, for every string, if and only if the rest neither starts with a quote nor continues the literal on a new line |
| `SqlText.InsertThrowsExactly` | packages/db/src/postgres.ts:841-846 | an insert throws before sending anything if and only if one of its values is a non-finite number, an invalid date or an object without a JSON text |
| `SqlText.UpdateThrowsExactly` | packages/db/src/postgres.ts:848-854 | an update does so if and only if such a value is in a column other than id |
| `SqlText.ReceivedIs` | packages/db/src/postgres.ts:952-962 | each kind of value is received as what it is: NULL exactly for undefined and null, a text for strings and dates, and so on |
| `SqlText.PrintedAlikeExactly` | packages/db/src/postgres.ts:952-962 | two values print alike if and only if they are the same, or both undefined or null, or a date and a string with its text |
| `SqlText.MeaningAt` | packages/db/src/postgres.ts:841-846 | each received value of a list is that of the value in its place |
| `SqlText.AssignmentAt` | packages/db/src/postgres.ts:848-854 | each assignment is of the value in its place to the column in its place |
| `SqlText.ValueReadsBack` | packages/db/src/postgres.ts:952-962 | every printable value reads back as what the database should receive, and the reader stops right behind it |
| `SqlText.ValuesReadBack` | packages/db/src/postgres.ts:841-846 | the VALUES list reads back as the list of values |
| `SqlText.ValuesAreNotConfused` | packages/db/src/postgres.ts:841-846 | lists with different meanings never print alike |
| `SqlText.JoinedAssignmentsReadBack` | packages/db/src/postgres.ts:848-854 | a joined assignment list reads back column by column |
| `SqlText.UpdateReadsBack` | packages/db/src/postgres.ts:848-854 | the SET clause reads back as exactly the entries other than id, each with its own value |
| `RunAgent.StepKeeps` | apps/api/src/main.ts:3280-3352 | one step of any handler keeps: one active run per task, attempts 1..n, active runs exactly those of awaiting or dead handlers |
| `RunAgent.EveryInterleaving` | apps/api/src/main.ts:3280-3352 | the same over every interleaving |
| `RunAgent.StartsWell` | apps/api/src/main.ts:3280-3352 | the initial server satisfies the invariant |
| `RunAgent.RefusedExactly` | apps/api/src/main.ts:3281-3285 | a request for a known task is answered 409 at once if and only if some handler of the task awaits or died awaiting |
| `RunAnswers.RequestMeans` | apps/api/src/main.ts:3280-3308 | a request is answered 404 at once if and only if the task is unknown, 409 if and only if it has a queued or running run, and then no run is made; otherwise one running run is added, numbered after the task's others |
| `RunAnswers.AnswerMeans` | apps/api/src/main.ts:3337-3351 | the answer is 409 if and only if the agent was blocked, else 201; the handler's run succeeded if and only if the agent completed, else it failed; nothing else changes |
| `RunAnswers.AnswersExactly` | apps/api/src/main.ts:3280-3352 | over every interleaving a handler has answered with a code if and only if some step settled it so: its request, with 404 or 409 for what the store then held, or its agent's answer, with 409 or 201 |
| `RunAnswers.RunsConcludeExactly` | apps/api/src/main.ts:3337-3344 | over every interleaving a run has succeeded if and only if the agent of its handler completed, and failed if and only if that agent answered anything else |
| `RunAnswers.RunsMadeExactly` | apps/api/src/main.ts:3281-3308 | over every interleaving a run exists if and only if a request made it, for a task that was known and had no active run |
| `RunAgent.DeathBlocksForever` | apps/api/src/main.ts:3309-3344 | a handler that dies awaiting blocks its task in every later state |
| `RunAgent.RunAgentServer.Request` | apps/api/src/main.ts:3280-3308 | check and creation are one step over the runs |
| `RunAgent.RunAgentServer.Resume` | apps/api/src/main.ts:3337-3351 | finishing sets the run's status and answers 409 only when blocked |
| `RunAgent.RunAgentServer.Abort` | apps/api/src/main.ts:3309-3336 | a throwing agent leaves the run as it is and the handler without an answer |
| `AuthCatalog.UniqueByLoop` | packages/auth/src/providers.ts:22-33 | the loop with its set of seen keys computes the specified list |
| `AuthCatalog.UniqueByMembers` | packages/auth/src/providers.ts:22-33 | each key of the input appears exactly once, by an element of the input |
| `AuthCatalog.UniqueByKeepsFirst` | packages/auth/src/providers.ts:22-33 | the element kept is the first one, and order is kept: an equation from the front independent of the loop |
| `AuthCatalog.UpsertMembers` | packages/auth/src/repository.ts:195-203 | an upsert replaces exactly the record with the id, keeps ids unique, and is read back |
| `AuthService.AuthServer.ResolveAuthContext` | packages/auth/src/providers.ts:77-152 | the context is assembled as specified and exactly its resolution events are appended |
| `AuthService.AuthServer.PermissionGrantedByActiveBinding` | packages/auth/src/service.ts:265-290 | the short-circuiting loop decides and logs as specified |
| `AuthService.AuthServer.Check` | packages/auth/src/service.ts:153-263 | the decision, and every event of it in order |
| `AuthService.AuthServer.UpsertRoleBinding` | packages/auth/src/repository.ts:146-148 | replaces or appends one binding |
| `AuthService.AuthServer.UpsertRole` | packages/auth/src/repository.ts:123-125 | replaces or appends one role |
| `AuthTheorems.BindingCheckIs` | packages/auth/src/service.ts:265-303 | on a resolved context the binding check grants if and only if some active binding that reaches the actor gives an active role with the permission and a scope that covers what is asked |
| `AuthTheorems.AllowedExactly` | packages/auth/src/service.ts:153-225 | a check is allowed if and only if actor and principal are active, the action is registered, a binding grants it, and the policy does not apply or allows |
| `AuthTheorems.ScopeIs` | packages/auth/src/service.ts:292-303 | a scope matches if and only if it is global, or has the target's kind and no id or the target's id, the target being the requested scope if given, else the resource |
| `AuthMeaning.RefusedByScopeExactly` | packages/auth/src/service.ts:153-303 | a known actor with a registered action is refused for lack of permission if and only if every active binding that reaches it with the permission is neither global, nor of the target's kind without an id, nor of its kind with its id |
| `AuthMeaning.OtherIdsAreDenied` | packages/auth/src/service.ts:292-303 | a binding with an id never covers another one: an actor that holds the permission only for other ids is denied |
| `AuthMeaning.RequestedScopeHides` | packages/auth/src/service.ts:292-303 | with a requested scope, the resource's own kind and id change neither the verdict nor the events |
| `AuthMeaning.ReasonsExactly` | packages/auth/src/service.ts:153-225 | for any context, each reason of the decision if and only if the earlier tests passed and its own failed |
| `AuthMeaning.DecisionCarries` | packages/auth/src/service.ts:196-263 | the decision names the required permission, carries the policy's decision if and only if the policy was asked, and its event names actor, principal, action and outcome |
| `AuthMeaning.LookupsFindFirst` | packages/auth/src/repository.ts:79-133 | actors and principals are found by id, teams and roles by id or name, permissions by id or action, and the first match is found |
| `AuthMeaning.IdentityIs` | packages/auth/src/providers.ts:77-83 | a context is of the actor and principal of the catalog, or of disabled stand-ins; it is authenticated if and only if both are there and active |
| `AuthMeaning.ContextHolds` | packages/auth/src/providers.ts:84-96 | the teams, bindings, roles and permissions of a context, each if and only if |
| `AuthMeaning.ResolutionRecords` | packages/auth/src/providers.ts:117-151 | the one, two or three events of a resolution, field by field |
| `AuthTheorems.DirectRolesAreIrrelevant` | packages/auth/src/providers.ts:85-94 | the binding check does not depend on the actor's direct roles, and equals the binding test alone |
| `AuthTheorems.FirstTestIsRedundant` | packages/auth/src/service.ts:266 | the first permission test is implied by the binding test |
| `AuthTheorems.AddingABindingKeepsGrants` | packages/auth/src/repository.ts:195-203 | upserting a new binding never turns a grant into a denial |
| `AuthTheorems.DisablingABindingCreatesNoGrant` | packages/auth/src/repository.ts:195-203 | disabling a binding never creates a grant |
| `AuthTheorems.DisablingARoleCreatesNoGrant` | packages/auth/src/repository.ts:195-203 | disabling a role never creates a grant |
| `AuthTheorems.EventsUpToFirstMatch` | packages/auth/src/service.ts:268-289 | one event per qualifying binding, in order, up to and including the first in scope |
| `AuthTheorems.OneFinalEvent` | packages/auth/src/service.ts:196-263 | each check appends exactly one final event, last, that says what the decision says; their reasons are the same if and only if the check is denied, and both are named when it is allowed |
| `AuthTheorems.EveryCheckIsLogged` | packages/auth/src/repository.ts:174-183 | over any run, final events count the checks and allowed events count the allowed checks |
| `WebhookDelivery.Prefix` | packages/deployment-readiness/src/service.ts:481-514 | processing a prefix of a stream gives the prefix of its log |
| `WebhookDelivery.RecordAt` | packages/deployment-readiness/src/service.ts:481-514 | each record is the classification against the log before it |
| `WebhookDelivery.StreamClassification` | packages/deployment-readiness/src/service.ts:481-514 | first seen, duplicate or rejected, for every position, by the first delivery of its id; duplicates name and match the first record |
| `WebhookDelivery.DeliveryRecordIs` | packages/deployment-readiness/src/service.ts:481-514 | every field of the record at a position of the stream: what the delivery carries, unverified unless it was verified, its time, and all that follows from being first, a repeat or a mismatch |
| `WebhookDelivery.OneFirstSeenPerId` | packages/deployment-readiness/src/service.ts:485-490 | exactly one first-seen, pending record per distinct id, at its first delivery |
| `WebhookDelivery.RepeatsChangeNothingElse` | packages/deployment-readiness/src/catalog.ts:926-936 | a repeat inserted anywhere leaves every later record as it would have been |
| `WebhookDelivery.AttemptCountStopsAtTwo` | packages/deployment-readiness/src/service.ts:502 | the attempt count is the number of deliveries so far if and only if that is at most two |
| `SyncState.KeysStayUniqueExactly` | packages/db/src/repository.ts:432-449 | an upsert keeps keys unique if and only if no other state is filed under the input's key |
| `SyncState.KeysCollide` | packages/db/src/repository.ts:432-449 | two upserts after which a third one with an explicit id leaves two states under one key |
| `SyncState.KeysStayUnique` | packages/db/src/repository.ts:463-480 | without an explicit id it always does |
| `SyncState.UpsertIsMapUpdate` | packages/db/src/repository.ts:432-480 | the array refines a finite map: one key updated, all other keys, ids and places kept |
| `SyncMeaning.UpsertedIs` | packages/db/src/repository.ts:432-449 | the array after an upsert: the first state with the id or key keeps its id and the properties the input lacks and takes all else from the input; without one, a new state comes last; the others stay |
| `SyncMeaning.ReadsBack` | packages/db/src/repository.ts:457-461 | when repo ids and references do not overlap, reading back gives the input's own properties, its time or now, and the id the state had or the made one |
| `SyncMeaning.GetIs` | packages/db/src/repository.ts:457-461 | a get answers with the first state of the subject whose reference or repo id is the one asked for |
| `SyncState.RunIsStable` | packages/db/src/repository.ts:432-480 | keys stay unique and ids and insertion order stay over every run of upserts without ids |
| `SyncState.GetAfterUpsertExactly` | packages/db/src/repository.ts:457-461 | reading back gives the stored record if and only if no earlier state of the subject has the reference as its repo id |
| `SyncState.GetAfterUpsert` | packages/db/src/repository.ts:488-492 | when repo ids and references do not overlap, reading back gives the merged record |
| `SyncState.IdsStayUnique` | packages/db/src/repository.ts:442-447 | explicit ids never make two states share an id |
| `SyncState.LookupsAgreeExactly` | packages/db/src/postgres.ts:475-478 | over the same states in any order the stores pick the same one if and only if no state filed under the key comes before the one with the given id; for an empty id, if and only if no state with the empty id comes before the one filed under the key |
| `SyncState.PicksComeApart` | packages/db/src/postgres.ts:475-478 | two upserts after which a third one picks different states |
| `SyncRows.ConstraintCatchesExactly` | infra/migrations/0001_initial_aichestra_schema.sql:122-144 | where both stores pick the same state, the constraint makes Postgres throw if and only if the in-memory store would go on with two states under one key |
| `SyncMeaning.RowUpsertedIs` | packages/db/src/postgres.ts:475-488 | the table after an upsert: the selected row keeps its id and nothing else; without one a new row is added; the others stay |
| `SyncMeaning.ThrowsExactly` | infra/migrations/0001_initial_aichestra_schema.sql:122-144 | the statement throws if and only if a row other than the selected one has the written row's id or key |
| `SyncRows.RunsMirror` | packages/db/src/postgres.ts:475-513 | over every run of upserts without explicit ids no constraint throws, and table and array hold the same ids, keys, required properties and times |
| `SyncRows.SyncTable.UpsertState` | packages/db/src/postgres.ts:475-488 | writes the selected or a new row, or throws and leaves the table alone |
| `SyncState.LookupsAgree` | packages/db/src/postgres.ts:500-503 | without an id they always do |
| `SyncState.MergeIsOverwriteExactly` | packages/db/src/postgres.ts:479-487 | merging and overwriting read alike if and only if every property only the old record had was undefined |
| `SyncState.SyncStore.UpsertState` | packages/db/src/repository.ts:432-449 | the method does the specified upsert and returns the stored record |
| `CostModel.CostsAddUp` | apps/api/src/dashboard-read-model.ts:84-107 | with unique task ids the task rows' costs and the cost of unlisted events add up to the overview total |
| `CostModel.EventAdds` | apps/api/src/dashboard-read-model.ts:84-107 | an event adds its cost to the total and to the row of its own task, and to no other |

## Left out

- Agreement.RunsAgree: a simulation that names a lease is required to name a stored one and its repo, and simulations tied on lease and time to be ordered alike by both collations; LatestSimulation and Listings give the exact conditions of the two lookups, and ConcreteRuns a run that fails the first. The list a refresh returns is compared up to order; Listings.RefreshListsAgree says when the order is the same.
- SyncRows.RunsMirror: optional properties are left to SyncState.MergeIsOverwriteExactly, since Postgres overwrites what the in-memory store merges; calls with explicit ids are covered one at a time by SyncRows.ConstraintCatchesExactly.
- Agreement.CallAgrees: repo and lease ids are required not to be empty, because the SQL conditions are left out for an empty id; repo, task, lease and entry creation take ready ids as createId makes them.
- RiskMeaning.RepoRisksAre: in Postgres the repo id is required not to be empty, as createId makes it; an empty one lists the active leases of every repo (ListingMeaning.ActiveLeasesAre), whose pairs are then scored by the first lease's repo.
- SqlText.LiteralReadsBack: an SQL comment between two halves of a continued literal is not read as a separator; the printed texts contain none outside literals.
- SqlText.ValueReadsBack: the numeral and JSON texts of a value are given; that String and JSON.stringify print them right is not proved.
- AuthTheorems.AddingABindingKeepsGrants: about a binding with a new id; upserting over an existing id replaces that binding and may take a grant away.
- Records are values in sequence fields of the store classes: that callers share references with the in-memory store, and see later changes through them, is not modelled.
- The file-overlap part of the pair score is any deterministic function of the two file lists; path classification is string work.
- `computedAt` of a risk is dropped, and one clock reading stands for the several of one call.
- The `repoId` filter of `listMergeQueueEntries`, which filters what is modelled.
- `updateMergeQueueEntry`, `updateBranchLease` and `createMergeQueueEntry` with an arbitrary status: raw patches, which the safety and replay theorems exclude from the calls.
- Row mappers and column lists of the tables: field-by-field copies.
- `psql`, transactions, HTTP parsing and response bodies, health checks.
- `/tasks/:id/run`: its worker workflow is not part of this model.
- In run-agent, the registry resolution that may throw before the run is created, and a store that loses a run between creation and finish.
- The policy engine: any function of the catalog and the request; its decision is used, not computed.
- Service accounts, identity providers and the metadata sanitiser of the auth repository; the printed id of an unknown principal is a parameter.
- A caller that gives the webhook classifier `metadata` of its own, which is spread over the computed `duplicateOf`; the naming of records is any function of id and status.
- Pull requests, skills, harnesses, instructions, usage ledger writes, registry and dashboard panels: lookups and copies.
- Floating-point rounding: scores and costs are exact reals.
