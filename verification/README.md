# The leased job store

A Dafny model of a test-run queue. The `jobs` table is a state machine (queued, claimed, running, then
done, failed, abandoned or not_dispatched) driven by Slack commands on one side and by test servers that
claim, heartbeat and report on the other. Two backends implement it: SQLite, one writer at a time, and
Postgres, many transactions at once. The model proves what the store keeps over whole runs.

`dafny verify dfyconfig.toml` checks everything.

## Layout

| file | holds |
|---|---|
| `Common.dfy`, `Ordering.dfy` | optional values, set sizes, Python's `sorted` by a string key |
| `Jobs.dfy` | states, caps, jobs, validation, the row, and what one UPDATE does to one row |
| `Table.dfy` | the table, its counts, and what each operation does to it |
| `SqliteStore.dfy` | the SQLite backend as a class, each method proved against `Table` |
| `PostgresStore.dfy` | the Postgres claim statement run alone, and exactly when it agrees with SQLite's loop |
| `Runs.dfy` | runs: any sequence of serial calls, each with an arbitrary clock reading |
| `RowLife.dfy`, `Histories.dfy`, `CapRuns.dfy`, `Reaping.dfy` | what holds of rows, histories, caps and leases over every run |
| `Ledger.dfy`, `Answers.dfy` | the table read off the calls: every column, every count and every answer, from the calls alone |
| `QueueRuns.dfy`, `Slots.dfy`, `LongestLife.dfy` | exactly when the queued cap holds, the slots dispatched runs keep, and the longest a row can live |
| `Witnesses.dfy` | jobs and first steps that example runs are built from |
| `Interleavings.dfy` | the Postgres transactions under READ COMMITTED, with row locks and advisory locks |
| `InterleavedRows.dfy`, `InterleavedColumns.dfy`, `InterleavedAlone.dfy` | finality, fencing and what every committed column says in every interleaving; what runs alone is the serial store |
| `InterleavedCaps.dfy`, `InterleavedAnswers.dfy`, `InterleavedIds.dfy` | caps, refusals, idempotency and exactly-once hand-out in every interleaving |
| `InterleavedTight.dfy` | the interleaving that is one over the running cap, and exactly when there is one |
| `Lease.dfy`, `Stories.dfy` | runners, heartbeats, losses and a clock: mutual exclusion, the exact condition for it, and what stories there are |
| `EdgeRuns.dfy` | record-before-dispatch at the Slack door, and what a failed dispatch leaves on record |
| `Agent.dfy` | a runner's three tries at reporting a result, while everybody else goes on using the store |
| `JobDefs.dfy`, `Suggestions.dfy`, `Labels.dfy` | saved definitions and their triggers; what is suggested instead; runner labels and routing |

Two layers share one set of row transitions (`Jobs`) and counts (`Table`): the serial store is the class
in `SqliteStore.dfy`, whose calls are the steps of `Runs`; the lease protocol and the Slack door are
machines whose store moves are those same steps. The Postgres interleavings use the same transitions row
by row, and an insert, update, reap or claim nobody interrupts is proved to end in the serial store's next table.

The transitions and counts are tied down from outside. `Ledger` says what every column of every row holds in
terms of the calls of the run and their answers, naming columns and no transition: which insert a row keeps,
who has it and until when, whether and how it ended, and which of the seven states follows. `Answers` then says
what every insert, claim and `results` command is told, again from the calls alone. `InterleavedColumns` does the
same for committed rows under interleaving.

The store methods that are a single UPDATE (take, start, finish, mark, renew, the two halves of a reap) have
the specification's own update as their contract. What those updates are for is stated over whole runs, and
it is those lemmas the table below names.

## What the code does where its own words differ

- `mark_not_dispatched` says it fires only from QUEUED (`src/slack_runtests/store/base.py:549`). The SQL fires from QUEUED or
  RUNNING with no runner; the model follows the SQL, and dispatched rows depend on it.
- `base.py:42-43` says a reaper only moves rows between queued and claimed. It also takes running rows,
  and moves rows to abandoned.
- The per-channel queued cap is said to bound the backlog (`base.py:133-134`). Reaping puts rows back without
  asking, so it does in every run if and only if a job gets one attempt: `QueueRuns.QueuedCapIsKeptExactly`.
  Otherwise the queue is bounded by the two channel caps added up (`CapRuns.BacklogIsBounded`), and reaches
  that (`QueueRuns.BacklogBoundIsReached`).
- The per-channel running cap is said to be exact because it is counted in the transaction that acts on
  it (`base.py:143-147`). On Postgres inserts and claims count under different locks, so a dispatch
  and a claim can both see the last slot: `InterleavedTight.RunningCapIsOutByOne`, for every cap and whatever
  the other caps. It is exact in every interleaving if and only if a deployment starts work in one way only:
  `InterleavedTight.RunningCapIsKeptExactly`. The excess is never more than one.
- The per-job cap is said to refuse a command typed "while the first is still going" (`base.py:129-132`). A
  dispatched run is never heard of again, so one that went through is going for good: under the default cap of
  one it closes its (product, server) to every later run, and as many as the running cap close their channel
  (`Slots.DispatchesCloseTheJob`, `Slots.DispatchesCloseTheChannel`).
- A failed dispatch is said to be put on record (`edge/edge_server/app.py:513-526`). The mark is tried once. When
  the store is too busy for it, or the process restarts first, the row says running for good, and `results` with
  it: `EdgeRuns.LostMarksStayLost`. The row says not dispatched if and only if the mark reached the store:
  `EdgeRuns.NotDispatchedExactly`.
- A negative running cap means "no cap" to SQLite and "nothing may run" to Postgres:
  `Postgres.BackendsAgreeExactly`.
- A result whose reply is lost is recorded and then given up on: the retry is refused, because the row is
  no longer the runner's. A runner learns that its result counted exactly when the one try that was in time has
  its reply come back, whatever others do between the tries: `Agent.SafeResult`, `Agent.OneTryCounts`.
- "Did you mean" lists five definitions and does not say there are more: `Suggestions.SuggestionsAreCompleteExactly`.

## Assumptions

- Clock readings, job identifiers, labels, outcomes and what the network loses are arguments. In the
  serial store and the interleavings clock readings are unrelated to one another. In the lease protocol a
  reading is at most `lag` old when its call takes effect.
- A runner called steady in `Lease.dfy` attempts a heartbeat at least every `gap`, and no more than
  `losses` attempts in a row fail to land. Nothing is assumed of the others.
- Times are real numbers. Requests arrive already authenticated with a runner id.
- Configuration (caps, lease length, attempts) is fixed within one run.

## Model

| member | source | states |
|---|---|---|
| Jobs.ValidJobsExactly | src/slack_runtests/store/base.py:202-220 | a job is let in exactly when it has an identifier and no checked field is over 200 characters |
| Jobs.FirstTooLongIsFirst | src/slack_runtests/store/base.py:210-220 | the field named in the refusal is the first one over the limit |
| Sqlite.SqliteStore.Insert | src/slack_runtests/store/sqlite_backend.py:304-359 | validation, duplicate check, both counts and the write give the specified answer and next table |
| Sqlite.SqliteStore.Enqueue | src/slack_runtests/store/sqlite_backend.py:296-298 | enqueue inserts a queued test-server row |
| Sqlite.SqliteStore.RecordDispatch | src/slack_runtests/store/sqlite_backend.py:300-302 | record_dispatch inserts a row already running |
| Sqlite.SqliteStore.Claim | src/slack_runtests/store/sqlite_backend.py:361-410 | the ordered scan against the busy map takes an oldest eligible row of the reaped table, or nothing exactly when none is eligible |
| Sqlite.SqliteStore.SelectQueued | src/slack_runtests/store/sqlite_backend.py:380-382 | every queued row, oldest first, equal times in any order |
| Sqlite.SqliteStore.BusyByChannel | src/slack_runtests/store/sqlite_backend.py:369-378 | the GROUP BY map read with a default of zero is every channel's busy count |
| Sqlite.SqliteStore.Reap | src/slack_runtests/store/sqlite_backend.py:468-498 | the two UPDATEs have the effect of one partition of the expired rows by attempts |
| Table.TwoUpdatesAreOnePartition | src/slack_runtests/store/sqlite_backend.py:468-493 | the two reap UPDATEs, in either order, equal one simultaneous partition |
| Postgres.PostgresStore.Claim | src/slack_runtests/store/postgres_backend.py:375-426 | the claim statement takes an oldest candidate of the reaped table, or nothing exactly when there is none |
| Postgres.PostgresStore.Reap | src/slack_runtests/store/postgres_backend.py:485-505 | as for SQLite |
| Postgres.BackendsAgreeExactly | src/slack_runtests/store/postgres_backend.py:387-418 | both claims allow the same results and next tables if and only if the running cap is not negative or no queued row matches the labels |
| Postgres.NegativeCapSplitsTheBackends | src/slack_runtests/store/postgres_backend.py:394-398 | a table and a cap of -1 on which SQLite hands a job out and Postgres does not |
| Postgres.ClaimsAreDetermined | src/slack_runtests/store/sqlite_backend.py:380-409 | with distinct creation times a claim has one possible result and next table |
| Postgres.BackendsComputeTheSame | src/slack_runtests/store/postgres_backend.py:387-418 | with distinct creation times and a cap that is not negative, both backends return the same job and leave the same table |
| Runs.StepByRow | src/slack_runtests/store/sqlite_backend.py:304-493 | every call seen from one row: what it does to it, that none is deleted, and that only an accepted insert adds one |
| Runs.RowsAreNeverDeleted | src/slack_runtests/store/sqlite_backend.py:304-493 | a row once inserted is there for the rest of the run |
| RowLife.EveryRowIsShaped | src/slack_runtests/store/sqlite_backend.py:304-493 | in every reachable table: leased iff busy with a runner, queued rows unowned with attempts left, done and failed rows with every result column, done iff exit code zero |
| RowLife.FinishedRowsAreFrozen | src/slack_runtests/store/sqlite_backend.py:412-493 | no column of a terminal row ever changes again |
| RowLife.OnlyOneResultIsRecorded | src/slack_runtests/store/sqlite_backend.py:421-434 | after an accepted result every further one for the job is refused, changes nothing, and the first stands |
| RowLife.ResultsAreAlwaysDescribable | edge/edge_server/app.py:485-507 | no reachable row makes the `results` answer format a missing number, and only done or failed rows are described with counts |
| RowLife.ResultsAnswerWhatWasReported | edge/edge_server/app.py:498-504 | from acceptance on, `results` gives exactly the counts the holder reported and names it |
| RowLife.DispatchedRowsAreLeftAlone | src/slack_runtests/store/sqlite_backend.py:436-493 | a dispatched row stays exactly as inserted until its own failure mark, and then as that left it |
| RowLife.DispatchedRowsAreNeverHanded | src/slack_runtests/store/sqlite_backend.py:361-493 | a dispatched row is never claimed, started, finished, renewed or reaped |
| RowLife.FailureMarkApplies | edge/edge_server/app.py:534-544 | the first failure mark the store executes for a dispatched row always applies, and `results` then gives its reason |
| RowLife.ChangesUseUpSteps | src/slack_runtests/store/sqlite_backend.py:399-493 | every call that changes more than a lease strictly lowers a measure of the row |
| RowLife.RowsRunOutOfMoves | src/slack_runtests/store/sqlite_backend.py:468-493 | however long the run, the row of a queued job moves at most 3M times and the row of a dispatch at most once |
| LongestLife.MoveBoundIsReached | src/slack_runtests/store/sqlite_backend.py:468-493 | under any configuration some run has a queued job's row move 3M times |
| Histories.ResultsAreFenced | src/slack_runtests/store/base.py:535-542 | a result is accepted if and only if the latest claim of the job was that runner's with no expiry, claim or accepted result since |
| Histories.StartsAreFenced | src/slack_runtests/store/sqlite_backend.py:412-419 | a start is accepted if and only if the latest claim is that runner's, stands, and no start has been accepted since it |
| Histories.MarksApplyExactly | src/slack_runtests/store/sqlite_backend.py:436-457 | a failure mark is accepted if and only if the job was accepted before, not yet marked, and put back after every time it was handed out |
| Histories.HeartbeatsRenewWhatIsHeld | src/slack_runtests/store/sqlite_backend.py:459-466 | a heartbeat gives a full lease to exactly the jobs whose latest claim is this runner's and stands, counts them, and touches nothing else |
| Histories.ClaimsAreSeparatedByExpiry | src/slack_runtests/store/sqlite_backend.py:468-493 | between any two claims of a job a reap found its lease expired and requeued it |
| Histories.AttemptsCountClaims | src/slack_runtests/store/sqlite_backend.py:399-403 | the attempts column is the number of claims in the history, and the requeues are accounted for by it |
| Histories.AttemptsAreBounded | src/slack_runtests/store/sqlite_backend.py:471-474 | a job is claimed at most M times and requeued at most M - 1 times |
| Histories.AcceptedOnce | src/slack_runtests/store/base.py:492-498 | after one accepted insert of an identifier every other is a duplicate |
| Histories.PayloadIsTheAcceptedJob | src/slack_runtests/store/base.py:183-199 | every claim, after any requeues, hands out the one job accepted under that identifier |
| Ledger.RowsKeepTheirInsert | src/slack_runtests/store/sqlite_backend.py:350-359 | in every later table a row has the job, the mode and the creation time of its accepted insert |
| Ledger.HandsAreInTheTable | src/slack_runtests/store/sqlite_backend.py:399-498 | holder, lease and claimed or running, from the calls: a lease runs from a claim or a landed heartbeat of its holder and ends by a result or by a reap past it |
| Ledger.EndsAreWhatTheTableSays | src/slack_runtests/store/sqlite_backend.py:421-498 | at most one call ever ends a job; until then every result column is empty, and from then on the row says exactly what that call reported, column by column |
| Ledger.StartTimesAreReported | src/slack_runtests/store/sqlite_backend.py:412-419 | started_at is the time of the last accepted start, or of the dispatch |
| Ledger.StatesAreTheHistory | src/slack_runtests/store/base.py:36-64 | each of the seven states if and only if the calls say so |
| Ledger.OpenIsActive | src/slack_runtests/store/sqlite_backend.py:315-322 | what the per-job cap counts are the accepted inserts of the pair that no result, failure mark or abandonment has ended |
| Ledger.OccupiedIsBusy | src/slack_runtests/store/sqlite_backend.py:331-343 | what the running cap counts are the channel's unmarked dispatches and the jobs out with a runner |
| Ledger.WaitingIsQueued | src/slack_runtests/store/sqlite_backend.py:331-343 | what the queued cap counts are the channel's jobs that were queued, have not ended and are not out |
| Answers.CapsHoldOverTheCalls | src/slack_runtests/store/base.py:125-147 | per-job and running caps hold over those counts, the two channel caps added up bound waiting plus out, and with one attempt the queued cap holds |
| Answers.InsertsAreAnsweredFromTheCalls | src/slack_runtests/store/sqlite_backend.py:304-359 | the answer to every insert, refusals in their order, if and only if the calls so far say so; accepted exactly when nothing stands in the way |
| Answers.ClaimsTakeTheOldestInsert | src/slack_runtests/store/sqlite_backend.py:361-410 | a claim is empty exactly when no accepted job can be had, and otherwise is given one whose insert read the earliest time of those that can |
| Answers.ResultsAreDescribedFromTheCalls | edge/edge_server/app.py:485-507 | what `results` answers at any time, from the calls: the reason, the counts, or state, holder and age |
| CapRuns.RunningCapHolds | src/slack_runtests/store/sqlite_backend.py:331-343 | claimed and running rows of a channel never exceed the running cap, however work is started |
| CapRuns.BacklogIsBounded | src/slack_runtests/store/sqlite_backend.py:304-359 | queued plus leased rows of a channel never exceed the queued cap plus the running cap |
| CapRuns.BacklogGrowsOnlyByEnqueue | src/slack_runtests/store/sqlite_backend.py:361-493 | claiming, requeueing and everything but an accepted enqueue never enlarges the backlog |
| QueueRuns.QueuedCapIsKeptExactly | src/slack_runtests/store/sqlite_backend.py:481-486 | the queue keeps to its cap in every run if and only if a job gets one attempt only |
| QueueRuns.QueueOverflows | src/slack_runtests/store/sqlite_backend.py:481-486 | with a second attempt, for any k the running cap lets out at once, a run that ends with the queue k over its cap |
| QueueRuns.BacklogBoundIsReached | src/slack_runtests/store/sqlite_backend.py:481-486 | the sum of the two channel caps is reached by the queue alone |
| Slots.DispatchesCloseTheChannel | src/slack_runtests/store/base.py:501-516 | once R dispatches went through on a channel no later dispatch on it is accepted and none of its queued jobs is handed out, for the rest of the run |
| Slots.DispatchesCloseTheJob | src/slack_runtests/store/base.py:129-132 | once K dispatches of a (product, server) went through every later run of it is refused, for the rest of the run |
| Reaping.ReapsCompose | src/slack_runtests/store/sqlite_backend.py:468-493 | reaping twice, at any two readings in either order, is reaping once at the later |
| Reaping.StaleHolderLosesTheJob | src/slack_runtests/store/sqlite_backend.py:367-367 | when the last claim or renewal is more than a lease old, the next reap or claim takes the job from its holder |
| Reaping.FreshHolderKeepsTheJob | src/slack_runtests/store/sqlite_backend.py:459-493 | within one lease of the last claim or renewal no reap or claim changes the row |
| Interleavings.HistoryKeepsInv | src/slack_runtests/store/postgres_backend.py:309-505 | in every state of every interleaving: nobody but an advisory lock's owner is past it, no two open transactions have written one row, and what they wrote comes from unfinished rows |
| InterleavedRows.FinishedRowsAreFinal | src/slack_runtests/store/postgres_backend.py:428-505 | in every interleaving no column of a committed terminal row ever changes again |
| InterleavedColumns.CommittedChangesWereWritten | src/slack_runtests/store/postgres_backend.py:387-505 | every change of a committed row was written by one move of the committing transaction, over a row its WHERE clause fits, setting exactly the columns its statement names; a claim's lease runs from its own reading |
| InterleavedColumns.ResultsAreWhatWasReported | src/slack_runtests/store/postgres_backend.py:438-451 | a committed result is the whole outcome of one report, from a runner that claimed the row and has held it in every committed table since |
| InterleavedColumns.NewRowsAreWhatWasInserted | src/slack_runtests/store/postgres_backend.py:353-373 | a row appears only by the commit of an insert answered accepted, with that insert's columns |
| InterleavedAlone.LoneCallsAreSerial | src/slack_runtests/store/postgres_backend.py:428-505 | a start, result, mark, heartbeat or reap nobody interrupts leaves the serial store's next table |
| InterleavedAlone.LoneClaimIsSerial | src/slack_runtests/store/postgres_backend.py:375-426 | whatever the serial claim may hand out and leave, a claim nobody interrupts may |
| InterleavedAlone.RollingBackUndoes | src/slack_runtests/store/postgres_backend.py:309-505 | any open transaction may be rolled back, releasing its locks, with nothing it did ever seen |
| InterleavedCaps.OneInsertAtATime | src/slack_runtests/store/postgres_backend.py:654-657 | the enqueue lock lets at most one dispatched insert stand between its count and its end |
| InterleavedCaps.OneClaimAtATime | src/slack_runtests/store/postgres_backend.py:381-385 | with a running cap the claim lock lets at most one claim be past its start |
| InterleavedCaps.RunningCapUnderInterleaving | src/slack_runtests/store/postgres_backend.py:309-426 | in every interleaving a channel's busy rows never exceed R + 1, and never R when only claims or only dispatches start work |
| InterleavedAnswers.CapsHoldOverCommittedRows | src/slack_runtests/store/postgres_backend.py:309-426 | in every interleaving queued, claimed and running rows of a pair keep to the per-job cap, and claimed and running rows of a channel to R, or R + 1 when both paths start work |
| InterleavedAnswers.AtCapacityExactly | src/slack_runtests/store/postgres_backend.py:325-332 | a completed insert is told the job is at capacity if and only if its one count found exactly as many queued, claimed and running rows as the cap |
| InterleavedAnswers.ChannelFullExactly | src/slack_runtests/store/postgres_backend.py:338-350 | and that the channel is busy, or its queue full, if and only if its one count of the channel found that |
| InterleavedAnswers.RefusalsHaveCounted | src/slack_runtests/store/postgres_backend.py:325-350 | no refusal at a cap is ever made without that count |
| InterleavedTight.LoneInsertIsSerial | src/slack_runtests/store/postgres_backend.py:309-373 | an insert transaction nobody interrupts gives the serial store's answer and next table, whatever else is open |
| InterleavedTight.RunningCapIsOutByOne | src/slack_runtests/store/postgres_backend.py:155-157 | for every running cap R, whatever the other caps, an interleaving that ends with R + 1 busy rows of one channel |
| InterleavedTight.RunningCapIsKeptExactly | src/slack_runtests/store/postgres_backend.py:155-157 | the running cap is kept in every interleaving if and only if work is started in one way only, by dispatches or by claims |
| InterleavedIds.InsertsAreIdempotent | src/slack_runtests/store/postgres_backend.py:353-373 | under any caps and interleaving at most one insert of an identifier is accepted, exactly one once any is answered accepted or duplicate |
| InterleavedIds.AcceptanceIsFinal | src/slack_runtests/store/postgres_backend.py:353-373 | the accepted insert stays the only accepted one |
| InterleavedIds.NoCapsNoRefusals | src/slack_runtests/store/postgres_backend.py:314-350 | with every cap off a completed insert is answered accepted or duplicate |
| InterleavedIds.HandOutsAreCounted | src/slack_runtests/store/postgres_backend.py:387-418 | committed claims of a job equal its attempts and never exceed the limit, in every interleaving |
| Lease.NoTwoRunnersExecuteOneJob | test-server/test_server/agent.py:132-312 | if the lease outlasts the silence, no two steady runners are ever executing one job, whatever is lost, late or orphaned |
| Lease.FirstResultIsAccepted | test-server/test_server/agent.py:222-236 | a steady runner's first result to reach the store is recorded, however late |
| Lease.ShorterLeasesAreNotEnough | test-server/test_server/agent.py:239-252 | for every protocol whose lease is shorter, a story that ends with two steady runners executing one job |
| Lease.LeaseConditionIsExact | edge/edge_server/app.py:629-646 | with a second attempt and two steady runners, mutual exclusion in every story if and only if (losses + 1) * gap + lag <= lease |
| Lease.StoryKeepsInv | test-server/test_server/agent.py:239-252 | in every story a steady runner holds whatever it is executing or has not reported, under a lease that lasts to its next landing heartbeat |
| Lease.FreshRowStays | src/slack_runtests/store/sqlite_backend.py:412-493 | a row held under a live lease leaves its holder only by the holder's own result |
| Stories.RunnersDoWhatTheirMovesSay | test-server/test_server/agent.py:132-312 | what a runner is doing at any time follows from its claims, replies, posts and moves on |
| Stories.AnyCallMayLand | edge/edge_server/app.py:629-646 | nothing is assumed of callers: any call of a joined runner or of the edge, heard or not, may come next in any story |
| Stories.TimeGoesOn | test-server/test_server/agent.py:239-252 | what is asked of steady runners can be kept for ever: any story can go on for any time |
| EdgeRuns.DispatchedAtMostOnce | edge/edge_server/app.py:349-397 | however often Slack retries, GitHub is asked for a run at most once |
| EdgeRuns.NotDispatchedExactly | edge/edge_server/app.py:512-544 | a run's row says not dispatched if and only if GitHub refused it and after that a mark for it reached the store; otherwise it is as inserted, running |
| EdgeRuns.AcceptedDispatchesStand | edge/edge_server/app.py:528-532 | a run GitHub took is never marked: its row is as inserted in every later state |
| EdgeRuns.MarksFollowRefusals | edge/edge_server/app.py:530-538 | a mark is tried only after GitHub refused that run |
| EdgeRuns.PromisesAreKept | edge/edge_server/app.py:380-397 | unless the process restarts, a run put on record is dispatched or still to be |
| EdgeRuns.RefusalsAreTried | edge/edge_server/app.py:534-544 | unless the process restarts, a refusal is put to the store or still to be |
| EdgeRuns.LandedMarksApply | edge/edge_server/app.py:537-541 | a mark that reaches the store always applies |
| EdgeRuns.LostMarksStayLost | edge/edge_server/app.py:543-544 | a mark the store was too busy for, or a restart before the mark or the dispatch itself, leaves the run on record as running in every later state |
| EdgeRuns.EveryEndingIsPossible | edge/edge_server/app.py:528-544 | under any configuration a story for each ending: gone through, refused and recorded, refused with the store too busy, cut off by a restart |
| Agent.SafeResult | test-server/test_server/agent.py:222-236 | whatever else the store is asked between the tries, the runner hears that its result counted exactly when a try got through while its claim stood and that reply came back; it stops at the first such try |
| Agent.OneTryCounts | test-server/test_server/agent.py:222-236 | at most one try is in time; the row then says what it reported for good, and the runner knows exactly when that one reply comes back |
| Agent.RefusalsAreFinalExactly | test-server/test_server/agent.py:229-235 | a result refused to a runner that once had the job is refused ever after, in every run, if and only if a job gets one attempt only |
| Agent.ResendingIsHarmless | src/slack_runtests/store/sqlite_backend.py:427-434 | a result already answered changes nothing when sent again, and is refused |
| JobDefs.JobDefStore.Save | src/slack_runtests/store/sqlite_backend.py:538-583 | create, update or refuse, by the trigger index; created_at survives an update |
| JobDefs.JobDefStore.Lookup | src/slack_runtests/store/sqlite_backend.py:592-599 | finds the definition with exactly the trigger, which is unique |
| JobDefs.TriggersStayUnique | src/slack_runtests/store/sqlite_backend.py:110-111 | over any run of saves and deletes no two definitions share a trigger |
| JobDefs.RefusalsChangeNothing | src/slack_runtests/store/sqlite_backend.py:572-583 | a save is refused if and only if lookup finds another definition under the trigger, and then nothing changes |
| JobDefs.SavesAreFoundAsSaved | src/slack_runtests/store/sqlite_backend.py:538-583 | after a save that is taken its trigger finds every field as saved, stamped with its time; created exactly when new; every other definition is as before |
| JobDefs.LookupFindsTheLastSave | src/slack_runtests/store/sqlite_backend.py:592-599 | until it is saved again or deleted, a lookup of its trigger finds the definition as last saved |
| JobDefs.ValidDefsExactly | src/slack_runtests/store/base.py:357-405 | a definition is let in if and only if every part is there, both choices are known, and every field fits |
| JobDefs.MovingFreesTheOldTrigger | src/slack_runtests/store/sqlite_backend.py:558-567 | after a definition moves, its old trigger finds nothing and can be taken |
| JobDefs.DeletingFreesTheTrigger | src/slack_runtests/store/sqlite_backend.py:606-609 | deleting takes away what the definition's own trigger finds and nothing else, frees that trigger, and does nothing for an unknown id |
| JobDefs.CreationTimeIsKept | src/slack_runtests/store/sqlite_backend.py:542-548 | created_at stays that of the first save through any updates |
| Suggestions.NearMissesAreOneTokenAway | src/slack_runtests/store/base.py:408-428 | exactly the listed definitions one token away, each as often as listed, ordered by name |
| Suggestions.NearMissesWouldBeFound | src/slack_runtests/store/base.py:408-428 | after a failed lookup a definition is a near miss if and only if correcting one token would have found it, and is one once |
| Suggestions.SuggestionsAreCompleteExactly | edge/edge_server/app.py:318-338 | every definition one corrected token would have found is listed if and only if there are at most five; nothing else is listed, and of more the first five by name |
| Suggestions.TheSixthIsLeftOut | edge/edge_server/app.py:333-338 | six definitions and a command for which the sixth is not listed |
| Ordering.SortIsStable | src/slack_runtests/store/base.py:428-428 | suggestions with the same name keep the order they were listed in |
| Ordering.SortSorts | src/slack_runtests/store/base.py:428-428 | the suggestions come out in name order with none lost or added |
| Ordering.AtMostIsLexicographic | src/slack_runtests/store/base.py:428-428 | names are compared as Python compares strings: by prefix, or at the first differing code point |
| Labels.LabelsRoundTripExactly | src/slack_runtests/store/sqlite_backend.py:273-273 | the labels read back are those enrolled if and only if each is non-empty and comma-free |
| Labels.RoutingAgrees | edge/edge_server/app.py:443-444 | a runner the edge counts as able to take a job is exactly one whose claim admits it, whatever is stored |
| Labels.SplitUndoesJoin | edge/edge_server/app.py:670-670 | splitting at commas gives back comma-free labels that were joined |

## Left out

- Database engines, drivers, pools, WAL set-up and migrations; a busy store is a call that changes nothing, or a transaction rolled back.
- The Postgres methods other than claim and reap as serial code: their statements are the SQLite ones, and they appear as the updates of the interleavings.
- Which of several candidates an interleaved Postgres claim takes, and which matching rows an interleaved UPDATE reaches: the model allows any, so oldest-first is proved for serial claims only.
- Concurrent saves of definitions on Postgres: uniqueness there is the index itself.
- Parsing of commands, request signatures, enrolment checks, allowlists, startup and configuration reading.
- Slack messages, the GitHub call, running pytest and reading its report: outcomes are arguments.
- The edge's long poll and the runner's retry back-off: each poll is one claim, each wait lets time pass.
- History listings, counts, and the online/offline view of runners.
- The texts of refusals and replies; a validation message for a definition is abbreviated.
- The order Postgres or SQLite lists definitions in; suggestions are proved for any listing.
