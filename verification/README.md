# TPUSwarm: the durable scheduling core

TPUSwarm schedules logical tasks onto SkyPilot managed jobs. This project models the part
that has to survive crashes and proves what it guarantees: the transactional store (tasks,
admission policy, event log, checkpoints, barriers, leadership), the controller that adopts,
observes, reclaims and launches jobs, and the engine that drives event-sourced workflows.

`dafny verify dfyconfig.toml` checks all of it.

## Layout

The store's tables are one value, `Tables.Db`, and every store method is a function on that
value that either yields the new tables or an error and no change (a rolled-back
transaction). `Tables.Apply` runs any transaction.

| file | content |
|---|---|
| `types.dfy`, `order.dfy` | records and enums; the admission order and sorting by it |
| `admission.dfy`, `limits.dfy` | `reserve_submissions`: counts, order, work conservation, composition; policy bounds |
| `tables.dfy`, `integrity.dfy` | every transaction; what all of them keep; runs of transactions |
| `reservation.dfy`, `effects.dfy`, `workflow_effects.dfy` | what each transaction leaves, column by column, told without the functions of the model |
| `checkpoints.dfy`, `barriers.dfy` | confluent publication; barriers that stay backed and increase |
| `lifecycle.dfy`, `terminal.dfy` | rows and event log under the transactions a controller issues; when the store overwrites a terminal task |
| `static.dfy`, `static_runs.dfy` | the built-in workflow handler |
| `machine.dfy`, `protocol.dfy`, `verdicts.dfy` | controller, clients and job queue as a state machine with crashes; its safety |
| `folding.dfy`, `interleave.dfy` | engines interleaving on a workflow: saved state is a fold of the log; the engine's code is such moves |
| `outcomes.dfy`, `submissions.dfy` | what the engine's two calls leave, told by the handler's answers and the children |
| `passes.dfy` | what a pass makes of every task, told by the listing and the launches |
| `crash.dfy`, `crash_points.dfy` | crashes of `reconcile`, in its loop and behind its save, are harmless |
| `lease.dfy` | leadership among any number of contenders |
| `store.dfy`, `engine.dfy`, `reach.dfy`, `controller.dfy` | the classes in their imperative form, proved against the functions and the machine |

The classes `SwarmStore`, `WorkflowEngine` and `TPUSwarmController` have the loops and the
field updates of the source. A `SwarmStore` method ensures that the new tables are those of
its function; since `Integrity.ApplyKeeps` holds of every such function, the tables stay
intact, and the effect lemmas say of each function, by columns, what it leaves. `ReconcileOnce` ensures that it leads, by steps of the machine, from its start to its
end, and `WorkflowEngine.Reconcile` is a sequence of the moves of `folding.dfy`, so the
theorems over all runs hold of the controller's and the engine's code.

## Assumptions

- One live controller at a time (as the project's documentation asks for); it may crash
  between any two store transactions or calls of the executor, and start again. Clients'
  transactions may come in between at any point of the machine. Leadership is modelled
  separately, with many contenders, because store writes do not look at the fence token.
- Executor: a listing names only jobs that exist; a job that no task is bound to yet is
  listed once the grace period, counted from the reservation it was launched for, is over; a
  launch that raises `BackendUnavailableError` created no job; job ids are not reused; jobs
  launched by others have names that no task has. A crash during a launch may leave a job or
  none.
- A task handler's job specification carries the task's own executor name
  (src/tpuswarm/builtin.py:95-96). The executor name is an arbitrary function of the task id:
  nothing is assumed of its digest, and the UNIQUE column refuses a collision.
- JSON documents are opaque values that survive storage; the payload, state and result of the
  built-in workflow handler are typed. Timestamps are reals and need not be monotone, except
  for the clock of the leadership model.
- Priorities are the five members of the enum: a stored value outside it cannot be read back
  (src/tpuswarm/store.py:212).
- `str.upper` is taken on ASCII letters when an executor status is read, `str.strip` on ASCII whitespace.

## Where the code does less than one may expect

- A cancelled child neither completes nor fails a static workflow (`StaticHandler.VerdictExact`).
  Once all children are terminal, some cancelled and none failed, the workflow is neither
  SUCCEEDED nor FAILED in any later state with these children (`Verdicts.CancelledNeverFinishes`).
- Default child ids are injective within a workflow, for all keys and generations, but not
  across workflows: workflow `a` with key `b-c` and workflow `a-b` with key `c` share theirs.
  `StaticHandler.DefaultTaskIdCollides` says exactly when ids coincide.
- `observe_job` and `fail_task` look at no status, so the store itself lets a task that
  succeeded run again (`Terminal.TerminalOverwritten`); `Terminal.TerminalRowKeptExactly` says
  exactly which transactions rewrite a terminal row, `Terminal.TerminalKeptExactly` which change
  its status. Terminal tasks are absorbing under the controller's own guards
  (`Machine.StepIsLawful`, `Protocol.TerminalForever`).

## Model

| member | source | states |
|---|---|---|
| `RowOrder.SortedCorrect` | src/tpuswarm/store.py:410-414 | the pending rows are listed each once: the priorities in the order of their names, the older first, at the same age the smaller id in code-point order |
| `RowOrder.SortedUnique` | src/tpuswarm/store.py:410-414 | that listing is the only ordered one, so admission is deterministic |
| `Admission.AdmitSelects` | src/tpuswarm/store.py:415-440 | a batch stamps distinct pending rows in place as SUBMITTING and changes no other row |
| `Admission.AdmitLeaves` | src/tpuswarm/store.py:415-440 | the rows not admitted are exactly those still pending, in order |
| `Admission.AdmitsAtMostLimit` | src/tpuswarm/store.py:417-418 | a batch never exceeds its limit |
| `Admission.AdmitCounts` | src/tpuswarm/store.py:398-440 | when the limit is not reached, a class with policy (T, R), c slots occupied, r recovery and o ordinary candidates admits exactly min(r, max(0, T-c)) recoveries and min(o, max(0, T-R-c-a)) ordinary tasks |
| `Admission.AdmitUnlimitedClass` | src/tpuswarm/store.py:420-428 | a class without a policy admits everything pending |
| `Admission.AdmitsPrefixOfClass` | src/tpuswarm/store.py:410-439 | no priority inversion: within each class the admitted tasks are a prefix of the candidates, even when the limit cuts the batch |
| `Admission.AdmitConservesWork` | src/tpuswarm/store.py:416-440 | below the limit, a task is left pending only if its class is at or above its capacity |
| `Admission.ReserveLeavesPending` | src/tpuswarm/store.py:410-440 | what a call leaves is what the next call considers |
| `Admission.ReserveComposes` | src/tpuswarm/store.py:379-440 | reserving a and then b at one time admits the same sequence and leaves the same tables as reserving a+b |
| `Admission.ReserveFixpoint` | src/tpuswarm/store.py:379-440 | a call below its limit is a fixpoint: any further call admits nothing |
| `Reservation.ReserveStamps` | src/tpuswarm/store.py:415-440 | the batch is the rows it changed, each PENDING before and SUBMITTING since now, every other column kept; at most `limit` |
| `Reservation.SelectedInOrder` | src/tpuswarm/store.py:410-440 | the batch itself is in that order |
| `Reservation.EarlierFirst` | src/tpuswarm/store.py:410-440 | of two pending tasks of a class, the one of the higher priority, or older, or of the smaller id, is ahead in the batch if the other is in it |
| `Reservation.ReserveFills` | src/tpuswarm/store.py:398-440 | on the tables before and after, below the limit: of r pending recoveries (the two highest priorities) and o others, a = min(r, max(0, T-c)) and min(o, max(0, T-R-c-a)) become SUBMITTING, with c tasks SUBMITTING, SUBMITTED or RUNNING; without a policy all |
| `Limits.AdmitNeverExceeds` | src/tpuswarm/store.py:422-434 | a batch raises the slots of a class never above T, those of ordinary tasks never above T-R, even after the policy shrank |
| `Limits.WithinStep` | src/tpuswarm/store.py:422-434 | a class within its policy stays within it under every lawful transaction |
| `Limits.ReserveServesRecovery` | src/tpuswarm/store.py:422-434 | within its policy a class admits at least min(r, max(0, R - active recoveries)) recoveries |
| `Integrity.ApplyKeeps` | src/tpuswarm/store.py:40-150 | every transaction keeps all UNIQUE columns, references, event ids and checkpoint heads right, loses no task, keeps recorded checkpoints and commits, and leaves the tables alone that are not its own (`Integrity.Scope`) |
| `Integrity.RunKeeps` | src/tpuswarm/store.py:176-187 | the same between any two states of any run of transactions, failed ones rolled back |
| `Integrity.UniqueForever` | src/tpuswarm/store.py:258-324 | from an empty store no two tasks ever share an id, a non-null key, an executor name, a job id or a workflow slot |
| `Integrity.SubmitTaskExact` | src/tpuswarm/store.py:258-324 | the four outcomes of a submission: the task under the key, else under the id, else a refused name, else the spec as submitted, PENDING since now and with every other column empty |
| `Integrity.ResubmissionReturnsStored` | src/tpuswarm/store.py:294-324 | a matching resubmission, any number of transactions later, returns the stored task and changes nothing |
| `Integrity.SubmitWorkflowAtomic` | src/tpuswarm/store.py:688-743 | a failing submission leaves nothing behind; a successful one places every component with a stored task |
| `Integrity.GenerationsMonotone` | src/tpuswarm/store.py:777-828 | no component is ever lost or falls back to an older generation, and its task and flag change only with a newer one |
| `Checkpoints.PublishedRows` | src/tpuswarm/store.py:646-667 | conflict-free publications of any tasks leave exactly the rows of the published set, only those of unknown tasks being refused |
| `Checkpoints.PublicationConfluent` | src/tpuswarm/store.py:646-681 | any order and any duplication of a conflict-free set of (task, sequence, URI, metadata) publications leaves the same rows and the same heads |
| `Checkpoints.CheckpointsForever` | src/tpuswarm/store.py:646-681 | a (task, sequence) never changes its URI and the head is the greatest sequence recorded, in every run |
| `Barriers.CommitWasBacked` | src/tpuswarm/store.py:946-1000 | each entry of a committed manifest is a checkpoint, URI and metadata, at the barrier's sequence, of a task that held that required component |
| `Barriers.NewCommitComplete` | src/tpuswarm/store.py:953-975 | the manifest a transaction commits has an entry for exactly the components required at that moment |
| `Barriers.BarriersStayBacked` | src/tpuswarm/store.py:931-1025 | a committed barrier never changes, and its entries stay recorded, across replacements and later checkpoints |
| `Barriers.CommitRepeats` | src/tpuswarm/store.py:977-1025 | every successful repetition of a commit returns the value of the first |
| `Barriers.CommitsAreAnnounced` | src/tpuswarm/store.py:987-1011 | commits and `BarrierCommitted` events of a workflow are in bijection |
| `Barriers.BarriersIncrease` | src/tpuswarm/store.py:946-1011 | while a required component keeps its task, barriers are committed in strictly increasing order and never beyond its head |
| `Barriers.LatestIsLastAnnounced` | src/tpuswarm/store.py:1027-1043 | so the greatest committed barrier is the one announced last |
| `Lifecycle.LawfulStep` | src/tpuswarm/store.py:442-628 | under the controller's guards every task takes a legal step and its columns agree with its status |
| `Lifecycle.LogStep` | src/tpuswarm/store.py:498-628 | and the event log keeps agreeing with the task table |
| `Effects.StatusMeans` | src/tpuswarm/store.py:554-570 | which executor statuses stand for which task status, letter by letter in either case |
| `Effects.BindEffect` | src/tpuswarm/store.py:442-471 | reply, row and tables of a binding, and its two refusals |
| `Effects.ResetEffect` | src/tpuswarm/store.py:473-496 | of a reset |
| `Effects.FailEffect` | src/tpuswarm/store.py:498-552 | of a failure, with the event that it announces |
| `Effects.ObserveEffect` | src/tpuswarm/store.py:528-628 | of an observation: status, result, error, job, counts and times of the row, and the event announced for a new status |
| `Effects.CheckpointEffect` | src/tpuswarm/store.py:630-686 | of a publication, the head, and the refusal of another URI |
| `Effects.ReserveEffect` | src/tpuswarm/store.py:379-440 | a reservation writes the tasks table only, and that as Reservation says |
| `Effects.PolicyEffect` | src/tpuswarm/store.py:346-365 | a policy replaces the one of its class and nothing else |
| `WorkflowEffects.SubmitEffect` | src/tpuswarm/store.py:688-743 | an accepted workflow is stored as asked, and every component with its row and its child: a stored task that answers it, unchanged, or else its spec stored new |
| `WorkflowEffects.SubmitAccepts` | src/tpuswarm/store.py:688-743 | it is accepted if id, keys, names and slots of its children are free and differ |
| `WorkflowEffects.InsertStores` | src/tpuswarm/store.py:258-312 | an insertion finds a stored task under the key or the id and changes nothing, or stores the spec as a new row |
| `WorkflowEffects.ReplaceStale` | src/tpuswarm/store.py:786-800 | a replacement that is not newer answers with the present child |
| `WorkflowEffects.ReplaceNewer` | src/tpuswarm/store.py:801-828 | a newer one writes the component's row, keeping its creation time, and its child as above |
| `WorkflowEffects.ReplaceAccepts` | src/tpuswarm/store.py:777-828 | and is accepted if its child's id, key, name and slot are free |
| `WorkflowEffects.SaveEffect` | src/tpuswarm/store.py:852-872 | state and cursor are written together and nothing else |
| `WorkflowEffects.FinishEffect` | src/tpuswarm/store.py:874-929 | status, result, error and time of completion are written together and nothing else |
| `WorkflowEffects.CommitRefused` | src/tpuswarm/store.py:940-965 | a barrier is refused without its workflow or while a required component is not at it |
| `WorkflowEffects.CommitAgain` | src/tpuswarm/store.py:977-986 | a committed one is answered again for the same manifest and controller URI, and refused for others |
| `WorkflowEffects.CommitNew` | src/tpuswarm/store.py:966-1025 | a new one is stored with the newest checkpoints of exactly the required components, and announced |
| `Terminal.TerminalRowKeptExactly` | src/tpuswarm/store.py:498-628 | a terminal row stays as it is, but for its checkpoint head, iff the transaction neither fails the task nor observes it under a free job id (at any time but that of its completion) |
| `Terminal.TerminalKeptExactly` | src/tpuswarm/store.py:498-628 | a terminal task keeps its status iff the transaction neither fails a task that has not failed nor observes it, under a free job id, in another status |
| `Terminal.OneSucceededIntact` | src/tpuswarm/store.py:40-73 | a store with one SUCCEEDED task that meets all constraints |
| `Terminal.TerminalOverwritten` | src/tpuswarm/store.py:572-628 | an observation turns that task into RUNNING |
| `Machine.SyncActionSound` | src/tpuswarm/controller.py:93-120 | an adopted or observed job is the task's own, and a task is reclaimed only if it has no job |
| `Machine.StepIsLawful` | src/tpuswarm/controller.py:93-156 | the controller fails only SUBMITTING tasks and observes only SUBMITTED or RUNNING ones, guards that the store itself does not have |
| `Machine.StepOk` | src/tpuswarm/controller.py:68-165 | every step of controller, client or executor, and every crash, keeps the protocol's invariant |
| `Machine.StepCompletes` | src/tpuswarm/controller.py:93-156 | no transaction of a pass is ever refused: only a crash throws a pass back to its start |
| `Machine.EnvironmentIsFree` | src/tpuswarm/controller.py:68-165 | clients' transactions, crashes and foreign jobs are possible in every state, and a crash behind a launch leaves a job that no row knows of |
| `Protocol.OneJobPerTask` | src/tpuswarm/controller.py:89-156 | in every run with crashes and interleaved clients each task has at most one job, bound ids belong to a job of that name, no two tasks share one |
| `Protocol.TerminalForever` | src/tpuswarm/controller.py:116-120 | a terminal task never changes again, but for its checkpoint head |
| `Protocol.LogAgreesForever` | src/tpuswarm/store.py:498-628 | RUNNING or terminal equals the last event, SUBMITTED is none or last, PENDING and SUBMITTING none, neighbours differ, a terminal event is last |
| `Protocol.WithinForever` | src/tpuswarm/store.py:422-434 | under a policy fixed since before the first admission active tasks never exceed T nor ordinary ones T-R |
| `Protocol.RecoveryIsServed` | src/tpuswarm/store.py:422-434 | hence the reserve always serves pending recoveries |
| `Protocol.PassReclaims` | src/tpuswarm/controller.py:93-156 | when a pass has completed, every task still SUBMITTING was reserved less than the grace period before |
| `StaticHandler.DefaultTaskIdCollides` | src/tpuswarm/builtin.py:156-159 | default child ids coincide exactly when generation and workflow-key concatenation do; within a workflow never for different slots |
| `StaticHandler.DefaultTaskIdAcrossWorkflows` | src/tpuswarm/builtin.py:156-159 | two workflows with the same default child id |
| `StaticHandler.SortedKeysCorrect` | src/tpuswarm/builtin.py:206 | sorting lists exactly the given keys, in strictly increasing code-point order |
| `StaticHandler.JoinExact` | src/tpuswarm/builtin.py:206 | the joined text of a list is that of its front, a comma and a blank, and its last key |
| `StaticHandler.VerdictExact` | src/tpuswarm/builtin.py:176-209 | a static workflow completes iff it has children and all succeeded, with their results, and fails iff some failed, with a reason naming the failed keys in order |
| `Verdicts.StaticVerdictsSound` | src/tpuswarm/handlers.py:228-236 | in every run SUCCEEDED means every child SUCCEEDED, FAILED means some child FAILED |
| `Verdicts.CancelledNeverFinishes` | src/tpuswarm/builtin.py:176-209 | with all children terminal, some cancelled and none failed, a static workflow never becomes SUCCEEDED or FAILED while its components have these tasks |
| `Verdicts.FinishedForever` | src/tpuswarm/handlers.py:208-210 | a finished workflow's row and its component rows never change again |
| `Folding.EventsSplit` | src/tpuswarm/store.py:830-850 | reading up to a cursor and then after it reads every event of the workflow once, in order |
| `Folding.EventsAfterExact` | src/tpuswarm/store.py:830-850 | what is read after a cursor is exactly the workflow's events with a greater id, each once, by id |
| `Folding.FoldIsTrace` | src/tpuswarm/handlers.py:212-216 | a fold is where the reducer ends, applied to one event after the other |
| `Folding.FoldOn` | src/tpuswarm/handlers.py:212-216 | catching up from a cursor gives the fold up to the new cursor and leaves nothing to read |
| `Folding.SavedStateIsFold` | src/tpuswarm/handlers.py:207-228 | with any engines interleaving the saved state is the fold of the reducer over exactly the events up to the saved cursor |
| `Folding.CursorAdvances` | src/tpuswarm/handlers.py:212-228 | one engine at a time never moves the cursor back |
| `Interleave.ReconciledPlays` | src/tpuswarm/handlers.py:207-236 | a call of the engine, finished or raising, is a sequence of those moves |
| `Interleave.CallContinues` | src/tpuswarm/handlers.py:207-236 | so a call continues any interleaving |
| `Interleave.EngineSavesFold` | src/tpuswarm/handlers.py:207-236 | and what it saves is the fold up to the saved cursor |
| `Crash.CrashHarmless` | src/tpuswarm/handlers.py:219-228 | for any handler with distinct keys, a crash after any prefix of the replacements and a rerun end as an uninterrupted run, up to timestamps |
| `Crash.CrashedByRounds` | src/tpuswarm/handlers.py:219-226 | the crash points of the loop: before the first round, and one round further each |
| `CrashPoints.CrashesHarmless` | src/tpuswarm/handlers.py:207-236 | the same to the end of the call and for any number of crashes, in the loop or between the save and the finish, for handlers whose verdicts (and, behind a save, wishes) ignore timestamps |
| `CrashPoints.CrashesAreTrace` | src/tpuswarm/handlers.py:207-236 | the tables behind any number of crashes are where one after the other leads |
| `StaticRuns.StaticCrashesHarmless` | src/tpuswarm/builtin.py:111-209 | so for static workflows with a valid payload |
| `StaticRuns.StatusIsLastKind` | src/tpuswarm/builtin.py:131-138 | the reducer's status of a component is the kind of its last event |
| `StaticRuns.LastBarrierIsLatest` | src/tpuswarm/builtin.py:131-141 | in every interleaving, when no event is left after the saved cursor, the last barrier in the saved state of a static workflow is the latest committed one |
| `Lease.OneLeader` | src/tpuswarm/store.py:1045-1101 | the latest leases of two controllers are never both strictly unexpired |
| `Lease.TokensRise` | src/tpuswarm/store.py:1061-1073 | fence tokens strictly increase over acquisitions |
| `Lease.OnlyNewestRenews` | src/tpuswarm/store.py:1085-1098 | exactly the holder of the newest token can renew, until its row expires |
| `Lease.AcquiresExactly` | src/tpuswarm/store.py:1045-1074 | who is granted the lease, until when and under which token, and that a refused contender changes nothing |
| `Lease.RenewsExactly` | src/tpuswarm/store.py:1076-1101 | who may renew, and until when |
| `Lease.LeaseStands` | src/tpuswarm/store.py:1045-1101 | while a lease is unexpired nobody but its holder changes the row |
| `Store.SwarmStore.InsertRow` | src/tpuswarm/store.py:258-312 | inserts or finds the row as `Tables.InsertTask` says, which `WorkflowEffects.InsertStores` tells by columns |
| `Store.SwarmStore.SubmitTask` | src/tpuswarm/store.py:314-324 | reply and tables are those of `Integrity.SubmitTaskExact` |
| `Store.SwarmStore.ListTasks` | src/tpuswarm/store.py:335-344 | every row once |
| `Store.SwarmStore.SetResourcePolicy` | src/tpuswarm/store.py:346-365 | upserts the policy |
| `Store.SwarmStore.CountActive` | src/tpuswarm/store.py:398-409 | the grouped counts are the true slot counts |
| `Store.SwarmStore.AdmitRow` | src/tpuswarm/store.py:419-439 | one turn admits the row and counts its slot exactly if its class has room, and otherwise changes nothing |
| `Store.SwarmStore.AdmitRows` | src/tpuswarm/store.py:415-440 | the loop with cached counters does what recounting before every row would do |
| `Store.SwarmStore.ReserveSubmissions` | src/tpuswarm/store.py:379-440 | tables and batch are those of the function that `Effects.ReserveEffect` and Reservation are about |
| `Store.SwarmStore.BindJob` | src/tpuswarm/store.py:442-471 | binds a SUBMITTING or SUBMITTED task, refuses any other and a job id in use |
| `Store.SwarmStore.ResetSubmission` | src/tpuswarm/store.py:473-496 | returns a SUBMITTING task to PENDING, refuses any other |
| `Store.SwarmStore.FailTask` | src/tpuswarm/store.py:498-526 | fails the task and announces it once |
| `Store.SwarmStore.AppendEvent` | src/tpuswarm/store.py:528-552 | appends under the next id, for workflow tasks only |
| `Store.SwarmStore.ObserveJob` | src/tpuswarm/store.py:572-628 | reply and tables are those of `Effects.ObserveEffect` |
| `Store.SwarmStore.RecordCheckpoint` | src/tpuswarm/store.py:630-686 | records a checkpoint once and advances the head, refuses another URI |
| `Store.SwarmStore.SubmitWorkflow` | src/tpuswarm/store.py:688-743 | all components or, rolled back, nothing |
| `Store.SwarmStore.GetWorkflowComponents` | src/tpuswarm/store.py:767-775 | the children by component key |
| `Store.SwarmStore.ReplaceComponent` | src/tpuswarm/store.py:777-828 | replaces by a newer generation only |
| `Store.SwarmStore.GetWorkflowEvents` | src/tpuswarm/store.py:830-850 | the workflow's events after the cursor, in order |
| `Store.SwarmStore.SaveWorkflowState` | src/tpuswarm/store.py:852-872 | writes state and cursor together |
| `Store.SwarmStore.FinishWorkflow` | src/tpuswarm/store.py:874-929 | writes status, result and error |
| `Store.SwarmStore.RequiredHeads` | src/tpuswarm/store.py:946-975 | finds whether every required head is at the barrier, and the manifest |
| `Store.SwarmStore.CommitBarrier` | src/tpuswarm/store.py:931-1025 | commits and announces once, repeats or refuses |
| `Store.SwarmStore.LatestBarrier` | src/tpuswarm/store.py:1027-1043 | the greatest committed barrier, if any |
| `Store.SwarmStore.AcquireLeadership` | src/tpuswarm/store.py:1045-1074 | grants the lease with the next token unless somebody else holds it |
| `Store.SwarmStore.RenewLeadership` | src/tpuswarm/store.py:1076-1101 | renews the holder's unexpired lease only |
| `Engine.SubmissionStartsFold` | src/tpuswarm/handlers.py:180-205 | a stored workflow's row is the fold of its handler over no events |
| `Engine.StaticSubmission` | src/tpuswarm/handlers.py:180-205 | what is handed to the store for a static workflow: a valid payload and one child per component, with the defaults for what the client left out |
| `Engine.SubmissionPlaces` | src/tpuswarm/handlers.py:180-205 | once stored, every component has its row and a task under the asked key or id, be it new or stored before |
| `Engine.WorkflowEngine.Submit` | src/tpuswarm/handlers.py:180-205 | validates, computes the initial components and stores all or nothing |
| `Submissions.SubmissionExact` | src/tpuswarm/handlers.py:180-205 | what the store is given and where the call raises before, by the handler's answers: validated payload, initial state, every component with its validated payload |
| `Submissions.SubmissionRaises` | src/tpuswarm/handlers.py:180-183 | an unknown kind or a refused payload raises |
| `Submissions.StaticValidates` | src/tpuswarm/builtin.py:114-126 | the built-in handler accepts a non-empty list of components with distinct non-empty keys |
| `Submissions.StaticDesires` | src/tpuswarm/builtin.py:143-174 | it asks for one child per component, column by column with the defaults and the default id, and raises exactly if one cannot be built |
| `Engine.WorkflowEngine.CatchUp` | src/tpuswarm/handlers.py:212-216 | the loop over new events computes the fold and the cursor |
| `Engine.WorkflowEngine.ReplaceOne` | src/tpuswarm/handlers.py:220-226 | one turn replaces exactly a wanted component, and says where it raises |
| `Engine.WorkflowEngine.ReplaceWanted` | src/tpuswarm/handlers.py:219-226 | the loop over desired components, including where it raises |
| `Engine.WorkflowEngine.Reconcile` | src/tpuswarm/handlers.py:207-236 | tables are those of `Engine.EngineRun` and it raises exactly where `Engine.Returns` fails; Outcomes says what that means for the workflow and its children |
| `Outcomes.CallEnds` | src/tpuswarm/handlers.py:207-236 | after a call that returns, state and cursor are those behind the last event read, and the workflow is SUCCEEDED with the handler's result, else FAILED with its reason, else ACTIVE as it was |
| `Outcomes.CallPlaces` | src/tpuswarm/handlers.py:217-226 | and every component asked for is there: a missing one of a newer generation stored, any other with its old row |
| `Outcomes.CallReturns` | src/tpuswarm/handlers.py:207-236 | a call returns if every task validates and the missing children differ from each other and from all that is stored |
| `Outcomes.CallFrame` | src/tpuswarm/handlers.py:207-236 | what no call touches, and that one that raises writes no workflow row |
| `Outcomes.StaticCallEnds` | src/tpuswarm/builtin.py:176-209 | after a call on a static workflow it is FAILED exactly if some child is FAILED, with those keys in the error, and SUCCEEDED exactly if all of at least one child are, with their results |
| `Outcomes.CrashBehindSave` | src/tpuswarm/handlers.py:228-235 | the crash point behind the save differs from the end of the call in the workflow's row only |
| `Reach.EngineReaches` | src/tpuswarm/controller.py:122-130 | an engine call, finished or raising, is a piece of a run of the machine |
| `Reach.BuiltInHandlesStatic` | src/tpuswarm/builtin.py:212-214 | once the built-in handlers are registered, static workflows are judged as the machine assumes and other kinds are unchanged; a second registration is refused |
| `Reach.NoPassRaises` | src/tpuswarm/controller.py:68-165 | from every good state, so from every state of an execution, no pass can raise |
| `Controller.TPUSwarmController.Start` | src/tpuswarm/controller.py:57-66 | keeps an unexpired lease, otherwise asks for one |
| `Controller.TPUSwarmController.Lead` | src/tpuswarm/controller.py:69-81 | row and lease are those of acquiring, if there is no lease, and renewing |
| `Lease.LedIsSteps` | src/tpuswarm/controller.py:69-81 | which are steps of the contention |
| `Controller.TPUSwarmController.AdoptJob` | src/tpuswarm/controller.py:96-120 | binds the job found under the task's name by the machine's steps, and the task then shows the job listed with that id |
| `Controller.TPUSwarmController.LookAt` | src/tpuswarm/controller.py:116-120 | a bound task that is not finished shows the job listed with its id, else with its name: status, executor status, recoveries, result, error; any other task is left alone |
| `Controller.TPUSwarmController.SyncTask` | src/tpuswarm/controller.py:93-120 | the body of the loop takes the machine's steps, and the task meets its fate: adopted, given back after the grace period, or looked at |
| `Controller.TPUSwarmController.SyncAll` | src/tpuswarm/controller.py:89-120 | so does the loop, for every task of the table, over dictionaries in which the last job listed wins |
| `Passes.ByNameExact` | src/tpuswarm/controller.py:91 | the job under a name is the last one listed with it |
| `Passes.ByIdExact` | src/tpuswarm/controller.py:90 | and under an id likewise |
| `Controller.TPUSwarmController.SweepWorkflows` | src/tpuswarm/controller.py:122-130 | the engine is called once for every workflow active at the start of the sweep, in turn and whether or not earlier calls raise, and the sweep is a piece of a run of the controller's own steps |
| `Controller.SweepIsTrace` | src/tpuswarm/controller.py:122-130 | the tables of a sweep are where one engine call for each workflow after the other leads |
| `Controller.TPUSwarmController.Launch` | src/tpuswarm/controller.py:136-156 | one task is failed without a job specification, given back without an executor, and else bound to its new job, by the machine's steps |
| `Controller.TPUSwarmController.Record` | src/tpuswarm/controller.py:150-156 | the binding of a job just launched |
| `Controller.TPUSwarmController.LaunchAll` | src/tpuswarm/controller.py:132-156 | so is every task up to the first without an executor; those behind it stay SUBMITTING and all others as they were |
| `Controller.TPUSwarmController.SweepAndLaunch` | src/tpuswarm/controller.py:122-156 | the sweep is followed by one reservation of the batch size and the launches of what it selected |
| `Controller.TPUSwarmController.ReconcileOnce` | src/tpuswarm/controller.py:68-165 | a pass is a run of the controller's own steps from idle to the end of a pass, or back to idle only where a transaction raises; in a completed one every task met its fate in the loop, the engine was called for every active workflow, and every task reserved met its fate in the launches; without lease or executor it changes no table |
| `Controller.CompletedPassReclaims` | src/tpuswarm/controller.py:68-165 | after a completed pass no SUBMITTING task is older than the grace period |

## Left out

- The SkyPilot SDK (src/tpuswarm/backend.py): replaced by the job queue of `machine.dfy` with the assumptions above.
- HTTP, authentication, command line and client (src/tpuswarm/api.py, src/tpuswarm/client.py, src/tpuswarm/__main__.py).
- SQLite: tables are maps with the schema's constraints, a transaction is one atomic step, and the next event id is the last one plus one.
- JSON encoding and the record conversions of src/tpuswarm/serialization.py: they would add only easy members.
- The SHA-256 digest of `executor_name` and the regular expression before it.
- `CommandAutoResumable.managed_job` and `ManagedJobSpec`: string assembly for a foreign library; what matters here is the job's name.
- Exceptions raised by a handler's `reduce`, `completion_result` or `failure_reason`, or part-way through its `desired_components` (raising at once is modelled): the first comes before anything is written, the others in the loop or behind the save, so each leaves the tables as a crash of the call at that point does (`Crash.CrashHarmless`, `CrashPoints.CrashesHarmless`).
- Registration of task handlers, `run_forever`, asyncio and logging.
- `consistency_mode` and `recovery_priority`: stored, and consulted by no modelled decision.
- The row order of `list_tasks` and `list_workflows`: left open, so the theorems hold for any order.
- The id lists in `ReconcileResult`: only whether the pass led, reached the executor and completed.
- Clients' transactions inside a single call of `Controller.TPUSwarmController.ReconcileOnce`: the method runs without interruption; interleavings and crashes are steps of the machine.
- Engine.WorkflowEngine.Reconcile: reads the clock once per call, because no result depends on the difference but timestamps (`Crash.TimesAlike`).
