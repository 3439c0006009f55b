// The controller against the executor's job queue, as a state machine: one live
// controller that may crash between any two steps and start again, clients whose
// transactions come in between, and jobs that become visible some time after they were
// launched. Every transaction and every call to the executor is one step.
//
// Assumed of the executor: a listing names only jobs that exist, and it names every job
// that no task is bound to yet once the grace period, counted from the reservation it was
// launched for, is over; a launch that raises created no job; jobs that others launch
// carry names that no task has.

module Machine {
  import opened Types
  import opened RowOrder
  import opened Admission
  import opened Tables
  import opened Integrity
  import opened Lifecycle
  import opened StaticHandler

  /** A job of the queue; `owner` is the task it was launched for and `stamp` when that was reserved. */
  datatype Job = Job(name: Text, owner: Option<TaskId>, stamp: Time)

  type Jobs = map<JobId, Job>

  type Listing = seq<ExecutorJob>

  /** Where `reconcile_once` is; the fields are its local variables. */
  datatype Phase =
    | Idle
    | Listed(now: Time, listing: Listing)
    | Syncing(now: Time, listing: Listing, todo: seq<TaskRow>)
    | Sweeping(now: Time)
    | InEngine(now: Time, wid: WorkflowId)
    | Judging(now: Time, wid: WorkflowId)
    | Finishing(now: Time, wid: WorkflowId, verdict: Verdict)
    | Launching(now: Time, todo: seq<TaskRow>)
    | Launched(now: Time, row: TaskRow, job: ExecutorJob, todo: seq<TaskRow>)
    | Finished(now: Time)

  datatype Sys = Sys(db: Db, jobs: Jobs, phase: Phase)

  /** `by_name` and `by_id` are dictionaries, so the last job listed wins. */
  function ByName(listing: Listing, name: Text): Option<ExecutorJob> {
    if listing == [] then None
    else if listing[|listing| - 1].name == name then Some(listing[|listing| - 1])
    else ByName(listing[..|listing| - 1], name)
  }

  function ById(listing: Listing, id: JobId): Option<ExecutorJob> {
    if listing == [] then None
    else if listing[|listing| - 1].jobId == id then Some(listing[|listing| - 1])
    else ById(listing[..|listing| - 1], id)
  }

  const LOST := Text("no matching SkyPilot job found after submission grace")

  datatype SyncAction = Skip | Adopt(job: ExecutorJob) | Reclaim | Look(job: ExecutorJob)

  /** What the loop over `list_tasks` does with a row. After an adoption it looks at the row again. */
  function SyncActionOf(grace: Time, now: Time, listing: Listing, row: TaskRow): SyncAction {
    var named := ByName(listing, row.jobName);
    if row.status.Submitting? && named.Some? then Adopt(named.value)
    else if row.status.Submitting? && row.startedAt.Some? && now - row.startedAt.value >= grace then Reclaim
    else if row.jobId.Some? && !row.status.IsTerminal() then
      var known := ById(listing, row.jobId.value);
      if known.Some? then Look(known.value) else if named.Some? then Look(named.value) else Skip
    else Skip
  }

  datatype Step =
    | ClientCalls(op: Op, at: Time)
    | ForeignJob(jobId: JobId, name: Text)
    | Crashes
    | ListsJobs(now: Time, listing: Listing)
    | ListsTasks(rows: seq<TaskRow>)
    | SyncsTask
    | EndsSync
    | PicksWorkflow(wid: WorkflowId)
    | EngineReplaces(component: ComponentSpec, at: Time)
    | EngineSaves(state: State, cursor: nat, at: Time)
    | EngineJudges(verdict: Verdict)
    | EngineFinishes(at: Time)
    | EngineRaises
    | ReservesTasks(limit: int)
    | RejectsSpec(reason: Text)
    | LaunchesJob(jobId: JobId, executorStatus: Text)
    | LaunchFails(reason: Text)
    | RecordsJob
    | EndsPass

  /** The transactions of the service's clients. */
  predicate IsClientOp(op: Op) {
    op.OpSubmitTask? || op.OpSetPolicy? || op.OpCheckpoint? || op.OpSubmitWorkflow? || op.OpCommit?
  }

  ghost predicate ListsJob(listing: Listing, id: JobId) {
    exists i | 0 <= i < |listing| :: listing[i].jobId == id
  }

  /** The task the job was launched for has no job id yet. */
  ghost predicate Unbound(tasks: TaskTable, job: Job) {
    job.owner.Some? && job.owner.value in tasks && tasks[job.owner.value].jobId.None?
  }

  ghost predicate Shows(jobs: Jobs, listing: Listing) {
    forall i | 0 <= i < |listing| :: listing[i].jobId in jobs && jobs[listing[i].jobId].name == listing[i].name
  }

  /** The visibility assumption. */
  ghost predicate Timely(grace: Time, now: Time, tasks: TaskTable, jobs: Jobs, listing: Listing) {
    forall j | j in jobs && Unbound(tasks, jobs[j]) && jobs[j].stamp + grace <= now :: ListsJob(listing, j)
  }

  ghost predicate NotATaskName(name: Naming, n: Text) {
    forall id :: name.Of(id) != n
  }

  /** Which steps the machine can take; for the engine's verdicts on static workflows see `StaticVerdict`. */
  ghost predicate Enabled(name: Naming, grace: Time, s: Sys, step: Step) {
    match step
    case ClientCalls(op, _) => IsClientOp(op)
    case ForeignJob(j, n) => j !in s.jobs && NotATaskName(name, n)
    case Crashes => true
    case ListsJobs(now, listing) =>
      (s.phase.Idle? || s.phase.Finished?) && Shows(s.jobs, listing) && Timely(grace, now, s.db.tasks, s.jobs, listing)
    case ListsTasks(rows) => s.phase.Listed? && ListsTable(s.db.tasks, rows)
    case SyncsTask => s.phase.Syncing? && s.phase.todo != []
    case EndsSync => s.phase.Syncing? && s.phase.todo == []
    case PicksWorkflow(wid) => s.phase.Sweeping? && wid in s.db.workflows && s.db.workflows[wid].status.Active?
    case EngineReplaces(_, _) => s.phase.InEngine?
    case EngineSaves(_, _, _) => s.phase.InEngine?
    case EngineJudges(verdict) =>
      && s.phase.Judging?
      && (s.phase.wid in s.db.workflows && s.db.workflows[s.phase.wid].kind == STATIC_KIND ==>
            verdict == StaticVerdict(s.db.workflows[s.phase.wid].state, ComponentTasks(s.db, s.phase.wid)))
    case EngineFinishes(_) => s.phase.Finishing?
    case EngineRaises => s.phase.InEngine? || s.phase.Judging? || s.phase.Finishing?
    case ReservesTasks(_) => s.phase.Sweeping?
    case RejectsSpec(_) => s.phase.Launching? && s.phase.todo != []
    case LaunchesJob(j, _) => s.phase.Launching? && s.phase.todo != [] && j !in s.jobs
    case LaunchFails(_) => s.phase.Launching? && s.phase.todo != []
    case RecordsJob => s.phase.Launched?
    case EndsPass => s.phase.Launching? && s.phase.todo == []
  }

  /** `complete_workflow` or `fail_workflow`. */
  function FinishOp(wid: WorkflowId, verdict: Verdict): Op
    requires !verdict.Undecided?
  {
    match verdict
    case Completed(result) => OpFinish(wid, WfSucceeded, Some(result), None)
    case Broken(reason) => OpFinish(wid, WfFailed, None, Some(reason))
  }

  /** The transaction that a step runs, and its time. */
  ghost function OpOf(grace: Time, s: Sys, step: Step): Option<(Op, Time)> {
    match step
    case ClientCalls(op, at) => Some((op, at))
    case SyncsTask =>
      if !(s.phase.Syncing? && s.phase.todo != []) then None
      else
        var row := s.phase.todo[0];
        (match SyncActionOf(grace, s.phase.now, s.phase.listing, row)
         case Skip => None
         case Adopt(job) => Some((OpBind(row.Id(), job.jobId, job.status), s.phase.now))
         case Reclaim => Some((OpReset(row.Id(), LOST), s.phase.now))
         case Look(job) => Some((OpObserve(row.Id(), job), s.phase.now)))
    case EngineReplaces(c, at) => if s.phase.InEngine? then Some((OpReplace(s.phase.wid, c), at)) else None
    case EngineSaves(state, cursor, at) => if s.phase.InEngine? then Some((OpSaveState(s.phase.wid, state, cursor), at)) else None
    case EngineFinishes(at) =>
      if s.phase.Finishing? && !s.phase.verdict.Undecided? then Some((FinishOp(s.phase.wid, s.phase.verdict), at)) else None
    case ReservesTasks(limit) => if s.phase.Sweeping? then Some((OpReserve(limit), s.phase.now)) else None
    case RejectsSpec(reason) =>
      if s.phase.Launching? && s.phase.todo != [] then Some((OpFail(s.phase.todo[0].Id(), reason), s.phase.now)) else None
    case LaunchFails(reason) =>
      if s.phase.Launching? && s.phase.todo != [] then Some((OpReset(s.phase.todo[0].Id(), reason), s.phase.now)) else None
    case RecordsJob =>
      if s.phase.Launched? then Some((OpBind(s.phase.row.Id(), s.phase.job.jobId, s.phase.job.status), s.phase.now)) else None
    case _ => None
  }

  ghost function NextDb(name: Naming, grace: Time, s: Sys, step: Step): Db {
    match OpOf(grace, s, step)
    case None => s.db
    case Some((op, at)) => Apply(name, s.db, op, at)
  }

  ghost function NextJobs(s: Sys, step: Step): Jobs {
    match step
    case ForeignJob(j, n) => s.jobs[j := Job(n, None, 0.0)]
    case LaunchesJob(j, _) =>
      if s.phase.Launching? && s.phase.todo != [] && s.phase.todo[0].startedAt.Some?
      then s.jobs[j := Job(s.phase.todo[0].jobName, Some(s.phase.todo[0].Id()), s.phase.todo[0].startedAt.value)]
      else s.jobs
    case _ => s.jobs
  }

  /** After the transaction of a loop body: the exception of a refused one ends the pass. */
  ghost function SyncNext(grace: Time, s: Sys): Phase
    requires s.phase.Syncing? && s.phase.todo != []
  {
    var now, listing, row := s.phase.now, s.phase.listing, s.phase.todo[0];
    var rest := Syncing(now, listing, s.phase.todo[1..]);
    match SyncActionOf(grace, now, listing, row)
    case Skip => rest
    case Adopt(job) =>
      var r := BindJob(s.db, row.Id(), job.jobId, job.status, now);
      if r.Ok? then Syncing(now, listing, [r.value.1] + s.phase.todo[1..]) else Idle
    case Reclaim => if ResetSubmission(s.db, row.Id(), LOST, now).Ok? then rest else Idle
    case Look(job) => if ObserveJob(s.db, row.Id(), job, now).Ok? then rest else Idle
  }

  ghost function NextPhase(grace: Time, s: Sys, step: Step): Phase {
    match step
    case ClientCalls(_, _) => s.phase
    case ForeignJob(_, _) => s.phase
    case Crashes => Idle
    case ListsJobs(now, listing) => Listed(now, listing)
    case ListsTasks(rows) => if s.phase.Listed? then Syncing(s.phase.now, s.phase.listing, rows) else Idle
    case SyncsTask => if s.phase.Syncing? && s.phase.todo != [] then SyncNext(grace, s) else Idle
    case EndsSync => if s.phase.Syncing? then Sweeping(s.phase.now) else Idle
    case PicksWorkflow(wid) => if s.phase.Sweeping? then InEngine(s.phase.now, wid) else Idle
    case EngineReplaces(_, _) => s.phase
    case EngineSaves(_, _, _) => if s.phase.InEngine? then Judging(s.phase.now, s.phase.wid) else Idle
    case EngineJudges(verdict) => if s.phase.Judging? then Finishing(s.phase.now, s.phase.wid, verdict) else Idle
    case EngineFinishes(_) => if s.phase.Finishing? then Sweeping(s.phase.now) else Idle
    case EngineRaises =>
      if s.phase.InEngine? || s.phase.Judging? || s.phase.Finishing? then Sweeping(s.phase.now) else Idle
    case ReservesTasks(limit) =>
      if s.phase.Sweeping? then Launching(s.phase.now, ReserveSubmissions(s.db, limit, s.phase.now).1) else Idle
    case RejectsSpec(reason) =>
      if s.phase.Launching? && s.phase.todo != [] && FailTask(s.db, s.phase.todo[0].Id(), reason, s.phase.now).Ok?
      then Launching(s.phase.now, s.phase.todo[1..]) else Idle
    case LaunchesJob(j, status) =>
      if s.phase.Launching? && s.phase.todo != []
      then Launched(s.phase.now, s.phase.todo[0], ExecutorJob(j, s.phase.todo[0].jobName, status, 0, None), s.phase.todo[1..])
      else Idle
    case LaunchFails(reason) =>
      if s.phase.Launching? && s.phase.todo != [] && ResetSubmission(s.db, s.phase.todo[0].Id(), reason, s.phase.now).Ok?
      then Finished(s.phase.now) else Idle
    case RecordsJob =>
      if s.phase.Launched? && BindJob(s.db, s.phase.row.Id(), s.phase.job.jobId, s.phase.job.status, s.phase.now).Ok?
      then Launching(s.phase.now, s.phase.todo) else Idle
    case EndsPass => if s.phase.Launching? then Finished(s.phase.now) else Idle
  }

  ghost function Next(name: Naming, grace: Time, s: Sys, step: Step): Sys {
    Sys(NextDb(name, grace, s, step), NextJobs(s, step), NextPhase(grace, s, step))
  }

  /**
   * What the controller cannot prevent, in any state: a client's transaction, a crash that
   * forgets where the pass was, a job that somebody else launches; and a crash behind a
   * launch leaves a job that no row knows of.
   */
  lemma EnvironmentIsFree(name: Naming, grace: Time, s: Sys, op: Op, at: Time, j: JobId, n: Text, executorStatus: Text)
    ensures op.OpSubmitTask? || op.OpSetPolicy? || op.OpCheckpoint? || op.OpSubmitWorkflow? || op.OpCommit? ==>
      Enabled(name, grace, s, ClientCalls(op, at)) && Next(name, grace, s, ClientCalls(op, at)) == Sys(Apply(name, s.db, op, at), s.jobs, s.phase)
    ensures Enabled(name, grace, s, Crashes) && Next(name, grace, s, Crashes) == Sys(s.db, s.jobs, Idle)
    ensures j !in s.jobs && (forall id :: name.Of(id) != n) ==>
      Enabled(name, grace, s, ForeignJob(j, n)) && Next(name, grace, s, ForeignJob(j, n)) == Sys(s.db, s.jobs[j := Job(n, None, 0.0)], s.phase)
    ensures j !in s.jobs && s.phase.Launching? && s.phase.todo != [] && s.phase.todo[0].startedAt.Some? ==>
      var first := s.phase.todo[0];
      var launched := Next(name, grace, s, LaunchesJob(j, executorStatus));
      && Enabled(name, grace, s, LaunchesJob(j, executorStatus)) && Enabled(name, grace, launched, Crashes)
      && Next(name, grace, launched, Crashes)
         == Sys(s.db, s.jobs[j := Job(first.jobName, Some(first.spec.taskId), first.startedAt.value)], Idle)
  {
  }

  // ---------------------------------------------------------------------------------
  // The invariant

  /** A launched job belongs to one task for good, and a task that may be launched again has none. */
  ghost predicate OwnerOk(name: Naming, tasks: TaskTable, job: Job) {
    match job.owner
    case None => NotATaskName(name, job.name)
    case Some(id) =>
      && id in tasks && job.name == tasks[id].jobName
      && !tasks[id].status.Pending?
      && (tasks[id].status.Submitting? ==> tasks[id].startedAt == Some(job.stamp))
  }

  ghost predicate BoundOk(jobs: Jobs, row: TaskRow) {
    row.jobId.Some? ==> row.jobId.value in jobs && jobs[row.jobId.value].owner == Some(row.Id())
  }

  ghost predicate JobsOk(name: Naming, tasks: TaskTable, jobs: Jobs) {
    && (forall j {:trigger OwnerOk(name, tasks, jobs[j])} | j in jobs :: OwnerOk(name, tasks, jobs[j]))
    && (forall j, k {:trigger jobs[j], jobs[k]} | j in jobs && k in jobs && jobs[j].owner.Some? && jobs[j].owner == jobs[k].owner :: j == k)
    && (forall id {:trigger BoundOk(jobs, tasks[id])} | id in tasks :: BoundOk(jobs, tasks[id]))
  }

  /** The snapshot of a row is current, but for the checkpoint head. */
  ghost predicate Fresh(tasks: TaskTable, row: TaskRow) {
    row.Id() in tasks && SameButHead(tasks[row.Id()], row)
  }

  ghost predicate AllFresh(tasks: TaskTable, rows: seq<TaskRow>) {
    && (forall r | r in rows :: Fresh(tasks, r))
    && (forall i, j | 0 <= i < j < |rows| :: rows[i].Id() != rows[j].Id())
  }

  /** Reserved, and not launched yet. */
  ghost predicate Unlaunched(tasks: TaskTable, jobs: Jobs, row: TaskRow) {
    && Fresh(tasks, row) && row.status.Submitting?
    && forall j | j in jobs :: jobs[j].owner != Some(row.Id())
  }

  ghost predicate ToLaunch(tasks: TaskTable, jobs: Jobs, rows: seq<TaskRow>) {
    && (forall r | r in rows :: Unlaunched(tasks, jobs, r))
    && (forall i, j | 0 <= i < j < |rows| :: rows[i].Id() != rows[j].Id())
  }

  ghost predicate PhaseOk(grace: Time, s: Sys) {
    match s.phase
    case Listed(now, listing) => Shows(s.jobs, listing) && Timely(grace, now, s.db.tasks, s.jobs, listing)
    case Syncing(now, listing, todo) =>
      Shows(s.jobs, listing) && Timely(grace, now, s.db.tasks, s.jobs, listing) && AllFresh(s.db.tasks, todo)
    case Launching(now, todo) => ToLaunch(s.db.tasks, s.jobs, todo)
    case Launched(now, row, job, todo) =>
      && ToLaunch(s.db.tasks, s.jobs, todo) && row.Id() !in IdsOf(todo)
      && Fresh(s.db.tasks, row) && row.status.Submitting?
      && job.jobId in s.jobs && s.jobs[job.jobId].owner == Some(row.Id())
    case _ => true
  }

  ghost function IdsOf(rows: seq<TaskRow>): set<TaskId> {
    set r | r in rows :: r.Id()
  }

  ghost predicate TablesOk(name: Naming, db: Db) {
    Intact(name, db) && RowsOk(db.tasks) && LogAgrees(db)
  }

  ghost predicate SysOk(name: Naming, grace: Time, s: Sys) {
    TablesOk(name, s.db) && JobsOk(name, s.db.tasks, s.jobs) && PhaseOk(grace, s)
  }

  // ---------------------------------------------------------------------------------
  // Lookups in a listing

  lemma {:induction false} ByNameFinds(listing: Listing, n: Text)
    ensures ByName(listing, n).Some? ==> ByName(listing, n).value in listing && ByName(listing, n).value.name == n
    ensures ByName(listing, n).None? ==> forall e | e in listing :: e.name != n
  {
    if listing != [] && listing[|listing| - 1].name != n { ByNameFinds(listing[..|listing| - 1], n); }
  }

  lemma {:induction false} ByIdFinds(listing: Listing, id: JobId)
    ensures ById(listing, id).Some? ==> ById(listing, id).value in listing && ById(listing, id).value.jobId == id
    ensures ById(listing, id).None? ==> forall e | e in listing :: e.jobId != id
  {
    if listing != [] && listing[|listing| - 1].jobId != id { ByIdFinds(listing[..|listing| - 1], id); }
  }

  /** A listed job with a task's name is that task's. */
  lemma NamedJobIsOwned(name: Naming, tasks: TaskTable, jobs: Jobs, listing: Listing, id: TaskId, e: ExecutorJob)
    requires TasksOk(name, tasks) && JobsOk(name, tasks, jobs) && Shows(jobs, listing)
    requires id in tasks && e in listing && e.name == tasks[id].jobName
    ensures e.jobId in jobs && jobs[e.jobId].owner == Some(id)
  {
    assert OwnerOk(name, tasks, jobs[e.jobId]);
    assert name.Of(id) == e.name;
    var owner := jobs[e.jobId].owner;
    assert owner.Some? && owner.value != id ==> Distinct(tasks[owner.value], tasks[id]);
  }

  /** Past its grace the job of an unbound task is listed, under the task's name. */
  lemma OverdueIsNamed(name: Naming, grace: Time, now: Time, tasks: TaskTable, jobs: Jobs, listing: Listing, id: TaskId, j: JobId)
    requires RowsOk(tasks) && JobsOk(name, tasks, jobs)
    requires Shows(jobs, listing) && Timely(grace, now, tasks, jobs, listing)
    requires id in tasks && tasks[id].status.Submitting? && now - tasks[id].startedAt.value >= grace
    requires j in jobs && jobs[j].owner == Some(id)
    ensures ByName(listing, tasks[id].jobName).Some?
  {
    assert OwnerOk(name, tasks, jobs[j]) && RowOk(tasks[id]) && Unbound(tasks, jobs[j]);
    assert ListsJob(listing, j);
    var i :| 0 <= i < |listing| && listing[i].jobId == j;
    ByNameFinds(listing, tasks[id].jobName);
    assert listing[i] in listing;
  }

  ghost predicate NoJob(jobs: Jobs, id: TaskId) {
    forall j | j in jobs :: jobs[j].owner != Some(id)
  }

  /** A submission past its grace that no listed job answers for has no job. */
  lemma LostHasNoJob(name: Naming, grace: Time, now: Time, tasks: TaskTable, jobs: Jobs, listing: Listing, id: TaskId)
    requires RowsOk(tasks) && JobsOk(name, tasks, jobs)
    requires Shows(jobs, listing) && Timely(grace, now, tasks, jobs, listing)
    requires id in tasks && tasks[id].status.Submitting? && now - tasks[id].startedAt.value >= grace
    requires ByName(listing, tasks[id].jobName).None?
    ensures NoJob(jobs, id)
  {
    forall j | j in jobs ensures jobs[j].owner != Some(id) {
      if jobs[j].owner == Some(id) { OverdueIsNamed(name, grace, now, tasks, jobs, listing, id, j); }
    }
  }

  // ---------------------------------------------------------------------------------
  // Tasks and jobs

  lemma PendingHasNoJob(name: Naming, tasks: TaskTable, jobs: Jobs, id: TaskId)
    requires JobsOk(name, tasks, jobs) && (id in tasks ==> tasks[id].status.Pending?)
    ensures NoJob(jobs, id)
  {
    forall j | j in jobs ensures jobs[j].owner != Some(id) { assert OwnerOk(name, tasks, jobs[j]); }
  }

  /** One row changed. */
  lemma JobsUpdated(name: Naming, tasks: TaskTable, jobs: Jobs, id: TaskId, row: TaskRow)
    requires JobsOk(name, tasks, jobs) && id in tasks && row.jobName == tasks[id].jobName
    requires BoundOk(jobs, row) && (row.status.Pending? ==> NoJob(jobs, id))
    requires row.status.Submitting? ==> tasks[id].status.Submitting? && row.startedAt == tasks[id].startedAt
    ensures JobsOk(name, tasks[id := row], jobs)
  {
    var tasks' := tasks[id := row];
    forall j | j in jobs ensures OwnerOk(name, tasks', jobs[j]) { assert OwnerOk(name, tasks, jobs[j]); }
    forall other | other in tasks' ensures BoundOk(jobs, tasks'[other]) {
      if other != id { assert BoundOk(jobs, tasks[other]); }
    }
  }

  /** Every row is an old one, a reserved one, or new. */
  lemma JobsReserved(name: Naming, tasks: TaskTable, tasks': TaskTable, jobs: Jobs)
    requires JobsOk(name, tasks, jobs) && RowsOk(tasks')
    requires forall id | id in tasks :: id in tasks' && tasks'[id].jobName == tasks[id].jobName
    requires forall id | id in tasks ::
      tasks'[id] == tasks[id] || (tasks[id].status.Pending? && tasks'[id].status.Submitting? && tasks'[id].jobId.None?)
    requires forall id | id in tasks' && id !in tasks :: tasks'[id].status.Pending?
    ensures JobsOk(name, tasks', jobs)
  {
    forall j | j in jobs ensures OwnerOk(name, tasks', jobs[j]) { assert OwnerOk(name, tasks, jobs[j]); }
    forall id | id in tasks' ensures BoundOk(jobs, tasks'[id]) {
      if id in tasks { assert BoundOk(jobs, tasks[id]); } else { assert RowOk(tasks'[id]); }
    }
  }

  lemma JobsUnderReserve(name: Naming, db: Db, jobs: Jobs, limit: int, now: Time)
    requires TablesOk(name, db) && JobsOk(name, db.tasks, jobs)
    ensures JobsOk(name, Apply(name, db, OpReserve(limit), now).tasks, jobs)
  {
    ReserveOk(name, db.policies, db.tasks, limit, now);
    LawfulStep(name, db, OpReserve(limit), now);
    forall id | id in db.tasks ensures RowOk(db.tasks[id]) {}
    JobsReserved(name, db.tasks, Apply(name, db, OpReserve(limit), now).tasks, jobs);
  }

  lemma JobsUnderInserts(name: Naming, db: Db, jobs: Jobs, op: Op, now: Time)
    requires TablesOk(name, db) && JobsOk(name, db.tasks, jobs) && Inserting(op)
    ensures JobsOk(name, Apply(name, db, op, now).tasks, jobs)
  {
    InsertsOnly(name, db, op, now);
    LawfulStep(name, db, op, now);
    JobsReserved(name, db.tasks, Apply(name, db, op, now).tasks, jobs);
  }

  lemma JobsUnderCheckpoint(name: Naming, db: Db, jobs: Jobs, id: TaskId, c: CheckpointRef, now: Time)
    requires TablesOk(name, db) && JobsOk(name, db.tasks, jobs)
    ensures JobsOk(name, Apply(name, db, OpCheckpoint(id, c), now).tasks, jobs)
  {
    if RecordCheckpoint(db, id, c, now).Ok? {
      assert BoundOk(jobs, db.tasks[id]);
      if db.tasks[id].status.Pending? { PendingHasNoJob(name, db.tasks, jobs, id); }
      JobsUpdated(name, db.tasks, jobs, id, RecordCheckpoint(db, id, c, now).value.1);
    }
  }

  /** A job and the task it was launched for. */
  lemma JobsUnderBind(name: Naming, db: Db, jobs: Jobs, id: TaskId, job: ExecutorJob, now: Time)
    requires TablesOk(name, db) && JobsOk(name, db.tasks, jobs)
    requires job.jobId in jobs && jobs[job.jobId].owner == Some(id)
    ensures JobsOk(name, Apply(name, db, OpBind(id, job.jobId, job.status), now).tasks, jobs)
  {
    if BindJob(db, id, job.jobId, job.status, now).Ok? {
      JobsUpdated(name, db.tasks, jobs, id, Bound(db.tasks[id], job.jobId, job.status, now));
    }
  }

  lemma JobsUnderObserve(name: Naming, db: Db, jobs: Jobs, id: TaskId, job: ExecutorJob, now: Time)
    requires TablesOk(name, db) && JobsOk(name, db.tasks, jobs)
    requires job.jobId in jobs && jobs[job.jobId].owner == Some(id)
    ensures JobsOk(name, Apply(name, db, OpObserve(id, job), now).tasks, jobs)
  {
    if ObserveJob(db, id, job, now).Ok? {
      JobsUpdated(name, db.tasks, jobs, id, ObservedRow(db.tasks[id], job, now));
    }
  }

  lemma JobsUnderReset(name: Naming, db: Db, jobs: Jobs, id: TaskId, reason: Text, now: Time)
    requires TablesOk(name, db) && JobsOk(name, db.tasks, jobs) && NoJob(jobs, id)
    ensures JobsOk(name, Apply(name, db, OpReset(id, reason), now).tasks, jobs)
  {
    if ResetSubmission(db, id, reason, now).Ok? {
      assert RowOk(db.tasks[id]);
      JobsUpdated(name, db.tasks, jobs, id, Unreserved(db.tasks[id], reason, now));
    }
  }

  lemma JobsUnderFail(name: Naming, db: Db, jobs: Jobs, id: TaskId, reason: Text, now: Time)
    requires TablesOk(name, db) && JobsOk(name, db.tasks, jobs)
    ensures JobsOk(name, Apply(name, db, OpFail(id, reason), now).tasks, jobs)
  {
    if id in db.tasks {
      assert BoundOk(jobs, db.tasks[id]);
      JobsUpdated(name, db.tasks, jobs, id, FailedRow(db.tasks[id], reason, now));
    }
  }

  lemma JobsUnderForeign(name: Naming, tasks: TaskTable, jobs: Jobs, j: JobId, n: Text)
    requires JobsOk(name, tasks, jobs) && j !in jobs && NotATaskName(name, n)
    ensures JobsOk(name, tasks, jobs[j := Job(n, None, 0.0)])
  {
    var jobs' := jobs[j := Job(n, None, 0.0)];
    forall k | k in jobs' ensures OwnerOk(name, tasks, jobs'[k]) { if k != j { assert OwnerOk(name, tasks, jobs[k]); } }
    forall id | id in tasks ensures BoundOk(jobs', tasks[id]) { assert BoundOk(jobs, tasks[id]); }
  }

  lemma JobsUnderLaunch(name: Naming, tasks: TaskTable, jobs: Jobs, j: JobId, row: TaskRow)
    requires RowsOk(tasks) && JobsOk(name, tasks, jobs) && j !in jobs && Unlaunched(tasks, jobs, row) && row.startedAt.Some?
    ensures JobsOk(name, tasks, jobs[j := Job(row.jobName, Some(row.Id()), row.startedAt.value)])
  {
    var jobs' := jobs[j := Job(row.jobName, Some(row.Id()), row.startedAt.value)];
    forall k | k in jobs' ensures OwnerOk(name, tasks, jobs'[k]) { if k != j { assert OwnerOk(name, tasks, jobs[k]); } }
    forall id | id in tasks ensures BoundOk(jobs', tasks[id]) { assert BoundOk(jobs, tasks[id]); }
  }

  // ---------------------------------------------------------------------------------
  // Every step keeps the invariant

  /** Row by row, only checkpoint heads changed; rows may have been added. */
  ghost predicate HeadsOnly(tasks: TaskTable, tasks': TaskTable) {
    forall id | id in tasks :: id in tasks' && SameButHead(tasks[id], tasks'[id])
  }

  lemma InsertHeadsOnly(name: Naming, tasks: TaskTable, tasks': TaskTable)
    requires Inserts(name, tasks, tasks')
    ensures HeadsOnly(tasks, tasks')
  {
  }

  lemma CheckpointHeadsOnly(db: Db, id: TaskId, c: CheckpointRef, now: Time)
    ensures HeadsOnly(db.tasks, After(db, RecordCheckpoint(db, id, c, now)).tasks)
  {
  }

  lemma ClientHeadsOnly(name: Naming, db: Db, op: Op, now: Time)
    requires Intact(name, db) && (IsClientOp(op) || Inserting(op))
    ensures HeadsOnly(db.tasks, Apply(name, db, op, now).tasks)
  {
    if op.OpCheckpoint? {
      CheckpointHeadsOnly(db, op.id, op.checkpoint, now);
    } else {
      InsertsOnly(name, db, op, now);
      InsertHeadsOnly(name, db.tasks, Apply(name, db, op, now).tasks);
    }
  }

  lemma TimelyAfter(name: Naming, grace: Time, now: Time, tasks: TaskTable, tasks': TaskTable, jobs: Jobs, listing: Listing)
    requires JobsOk(name, tasks, jobs) && Timely(grace, now, tasks, jobs, listing)
    requires forall id | id in tasks && id in tasks' && tasks'[id].jobId.None? :: tasks[id].jobId.None?
    ensures Timely(grace, now, tasks', jobs, listing)
  {
    forall j | j in jobs && Unbound(tasks', jobs[j]) && jobs[j].stamp + grace <= now ensures ListsJob(listing, j) {
      assert OwnerOk(name, tasks, jobs[j]);
      assert Unbound(tasks, jobs[j]);
    }
  }

  /** The local variables stay good while clients come in between. */
  lemma PhaseUnderGrowth(name: Naming, grace: Time, s: Sys, db': Db)
    requires JobsOk(name, s.db.tasks, s.jobs) && PhaseOk(grace, s) && HeadsOnly(s.db.tasks, db'.tasks)
    ensures PhaseOk(grace, s.(db := db'))
  {
    if s.phase.Listed? || s.phase.Syncing? {
      TimelyAfter(name, grace, s.phase.now, s.db.tasks, db'.tasks, s.jobs, s.phase.listing);
    }
  }

  lemma PhaseUnderForeign(grace: Time, s: Sys, j: JobId, n: Text)
    requires PhaseOk(grace, s) && j !in s.jobs
    ensures PhaseOk(grace, s.(jobs := s.jobs[j := Job(n, None, 0.0)]))
  {
  }

  lemma SyncedRow(name: Naming, grace: Time, now: Time, tasks: TaskTable, jobs: Jobs, listing: Listing, todo: seq<TaskRow>, row: TaskRow)
    requires JobsOk(name, tasks, jobs) && Timely(grace, now, tasks, jobs, listing)
    requires todo != [] && AllFresh(tasks, todo) && row.Id() == todo[0].Id()
    requires row.Id() in tasks && (row.jobId.None? ==> tasks[row.Id()].jobId.None?)
    ensures Timely(grace, now, tasks[row.Id() := row], jobs, listing)
    ensures AllFresh(tasks[row.Id() := row], todo[1..]) && AllFresh(tasks[row.Id() := row], [row] + todo[1..])
  {
    TimelyAfter(name, grace, now, tasks, tasks[row.Id() := row], jobs, listing);
    var rest := [row] + todo[1..];
    forall i, j | 0 <= i < j < |rest| ensures rest[i].Id() != rest[j].Id() {
      assert rest[j] == todo[j] && (i > 0 ==> rest[i] == todo[i]);
    }
    forall r | r in todo[1..] ensures Fresh(tasks[row.Id() := row], r) {
      assert r in todo;
      var i :| 0 <= i < |todo| - 1 && todo[1..][i] == r;
      assert todo[i + 1] == r && todo[0].Id() != todo[i + 1].Id();
    }
  }

  /** What the action on a row relies on. */
  lemma SyncActionSound(name: Naming, grace: Time, s: Sys)
    requires SysOk(name, grace, s) && s.phase.Syncing? && s.phase.todo != []
    ensures var row := s.phase.todo[0];
      && Fresh(s.db.tasks, row) && s.db.tasks[row.Id()].status == row.status
      && match SyncActionOf(grace, s.phase.now, s.phase.listing, row)
         case Skip => true
         case Adopt(job) => row.status.Submitting? && job.jobId in s.jobs && s.jobs[job.jobId].owner == Some(row.Id())
         case Reclaim => row.status.Submitting? && NoJob(s.jobs, row.Id())
         case Look(job) =>
           && (row.status.Submitted? || row.status.Running?)
           && job.jobId in s.jobs && s.jobs[job.jobId].owner == Some(row.Id())
  {
    var row, tasks, listing := s.phase.todo[0], s.db.tasks, s.phase.listing;
    assert row in s.phase.todo && Fresh(tasks, row) && RowOk(tasks[row.Id()]) && BoundOk(s.jobs, tasks[row.Id()]);
    ByNameFinds(listing, row.jobName);
    match SyncActionOf(grace, s.phase.now, listing, row)
    case Skip =>
    case Adopt(job) => NamedJobIsOwned(name, tasks, s.jobs, listing, row.Id(), job);
    case Reclaim => LostHasNoJob(name, grace, s.phase.now, tasks, s.jobs, listing, row.Id());
    case Look(job) =>
      ByIdFinds(listing, row.jobId.value);
      if ById(listing, row.jobId.value).None? { NamedJobIsOwned(name, tasks, s.jobs, listing, row.Id(), job); }
  }

  /** The first row was written, and the loop goes on with the rest or with the row again. */
  lemma SyncedPhase(name: Naming, grace: Time, s: Sys, row: TaskRow, db': Db)
    requires JobsOk(name, s.db.tasks, s.jobs) && PhaseOk(grace, s) && s.phase.Syncing? && s.phase.todo != []
    requires row.Id() == s.phase.todo[0].Id() && row.Id() in s.db.tasks && db'.tasks == s.db.tasks[row.Id() := row]
    requires row.jobId.None? ==> s.db.tasks[row.Id()].jobId.None?
    ensures PhaseOk(grace, Sys(db', s.jobs, Syncing(s.phase.now, s.phase.listing, s.phase.todo[1..])))
    ensures PhaseOk(grace, Sys(db', s.jobs, Syncing(s.phase.now, s.phase.listing, [row] + s.phase.todo[1..])))
  {
    SyncedRow(name, grace, s.phase.now, s.db.tasks, s.jobs, s.phase.listing, s.phase.todo, row);
  }

  ghost predicate AtFirst(name: Naming, grace: Time, s: Sys) {
    && JobsOk(name, s.db.tasks, s.jobs) && RowsOk(s.db.tasks) && PhaseOk(grace, s)
    && s.phase.Syncing? && s.phase.todo != [] && Fresh(s.db.tasks, s.phase.todo[0])
  }

  lemma AdoptPhase(name: Naming, grace: Time, s: Sys, job: ExecutorJob)
    requires AtFirst(name, grace, s) && SyncActionOf(grace, s.phase.now, s.phase.listing, s.phase.todo[0]) == Adopt(job)
    ensures PhaseOk(grace, Next(name, grace, s, SyncsTask))
  {
    var now, id := s.phase.now, s.phase.todo[0].Id();
    if BindJob(s.db, id, job.jobId, job.status, now).Ok? {
      SyncedPhase(name, grace, s, Bound(s.db.tasks[id], job.jobId, job.status, now), NextDb(name, grace, s, SyncsTask));
    }
  }

  lemma ReclaimPhase(name: Naming, grace: Time, s: Sys)
    requires AtFirst(name, grace, s) && SyncActionOf(grace, s.phase.now, s.phase.listing, s.phase.todo[0]) == Reclaim
    ensures PhaseOk(grace, Next(name, grace, s, SyncsTask))
  {
    var now, id := s.phase.now, s.phase.todo[0].Id();
    if ResetSubmission(s.db, id, LOST, now).Ok? {
      SyncedPhase(name, grace, s, Unreserved(s.db.tasks[id], LOST, now), NextDb(name, grace, s, SyncsTask));
    }
  }

  lemma NextLook(name: Naming, grace: Time, s: Sys, job: ExecutorJob)
    requires s.phase.Syncing? && s.phase.todo != []
    requires SyncActionOf(grace, s.phase.now, s.phase.listing, s.phase.todo[0]) == Look(job)
    ensures var r := ObserveJob(s.db, s.phase.todo[0].Id(), job, s.phase.now);
      Next(name, grace, s, SyncsTask)
      == Sys(After(s.db, r), s.jobs, if r.Ok? then Syncing(s.phase.now, s.phase.listing, s.phase.todo[1..]) else Idle)
  {
  }

  lemma LookPhase(name: Naming, grace: Time, s: Sys, job: ExecutorJob)
    requires AtFirst(name, grace, s) && SyncActionOf(grace, s.phase.now, s.phase.listing, s.phase.todo[0]) == Look(job)
    ensures PhaseOk(grace, Next(name, grace, s, SyncsTask))
  {
    var now, id := s.phase.now, s.phase.todo[0].Id();
    NextLook(name, grace, s, job);
    var r := ObserveJob(s.db, id, job, now);
    if r.Ok? { SyncedPhase(name, grace, s, ObservedRow(s.db.tasks[id], job, now), After(s.db, r)); }
  }

  lemma SkipPhase(name: Naming, grace: Time, s: Sys)
    requires AtFirst(name, grace, s) && SyncActionOf(grace, s.phase.now, s.phase.listing, s.phase.todo[0]) == Skip
    ensures PhaseOk(grace, Next(name, grace, s, SyncsTask))
  {
    var row := s.db.tasks[s.phase.todo[0].Id()];
    assert s.db.tasks[row.Id() := row] == s.db.tasks;
    SyncedPhase(name, grace, s, row, s.db);
  }

  lemma SyncPhase(name: Naming, grace: Time, s: Sys)
    requires JobsOk(name, s.db.tasks, s.jobs) && RowsOk(s.db.tasks) && PhaseOk(grace, s) && s.phase.Syncing? && s.phase.todo != []
    ensures PhaseOk(grace, Next(name, grace, s, SyncsTask))
  {
    assert s.phase.todo[0] in s.phase.todo && Fresh(s.db.tasks, s.phase.todo[0]);
    match SyncActionOf(grace, s.phase.now, s.phase.listing, s.phase.todo[0])
    case Skip => SkipPhase(name, grace, s);
    case Adopt(job) => AdoptPhase(name, grace, s, job);
    case Reclaim => ReclaimPhase(name, grace, s);
    case Look(job) => LookPhase(name, grace, s, job);
  }

  lemma ListedTable(tasks: TaskTable, rows: seq<TaskRow>)
    requires ListsTable(tasks, rows)
    ensures AllFresh(tasks, rows)
  {
  }

  /** The batch just reserved has no jobs. */
  lemma ReservedToLaunch(name: Naming, db: Db, jobs: Jobs, limit: int, now: Time)
    requires TablesOk(name, db) && JobsOk(name, db.tasks, jobs)
    ensures ToLaunch(ReserveSubmissions(db, limit, now).0.tasks, jobs, ReserveSubmissions(db, limit, now).1)
  {
    ReserveSelects(db.policies, db.tasks, limit, now);
    var b := Reserve(db.policies, db.tasks, limit, now);
    forall r | r in b.selected ensures Unlaunched(b.tasks, jobs, r) {
      assert Picked(db.tasks, b.tasks, r, now);
      PendingHasNoJob(name, db.tasks, jobs, r.Id());
    }
  }

  /** Whatever happens to the first task to launch leaves the others as they are. */
  lemma LaunchRest(tasks: TaskTable, jobs: Jobs, todo: seq<TaskRow>, row: TaskRow)
    requires todo != [] && ToLaunch(tasks, jobs, todo) && row.Id() == todo[0].Id()
    ensures ToLaunch(tasks[row.Id() := row], jobs, todo[1..]) && ToLaunch(tasks, jobs, todo[1..])
    ensures row.Id() !in IdsOf(todo[1..])
  {
    forall r | r in todo[1..] ensures r.Id() != row.Id() && Unlaunched(tasks, jobs, r) {
      var i :| 0 <= i < |todo| - 1 && todo[1..][i] == r;
      assert todo[i + 1] == r && todo[0].Id() != todo[i + 1].Id() && r in todo;
    }
  }

  lemma LaunchedRest(tasks: TaskTable, jobs: Jobs, todo: seq<TaskRow>, j: JobId, job: Job)
    requires ToLaunch(tasks, jobs, todo) && j !in jobs && job.owner.Some? && job.owner.value !in IdsOf(todo)
    ensures ToLaunch(tasks, jobs[j := job], todo)
  {
    forall r | r in todo ensures Unlaunched(tasks, jobs[j := job], r) {
      assert Unlaunched(tasks, jobs, r) && r.Id() in IdsOf(todo);
    }
  }

  lemma RecordedRest(tasks: TaskTable, jobs: Jobs, todo: seq<TaskRow>, row: TaskRow)
    requires ToLaunch(tasks, jobs, todo) && row.Id() !in IdsOf(todo)
    ensures ToLaunch(tasks[row.Id() := row], jobs, todo)
  {
    forall r | r in todo ensures Unlaunched(tasks[row.Id() := row], jobs, r) {
      assert Unlaunched(tasks, jobs, r) && r.Id() in IdsOf(todo);
    }
  }

  lemma RejectPhase(name: Naming, grace: Time, s: Sys, reason: Text)
    requires PhaseOk(grace, s) && s.phase.Launching? && s.phase.todo != []
    ensures PhaseOk(grace, Next(name, grace, s, RejectsSpec(reason)))
  {
    var first := s.phase.todo[0];
    assert first in s.phase.todo && Unlaunched(s.db.tasks, s.jobs, first);
    LaunchRest(s.db.tasks, s.jobs, s.phase.todo, FailedRow(s.db.tasks[first.Id()], reason, s.phase.now));
  }

  lemma LaunchPhase(name: Naming, grace: Time, s: Sys, j: JobId, status: Text)
    requires RowsOk(s.db.tasks) && PhaseOk(grace, s) && s.phase.Launching? && s.phase.todo != [] && j !in s.jobs
    ensures PhaseOk(grace, Next(name, grace, s, LaunchesJob(j, status)))
  {
    var first := s.phase.todo[0];
    assert first in s.phase.todo && Unlaunched(s.db.tasks, s.jobs, first) && RowOk(s.db.tasks[first.Id()]);
    LaunchRest(s.db.tasks, s.jobs, s.phase.todo, first);
    LaunchedRest(s.db.tasks, s.jobs, s.phase.todo[1..], j, NextJobs(s, LaunchesJob(j, status))[j]);
  }

  lemma RecordPhase(name: Naming, grace: Time, s: Sys)
    requires PhaseOk(grace, s) && s.phase.Launched?
    ensures PhaseOk(grace, Next(name, grace, s, RecordsJob))
  {
    var row, job, now := s.phase.row, s.phase.job, s.phase.now;
    if BindJob(s.db, row.Id(), job.jobId, job.status, now).Ok? {
      RecordedRest(s.db.tasks, s.jobs, s.phase.todo, Bound(s.db.tasks[row.Id()], job.jobId, job.status, now));
    }
  }

  lemma ClientPhase(name: Naming, grace: Time, s: Sys, op: Op, at: Time)
    requires SysOk(name, grace, s) && Enabled(name, grace, s, ClientCalls(op, at))
    ensures PhaseOk(grace, Next(name, grace, s, ClientCalls(op, at)))
  {
    ClientHeadsOnly(name, s.db, op, at);
    PhaseUnderGrowth(name, grace, s, Apply(name, s.db, op, at));
  }

  lemma NextReserve(name: Naming, grace: Time, s: Sys, limit: int)
    requires s.phase.Sweeping?
    ensures var (db', selected) := ReserveSubmissions(s.db, limit, s.phase.now);
      Next(name, grace, s, ReservesTasks(limit)) == Sys(db', s.jobs, Launching(s.phase.now, selected))
  {
  }

  lemma ReservePhase(name: Naming, grace: Time, s: Sys, limit: int)
    requires SysOk(name, grace, s) && Enabled(name, grace, s, ReservesTasks(limit))
    ensures PhaseOk(grace, Next(name, grace, s, ReservesTasks(limit)))
  {
    NextReserve(name, grace, s, limit);
    ReservedToLaunch(name, s.db, s.jobs, limit, s.phase.now);
  }

  lemma ListPhase(name: Naming, grace: Time, s: Sys, rows: seq<TaskRow>)
    requires SysOk(name, grace, s) && Enabled(name, grace, s, ListsTasks(rows))
    ensures PhaseOk(grace, Next(name, grace, s, ListsTasks(rows)))
  {
    ListedTable(s.db.tasks, rows);
  }

  /** The steps of the second half of a pass that keep a list of tasks to launch. */
  predicate IsLaunchStep(step: Step) {
    step.ReservesTasks? || step.RejectsSpec? || step.LaunchesJob? || step.RecordsJob?
  }

  lemma LaunchStepPhase(name: Naming, grace: Time, s: Sys, step: Step)
    requires SysOk(name, grace, s) && Enabled(name, grace, s, step) && IsLaunchStep(step)
    ensures PhaseOk(grace, Next(name, grace, s, step))
  {
    match step
    case ReservesTasks(limit) => ReservePhase(name, grace, s, limit);
    case RejectsSpec(reason) => RejectPhase(name, grace, s, reason);
    case LaunchesJob(j, status) => LaunchPhase(name, grace, s, j, status);
    case RecordsJob => RecordPhase(name, grace, s);
  }

  /** The steps into phases that keep nothing, or leave the phase alone. */
  lemma PlainPhase(name: Naming, grace: Time, s: Sys, step: Step)
    requires SysOk(name, grace, s) && Enabled(name, grace, s, step) && !IsLaunchStep(step)
    requires !step.ClientCalls? && !step.ForeignJob? && !step.ListsTasks? && !step.SyncsTask?
    ensures PhaseOk(grace, Next(name, grace, s, step))
  {
  }

  lemma PhaseStep(name: Naming, grace: Time, s: Sys, step: Step)
    requires SysOk(name, grace, s) && Enabled(name, grace, s, step)
    ensures PhaseOk(grace, Next(name, grace, s, step))
  {
    if IsLaunchStep(step) {
      LaunchStepPhase(name, grace, s, step);
      return;
    }
    match step
    case ClientCalls(op, at) => ClientPhase(name, grace, s, op, at);
    case ForeignJob(j, n) => PhaseUnderForeign(grace, s, j, n);
    case ListsTasks(rows) => ListPhase(name, grace, s, rows);
    case SyncsTask => SyncPhase(name, grace, s);
    case _ => PlainPhase(name, grace, s, step);
  }

  /** The first task to launch is reserved and has no job. */
  lemma FirstToLaunch(name: Naming, grace: Time, s: Sys)
    requires SysOk(name, grace, s) && s.phase.Launching? && s.phase.todo != []
    ensures var first := s.phase.todo[0];
      Unlaunched(s.db.tasks, s.jobs, first) && s.db.tasks[first.Id()].status.Submitting? && first.startedAt.Some?
  {
    var first := s.phase.todo[0];
    assert first in s.phase.todo && Unlaunched(s.db.tasks, s.jobs, first) && RowOk(s.db.tasks[first.Id()]);
  }

  /** The controller observes, binds and fails tasks only where `Lawful` allows it. */
  lemma StepIsLawful(name: Naming, grace: Time, s: Sys, step: Step)
    requires SysOk(name, grace, s) && Enabled(name, grace, s, step) && OpOf(grace, s, step).Some?
    ensures Lawful(s.db, OpOf(grace, s, step).value.0)
  {
    match step
    case SyncsTask => SyncActionSound(name, grace, s);
    case RejectsSpec(_) => FirstToLaunch(name, grace, s);
    case _ =>
  }

  lemma TablesStep(name: Naming, grace: Time, s: Sys, step: Step)
    requires SysOk(name, grace, s) && Enabled(name, grace, s, step)
    ensures TablesOk(name, NextDb(name, grace, s, step))
  {
    if OpOf(grace, s, step).Some? {
      var (op, at) := OpOf(grace, s, step).value;
      StepIsLawful(name, grace, s, step);
      OpKeepsTables(name, s.db, op, at);
    }
  }

  lemma OpKeepsTables(name: Naming, db: Db, op: Op, at: Time)
    requires TablesOk(name, db) && Lawful(db, op)
    ensures TablesOk(name, Apply(name, db, op, at))
  {
    ApplyKeeps(name, db, op, at);
    LawfulStep(name, db, op, at);
    LogStep(name, db, op, at);
  }

  lemma JobsStep(name: Naming, grace: Time, s: Sys, step: Step)
    requires SysOk(name, grace, s) && Enabled(name, grace, s, step)
    ensures JobsOk(name, NextDb(name, grace, s, step).tasks, NextJobs(s, step))
  {
    match step
    case ClientCalls(op, at) =>
      if op.OpCheckpoint? { JobsUnderCheckpoint(name, s.db, s.jobs, op.id, op.checkpoint, at); }
      else { JobsUnderInserts(name, s.db, s.jobs, op, at); }
    case ForeignJob(j, n) => JobsUnderForeign(name, s.db.tasks, s.jobs, j, n);
    case SyncsTask => JobsUnderSync(name, grace, s);
    case EngineReplaces(c, at) => JobsUnderInserts(name, s.db, s.jobs, OpReplace(s.phase.wid, c), at);
    case EngineSaves(state, cursor, at) => JobsUnderInserts(name, s.db, s.jobs, OpSaveState(s.phase.wid, state, cursor), at);
    case EngineFinishes(at) =>
      if OpOf(grace, s, step).Some? { JobsUnderInserts(name, s.db, s.jobs, OpOf(grace, s, step).value.0, at); }
    case ReservesTasks(limit) => JobsUnderReserve(name, s.db, s.jobs, limit, s.phase.now);
    case RejectsSpec(reason) => JobsUnderFail(name, s.db, s.jobs, s.phase.todo[0].Id(), reason, s.phase.now);
    case LaunchesJob(j, _) =>
      FirstToLaunch(name, grace, s);
      JobsUnderLaunch(name, s.db.tasks, s.jobs, j, s.phase.todo[0]);
    case LaunchFails(reason) =>
      FirstToLaunch(name, grace, s);
      JobsUnderReset(name, s.db, s.jobs, s.phase.todo[0].Id(), reason, s.phase.now);
    case RecordsJob => JobsUnderBind(name, s.db, s.jobs, s.phase.row.Id(), s.phase.job, s.phase.now);
    case _ =>
  }

  lemma JobsUnderSync(name: Naming, grace: Time, s: Sys)
    requires SysOk(name, grace, s) && s.phase.Syncing? && s.phase.todo != []
    ensures JobsOk(name, NextDb(name, grace, s, SyncsTask).tasks, s.jobs)
  {
    SyncActionSound(name, grace, s);
    var row, now := s.phase.todo[0], s.phase.now;
    match SyncActionOf(grace, now, s.phase.listing, row)
    case Skip =>
    case Adopt(job) => JobsUnderBind(name, s.db, s.jobs, row.Id(), job, now);
    case Reclaim => JobsUnderReset(name, s.db, s.jobs, row.Id(), LOST, now);
    case Look(job) => JobsUnderObserve(name, s.db, s.jobs, row.Id(), job, now);
  }

  lemma StepOk(name: Naming, grace: Time, s: Sys, step: Step)
    requires SysOk(name, grace, s) && Enabled(name, grace, s, step)
    ensures SysOk(name, grace, Next(name, grace, s, step))
  {
    TablesStep(name, grace, s, step);
    JobsStep(name, grace, s, step);
    PhaseStep(name, grace, s, step);
  }

  // ---------------------------------------------------------------------------------
  // No step raises

  /** Nobody else holds a job that was launched for the task. */
  lemma OwnedNotTaken(name: Naming, tasks: TaskTable, jobs: Jobs, id: TaskId, j: JobId)
    requires KeyedById(tasks) && JobsOk(name, tasks, jobs) && j in jobs && jobs[j].owner == Some(id)
    ensures !JobTaken(tasks, id, j)
  {
    forall other | other in tasks && tasks[other].jobId == Some(j) ensures other == id { assert BoundOk(jobs, tasks[other]); }
  }

  lemma SyncCompletes(name: Naming, grace: Time, s: Sys)
    requires SysOk(name, grace, s) && s.phase.Syncing? && s.phase.todo != []
    ensures SyncNext(grace, s).Syncing?
  {
    SyncActionSound(name, grace, s);
    var row := s.phase.todo[0];
    match SyncActionOf(grace, s.phase.now, s.phase.listing, row)
    case Adopt(job) => OwnedNotTaken(name, s.db.tasks, s.jobs, row.Id(), job.jobId);
    case Look(job) => OwnedNotTaken(name, s.db.tasks, s.jobs, row.Id(), job.jobId);
    case _ =>
  }

  lemma LaunchCompletes(name: Naming, grace: Time, s: Sys, step: Step)
    requires SysOk(name, grace, s) && Enabled(name, grace, s, step) && (step.RejectsSpec? || step.LaunchFails? || step.RecordsJob?)
    ensures !NextPhase(grace, s, step).Idle?
  {
    if step.RecordsJob? {
      OwnedNotTaken(name, s.db.tasks, s.jobs, s.phase.row.Id(), s.phase.job.jobId);
    } else {
      FirstToLaunch(name, grace, s);
    }
  }

  /** Only a crash throws a pass back to where the next one starts: no transaction of the controller is ever refused. */
  lemma StepCompletes(name: Naming, grace: Time, s: Sys, step: Step)
    requires SysOk(name, grace, s) && Enabled(name, grace, s, step) && !step.Crashes? && !s.phase.Idle?
    ensures !NextPhase(grace, s, step).Idle?
  {
    match step
    case SyncsTask => SyncCompletes(name, grace, s);
    case RejectsSpec(_) => LaunchCompletes(name, grace, s, step);
    case LaunchFails(_) => LaunchCompletes(name, grace, s, step);
    case RecordsJob => LaunchCompletes(name, grace, s, step);
    case _ =>
  }
}
