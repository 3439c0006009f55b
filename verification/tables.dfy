// The store's tables as one value, and every store transaction as a function on that
// value. A transaction that raises is an `Err`: nothing of it remains.
//
// The constraints are those of the schema: primary keys (the maps' keys and `KeyedById`),
// the UNIQUE columns of tasks, the UNIQUE task of workflow_components and the foreign keys.
// Nothing is assumed about the executor names; the UNIQUE job_name column refuses a collision.

module Tables {
  import opened Types
  import opened Admission

  /**
   * The executor name derived from a task id: any function at all. It is tabulated, which
   * loses nothing, because a run asks for the names of finitely many ids.
   */
  datatype Naming = Naming(names: map<TaskId, Text>, other: Text)
  {
    function Of(id: TaskId): Text {
      if id in names then names[id] else other
    }
  }

  datatype Db = Db(
    tasks: TaskTable,
    checkpoints: map<(TaskId, int), CheckpointRow>,
    workflows: map<WorkflowId, WorkflowRow>,
    components: map<(WorkflowId, Text), ComponentRow>,
    events: seq<Event>,
    commits: map<(WorkflowId, int), CommitRow>,
    policies: Policies)

  const EMPTY_DB := Db(map[], map[], map[], map[], [], map[], map[])

  // ---------------------------------------------------------------------------------
  // Tasks

  function NewRow(name: Naming, spec: TaskSpec, origin: Option<Origin>, now: Time): TaskRow {
    TaskRow(spec, name.Of(spec.taskId), origin, Pending, None, None, 0, None, None, None, None, now, now, None)
  }

  predicate HasKey(tasks: TaskTable, id: TaskId, key: Option<Text>) {
    id in tasks && key.Some? && tasks[id].spec.idempotencyKey == key
  }

  /** Some UNIQUE column of the tasks table refuses the new row. */
  predicate Conflicts(tasks: TaskTable, row: TaskRow) {
    || row.Id() in tasks
    || (exists id | id in tasks :: HasKey(tasks, id, row.spec.idempotencyKey))
    || (exists id | id in tasks :: tasks[id].jobName == row.jobName)
    || (row.origin.Some? && exists id | id in tasks :: tasks[id].origin == row.origin)
  }

  /** `_insert_task`: the new row, or the row already stored under the key or the id. */
  ghost function InsertTask(name: Naming, tasks: TaskTable, spec: TaskSpec, origin: Option<Origin>, now: Time)
    : Result<(TaskTable, TaskRow)>
  {
    var row := NewRow(name, spec, origin, now);
    if !Conflicts(tasks, row) then Ok((tasks[spec.taskId := row], row))
    else if exists id :: HasKey(tasks, id, spec.idempotencyKey) then
      var id :| HasKey(tasks, id, spec.idempotencyKey);
      Ok((tasks, tasks[id]))
    else if spec.taskId in tasks then Ok((tasks, tasks[spec.taskId]))
    else Err(IntegrityError)
  }

  ghost function SubmitTask(name: Naming, db: Db, spec: TaskSpec, now: Time): Result<(Db, TaskRow)> {
    match InsertTask(name, db.tasks, spec, None, now)
    case Ok((tasks, row)) => Ok((db.(tasks := tasks), row))
    case Err(e) => Err(e)
  }

  /** A complete listing of the table, each row once; nothing depends on its order. */
  ghost predicate ListsTable(tasks: TaskTable, rows: seq<TaskRow>) {
    && (forall r | r in rows :: r.Id() in tasks && tasks[r.Id()] == r)
    && (forall id | id in tasks :: tasks[id] in rows)
    && (forall i, j | 0 <= i < j < |rows| :: rows[i].Id() != rows[j].Id())
  }

  function ReserveSubmissions(db: Db, limit: int, now: Time): (Db, seq<TaskRow>) {
    var b := Reserve(db.policies, db.tasks, limit, now);
    (db.(tasks := b.tasks), b.selected)
  }

  /** Another task already holds the job id: the UNIQUE job_id column refuses the update. */
  predicate JobTaken(tasks: TaskTable, id: TaskId, job: JobId) {
    exists other | other in tasks :: other != id && tasks[other].jobId == Some(job)
  }

  function Bound(row: TaskRow, job: JobId, executorStatus: Text, now: Time): TaskRow {
    row.(status := Submitted, jobId := Some(job), executorStatus := Some(executorStatus), updatedAt := now)
  }

  ghost function BindJob(db: Db, id: TaskId, job: JobId, executorStatus: Text, now: Time): Result<(Db, TaskRow)> {
    if id !in db.tasks || !(db.tasks[id].status.Submitting? || db.tasks[id].status.Submitted?) then Err(TaskNotFound)
    else if JobTaken(db.tasks, id, job) then Err(IntegrityError)
    else
      var row := Bound(db.tasks[id], job, executorStatus, now);
      Ok((db.(tasks := db.tasks[id := row]), row))
  }

  function Unreserved(row: TaskRow, reason: Text, now: Time): TaskRow {
    row.(status := Pending, startedAt := None, lastError := Some(reason), updatedAt := now)
  }

  function ResetSubmission(db: Db, id: TaskId, reason: Text, now: Time): Result<(Db, TaskRow)> {
    if id !in db.tasks || !db.tasks[id].status.Submitting? then Err(TaskNotFound)
    else
      var row := Unreserved(db.tasks[id], reason, now);
      Ok((db.(tasks := db.tasks[id := row]), row))
  }

  function NextEventId(events: seq<Event>): nat {
    if events == [] then 1 else events[|events| - 1].eventId + 1
  }

  /** `_append_event`: only tasks of a workflow announce anything. */
  function Announce(events: seq<Event>, row: TaskRow, status: TaskStatus, payload: EventPayload, now: Time): seq<Event> {
    match row.origin
    case None => events
    case Some(o) =>
      events + [Event(NextEventId(events), o.workflowId, TaskEvent(status), Some(o.key), Some(o.generation), payload, now)]
  }

  function FailedRow(row: TaskRow, reason: Text, now: Time): TaskRow {
    row.(status := Failed, lastError := Some(reason), updatedAt := now, completedAt := Some(now))
  }

  function FailTask(db: Db, id: TaskId, reason: Text, now: Time): Result<(Db, TaskRow)> {
    if id !in db.tasks then Err(TaskNotFound)
    else
      var old_, row := db.tasks[id], FailedRow(db.tasks[id], reason, now);
      var events := if old_.status.Failed? then db.events
                    else Announce(db.events, old_, Failed, FailureReport(reason), now);
      Ok((db.(tasks := db.tasks[id := row], events := events), row))
  }

  function Upper(s: string): string {
    if s == [] then []
    else [if 'a' <= s[0] <= 'z' then s[0] - 'a' + 'A' else s[0]] + Upper(s[1..])
  }

  /** `_task_status`: the logical status that an executor status stands for. */
  function StatusOf(executorStatus: Text): TaskStatus {
    var s := Upper(executorStatus.chars);
    if s == "SUCCEEDED" then Succeeded
    else if "FAILED" <= s then Failed
    else if s in {"CANCELLED", "CANCELLING"} then Cancelled
    else if s in {"RUNNING", "RECOVERING", "RECOVERING_INITIALIZING", "RECOVERING_RESOURCES"} then Running
    else Submitted
  }

  function JobError(row: TaskRow, job: ExecutorJob): Option<Text> {
    match StatusOf(job.status)
    case Succeeded => None
    case Failed =>
      if job.failureReason.Some? && job.failureReason.value.chars != "" then job.failureReason
      else Some(Text("SkyPilot job ended as " + job.status.chars))
    case _ => row.lastError
  }

  function ObservedRow(row: TaskRow, job: ExecutorJob, now: Time): TaskRow {
    var status := StatusOf(job.status);
    row.(status := status, jobId := Some(job.jobId), executorStatus := Some(job.status),
         recoveryCount := job.recoveryCount,
         result := if status.Succeeded? then Some(JobResult(job.jobId, job.recoveryCount)) else row.result,
         lastError := JobError(row, job), updatedAt := now,
         completedAt := if status.IsTerminal() then Some(now) else None)
  }

  function ObservedPayload(row: TaskRow, job: ExecutorJob): EventPayload {
    JobReport(job.jobId, job.status, job.recoveryCount, JobError(row, job))
  }

  ghost function ObserveJob(db: Db, id: TaskId, job: ExecutorJob, now: Time): Result<(Db, TaskRow)> {
    if id !in db.tasks then Err(TaskNotFound)
    else if JobTaken(db.tasks, id, job.jobId) then Err(IntegrityError)
    else
      var old_, row := db.tasks[id], ObservedRow(db.tasks[id], job, now);
      var events := if row.status == old_.status then db.events
                    else Announce(db.events, old_, row.status, ObservedPayload(old_, job), now);
      Ok((db.(tasks := db.tasks[id := row], events := events), row))
  }

  // ---------------------------------------------------------------------------------
  // Checkpoints

  function RecordCheckpoint(db: Db, id: TaskId, c: CheckpointRef, now: Time): Result<(Db, TaskRow)> {
    if id !in db.tasks then Err(TaskNotFound)
    else if (id, c.sequence) in db.checkpoints && db.checkpoints[(id, c.sequence)].uri != c.uri then Err(BarrierConflict)
    else
      var checkpoints := if (id, c.sequence) in db.checkpoints then db.checkpoints
                         else db.checkpoints[(id, c.sequence) := CheckpointRow(c.uri, c.metadata, now)];
      var old_ := db.tasks[id];
      var row := if old_.checkpoint.None? || c.sequence > old_.checkpoint.value.sequence
                 then old_.(checkpoint := Some(c), updatedAt := now) else old_;
      Ok((db.(checkpoints := checkpoints, tasks := db.tasks[id := row]), row))
  }

  // ---------------------------------------------------------------------------------
  // Workflows

  /** The UNIQUE task_id column: another component row already names the task. */
  predicate ComponentTaken(components: map<(WorkflowId, Text), ComponentRow>, slot: (WorkflowId, Text), task: TaskId) {
    exists other | other in components :: other != slot && components[other].taskId == task
  }

  /** A child task and the component row that names it. */
  ghost function PutComponent(name: Naming, db: Db, wid: WorkflowId, c: ComponentSpec, createdAt: Time, now: Time): Result<(Db, TaskRow)> {
    match InsertTask(name, db.tasks, c.task, Some(Origin(wid, c.key, c.generation)), now)
    case Err(e) => Err(e)
    case Ok((tasks, row)) =>
      if wid !in db.workflows || ComponentTaken(db.components, (wid, c.key), row.Id()) then Err(IntegrityError)
      else
        var component := ComponentRow(c.generation, row.Id(), c.required, createdAt, now);
        Ok((db.(tasks := tasks, components := db.components[(wid, c.key) := component]), row))
  }

  /** The loop of `submit_workflow` over its components. */
  ghost function AddComponents(name: Naming, db: Db, wid: WorkflowId, specs: seq<ComponentSpec>, now: Time): Result<Db>
    decreases |specs|
  {
    if specs == [] then Ok(db)
    else if (wid, specs[0].key) in db.components then Err(IntegrityError)
    else
      match PutComponent(name, db, wid, specs[0], now, now)
      case Err(e) => Err(e)
      case Ok((db', _)) => AddComponents(name, db', wid, specs[1..], now)
  }

  function NewWorkflow(spec: WorkflowSpec, initial: State, now: Time): WorkflowRow {
    WorkflowRow(spec.workflowId, spec.kind, spec.payload, spec.metadata, initial, Active, spec.mode, 0, None, None, now, now, None)
  }

  ghost function SubmitWorkflow(name: Naming, db: Db, spec: WorkflowSpec, specs: seq<ComponentSpec>, initial: State, now: Time)
    : Result<(Db, WorkflowRow)>
  {
    if spec.workflowId in db.workflows then Err(IntegrityError)
    else
      var row := NewWorkflow(spec, initial, now);
      match AddComponents(name, db.(workflows := db.workflows[spec.workflowId := row]), spec.workflowId, specs, now)
      case Err(e) => Err(e)
      case Ok(db') => Ok((db', row))
  }

  /** The child tasks of a workflow by component key. */
  function ComponentTasks(db: Db, wid: WorkflowId): map<Text, TaskRow> {
    map slot | slot in db.components && slot.0 == wid && db.components[slot].taskId in db.tasks
      :: slot.1 := db.tasks[db.components[slot].taskId]
  }

  ghost function ReplaceComponent(name: Naming, db: Db, wid: WorkflowId, c: ComponentSpec, now: Time): Result<(Db, TaskRow)> {
    var slot := (wid, c.key);
    if slot in db.components && c.generation <= db.components[slot].generation then
      if db.components[slot].taskId in db.tasks then Ok((db, db.tasks[db.components[slot].taskId])) else Err(IntegrityError)
    else
      PutComponent(name, db, wid, c, if slot in db.components then db.components[slot].createdAt else now, now)
  }

  /** The events of one workflow with lo < id <= hi, in id order. */
  function EventsBetween(events: seq<Event>, wid: WorkflowId, lo: nat, hi: nat): seq<Event> {
    if events == [] then []
    else
      var rest, last := EventsBetween(events[..|events| - 1], wid, lo, hi), events[|events| - 1];
      if last.workflowId == wid && lo < last.eventId <= hi then rest + [last] else rest
  }

  function LastEventId(events: seq<Event>): nat {
    if events == [] then 0 else events[|events| - 1].eventId
  }

  /** `get_workflow_events`: everything after the cursor. */
  function EventsAfter(events: seq<Event>, wid: WorkflowId, after: nat): seq<Event> {
    EventsBetween(events, wid, after, LastEventId(events))
  }

  function SaveState(db: Db, wid: WorkflowId, state: State, cursor: nat, now: Time): Result<(Db, WorkflowRow)> {
    if wid !in db.workflows then Err(WorkflowNotFound)
    else
      var row := db.workflows[wid].(state := state, cursor := cursor, updatedAt := now);
      Ok((db.(workflows := db.workflows[wid := row]), row))
  }

  function FinishWorkflow(db: Db, wid: WorkflowId, status: WorkflowStatus, result: Option<Outcome>, error: Option<Text>, now: Time)
    : Result<(Db, WorkflowRow)>
  {
    if wid !in db.workflows then Err(WorkflowNotFound)
    else
      var row := db.workflows[wid].(status := status, result := result, lastError := error, updatedAt := now, completedAt := Some(now));
      Ok((db.(workflows := db.workflows[wid := row]), row))
  }

  // ---------------------------------------------------------------------------------
  // Barriers

  /** Required components of a workflow, joined with their tasks. */
  predicate IsRequired(db: Db, slot: (WorkflowId, Text), wid: WorkflowId) {
    slot in db.components && slot.0 == wid && db.components[slot].required && db.components[slot].taskId in db.tasks
  }

  function HeadOf(db: Db, slot: (WorkflowId, Text)): Option<CheckpointRef>
    requires slot in db.components && db.components[slot].taskId in db.tasks
  {
    db.tasks[db.components[slot].taskId].checkpoint
  }

  /** No required component is missing a checkpoint with the barrier's sequence. */
  predicate EveryHeadAt(db: Db, wid: WorkflowId, barrier: int) {
    forall slot | slot in db.components && IsRequired(db, slot, wid) ::
      HeadOf(db, slot).Some? && HeadOf(db, slot).value.sequence == barrier
  }

  function ManifestOf(db: Db, wid: WorkflowId): map<Text, CheckpointRef> {
    map slot | slot in db.components && IsRequired(db, slot, wid) && HeadOf(db, slot).Some?
      :: slot.1 := HeadOf(db, slot).value
  }

  function BarrierEvent(events: seq<Event>, wid: WorkflowId, barrier: int, now: Time): Event {
    Event(NextEventId(events), wid, BarrierCommitted, None, None, BarrierReport(barrier), now)
  }

  function CommitBarrier(db: Db, wid: WorkflowId, barrier: int, uri: Option<Text>, now: Time): Result<(Db, BarrierCommit)> {
    if wid !in db.workflows then Err(WorkflowNotFound)
    else if !EveryHeadAt(db, wid, barrier) then Err(BarrierConflict)
    else
      var manifest := ManifestOf(db, wid);
      if (wid, barrier) in db.commits then
        var existing := db.commits[(wid, barrier)];
        if existing.manifest != manifest || existing.controllerUri != uri then Err(BarrierConflict)
        else Ok((db, BarrierCommit(wid, barrier, uri, manifest, existing.createdAt)))
      else
        var commits := db.commits[(wid, barrier) := CommitRow(uri, manifest, now)];
        Ok((db.(commits := commits, events := db.events + [BarrierEvent(db.events, wid, barrier, now)]),
            BarrierCommit(wid, barrier, uri, manifest, now)))
  }

  // ---------------------------------------------------------------------------------
  // Any client's transactions

  datatype Op =
    | OpSubmitTask(spec: TaskSpec)
    | OpSetPolicy(class_: Text, policy: ResourcePolicy)
    | OpReserve(limit: int)
    | OpBind(id: TaskId, jobId: JobId, executorStatus: Text)
    | OpReset(id: TaskId, reason: Text)
    | OpFail(id: TaskId, reason: Text)
    | OpObserve(id: TaskId, job: ExecutorJob)
    | OpCheckpoint(id: TaskId, checkpoint: CheckpointRef)
    | OpSubmitWorkflow(wfSpec: WorkflowSpec, components: seq<ComponentSpec>, initial: State)
    | OpReplace(wid: WorkflowId, component: ComponentSpec)
    | OpSaveState(wid: WorkflowId, state: State, cursor: nat)
    | OpFinish(wid: WorkflowId, status: WorkflowStatus, result: Option<Outcome>, error: Option<Text>)
    | OpCommit(wid: WorkflowId, barrier: int, uri: Option<Text>)

  ghost function After<T>(db: Db, r: Result<(Db, T)>): Db {
    match r case Ok((db', _)) => db' case Err(_) => db
  }

  /** The tables after one transaction; a failed one is rolled back. */
  ghost function Apply(name: Naming, db: Db, op: Op, now: Time): Db {
    match op
    case OpSubmitTask(spec) => After(db, SubmitTask(name, db, spec, now))
    case OpSetPolicy(c, p) => db.(policies := db.policies[c := p])
    case OpReserve(limit) => ReserveSubmissions(db, limit, now).0
    case OpBind(id, job, status) => After(db, BindJob(db, id, job, status, now))
    case OpReset(id, reason) => After(db, ResetSubmission(db, id, reason, now))
    case OpFail(id, reason) => After(db, FailTask(db, id, reason, now))
    case OpObserve(id, job) => After(db, ObserveJob(db, id, job, now))
    case OpCheckpoint(id, c) => After(db, RecordCheckpoint(db, id, c, now))
    case OpSubmitWorkflow(spec, components, initial) => After(db, SubmitWorkflow(name, db, spec, components, initial, now))
    case OpReplace(wid, c) => After(db, ReplaceComponent(name, db, wid, c, now))
    case OpSaveState(wid, state, cursor) => After(db, SaveState(db, wid, state, cursor, now))
    case OpFinish(wid, status, result, error) => After(db, FinishWorkflow(db, wid, status, result, error, now))
    case OpCommit(wid, barrier, uri) => After(db, CommitBarrier(db, wid, barrier, uri, now))
  }
}
