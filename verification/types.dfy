// Records shared by every module: the enums, the rows of the store's tables, the
// specifications that clients submit and the jobs that the executor reports.

module Types {
  datatype Option<+T> = None | Some(value: T)
  {
    function GetOr(default: T): T {
      if Some? then value else default
    }
  }

  /** The exceptions the store raises; an `Err` means the transaction was rolled back. */
  datatype Error =
    | TaskNotFound
    | WorkflowNotFound
    | BarrierConflict
    | LeadershipLost
    | IntegrityError

  datatype Result<+T> = Ok(value: T) | Err(error: Error)

  /** A text column; wrapped, because most of them are only ever compared. */
  datatype Text = Text(chars: string)

  type TaskId = Text
  type WorkflowId = Text
  type JobId = Text
  type Time = real

  /** A JSON document that the store keeps and never looks into. */
  datatype Blob = Blob(code: nat)

  datatype Priority = Speculative | Normal | WorkflowStart | OrdinaryRecovery | BlockingRecovery
  {
    function Value(): int {
      match this
      case Speculative => 100
      case Normal => 500
      case WorkflowStart => 600
      case OrdinaryRecovery => 800
      case BlockingRecovery => 900
    }

    predicate IsRecovery() {
      Value() >= OrdinaryRecovery.Value()
    }
  }

  datatype TaskStatus = Pending | Submitting | Submitted | Running | Succeeded | Failed | Cancelled
  {
    predicate IsTerminal() {
      Succeeded? || Failed? || Cancelled?
    }

    predicate OccupiesSlot() {
      Submitting? || Submitted? || Running?
    }
  }

  datatype WorkflowStatus = Active | WfSucceeded | WfFailed | WfCancelled

  datatype ConsistencyMode = AllAtBarrier | Independent

  datatype CheckpointRef = CheckpointRef(uri: Text, sequence: int, metadata: Blob)

  datatype TaskSpec = TaskSpec(
    taskId: TaskId, kind: Text, resourceClass: Text, payload: Blob, metadata: Blob,
    priority: Priority, recoveryPriority: Priority, idempotencyKey: Option<Text>)

  datatype ComponentSpec = ComponentSpec(key: Text, task: TaskSpec, generation: nat, required: bool)

  /** A component of a static workflow; the parts that a client may leave out are optional. */
  datatype StaticComponent = StaticComponent(
    key: Text, generation: Option<int>, required: Option<bool>, taskId: Option<TaskId>, kind: Text, resourceClass: Text,
    payload: Blob, metadata: Blob, priority: Option<Priority>, recoveryPriority: Option<Priority>, idempotencyKey: Option<Text>)
  {
    function Generation(): int { generation.GetOr(0) }
  }

  /** The payload of a workflow: read by the static handler, opaque for any other. */
  datatype Payload = Components(components: seq<StaticComponent>) | OtherPayload(blob: Blob)

  /** The reducer state of a workflow: of the static handler, or opaque. */
  datatype State = StaticState(statuses: map<Text, EventKind>, lastBarrier: Option<int>) | OtherState(blob: Blob)

  /** The result of a finished workflow: of the static handler, or opaque. */
  datatype Outcome = StaticOutcome(results: map<Text, Option<JobResult>>, lastBarrier: Option<int>) | OtherOutcome(blob: Blob)

  datatype WorkflowSpec = WorkflowSpec(
    workflowId: WorkflowId, kind: Text, payload: Payload, metadata: Blob, mode: ConsistencyMode)

  datatype PolicyRow = PolicyRow(targetWorkers: nat, recoveryReserve: nat)

  /** The checks of `ResourcePolicy.__post_init__` hold of every stored policy. */
  type ResourcePolicy = p: PolicyRow | p.recoveryReserve < p.targetWorkers witness PolicyRow(1, 0)

  datatype ExecutorJob = ExecutorJob(
    jobId: JobId, name: Text, status: Text, recoveryCount: int, failureReason: Option<Text>)

  datatype JobResult = JobResult(jobId: JobId, recoveries: int)

  /** The workflow slot a task was created for. */
  datatype Origin = Origin(workflowId: WorkflowId, key: Text, generation: nat)

  /** A row of the tasks table; `spec`, `jobName`, `origin` and `createdAt` never change. */
  datatype TaskRow = TaskRow(
    spec: TaskSpec, jobName: Text, origin: Option<Origin>, status: TaskStatus,
    jobId: Option<JobId>, executorStatus: Option<Text>, recoveryCount: int,
    checkpoint: Option<CheckpointRef>, result: Option<JobResult>, lastError: Option<Text>,
    startedAt: Option<Time>, createdAt: Time, updatedAt: Time, completedAt: Option<Time>)
  {
    function Id(): TaskId { spec.taskId }

    function Class(): Text { spec.resourceClass }

    predicate IsRecovery() { spec.priority.IsRecovery() }
  }

  datatype WorkflowRow = WorkflowRow(
    workflowId: WorkflowId, kind: Text, payload: Payload, metadata: Blob, state: State,
    status: WorkflowStatus, mode: ConsistencyMode, cursor: nat, result: Option<Outcome>,
    lastError: Option<Text>, createdAt: Time, updatedAt: Time, completedAt: Option<Time>)

  datatype ComponentRow = ComponentRow(
    generation: nat, taskId: TaskId, required: bool, createdAt: Time, updatedAt: Time)

  /** `Task{Status}`, the announcement of a task's new status, or a committed barrier. */
  datatype EventKind = TaskEvent(status: TaskStatus) | BarrierCommitted

  datatype EventPayload =
    | FailureReport(reason: Text)
    | JobReport(jobId: JobId, executorStatus: Text, recoveryCount: int, error: Option<Text>)
    | BarrierReport(barrier: int)

  datatype Event = Event(
    eventId: nat, workflowId: WorkflowId, kind: EventKind, componentKey: Option<Text>,
    generation: Option<nat>, payload: EventPayload, createdAt: Time)

  datatype CheckpointRow = CheckpointRow(uri: Text, metadata: Blob, createdAt: Time)

  datatype CommitRow = CommitRow(
    controllerUri: Option<Text>, manifest: map<Text, CheckpointRef>, createdAt: Time)

  datatype BarrierCommit = BarrierCommit(
    workflowId: WorkflowId, barrier: int, controllerUri: Option<Text>,
    components: map<Text, CheckpointRef>, createdAt: Time)

  type TaskTable = map<TaskId, TaskRow>

  /** The primary key of the tasks table. */
  ghost predicate KeyedById(tasks: TaskTable) {
    forall id | id in tasks :: tasks[id].Id() == id
  }
}
