// The life of a task under the transactions that a controller and its clients issue. The
// store observes and fails a task whatever its status; the controller does so only in the
// states that `Lawful` names (machine.dfy proves that it does). Under lawful transactions
// terminal tasks never change again and the event log agrees with the task table;
// terminal.dfy says exactly which transactions rewrite a terminal row.

module Lifecycle {
  import opened Types
  import opened RowOrder
  import opened Admission
  import opened Tables
  import opened Integrity

  /** The guards that the store leaves to the controller. */
  ghost predicate Lawful(db: Db, op: Op) {
    match op
    case OpObserve(id, _) => id in db.tasks ==> db.tasks[id].status.Submitted? || db.tasks[id].status.Running?
    case OpFail(id, _) => id in db.tasks ==> db.tasks[id].status.Submitting?
    case _ => true
  }

  // ---------------------------------------------------------------------------------
  // One row

  /** What the columns of a row say about its status. */
  ghost predicate RowOk(row: TaskRow) {
    && (row.status.Pending? || row.status.Submitting? ==> row.jobId.None?)
    && (row.status.Pending? ==> row.startedAt.None?)
    && (row.status.Submitting? ==> row.startedAt.Some?)
    && (row.status.Submitted? || row.status.Running? || row.status.Succeeded? || row.status.Cancelled? ==> row.jobId.Some?)
    && (row.status.IsTerminal() <==> row.completedAt.Some?)
    && (row.status.Succeeded? <==> row.result.Some?)
  }

  /** Nothing but the checkpoint head changed. */
  ghost predicate SameButHead(a: TaskRow, b: TaskRow) {
    b == a.(checkpoint := b.checkpoint, updatedAt := b.updatedAt)
  }

  /** The steps a task may take. */
  predicate CanFollow(from: TaskStatus, to: TaskStatus) {
    match from
    case Pending => to.Submitting?
    case Submitting => to.Pending? || to.Submitted? || to.Failed?
    case Submitted | Running => to.Submitted? || to.Running? || to.IsTerminal()
    case _ => false
  }

  ghost predicate RowStep(a: TaskRow, b: TaskRow) {
    RowOk(b) && SameIdentity(a, b) && (SameButHead(a, b) || CanFollow(a.status, b.status))
  }

  ghost predicate RowsOk(tasks: TaskTable) {
    forall id | id in tasks :: RowOk(tasks[id])
  }

  /** Every row of the old table took a step, and every new row is ready to. */
  ghost predicate RowsStep(tasks: TaskTable, tasks': TaskTable) {
    && (forall id | id in tasks :: id in tasks' && RowStep(tasks[id], tasks'[id]))
    && (forall id | id in tasks' && id !in tasks :: tasks'[id].status.Pending?)
    && RowsOk(tasks')
  }

  lemma SameRowsStep(tasks: TaskTable)
    requires RowsOk(tasks)
    ensures RowsStep(tasks, tasks)
  {
    forall id | id in tasks ensures RowStep(tasks[id], tasks[id]) {}
  }

  lemma OneRowSteps(tasks: TaskTable, id: TaskId, row: TaskRow)
    requires RowsOk(tasks) && id in tasks && RowStep(tasks[id], row)
    ensures RowsStep(tasks, tasks[id := row])
  {
    SameRowsStep(tasks);
  }

  lemma InsertedRowsStep(name: Naming, tasks: TaskTable, tasks': TaskTable)
    requires RowsOk(tasks) && Inserts(name, tasks, tasks')
    ensures RowsStep(tasks, tasks')
  {
    forall id | id in tasks ensures RowStep(tasks[id], tasks'[id]) { assert RowOk(tasks[id]); }
  }

  lemma ReservedRowsStep(name: Naming, db: Db, limit: int, now: Time)
    requires TasksOk(name, db.tasks) && RowsOk(db.tasks)
    ensures RowsStep(db.tasks, ReserveSubmissions(db, limit, now).0.tasks)
  {
    ReserveOk(name, db.policies, db.tasks, limit, now);
    var tasks' := Reserve(db.policies, db.tasks, limit, now).tasks;
    forall id | id in db.tasks ensures RowStep(db.tasks[id], tasks'[id]) { assert RowOk(db.tasks[id]); }
  }

  /** The transactions that change no row of the tasks table, and only insert new ones. */
  predicate Inserting(op: Op) {
    op.OpSubmitTask? || op.OpSubmitWorkflow? || op.OpReplace? || op.OpSaveState? || op.OpFinish? || op.OpCommit? || op.OpSetPolicy?
  }

  lemma SubmitInserts(name: Naming, db: Db, spec: WorkflowSpec, specs: seq<ComponentSpec>, initial: State, now: Time)
    requires Intact(name, db)
    ensures Inserts(name, db.tasks, After(db, SubmitWorkflow(name, db, spec, specs, initial, now)).tasks)
  {
    if SubmitWorkflow(name, db, spec, specs, initial, now).Ok? { SubmitWorkflowOk(name, db, spec, specs, initial, now); }
  }

  lemma ReplaceInserts(name: Naming, db: Db, wid: WorkflowId, c: ComponentSpec, now: Time)
    requires Intact(name, db)
    ensures Inserts(name, db.tasks, After(db, ReplaceComponent(name, db, wid, c, now)).tasks)
  {
    if ReplaceComponent(name, db, wid, c, now).Ok? { ReplaceOk(name, db, wid, c, now); }
  }

  lemma SubmitTaskInserts(name: Naming, db: Db, spec: TaskSpec, now: Time)
    requires Intact(name, db)
    ensures Inserts(name, db.tasks, After(db, SubmitTask(name, db, spec, now)).tasks)
  {
    if SubmitTask(name, db, spec, now).Ok? { SubmitTaskOk(name, db, spec, now); }
  }

  lemma SameTasks(name: Naming, db: Db, op: Op, now: Time)
    requires op.OpSaveState? || op.OpFinish? || op.OpCommit? || op.OpSetPolicy?
    ensures Apply(name, db, op, now).tasks == db.tasks
  {
  }

  lemma InsertsOnly(name: Naming, db: Db, op: Op, now: Time)
    requires Intact(name, db) && Inserting(op)
    ensures Inserts(name, db.tasks, Apply(name, db, op, now).tasks)
  {
    match op
    case OpSubmitTask(spec) => SubmitTaskInserts(name, db, spec, now);
    case OpSubmitWorkflow(spec, specs, initial) => SubmitInserts(name, db, spec, specs, initial, now);
    case OpReplace(wid, c) => ReplaceInserts(name, db, wid, c, now);
    case _ => SameTasks(name, db, op, now);
  }

  /** A lawful transaction takes every row through a legal step. */
  lemma LawfulStep(name: Naming, db: Db, op: Op, now: Time)
    requires Intact(name, db) && RowsOk(db.tasks) && Lawful(db, op)
    ensures RowsStep(db.tasks, Apply(name, db, op, now).tasks)
  {
    if Inserting(op) {
      InsertsOnly(name, db, op, now);
      InsertedRowsStep(name, db.tasks, Apply(name, db, op, now).tasks);
    } else if op.OpReserve? {
      ReservedRowsStep(name, db, op.limit, now);
    } else {
      SameRowsStep(db.tasks);
      LawfulUpdate(name, db, op, now);
    }
  }

  lemma LawfulUpdate(name: Naming, db: Db, op: Op, now: Time)
    requires RowsOk(db.tasks) && Lawful(db, op) && !Inserting(op) && !op.OpReserve?
    ensures RowsStep(db.tasks, Apply(name, db, op, now).tasks)
  {
    match op
    case OpBind(id, job, status) => BindSteps(db, id, job, status, now);
    case OpReset(id, reason) => ResetSteps(db, id, reason, now);
    case OpFail(id, reason) => FailSteps(db, id, reason, now);
    case OpObserve(id, job) => ObserveSteps(db, id, job, now);
    case OpCheckpoint(id, c) => CheckpointSteps(db, id, c, now);
    case _ =>
  }

  lemma BindSteps(db: Db, id: TaskId, job: JobId, status: Text, now: Time)
    requires RowsOk(db.tasks)
    ensures RowsStep(db.tasks, After(db, BindJob(db, id, job, status, now)).tasks)
  {
    SameRowsStep(db.tasks);
    if BindJob(db, id, job, status, now).Ok? { OneRowSteps(db.tasks, id, Bound(db.tasks[id], job, status, now)); }
  }

  lemma ResetSteps(db: Db, id: TaskId, reason: Text, now: Time)
    requires RowsOk(db.tasks)
    ensures RowsStep(db.tasks, After(db, ResetSubmission(db, id, reason, now)).tasks)
  {
    SameRowsStep(db.tasks);
    if id in db.tasks && db.tasks[id].status.Submitting? { OneRowSteps(db.tasks, id, Unreserved(db.tasks[id], reason, now)); }
  }

  lemma FailSteps(db: Db, id: TaskId, reason: Text, now: Time)
    requires RowsOk(db.tasks) && (id in db.tasks ==> db.tasks[id].status.Submitting?)
    ensures RowsStep(db.tasks, After(db, FailTask(db, id, reason, now)).tasks)
  {
    SameRowsStep(db.tasks);
    if id in db.tasks { OneRowSteps(db.tasks, id, FailedRow(db.tasks[id], reason, now)); }
  }

  lemma ObserveSteps(db: Db, id: TaskId, job: ExecutorJob, now: Time)
    requires RowsOk(db.tasks) && (id in db.tasks ==> db.tasks[id].status.Submitted? || db.tasks[id].status.Running?)
    ensures RowsStep(db.tasks, After(db, ObserveJob(db, id, job, now)).tasks)
  {
    SameRowsStep(db.tasks);
    if id in db.tasks { OneRowSteps(db.tasks, id, ObservedRow(db.tasks[id], job, now)); }
  }

  lemma CheckpointSteps(db: Db, id: TaskId, c: CheckpointRef, now: Time)
    requires RowsOk(db.tasks)
    ensures RowsStep(db.tasks, After(db, RecordCheckpoint(db, id, c, now)).tasks)
  {
    SameRowsStep(db.tasks);
    if RecordCheckpoint(db, id, c, now).Ok? { OneRowSteps(db.tasks, id, RecordCheckpoint(db, id, c, now).value.1); }
  }

  // ---------------------------------------------------------------------------------
  // The event log agrees with the task table

  /** The statuses announced for a slot, in log order. */
  function TaskLog(events: seq<Event>, o: Origin): seq<TaskStatus> {
    if events == [] then []
    else
      var rest, last := TaskLog(events[..|events| - 1], o), events[|events| - 1];
      if last.kind.TaskEvent? && Slot(last) == Some(o) then rest + [last.kind.status] else rest
  }

  function Slot(e: Event): Option<Origin> {
    if e.componentKey.Some? && e.generation.Some? then Some(Origin(e.workflowId, e.componentKey.value, e.generation.value))
    else None
  }

  /**
   * A task that was never submitted announced nothing; a submitted one announced nothing
   * or its submission last; any other announced its status last. No status is announced
   * twice in a row, and after a terminal one nothing is.
   */
  ghost predicate Agrees(status: TaskStatus, log: seq<TaskStatus>) {
    && (status.Pending? || status.Submitting? ==> log == [])
    && (status.Submitted? ==> log == [] || log[|log| - 1].Submitted?)
    && (status.Running? || status.IsTerminal() ==> log != [] && log[|log| - 1] == status)
    && (forall i | 0 <= i < |log| - 1 :: log[i] != log[i + 1] && !log[i].IsTerminal())
  }

  ghost predicate HoldsSlot(tasks: TaskTable, id: TaskId, o: Origin) {
    id in tasks && tasks[id].origin == Some(o)
  }

  ghost predicate LogAgrees(db: Db) {
    && (forall id, o | HoldsSlot(db.tasks, id, o) :: Agrees(db.tasks[id].status, TaskLog(db.events, o)))
    && (forall o | TaskLog(db.events, o) != [] :: exists id :: HoldsSlot(db.tasks, id, o))
  }

  lemma AnnounceLogs(events: seq<Event>, row: TaskRow, status: TaskStatus, payload: EventPayload, now: Time, o: Origin)
    ensures TaskLog(Announce(events, row, status, payload, now), o)
         == TaskLog(events, o) + (if row.origin == Some(o) then [status] else [])
  {
    var events' := Announce(events, row, status, payload, now);
    if row.origin.Some? { assert events'[..|events'| - 1] == events; }
  }

  lemma SlotUnique(name: Naming, tasks: TaskTable, a: TaskId, b: TaskId, o: Origin)
    requires TasksOk(name, tasks) && HoldsSlot(tasks, a, o) && HoldsSlot(tasks, b, o)
    ensures a == b
  {
    assert a != b ==> Distinct(tasks[a], tasks[b]);
  }

  /** The events after a row took a step: announced if the status is new. */
  function EventsAfterStep(events: seq<Event>, a: TaskRow, status: TaskStatus, payload: EventPayload, now: Time): seq<Event> {
    if status == a.status then events else Announce(events, a, status, payload, now)
  }

  /** Announcing a new status keeps a log in agreement. */
  lemma AgreesStep(from: TaskStatus, to: TaskStatus, log: seq<TaskStatus>)
    requires Agrees(from, log) && from.OccupiesSlot() && CanFollow(from, to) && (from.Submitting? ==> to.Failed?)
    ensures Agrees(to, if to == from then log else log + [to])
  {
  }

  lemma AnnouncedSlot(name: Naming, db: Db, id: TaskId, row: TaskRow, payload: EventPayload, now: Time, other: TaskId, o: Origin)
    requires TasksOk(name, db.tasks) && LogAgrees(db) && id in db.tasks && row.origin == db.tasks[id].origin
    requires db.tasks[id].status.OccupiesSlot() && CanFollow(db.tasks[id].status, row.status)
    requires db.tasks[id].status.Submitting? ==> row.status.Failed?
    requires HoldsSlot(db.tasks[id := row], other, o)
    ensures Agrees(db.tasks[id := row][other].status, TaskLog(EventsAfterStep(db.events, db.tasks[id], row.status, payload, now), o))
  {
    assert HoldsSlot(db.tasks, other, o);
    AnnounceLogs(db.events, db.tasks[id], row.status, payload, now, o);
    if db.tasks[id].origin == Some(o) {
      SlotUnique(name, db.tasks, other, id, o);
      AgreesStep(db.tasks[id].status, row.status, TaskLog(db.events, o));
    }
  }

  /** The transactions that announce: one row takes a step and says so if its status is new. */
  lemma AnnouncedStep(name: Naming, db: Db, id: TaskId, row: TaskRow, payload: EventPayload, now: Time)
    requires TasksOk(name, db.tasks) && LogAgrees(db) && id in db.tasks && row.origin == db.tasks[id].origin
    requires db.tasks[id].status.OccupiesSlot() && CanFollow(db.tasks[id].status, row.status)
    requires db.tasks[id].status.Submitting? ==> row.status.Failed?
    ensures LogAgrees(db.(tasks := db.tasks[id := row],
                          events := EventsAfterStep(db.events, db.tasks[id], row.status, payload, now)))
  {
    var tasks', events := db.tasks[id := row], EventsAfterStep(db.events, db.tasks[id], row.status, payload, now);
    forall other, o | HoldsSlot(tasks', other, o) ensures Agrees(tasks'[other].status, TaskLog(events, o)) {
      AnnouncedSlot(name, db, id, row, payload, now, other, o);
    }
    forall o | TaskLog(events, o) != [] ensures exists other :: HoldsSlot(tasks', other, o) {
      AnnounceLogs(db.events, db.tasks[id], row.status, payload, now, o);
      var other :| HoldsSlot(db.tasks, other, o);
      assert HoldsSlot(tasks', other, o);
    }
  }

  /** Steps between the statuses that announce nothing. */
  ghost predicate Silent(a: TaskStatus, b: TaskStatus) {
    || a == b
    || ((a.Pending? || a.Submitting?) && (b.Pending? || b.Submitting? || b.Submitted?))
  }

  lemma SilentStep(name: Naming, db: Db, db': Db)
    requires TasksOk(name, db'.tasks) && LogAgrees(db) && Persists(db.tasks, db'.tasks)
    requires Quiet(db, db')
    requires forall id | id in db'.tasks && id !in db.tasks :: db'.tasks[id].status.Pending?
    ensures LogAgrees(db')
  {
    forall id, o | HoldsSlot(db'.tasks, id, o) ensures Agrees(db'.tasks[id].status, TaskLog(db'.events, o)) {
      if id in db.tasks {
        assert HoldsSlot(db.tasks, id, o);
      } else if TaskLog(db.events, o) != [] {
        var other :| HoldsSlot(db.tasks, other, o);
        SlotUnique(name, db'.tasks, other, id, o);
      }
    }
    forall o | TaskLog(db'.events, o) != [] ensures exists id :: HoldsSlot(db'.tasks, id, o) {
      var id :| HoldsSlot(db.tasks, id, o);
      assert HoldsSlot(db'.tasks, id, o);
    }
  }

  lemma BarrierSilent(events: seq<Event>, wid: WorkflowId, barrier: int, now: Time, o: Origin)
    ensures TaskLog(events + [BarrierEvent(events, wid, barrier, now)], o) == TaskLog(events, o)
  {
    var events' := events + [BarrierEvent(events, wid, barrier, now)];
    assert events'[..|events'| - 1] == events;
  }

  /** What the event log needs to know of a transaction other than observe and fail. */
  ghost predicate Quiet(db: Db, db': Db) {
    && (forall o :: TaskLog(db'.events, o) == TaskLog(db.events, o))
    && (forall id | id in db.tasks && id in db'.tasks :: Silent(db.tasks[id].status, db'.tasks[id].status))
  }

  lemma QuietBind(db: Db, id: TaskId, job: JobId, executorStatus: Text, now: Time, other: TaskId)
    requires other in db.tasks
    ensures var tasks := After(db, BindJob(db, id, job, executorStatus, now)).tasks;
      other in tasks && Silent(db.tasks[other].status, tasks[other].status)
  {
  }

  lemma QuietReset(db: Db, id: TaskId, reason: Text, now: Time, other: TaskId)
    requires other in db.tasks
    ensures var tasks := After(db, ResetSubmission(db, id, reason, now)).tasks;
      other in tasks && Silent(db.tasks[other].status, tasks[other].status)
  {
  }

  lemma QuietCheckpoint(db: Db, id: TaskId, c: CheckpointRef, now: Time, other: TaskId)
    requires other in db.tasks
    ensures var tasks := After(db, RecordCheckpoint(db, id, c, now)).tasks;
      other in tasks && Silent(db.tasks[other].status, tasks[other].status)
  {
  }

  lemma QuietReserve(name: Naming, db: Db, limit: int, now: Time, other: TaskId)
    requires TasksOk(name, db.tasks) && other in db.tasks
    ensures var tasks := Tables.ReserveSubmissions(db, limit, now).0.tasks;
      other in tasks && Silent(db.tasks[other].status, tasks[other].status)
  {
    ReserveOk(name, db.policies, db.tasks, limit, now);
  }

  lemma QuietUpdate(name: Naming, db: Db, op: Op, now: Time, id: TaskId)
    requires Lawful(db, op) && (op.OpBind? || op.OpReset? || op.OpCheckpoint?) && id in db.tasks
    ensures id in Apply(name, db, op, now).tasks && Silent(db.tasks[id].status, Apply(name, db, op, now).tasks[id].status)
  {
    match op
    case OpBind(task, job, status) => QuietBind(db, task, job, status, now, id);
    case OpReset(task, reason) => QuietReset(db, task, reason, now, id);
    case OpCheckpoint(task, c) => QuietCheckpoint(db, task, c, now, id);
    case _ =>
  }

  lemma QuietInsert(name: Naming, tasks: TaskTable, tasks': TaskTable, id: TaskId)
    requires Inserts(name, tasks, tasks') && id in tasks
    ensures id in tasks' && Silent(tasks[id].status, tasks'[id].status)
  {
  }

  lemma QuietStatuses(name: Naming, db: Db, op: Op, now: Time, id: TaskId)
    requires Intact(name, db) && Lawful(db, op) && !op.OpObserve? && !op.OpFail? && id in db.tasks
    ensures id in Apply(name, db, op, now).tasks && Silent(db.tasks[id].status, Apply(name, db, op, now).tasks[id].status)
  {
    if Inserting(op) {
      InsertsOnly(name, db, op, now);
      QuietInsert(name, db.tasks, Apply(name, db, op, now).tasks, id);
    } else if op.OpReserve? {
      QuietReserve(name, db, op.limit, now, id);
    } else {
      QuietUpdate(name, db, op, now, id);
    }
  }

  lemma QuietEvents(name: Naming, db: Db, op: Op, now: Time, o: Origin)
    requires Intact(name, db) && !op.OpObserve? && !op.OpFail?
    ensures TaskLog(Apply(name, db, op, now).events, o) == TaskLog(db.events, o)
  {
    if op.OpCommit? {
      BarrierSilent(db.events, op.wid, op.barrier, now, o);
    } else {
      ApplyKeeps(name, db, op, now);
    }
  }

  lemma QuietOp(name: Naming, db: Db, op: Op, now: Time)
    requires Intact(name, db) && Lawful(db, op) && !op.OpObserve? && !op.OpFail?
    ensures Quiet(db, Apply(name, db, op, now))
  {
    var db' := Apply(name, db, op, now);
    forall id | id in db.tasks && id in db'.tasks ensures Silent(db.tasks[id].status, db'.tasks[id].status) {
      QuietStatuses(name, db, op, now, id);
    }
    forall o ensures TaskLog(db'.events, o) == TaskLog(db.events, o) { QuietEvents(name, db, op, now, o); }
  }

  /** A lawful transaction keeps the log in agreement with the table. */
  lemma LogStep(name: Naming, db: Db, op: Op, now: Time)
    requires Intact(name, db) && RowsOk(db.tasks) && LogAgrees(db) && Lawful(db, op)
    ensures LogAgrees(Apply(name, db, op, now))
  {
    match op
    case OpObserve(id, job) =>
      if ObserveJob(db, id, job, now).Ok? {
        AnnouncedStep(name, db, id, ObservedRow(db.tasks[id], job, now), ObservedPayload(db.tasks[id], job), now);
      }
    case OpFail(id, reason) =>
      if id in db.tasks { AnnouncedStep(name, db, id, FailedRow(db.tasks[id], reason, now), FailureReport(reason), now); }
    case _ =>
      QuietOp(name, db, op, now);
      QuietLog(name, db, op, now);
  }

  lemma QuietLog(name: Naming, db: Db, op: Op, now: Time)
    requires Intact(name, db) && RowsOk(db.tasks) && LogAgrees(db) && Lawful(db, op)
    requires Quiet(db, Apply(name, db, op, now))
    ensures LogAgrees(Apply(name, db, op, now))
  {
    LawfulStep(name, db, op, now);
    ApplyKeeps(name, db, op, now);
    SilentStep(name, db, Apply(name, db, op, now));
  }
}
