// What the store itself does to a terminal task. `observe_job` and `fail_task` look at no
// status, so the store alone does not keep terminal tasks; this says exactly when a
// transaction rewrites the row of one, and when it changes its status. That none does in a
// run is the controller's doing.

module Terminal {
  import opened Types
  import opened RowOrder
  import opened Admission
  import opened Tables
  import opened Integrity
  import opened Lifecycle

  /** A failure of the task, or an accepted observation. */
  predicate Rewrites(db: Db, op: Op, id: TaskId) {
    || (op.OpFail? && op.id == id)
    || (op.OpObserve? && op.id == id && !JobTaken(db.tasks, id, op.job.jobId))
  }

  /** A failure of a task that has not failed, or an accepted observation of another status. */
  predicate Overwrites(db: Db, op: Op, id: TaskId)
    requires id in db.tasks
  {
    || (op.OpFail? && op.id == id && !db.tasks[id].status.Failed?)
    || (op.OpObserve? && op.id == id && StatusOf(op.job.status) != db.tasks[id].status && !JobTaken(db.tasks, id, op.job.jobId))
  }

  lemma BindKeepsTerminal(db: Db, id: TaskId, job: JobId, executorStatus: Text, now: Time, task: TaskId)
    requires task in db.tasks && db.tasks[task].status.IsTerminal()
    ensures var tasks := After(db, BindJob(db, id, job, executorStatus, now)).tasks; task in tasks && tasks[task] == db.tasks[task]
  {
  }

  lemma ResetKeepsTerminal(db: Db, id: TaskId, reason: Text, now: Time, task: TaskId)
    requires task in db.tasks && db.tasks[task].status.IsTerminal()
    ensures var tasks := After(db, ResetSubmission(db, id, reason, now)).tasks; task in tasks && tasks[task] == db.tasks[task]
  {
  }

  lemma CheckpointKeepsStatus(db: Db, id: TaskId, c: CheckpointRef, now: Time, task: TaskId)
    requires task in db.tasks
    ensures var tasks := After(db, RecordCheckpoint(db, id, c, now)).tasks; task in tasks && tasks[task].status == db.tasks[task].status
  {
  }

  lemma FailOverwrites(db: Db, id: TaskId, reason: Text, now: Time, task: TaskId)
    requires task in db.tasks
    ensures var tasks := After(db, FailTask(db, id, reason, now)).tasks;
      task in tasks && (tasks[task].status == db.tasks[task].status <==> !Overwrites(db, OpFail(id, reason), task))
  {
  }

  lemma ObserveOverwrites(db: Db, id: TaskId, job: ExecutorJob, now: Time, task: TaskId)
    requires task in db.tasks
    ensures var tasks := After(db, ObserveJob(db, id, job, now)).tasks;
      task in tasks && (tasks[task].status == db.tasks[task].status <==> !Overwrites(db, OpObserve(id, job), task))
  {
  }

  lemma UpdateOverwrites(name: Naming, db: Db, op: Op, now: Time, id: TaskId)
    requires id in db.tasks && db.tasks[id].status.IsTerminal() && !Inserting(op) && !op.OpReserve?
    ensures id in Apply(name, db, op, now).tasks
    ensures Apply(name, db, op, now).tasks[id].status == db.tasks[id].status <==> !Overwrites(db, op, id)
  {
    match op
    case OpBind(task, job, status) => BindKeepsTerminal(db, task, job, status, now, id);
    case OpReset(task, reason) => ResetKeepsTerminal(db, task, reason, now, id);
    case OpCheckpoint(task, c) => CheckpointKeepsStatus(db, task, c, now, id);
    case OpFail(task, reason) => FailOverwrites(db, task, reason, now, id);
    case OpObserve(task, job) => ObserveOverwrites(db, task, job, now, id);
    case _ =>
  }

  lemma ReserveKeepsTerminal(name: Naming, db: Db, limit: int, now: Time, id: TaskId)
    requires TasksOk(name, db.tasks) && id in db.tasks && db.tasks[id].status.IsTerminal()
    ensures var tasks := ReserveSubmissions(db, limit, now).0.tasks; id in tasks && tasks[id] == db.tasks[id]
  {
    ReserveOk(name, db.policies, db.tasks, limit, now);
  }

  /**
   * A terminal task keeps its status exactly if the transaction neither fails a task that
   * has not failed nor observes it, under a job id nobody else holds, in another status.
   */
  lemma TerminalKeptExactly(name: Naming, db: Db, op: Op, now: Time, id: TaskId)
    requires Intact(name, db) && id in db.tasks && db.tasks[id].status.IsTerminal()
    ensures id in Apply(name, db, op, now).tasks
    ensures Apply(name, db, op, now).tasks[id].status == db.tasks[id].status <==> !Overwrites(db, op, id)
  {
    if Inserting(op) {
      InsertsOnly(name, db, op, now);
    } else if op.OpReserve? {
      ReserveKeepsTerminal(name, db, op.limit, now, id);
    } else {
      UpdateOverwrites(name, db, op, now, id);
    }
  }

  lemma CheckpointKeepsRow(db: Db, id: TaskId, c: CheckpointRef, now: Time, task: TaskId)
    requires task in db.tasks
    ensures var tasks := After(db, RecordCheckpoint(db, id, c, now)).tasks; task in tasks && SameButHead(db.tasks[task], tasks[task])
  {
  }

  /** The row was left alone, or rewritten at a time that shows. */
  ghost predicate RowFate(db: Db, op: Op, now: Time, id: TaskId, tasks: TaskTable)
    requires id in db.tasks
  {
    && id in tasks
    && (!Rewrites(db, op, id) ==> SameButHead(db.tasks[id], tasks[id]))
    && (Rewrites(db, op, id) && db.tasks[id].completedAt != Some(now) ==> !SameButHead(db.tasks[id], tasks[id]))
  }

  lemma FailRewrites(db: Db, id: TaskId, reason: Text, now: Time, task: TaskId)
    requires task in db.tasks
    ensures RowFate(db, OpFail(id, reason), now, task, After(db, FailTask(db, id, reason, now)).tasks)
  {
  }

  lemma ObserveRewrites(db: Db, id: TaskId, job: ExecutorJob, now: Time, task: TaskId)
    requires task in db.tasks && db.tasks[task].status.IsTerminal()
    ensures RowFate(db, OpObserve(id, job), now, task, After(db, ObserveJob(db, id, job, now)).tasks)
  {
    if id == task && !JobTaken(db.tasks, id, job.jobId) {
      var row := After(db, ObserveJob(db, id, job, now)).tasks[id];
      assert row.status == StatusOf(job.status);
      assert row.status.IsTerminal() ==> row.completedAt == Some(now);
    }
  }

  lemma UpdateRewrites(name: Naming, db: Db, op: Op, now: Time, id: TaskId)
    requires id in db.tasks && db.tasks[id].status.IsTerminal() && !Inserting(op) && !op.OpReserve?
    ensures RowFate(db, op, now, id, Apply(name, db, op, now).tasks)
  {
    match op
    case OpBind(task, job, status) => BindKeepsTerminal(db, task, job, status, now, id);
    case OpReset(task, reason) => ResetKeepsTerminal(db, task, reason, now, id);
    case OpCheckpoint(task, c) => CheckpointKeepsRow(db, task, c, now, id);
    case OpFail(task, reason) => FailRewrites(db, task, reason, now, id);
    case OpObserve(task, job) => ObserveRewrites(db, task, job, now, id);
    case _ =>
  }

  /**
   * A terminal row stays as it is, but for its checkpoint head, exactly if the transaction
   * neither fails the task nor observes it under a job id that nobody else holds. Only at
   * the very time at which the task was completed can such a rewriting leave no trace.
   */
  lemma TerminalRowKeptExactly(name: Naming, db: Db, op: Op, now: Time, id: TaskId)
    requires Intact(name, db) && id in db.tasks && db.tasks[id].status.IsTerminal()
    ensures id in Apply(name, db, op, now).tasks
    ensures !Rewrites(db, op, id) ==> SameButHead(db.tasks[id], Apply(name, db, op, now).tasks[id])
    ensures db.tasks[id].completedAt != Some(now) ==>
      (SameButHead(db.tasks[id], Apply(name, db, op, now).tasks[id]) <==> !Rewrites(db, op, id))
  {
    if Inserting(op) {
      InsertsOnly(name, db, op, now);
    } else if op.OpReserve? {
      ReserveKeepsTerminal(name, db, op.limit, now, id);
    } else {
      UpdateRewrites(name, db, op, now, id);
    }
  }

  lemma {:induction false} UpperOfUpper(s: string)
    requires forall i | 0 <= i < |s| :: !('a' <= s[i] <= 'z')
    ensures Upper(s) == s
    decreases |s|
  {
    if s != [] {
      UpperOfUpper(s[1..]);
      assert s == [s[0]] + s[1..];
    }
  }

  const TASK := Text("t")

  /** A store with one task, which succeeded. */
  function OneSucceeded(name: Naming): Db {
    EMPTY_DB.(tasks := map[TASK :=
      TaskRow(TaskSpec(TASK, TASK, TASK, Blob(0), Blob(0), Normal, Normal, None), name.Of(TASK), None, Succeeded, Some(Text("1")),
              Some(Text("SUCCEEDED")), 0, None, Some(JobResult(Text("1"), 0)), None, Some(1.0), 0.0, 2.0, Some(2.0))])
  }

  /** Its own job, listed as running. */
  function StillRunning(name: Naming): ExecutorJob {
    ExecutorJob(Text("1"), name.Of(TASK), Text("RUNNING"), 0, None)
  }

  lemma RunningMeansRunning()
    ensures StatusOf(Text("RUNNING")).Running?
  {
    UpperOfUpper("RUNNING");
  }

  lemma OneSucceededIntact(name: Naming)
    ensures Intact(name, OneSucceeded(name))
  {
  }

  /** The store of `OneSucceededIntact` lets its task, which succeeded, run again. */
  lemma TerminalOverwritten(name: Naming)
    ensures OneSucceeded(name).tasks[TASK].status.Succeeded?
    ensures var tasks := After(OneSucceeded(name), ObserveJob(OneSucceeded(name), TASK, StillRunning(name), 3.0)).tasks;
      TASK in tasks && tasks[TASK].status.Running?
  {
    RunningMeansRunning();
    assert !JobTaken(OneSucceeded(name).tasks, TASK, Text("1"));
  }
}
