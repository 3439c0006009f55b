// What a pass of the controller does to every task, told from the executor's listing and
// from what became of each launch.

module Passes {
  import opened Types
  import opened Tables
  import opened Integrity
  import opened Machine
  import opened Effects

  // ---------------------------------------------------------------------------------
  // The listing

  /** Of several jobs listed under one name the last counts. */
  ghost predicate LastNamed(listing: Listing, n: Text, i: int) {
    0 <= i < |listing| && listing[i].name == n && forall j | i < j < |listing| :: listing[j].name != n
  }

  ghost predicate LastWithId(listing: Listing, id: JobId, i: int) {
    0 <= i < |listing| && listing[i].jobId == id && forall j | i < j < |listing| :: listing[j].jobId != id
  }

  ghost predicate JobNamed(listing: Listing, n: Text, job: ExecutorJob) {
    exists i :: LastNamed(listing, n, i) && listing[i] == job
  }

  ghost predicate JobWithId(listing: Listing, id: JobId, job: ExecutorJob) {
    exists i :: LastWithId(listing, id, i) && listing[i] == job
  }

  /** The job of a task: the one listed with its job id, else the one listed under its name. */
  ghost predicate JobOf(listing: Listing, id: JobId, n: Text, job: ExecutorJob) {
    || JobWithId(listing, id, job)
    || ((forall e | e in listing :: e.jobId != id) && JobNamed(listing, n, job))
  }

  lemma {:induction false} ByNameExact(listing: Listing, n: Text)
    ensures match ByName(listing, n)
            case Some(job) => JobNamed(listing, n, job)
            case None => forall e | e in listing :: e.name != n
    decreases |listing|
  {
    if listing != [] {
      var last := |listing| - 1;
      if listing[last].name == n {
        assert LastNamed(listing, n, last);
      } else {
        ByNameExact(listing[..last], n);
        if ByName(listing[..last], n).Some? {
          var i :| LastNamed(listing[..last], n, i) && listing[..last][i] == ByName(listing, n).value;
          assert LastNamed(listing, n, i);
        }
      }
    }
  }

  lemma {:induction false} ByIdExact(listing: Listing, id: JobId)
    ensures match ById(listing, id)
            case Some(job) => JobWithId(listing, id, job)
            case None => forall e | e in listing :: e.jobId != id
    decreases |listing|
  {
    if listing != [] {
      var last := |listing| - 1;
      if listing[last].jobId == id {
        assert LastWithId(listing, id, last);
      } else {
        ByIdExact(listing[..last], id);
        if ById(listing[..last], id).Some? {
          var i :| LastWithId(listing[..last], id, i) && listing[..last][i] == ById(listing, id).value;
          assert LastWithId(listing, id, i);
        }
      }
    }
  }

  lemma OneJobNamed(listing: Listing, n: Text, a: ExecutorJob, b: ExecutorJob)
    requires JobNamed(listing, n, a) && JobNamed(listing, n, b)
    ensures a == b
  {
    var i :| LastNamed(listing, n, i) && listing[i] == a;
    var j :| LastNamed(listing, n, j) && listing[j] == b;
    assert !(i < j) && !(j < i);
  }

  lemma OneJobWithId(listing: Listing, id: JobId, a: ExecutorJob, b: ExecutorJob)
    requires JobWithId(listing, id, a) && JobWithId(listing, id, b)
    ensures a == b
  {
    var i :| LastWithId(listing, id, i) && listing[i] == a;
    var j :| LastWithId(listing, id, j) && listing[j] == b;
    assert !(i < j) && !(j < i);
  }

  /** The job that the loop finds for a bound task. */
  function Found(listing: Listing, id: JobId, n: Text): Option<ExecutorJob> {
    var known := ById(listing, id);
    if known.Some? then known else ByName(listing, n)
  }

  lemma FoundExact(listing: Listing, id: JobId, n: Text, job: ExecutorJob)
    ensures Found(listing, id, n) == Some(job) <==> JobOf(listing, id, n, job)
  {
    ByIdExact(listing, id);
    ByNameExact(listing, n);
    var known, named := ById(listing, id), ByName(listing, n);
    if JobWithId(listing, id, job) {
      var i :| LastWithId(listing, id, i) && listing[i] == job;
      assert listing[i] in listing;
      OneJobWithId(listing, id, job, known.value);
    } else if known.Some? {
      var i :| LastWithId(listing, id, i) && listing[i] == known.value;
      assert listing[i] in listing;
    } else if JobNamed(listing, n, job) {
      var i :| LastNamed(listing, n, i) && listing[i] == job;
      assert listing[i] in listing;
      OneJobNamed(listing, n, job, named.value);
    }
  }

  // ---------------------------------------------------------------------------------
  // The loop over the tasks

  /** A bound task that is not finished shows its listed job; any other is left alone. */
  ghost predicate LookedAt(listing: Listing, now: Time, was: TaskRow, row: TaskRow) {
    if was.jobId.Some? && was.status !in {Succeeded, Failed, Cancelled} then
      && (forall job | JobOf(listing, was.jobId.value, was.jobName, job) :: ObservedAs(was, row, job, now))
      && ((forall job :: !JobOf(listing, was.jobId.value, was.jobName, job)) ==> row == was)
    else row == was
  }

  /**
   * What the loop makes of a row. A SUBMITTING task under whose name a job is listed is
   * bound to it and shows it; one that has waited for the grace period goes back to
   * PENDING; every other task is looked at.
   */
  ghost predicate SyncFate(grace: Time, listing: Listing, now: Time, was: TaskRow, row: TaskRow) {
    if was.status == Submitting && exists e | e in listing :: e.name == was.jobName then
      forall job, seen | JobNamed(listing, was.jobName, job) && JobWithId(listing, job.jobId, seen) :: ObservedAs(was, row, seen, now)
    else if was.status == Submitting && was.startedAt.Some? && now - was.startedAt.value >= grace then
      GivenBack(was, row, Text("no matching SkyPilot job found after submission grace"), now)
    else LookedAt(listing, now, was, row)
  }

  /** Every task met its fate, and none came or went. */
  ghost predicate AllSynced(grace: Time, listing: Listing, now: Time, tasks: TaskTable, tasks': TaskTable) {
    tasks'.Keys == tasks.Keys && forall id | id in tasks && id in tasks' :: SyncFate(grace, listing, now, tasks[id], tasks'[id])
  }

  /** The row is the one in the table. */
  ghost predicate IsCurrent(tasks: TaskTable, row: TaskRow) {
    row.spec.taskId in tasks && tasks[row.spec.taskId] == row
  }

  /** Only this row may differ. */
  ghost predicate OnlyTask(tasks: TaskTable, tasks': TaskTable, id: TaskId) {
    id in tasks && id in tasks' && tasks' == tasks[id := tasks'[id]]
  }

  lemma SameRow(tasks: TaskTable, row: TaskRow)
    requires IsCurrent(tasks, row)
    ensures OnlyTask(tasks, tasks, row.spec.taskId)
  {
  }

  /** The second half of the body, by what it did to the tables. */
  lemma LookFate(name: Naming, db: Db, db': Db, listing: Listing, now: Time, task: TaskRow)
    requires IsCurrent(db.tasks, task)
    requires if task.jobId.Some? && !task.status.IsTerminal() && Found(listing, task.jobId.value, task.jobName).Some? then
               var r := ObserveJob(db, task.spec.taskId, Found(listing, task.jobId.value, task.jobName).value, now);
               r.Ok? && db' == r.value.0
             else db' == db
    ensures OnlyTask(db.tasks, db'.tasks, task.spec.taskId) && LookedAt(listing, now, task, db'.tasks[task.spec.taskId])
  {
    SameRow(db.tasks, task);
    if task.jobId.Some? && !task.status.IsTerminal() {
      var id, n := task.jobId.value, task.jobName;
      forall job ensures Found(listing, id, n) == Some(job) <==> JobOf(listing, id, n, job) { FoundExact(listing, id, n, job); }
      if Found(listing, id, n).Some? {
        ObserveEffect(name, db, task.spec.taskId, Found(listing, id, n).value, now);
      }
    }
  }

  lemma ResetFate(name: Naming, db: Db, db': Db, grace: Time, listing: Listing, now: Time, task: TaskRow)
    requires IsCurrent(db.tasks, task) && task.status.Submitting? && ByName(listing, task.jobName).None?
    requires task.startedAt.Some? && now - task.startedAt.value >= grace
    requires var r := ResetSubmission(db, task.spec.taskId, LOST, now); r.Ok? && db' == r.value.0
    ensures OnlyTask(db.tasks, db'.tasks, task.spec.taskId) && SyncFate(grace, listing, now, task, db'.tasks[task.spec.taskId])
  {
    ByNameExact(listing, task.jobName);
    ResetEffect(name, db, task.spec.taskId, LOST, now);
  }

  lemma BindFate(name: Naming, db: Db, m: Db, task: TaskRow, job: ExecutorJob, now: Time)
    requires IsCurrent(db.tasks, task)
    requires var r := BindJob(db, task.spec.taskId, job.jobId, job.status, now); r.Ok? && m == r.value.0
    ensures OnlyTask(db.tasks, m.tasks, task.spec.taskId) && IsCurrent(m.tasks, m.tasks[task.spec.taskId])
    ensures BoundAs(task, m.tasks[task.spec.taskId], job.jobId, job.status, now)
  {
    BindEffect(name, db, task.spec.taskId, job.jobId, job.status, now);
  }

  /** What is observed of a task just bound is observed of it. */
  lemma ObservedThrough(task: TaskRow, bound: TaskRow, row: TaskRow, job: ExecutorJob, seen: ExecutorJob, now: Time)
    requires BoundAs(task, bound, job.jobId, job.status, now) && ObservedAs(bound, row, seen, now)
    ensures ObservedAs(task, row, seen, now)
  {
  }

  lemma OnlyTaskOn(tasks: TaskTable, m: TaskTable, tasks': TaskTable, id: TaskId)
    requires OnlyTask(tasks, m, id) && OnlyTask(m, tasks', id)
    ensures OnlyTask(tasks, tasks', id)
  {
    assert tasks[id := m[id]][id := tasks'[id]] == tasks[id := tasks'[id]];
  }

  /** An adopted task shows the job that its new job id names. */
  lemma AdoptFate(grace: Time, listing: Listing, now: Time, task: TaskRow, bound: TaskRow, row: TaskRow, job: ExecutorJob)
    requires task.status.Submitting? && ByName(listing, task.jobName) == Some(job)
    requires BoundAs(task, bound, job.jobId, job.status, now) && LookedAt(listing, now, bound, row)
    ensures SyncFate(grace, listing, now, task, row)
  {
    ByNameExact(listing, task.jobName);
    var i :| LastNamed(listing, task.jobName, i) && listing[i] == job;
    assert listing[i] in listing;
    forall other, seen | JobNamed(listing, task.jobName, other) && JobWithId(listing, other.jobId, seen)
      ensures ObservedAs(task, row, seen, now)
    {
      OneJobNamed(listing, task.jobName, other, job);
      assert JobOf(listing, bound.jobId.value, bound.jobName, seen);
      ObservedThrough(task, bound, row, job, seen, now);
    }
  }

  lemma AdoptedFate(name: Naming, grace: Time, listing: Listing, now: Time, db: Db, m: Db, tasks': TaskTable, task: TaskRow, bound: TaskRow, job: ExecutorJob)
    requires IsCurrent(db.tasks, task) && task.status.Submitting? && ByName(listing, task.jobName) == Some(job)
    requires BindJob(db, task.spec.taskId, job.jobId, job.status, now) == Ok((m, bound))
    requires IsCurrent(m.tasks, bound) ==>
      OnlyTask(m.tasks, tasks', bound.spec.taskId) && LookedAt(listing, now, bound, tasks'[bound.spec.taskId])
    ensures OnlyTask(db.tasks, tasks', task.spec.taskId) && SyncFate(grace, listing, now, task, tasks'[task.spec.taskId])
  {
    BindFate(name, db, m, task, job, now);
    OnlyTaskOn(db.tasks, m.tasks, tasks', task.spec.taskId);
    AdoptFate(grace, listing, now, task, bound, tasks'[task.spec.taskId], job);
  }

  lemma LookIsFate(grace: Time, listing: Listing, now: Time, task: TaskRow, row: TaskRow)
    requires LookedAt(listing, now, task, row)
    requires task.status.Submitting? ==> ByName(listing, task.jobName).None?
    requires !(task.status.Submitting? && task.startedAt.Some? && now - task.startedAt.value >= grace)
    ensures SyncFate(grace, listing, now, task, row)
  {
    ByNameExact(listing, task.jobName);
  }

  /** The loop's invariant: the rows so far met their fates, the others are still current. */
  ghost predicate SyncedUpTo(grace: Time, listing: Listing, now: Time, was: TaskTable, rows: seq<TaskRow>, tasks: TaskTable, i: nat) {
    ListsTable(was, rows) && i <= |rows| ==>
      && tasks.Keys == was.Keys
      && (forall k | 0 <= k < i :: rows[k].spec.taskId in tasks && SyncFate(grace, listing, now, rows[k], tasks[rows[k].spec.taskId]))
      && (forall k | i <= k < |rows| :: IsCurrent(tasks, rows[k]))
  }

  lemma SyncedFirst(grace: Time, listing: Listing, now: Time, was: TaskTable, rows: seq<TaskRow>)
    ensures SyncedUpTo(grace, listing, now, was, rows, was, 0)
  {
    if ListsTable(was, rows) {
      forall k | 0 <= k < |rows| ensures IsCurrent(was, rows[k]) { assert rows[k] in rows; }
    }
  }

  lemma SyncedNext(grace: Time, listing: Listing, now: Time, was: TaskTable, rows: seq<TaskRow>, tasks: TaskTable, tasks': TaskTable, i: nat)
    requires i < |rows| && SyncedUpTo(grace, listing, now, was, rows, tasks, i)
    requires IsCurrent(tasks, rows[i]) ==>
      OnlyTask(tasks, tasks', rows[i].spec.taskId) && SyncFate(grace, listing, now, rows[i], tasks'[rows[i].spec.taskId])
    ensures SyncedUpTo(grace, listing, now, was, rows, tasks', i + 1)
  {
    if ListsTable(was, rows) {
      assert IsCurrent(tasks, rows[i]);
      forall k | 0 <= k < |rows| && k != i ensures rows[k].spec.taskId != rows[i].spec.taskId && rows[k].spec.taskId in was {
        assert rows[k] in rows && rows[k].Id() != rows[i].Id();
      }
      forall k | 0 <= k < i + 1 ensures SyncFate(grace, listing, now, rows[k], tasks'[rows[k].spec.taskId]) {
        if k < i { assert SyncFate(grace, listing, now, rows[k], tasks[rows[k].spec.taskId]); }
      }
    }
  }

  lemma SyncedLast(grace: Time, listing: Listing, now: Time, was: TaskTable, rows: seq<TaskRow>, tasks: TaskTable)
    requires KeyedById(was) && ListsTable(was, rows) && SyncedUpTo(grace, listing, now, was, rows, tasks, |rows|)
    ensures AllSynced(grace, listing, now, was, tasks)
  {
    forall id | id in was && id in tasks ensures SyncFate(grace, listing, now, was[id], tasks[id]) {
      assert was[id] in rows;
      var k :| 0 <= k < |rows| && rows[k] == was[id];
      assert SyncFate(grace, listing, now, rows[k], tasks[rows[k].spec.taskId]);
    }
  }

  // ---------------------------------------------------------------------------------
  // The launch loop

  /** What becomes of one task to launch: the handler's `managed_job` or the executor's `launch` may raise. */
  datatype LaunchOutcome =
    | NoSpec(reason: Text)
    | Unavailable(reason: Text)
    | Started(jobId: JobId, executorStatus: Text)

  /** Without a job specification the task fails, without an executor it is given back, and otherwise it is bound to its job. */
  ghost predicate LaunchFate(now: Time, was: TaskRow, outcome: LaunchOutcome, row: TaskRow) {
    match outcome
    case NoSpec(reason) => FailedAs(was, row, reason, now)
    case Unavailable(reason) => GivenBack(was, row, reason, now)
    case Started(job, executorStatus) => BoundAs(was, row, job, executorStatus, now)
  }

  /** The loop ends with the first task that finds no executor. */
  ghost predicate EndedBefore(outcomes: seq<LaunchOutcome>, k: nat)
    requires k <= |outcomes|
  {
    exists j | 0 <= j < k :: outcomes[j].Unavailable?
  }

  /** Every task up to there met its fate; those behind it, and all that were not to launch, stay as they were. */
  ghost predicate AllLaunched(now: Time, rows: seq<TaskRow>, outcomes: seq<LaunchOutcome>, tasks: TaskTable, tasks': TaskTable)
    requires |rows| <= |outcomes|
  {
    && tasks'.Keys == tasks.Keys
    && (forall k | 0 <= k < |rows| :: rows[k].spec.taskId in tasks' &&
          if EndedBefore(outcomes, k) then tasks'[rows[k].spec.taskId] == rows[k]
          else LaunchFate(now, rows[k], outcomes[k], tasks'[rows[k].spec.taskId]))
    && (forall id | id in tasks && id in tasks' && (forall r | r in rows :: r.spec.taskId != id) :: tasks'[id] == tasks[id])
  }

  /** The rows are current, and no task is to be launched twice. */
  ghost predicate AreCurrent(tasks: TaskTable, rows: seq<TaskRow>) {
    && (forall r | r in rows :: IsCurrent(tasks, r))
    && (forall i, j | 0 <= i < j < |rows| :: rows[i].spec.taskId != rows[j].spec.taskId)
  }

  /** The loop's invariant before row i. */
  ghost predicate LaunchedUpTo(now: Time, rows: seq<TaskRow>, outcomes: seq<LaunchOutcome>, was: TaskTable, tasks: TaskTable, i: nat) {
    AreCurrent(was, rows) && i <= |rows| <= |outcomes| ==>
      && tasks.Keys == was.Keys && !EndedBefore(outcomes, i)
      && (forall k | 0 <= k < i :: rows[k].spec.taskId in tasks && LaunchFate(now, rows[k], outcomes[k], tasks[rows[k].spec.taskId]))
      && (forall k | i <= k < |rows| :: IsCurrent(tasks, rows[k]))
      && (forall id | id in was && id in tasks && (forall r | r in rows :: r.spec.taskId != id) :: tasks[id] == was[id])
  }

  lemma LaunchedFirst(now: Time, rows: seq<TaskRow>, outcomes: seq<LaunchOutcome>, was: TaskTable)
    ensures LaunchedUpTo(now, rows, outcomes, was, was, 0)
  {
    if AreCurrent(was, rows) {
      forall k | 0 <= k < |rows| ensures IsCurrent(was, rows[k]) { assert rows[k] in rows; }
    }
  }

  /** One row met its fate. */
  ghost predicate LaunchedOne(now: Time, row: TaskRow, outcome: LaunchOutcome, tasks: TaskTable, tasks': TaskTable) {
    IsCurrent(tasks, row) ==>
      OnlyTask(tasks, tasks', row.spec.taskId) && LaunchFate(now, row, outcome, tasks'[row.spec.taskId])
  }

  lemma LaunchedKeeps(now: Time, rows: seq<TaskRow>, outcomes: seq<LaunchOutcome>, was: TaskTable, tasks: TaskTable, tasks': TaskTable, i: nat)
    requires i < |rows| <= |outcomes| && AreCurrent(was, rows) && LaunchedUpTo(now, rows, outcomes, was, tasks, i)
    requires LaunchedOne(now, rows[i], outcomes[i], tasks, tasks')
    ensures tasks'.Keys == was.Keys
    ensures forall k | 0 <= k <= i :: rows[k].spec.taskId in tasks' && LaunchFate(now, rows[k], outcomes[k], tasks'[rows[k].spec.taskId])
    ensures forall k | i < k < |rows| :: IsCurrent(tasks', rows[k])
    ensures forall id | id in was && id in tasks' && (forall r | r in rows :: r.spec.taskId != id) :: tasks'[id] == was[id]
  {
    assert IsCurrent(tasks, rows[i]) && rows[i] in rows;
    forall k | 0 <= k < |rows| && k != i ensures rows[k].spec.taskId != rows[i].spec.taskId {}
  }

  lemma LaunchedNext(now: Time, rows: seq<TaskRow>, outcomes: seq<LaunchOutcome>, was: TaskTable, tasks: TaskTable, tasks': TaskTable, i: nat)
    requires i < |rows| <= |outcomes| && LaunchedUpTo(now, rows, outcomes, was, tasks, i) && !outcomes[i].Unavailable?
    requires LaunchedOne(now, rows[i], outcomes[i], tasks, tasks')
    ensures LaunchedUpTo(now, rows, outcomes, was, tasks', i + 1)
  {
    if AreCurrent(was, rows) { LaunchedKeeps(now, rows, outcomes, was, tasks, tasks', i); }
  }

  lemma LaunchedStop(now: Time, rows: seq<TaskRow>, outcomes: seq<LaunchOutcome>, was: TaskTable, tasks: TaskTable, tasks': TaskTable, i: nat)
    requires i < |rows| <= |outcomes| && LaunchedUpTo(now, rows, outcomes, was, tasks, i) && outcomes[i].Unavailable?
    requires LaunchedOne(now, rows[i], outcomes[i], tasks, tasks') && AreCurrent(was, rows)
    ensures AllLaunched(now, rows, outcomes, was, tasks')
  {
    LaunchedKeeps(now, rows, outcomes, was, tasks, tasks', i);
    forall k | 0 <= k < |rows|
      ensures rows[k].spec.taskId in tasks' &&
        if EndedBefore(outcomes, k) then tasks'[rows[k].spec.taskId] == rows[k]
        else LaunchFate(now, rows[k], outcomes[k], tasks'[rows[k].spec.taskId])
    {
      if k > i { assert outcomes[i].Unavailable? && IsCurrent(tasks', rows[k]); }
    }
  }

  lemma LaunchedLast(now: Time, rows: seq<TaskRow>, outcomes: seq<LaunchOutcome>, was: TaskTable, tasks: TaskTable)
    requires |rows| <= |outcomes| && LaunchedUpTo(now, rows, outcomes, was, tasks, |rows|) && AreCurrent(was, rows)
    ensures AllLaunched(now, rows, outcomes, was, tasks)
  {
  }

  lemma RejectFate(name: Naming, db: Db, db': Db, now: Time, row: TaskRow, reason: Text)
    requires var r := FailTask(db, row.spec.taskId, reason, now); r.Ok? && db' == r.value.0
    ensures LaunchedOne(now, row, NoSpec(reason), db.tasks, db'.tasks)
  {
    FailEffect(name, db, row.spec.taskId, reason, now);
  }

  lemma UnavailableFate(name: Naming, db: Db, db': Db, now: Time, row: TaskRow, reason: Text)
    requires var r := ResetSubmission(db, row.spec.taskId, reason, now); r.Ok? && db' == r.value.0
    ensures LaunchedOne(now, row, Unavailable(reason), db.tasks, db'.tasks)
  {
    ResetEffect(name, db, row.spec.taskId, reason, now);
  }

  lemma StartedFate(name: Naming, db: Db, db': Db, now: Time, row: TaskRow, job: JobId, executorStatus: Text)
    requires var r := BindJob(db, row.spec.taskId, job, executorStatus, now); r.Ok? && db' == r.value.0
    ensures LaunchedOne(now, row, Started(job, executorStatus), db.tasks, db'.tasks)
  {
    BindEffect(name, db, row.spec.taskId, job, executorStatus, now);
  }
}
