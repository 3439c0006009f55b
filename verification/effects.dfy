// What each transaction on a task leaves, column by column: the reply, the row, the event
// announced, and that nothing else changed. Executor statuses are read letter by letter.

module Effects {
  import opened Types
  import opened Admission
  import opened Tables
  import opened Integrity
  import opened Reservation

  // ---------------------------------------------------------------------------------
  // Executor statuses

  /** The character is the letter, in either case. */
  predicate SameLetter(c: char, letter: char) {
    c == letter || ('A' <= letter <= 'Z' && c == letter - 'A' + 'a')
  }

  predicate Begins(t: string, word: string) {
    |word| <= |t| && forall i | 0 <= i < |word| :: SameLetter(t[i], word[i])
  }

  predicate Spells(t: string, word: string) {
    |t| == |word| && Begins(t, word)
  }

  predicate NamesCancelled(t: string) {
    Spells(t, "CANCELLED") || Spells(t, "CANCELLING")
  }

  predicate NamesRunning(t: string) {
    Spells(t, "RUNNING") || Spells(t, "RECOVERING") || Spells(t, "RECOVERING_INITIALIZING") || Spells(t, "RECOVERING_RESOURCES")
  }

  /** The status of a task whose job has the executor status `t`. */
  predicate Means(t: string, status: TaskStatus) {
    match status
    case Succeeded => Spells(t, "SUCCEEDED")
    case Failed => Begins(t, "FAILED")
    case Cancelled => NamesCancelled(t)
    case Running => NamesRunning(t)
    case Submitted => !Spells(t, "SUCCEEDED") && !Begins(t, "FAILED") && !NamesCancelled(t) && !NamesRunning(t)
    case _ => false
  }

  lemma {:induction false} UpperAt(s: string, i: nat)
    requires i < |s|
    ensures |Upper(s)| == |s| && Upper(s)[i] == if 'a' <= s[i] <= 'z' then s[i] - 'a' + 'A' else s[i]
    decreases |s|
  {
    if i > 0 {
      UpperAt(s[1..], i - 1);
    } else if |s| > 1 {
      UpperAt(s[1..], 0);
    }
  }

  lemma UpperLength(s: string)
    ensures |Upper(s)| == |s|
  {
    if s != [] { UpperAt(s, 0); }
  }

  lemma UpperBegins(t: string, word: string)
    requires forall i | 0 <= i < |word| :: !('a' <= word[i] <= 'z')
    ensures Begins(t, word) <==> word <= Upper(t)
  {
    UpperLength(t);
    forall i | 0 <= i < |t| && i < |word| ensures SameLetter(t[i], word[i]) <==> Upper(t)[i] == word[i] { UpperAt(t, i); }
    if Begins(t, word) { assert forall i | 0 <= i < |word| :: Upper(t)[i] == word[i]; }
    if word <= Upper(t) { assert forall i | 0 <= i < |word| :: Upper(t)[i] == word[i]; }
  }

  lemma UpperSpells(t: string, word: string)
    requires forall i | 0 <= i < |word| :: !('a' <= word[i] <= 'z')
    ensures Spells(t, word) <==> Upper(t) == word
  {
    UpperBegins(t, word);
    UpperLength(t);
  }

  lemma CancelledNamed(t: string)
    ensures NamesCancelled(t) <==> Upper(t) in {"CANCELLED", "CANCELLING"}
  {
    UpperSpells(t, "CANCELLED");
    UpperSpells(t, "CANCELLING");
  }

  lemma RunningNamed(t: string)
    ensures NamesRunning(t) <==> Upper(t) in {"RUNNING", "RECOVERING", "RECOVERING_INITIALIZING", "RECOVERING_RESOURCES"}
  {
    UpperSpells(t, "RUNNING");
    UpperSpells(t, "RECOVERING");
    UpperSpells(t, "RECOVERING_INITIALIZING");
    UpperSpells(t, "RECOVERING_RESOURCES");
  }

  /** `_task_status` is that meaning. */
  lemma StatusMeans(t: Text, status: TaskStatus)
    ensures Means(t.chars, status) <==> StatusOf(t) == status
  {
    UpperSpells(t.chars, "SUCCEEDED");
    UpperBegins(t.chars, "FAILED");
    CancelledNamed(t.chars);
    RunningNamed(t.chars);
  }

  // ---------------------------------------------------------------------------------
  // Rows and events

  /** Only the row `id` and the log may differ. */
  ghost predicate OneRow(db: Db, db': Db, id: TaskId) {
    && id in db.tasks && id in db'.tasks
    && db' == db.(tasks := db.tasks[id := db'.tasks[id]], events := db'.events)
  }

  /** Some other task holds the job id. */
  ghost predicate HeldElsewhere(tasks: TaskTable, id: TaskId, job: JobId) {
    exists other | other in tasks :: other != id && tasks[other].jobId == Some(job)
  }

  /** A task of a workflow announced itself under the next event id, and any other task did not. */
  ghost predicate Announced(events: seq<Event>, events': seq<Event>, row: TaskRow, status: TaskStatus, payload: EventPayload, now: Time) {
    if row.origin == None then events' == events
    else
      && |events'| == |events| + 1 && events'[..|events|] == events
      && var e := events'[|events|];
        && e.eventId == (if events == [] then 1 else events[|events| - 1].eventId + 1)
        && e.workflowId == row.origin.value.workflowId && e.componentKey == Some(row.origin.value.key)
        && e.generation == Some(row.origin.value.generation)
        && e.kind == TaskEvent(status) && e.payload == payload && e.createdAt == now
  }

  ghost predicate BoundAs(was: TaskRow, row: TaskRow, job: JobId, executorStatus: Text, now: Time) {
    && row.status == Submitted && row.jobId == Some(job) && row.executorStatus == Some(executorStatus) && row.updatedAt == now
    && SameIdentity(was, row) && row.recoveryCount == was.recoveryCount && row.checkpoint == was.checkpoint && row.result == was.result
    && row.lastError == was.lastError && row.startedAt == was.startedAt && row.completedAt == was.completedAt
  }

  /** A SUBMITTING or SUBMITTED task is bound to a job that no other task holds; anything else is refused. */
  lemma BindEffect(name: Naming, db: Db, id: TaskId, job: JobId, executorStatus: Text, now: Time)
    ensures var r, db' := BindJob(db, id, job, executorStatus, now), Apply(name, db, OpBind(id, job, executorStatus), now);
      if id !in db.tasks || db.tasks[id].status !in {Submitting, Submitted} then r == Err(TaskNotFound) && db' == db
      else if HeldElsewhere(db.tasks, id, job) then r == Err(IntegrityError) && db' == db
      else
        && OneRow(db, db', id) && r == Ok((db', db'.tasks[id])) && db'.events == db.events
        && BoundAs(db.tasks[id], db'.tasks[id], job, executorStatus, now)
  {
  }

  ghost predicate GivenBack(was: TaskRow, row: TaskRow, reason: Text, now: Time) {
    && row.status == Pending && row.startedAt == None && row.lastError == Some(reason) && row.updatedAt == now
    && SameIdentity(was, row) && row.jobId == was.jobId && row.executorStatus == was.executorStatus
    && row.recoveryCount == was.recoveryCount && row.checkpoint == was.checkpoint && row.result == was.result
    && row.completedAt == was.completedAt
  }

  /** A SUBMITTING task goes back to PENDING with the reason; any other is refused. */
  lemma ResetEffect(name: Naming, db: Db, id: TaskId, reason: Text, now: Time)
    ensures var r, db' := ResetSubmission(db, id, reason, now), Apply(name, db, OpReset(id, reason), now);
      if id !in db.tasks || db.tasks[id].status != Submitting then r == Err(TaskNotFound) && db' == db
      else
        && OneRow(db, db', id) && r == Ok((db', db'.tasks[id])) && db'.events == db.events
        && GivenBack(db.tasks[id], db'.tasks[id], reason, now)
  {
  }

  ghost predicate FailedAs(was: TaskRow, row: TaskRow, reason: Text, now: Time) {
    && row.status == Failed && row.lastError == Some(reason) && row.updatedAt == now && row.completedAt == Some(now)
    && SameIdentity(was, row) && row.jobId == was.jobId && row.executorStatus == was.executorStatus
    && row.recoveryCount == was.recoveryCount && row.checkpoint == was.checkpoint && row.result == was.result
    && row.startedAt == was.startedAt
  }

  /** Any stored task fails with the reason, and announces it unless it had failed before. */
  lemma FailEffect(name: Naming, db: Db, id: TaskId, reason: Text, now: Time)
    ensures var r, db' := FailTask(db, id, reason, now), Apply(name, db, OpFail(id, reason), now);
      if id !in db.tasks then r == Err(TaskNotFound) && db' == db
      else
        && OneRow(db, db', id) && r == Ok((db', db'.tasks[id])) && FailedAs(db.tasks[id], db'.tasks[id], reason, now)
        && if db.tasks[id].status == Failed then db'.events == db.events
           else Announced(db.events, db'.events, db.tasks[id], Failed, FailureReport(reason), now)
  {
  }

  /** The error column: none on success, the job's reason or a default text on failure, and the old one otherwise. */
  ghost predicate ErrorAs(was: TaskRow, job: ExecutorJob, status: TaskStatus, error: Option<Text>) {
    if status == Succeeded then error == None
    else if status == Failed then
      if job.failureReason.Some? && job.failureReason.value.chars != [] then error == job.failureReason
      else error == Some(Text("SkyPilot job ended as " + job.status.chars))
    else error == was.lastError
  }

  ghost predicate ObservedAs(was: TaskRow, row: TaskRow, job: ExecutorJob, now: Time) {
    && Means(job.status.chars, row.status) && ErrorAs(was, job, row.status, row.lastError)
    && row.jobId == Some(job.jobId) && row.executorStatus == Some(job.status) && row.recoveryCount == job.recoveryCount
    && row.result == (if row.status == Succeeded then Some(JobResult(job.jobId, job.recoveryCount)) else was.result)
    && row.updatedAt == now && row.completedAt == (if row.status in {Succeeded, Failed, Cancelled} then Some(now) else None)
    && SameIdentity(was, row) && row.checkpoint == was.checkpoint && row.startedAt == was.startedAt
  }

  lemma ObservedRowAs(row: TaskRow, job: ExecutorJob, now: Time)
    ensures ObservedAs(row, ObservedRow(row, job, now), job, now)
    ensures JobError(row, job) == ObservedRow(row, job, now).lastError
  {
    StatusMeans(job.status, StatusOf(job.status));
  }

  /** An observation records the job, under a job id that no other task holds, and announces a new status. */
  lemma ObserveEffect(name: Naming, db: Db, id: TaskId, job: ExecutorJob, now: Time)
    ensures var r, db' := ObserveJob(db, id, job, now), Apply(name, db, OpObserve(id, job), now);
      if id !in db.tasks then r == Err(TaskNotFound) && db' == db
      else if HeldElsewhere(db.tasks, id, job.jobId) then r == Err(IntegrityError) && db' == db
      else
        var was, row := db.tasks[id], db'.tasks[id];
        && OneRow(db, db', id) && r == Ok((db', row)) && ObservedAs(was, row, job, now)
        && if row.status == was.status then db'.events == db.events
           else Announced(db.events, db'.events, was, row.status, JobReport(job.jobId, job.status, job.recoveryCount, row.lastError), now)
  {
    if id in db.tasks { ObservedRowAs(db.tasks[id], job, now); }
  }

  /** A checkpoint is recorded once, another URI under its sequence is refused, and the head follows the greatest sequence. */
  lemma CheckpointEffect(name: Naming, db: Db, id: TaskId, c: CheckpointRef, now: Time)
    ensures var r, db' := RecordCheckpoint(db, id, c, now), Apply(name, db, OpCheckpoint(id, c), now);
      if id !in db.tasks then r == Err(TaskNotFound) && db' == db
      else if (id, c.sequence) in db.checkpoints && db.checkpoints[(id, c.sequence)].uri != c.uri then r == Err(BarrierConflict) && db' == db
      else
        var was, row := db.tasks[id], db'.tasks[id];
        && id in db'.tasks && r == Ok((db', row)) && db' == db.(tasks := db.tasks[id := row], checkpoints := db'.checkpoints)
        && (id, c.sequence) in db'.checkpoints && db'.checkpoints.Keys == db.checkpoints.Keys + {(id, c.sequence)}
        && (forall p | p in db.checkpoints :: db'.checkpoints[p] == db.checkpoints[p])
        && ((id, c.sequence) !in db.checkpoints ==> var p := db'.checkpoints[(id, c.sequence)];
              p.uri == c.uri && p.metadata == c.metadata && p.createdAt == now)
        && if was.checkpoint == None || was.checkpoint.value.sequence < c.sequence
           then row.checkpoint == Some(c) && row.updatedAt == now && row == was.(checkpoint := row.checkpoint, updatedAt := row.updatedAt)
           else row == was
  {
  }

  /** A reservation changes the tasks table alone, as reservation.dfy says. */
  lemma ReserveEffect(name: Naming, db: Db, limit: int, now: Time)
    requires KeyedById(db.tasks)
    ensures var (db', selected) := ReserveSubmissions(db, limit, now);
      && Apply(name, db, OpReserve(limit), now) == db' == db.(tasks := db'.tasks)
      && db'.tasks == Reserve(db.policies, db.tasks, limit, now).tasks && selected == Reserve(db.policies, db.tasks, limit, now).selected
      && (forall r | r in selected :: var id := r.spec.taskId;
            id in db.tasks && id in db'.tasks && db'.tasks[id] == r && Stamped(db.tasks[id], r, now))
      && (forall id | id in db.tasks :: id in db'.tasks && (db'.tasks[id] == db.tasks[id] || db'.tasks[id] in selected))
  {
    ReserveStamps(db.policies, db.tasks, limit, now);
  }

  /** A policy replaces the one of its class. */
  lemma PolicyEffect(name: Naming, db: Db, class_: Text, policy: ResourcePolicy, now: Time)
    ensures var db' := Apply(name, db, OpSetPolicy(class_, policy), now);
      && db' == db.(policies := db'.policies) && class_ in db'.policies && db'.policies[class_] == policy
      && forall c | c != class_ :: (c in db'.policies <==> c in db.policies) && (c in db.policies ==> db'.policies[c] == db.policies[c])
  {
  }
}
