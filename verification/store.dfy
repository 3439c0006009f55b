// `SwarmStore`: the tables as mutable fields, every public method one transaction. Each
// method is proved to do what its function in tables.dfy, admission.dfy or lease.dfy says.

module Store {
  import opened Types
  import opened RowOrder
  import opened Admission
  import opened Tables
  import opened Integrity
  import opened Barriers
  import opened Lease

  /** Every active workflow once; the order is left open. */
  ghost predicate ListsActive(workflows: map<WorkflowId, WorkflowRow>, ids: seq<WorkflowId>) {
    && (forall wid :: wid in ids <==> wid in workflows && workflows[wid].status.Active?)
    && (forall i, j | 0 <= i < j < |ids| :: ids[i] != ids[j])
  }

  /** What the caller of a transaction gets. */
  function Reply<T>(r: Result<(Db, T)>): Result<T> {
    match r case Ok((_, value)) => Ok(value) case Err(e) => Err(e)
  }

  class SwarmStore {
    const name: Naming
    var tasks: TaskTable
    var checkpoints: map<(TaskId, int), CheckpointRow>
    var workflows: map<WorkflowId, WorkflowRow>
    var components: map<(WorkflowId, Text), ComponentRow>
    var events: seq<Event>
    var commits: map<(WorkflowId, int), CommitRow>
    var policies: Policies
    var leadership: LeaseRow

    ghost function Contents(): Db
      reads this
    {
      Db(tasks, checkpoints, workflows, components, events, commits, policies)
    }

    ghost predicate Valid()
      reads this
    {
      Intact(name, Contents())
    }

    constructor (naming: Naming)
      ensures name == naming && Contents() == EMPTY_DB && leadership == None && Valid()
    {
      name := naming;
      tasks, checkpoints, workflows, components := map[], map[], map[], map[];
      events, commits, policies, leadership := [], map[], map[], None;
    }

    // -------------------------------------------------------------------------------
    // Tasks

    /** `_insert_task`, inside the transaction of a caller. */
    method InsertRow(spec: TaskSpec, origin: Option<Origin>, now: Time) returns (r: Result<TaskRow>)
      requires TasksOk(name, tasks)
      modifies this`tasks
      ensures match InsertTask(name, old(tasks), spec, origin, now)
              case Ok((tasks', row)) => r == Ok(row) && tasks == tasks'
              case Err(e) => r == Err(e) && tasks == old(tasks)
    {
      var row := NewRow(name, spec, origin, now);
      if !Conflicts(tasks, row) {
        tasks := tasks[spec.taskId := row];
        return Ok(row);
      }
      if id :| id in tasks && HasKey(tasks, id, spec.idempotencyKey) {
        forall other | HasKey(tasks, other, spec.idempotencyKey) ensures other == id {
          OneKeyHolder(name, tasks, other, id, spec.idempotencyKey);
        }
        return Ok(tasks[id]);
      }
      assert forall id :: !HasKey(tasks, id, spec.idempotencyKey);
      if spec.taskId in tasks {
        return Ok(tasks[spec.taskId]);
      }
      return Err(IntegrityError);
    }

    method SubmitTask(spec: TaskSpec, now: Time) returns (r: Result<TaskRow>)
      requires TasksOk(name, tasks)
      modifies this`tasks
      ensures Contents() == After(old(Contents()), Tables.SubmitTask(name, old(Contents()), spec, now))
      ensures r == Reply(Tables.SubmitTask(name, old(Contents()), spec, now))
    {
      r := InsertRow(spec, None, now);
    }

    method GetTask(id: TaskId) returns (r: Result<TaskRow>)
      ensures r == if id in tasks then Ok(tasks[id]) else Err(TaskNotFound)
    {
      r := if id in tasks then Ok(tasks[id]) else Err(TaskNotFound);
    }

    /** `list_tasks`: every row once; the order is left open. */
    method ListTasks() returns (rows: seq<TaskRow>)
      requires KeyedById(tasks)
      ensures ListsTable(tasks, rows)
    {
      rows := [];
      var ids := tasks.Keys;
      while ids != {}
        invariant ids <= tasks.Keys
        invariant forall r | r in rows :: r.Id() in tasks && r.Id() !in ids && tasks[r.Id()] == r
        invariant forall id | id in tasks && id !in ids :: tasks[id] in rows
        invariant forall i, j | 0 <= i < j < |rows| :: rows[i].Id() != rows[j].Id()
        decreases |ids|
      {
        var id :| id in ids;
        ids := ids - {id};
        rows := rows + [tasks[id]];
      }
    }

    method SetResourcePolicy(class_: Text, policy: ResourcePolicy)
      modifies this`policies
      ensures policies == old(policies)[class_ := policy]
    {
      policies := policies[class_ := policy];
    }

    /** The rows counted by class, for the classes that occupy any slot. */
    method CountActive() returns (active: map<Text, nat>)
      ensures forall c :: Counted(active, c) == ActiveCount(tasks, c)
    {
      active := map[];
      var ids := set id | id in tasks && tasks[id].status.OccupiesSlot();
      ghost var seen: set<TaskId> := {};
      assert CountsSeen(tasks, seen, active);
      while ids != {}
        invariant ids !! seen && forall id :: id in ids + seen <==> id in tasks && tasks[id].status.OccupiesSlot()
        invariant CountsSeen(tasks, seen, active)
        decreases |ids|
      {
        var id :| id in ids;
        ids := ids - {id};
        CountsOneMore(tasks, seen, active, id);
        active := active[tasks[id].Class() := Counted(active, tasks[id].Class()) + 1];
        seen := seen + {id};
      }
      AllCounted(tasks, seen, active);
    }

    /**
     * `reserve_submissions`. The loop keeps its own slot counters, and they equal the true
     * counts of the table at every turn (`AtTurn`).
     */
    method ReserveSubmissions(limit: int, now: Time) returns (selected: seq<TaskRow>)
      requires KeyedById(tasks)
      modifies this`tasks
      ensures (Contents(), selected) == Tables.ReserveSubmissions(old(Contents()), limit, now)
    {
      selected := [];
      if limit < 1 {
        return;
      }
      ghost var was := Contents();
      var active: map<Text, nat> := CountActive();
      var rows := Sorted(PendingRows(tasks));
      AllPendingAreCandidates(tasks);
      FirstTurn(policies, tasks, rows, limit, now, active);
      selected := AdmitRows(rows, limit, active, now);
      assert Tables.ReserveSubmissions(was, limit, now).0 == was.(tasks := tasks);
    }

    /** The body of the loop: whether the class of a row has room, and the row admitted if it has. */
    method AdmitRow(row: TaskRow, counted: map<Text, nat>, now: Time) returns (active: map<Text, nat>, admitted: Option<TaskRow>)
      modifies this`tasks
      ensures var count := Counted(counted, row.Class());
        if HasRoom(policies, count, row) then
          tasks == MarkSubmitting(old(tasks), row, now) && active == counted[row.Class() := count + 1] && admitted == Some(Reserved(row, now))
        else
          tasks == old(tasks) && active == counted && admitted == None
    {
      var count := Counted(counted, row.Class());
      var full := false;
      if row.Class() in policies {
        var policy := policies[row.Class()];
        var capacity: int := policy.targetWorkers;
        if !row.IsRecovery() {
          capacity := capacity - policy.recoveryReserve;
        }
        full := count >= capacity;
      }
      if full {
        return counted, None;
      }
      tasks := tasks[row.Id() := row.(status := Submitting, startedAt := Some(now), updatedAt := now, lastError := None)];
      return counted[row.Class() := count + 1], Some(tasks[row.Id()]);
    }

    method AdmitRows(rows: seq<TaskRow>, limit: nat, counted: map<Text, nat>, now: Time) returns (selected: seq<TaskRow>)
      requires AtTurn(policies, tasks, rows, limit, now, tasks, 0, counted, [], [])
      modifies this`tasks
      ensures tasks == Admit(policies, old(tasks), rows, limit, now).tasks
      ensures selected == Admit(policies, old(tasks), rows, limit, now).selected
    {
      var active: map<Text, nat> := counted;
      selected := [];
      ghost var left: seq<TaskRow> := [];
      var i := 0;
      while i < |rows| && |selected| < limit
        invariant i <= |rows|
        invariant AtTurn(policies, old(tasks), rows, limit, now, tasks, i, active, selected, left)
      {
        ghost var tasks0, active0, selected0, left0 := tasks, active, selected, left;
        var row := rows[i];
        var admitted: Option<TaskRow>;
        active, admitted := AdmitRow(row, active, now);
        if admitted.Some? {
          selected := selected + [admitted.value];
        } else {
          left := left + [row];
        }
        Turn(policies, old(tasks), rows, limit, now, tasks0, i, active0, selected0, left0, tasks, active, selected, left);
        i := i + 1;
      }
      LastTurn(policies, old(tasks), rows, limit, now, tasks, i, active, selected, left);
    }

    method BindJob(id: TaskId, job: JobId, executorStatus: Text, now: Time) returns (r: Result<TaskRow>)
      modifies this`tasks
      ensures Contents() == After(old(Contents()), Tables.BindJob(old(Contents()), id, job, executorStatus, now))
      ensures r == Reply(Tables.BindJob(old(Contents()), id, job, executorStatus, now))
    {
      if id !in tasks || !(tasks[id].status.Submitting? || tasks[id].status.Submitted?) {
        return Err(TaskNotFound);
      }
      if JobTaken(tasks, id, job) {
        return Err(IntegrityError);
      }
      tasks := tasks[id := tasks[id].(status := Submitted, jobId := Some(job), executorStatus := Some(executorStatus), updatedAt := now)];
      return Ok(tasks[id]);
    }

    method ResetSubmission(id: TaskId, reason: Text, now: Time) returns (r: Result<TaskRow>)
      modifies this`tasks
      ensures Contents() == After(old(Contents()), Tables.ResetSubmission(old(Contents()), id, reason, now))
      ensures r == Reply(Tables.ResetSubmission(old(Contents()), id, reason, now))
    {
      if id !in tasks || !tasks[id].status.Submitting? {
        return Err(TaskNotFound);
      }
      tasks := tasks[id := tasks[id].(status := Pending, startedAt := None, lastError := Some(reason), updatedAt := now)];
      return Ok(tasks[id]);
    }

    /** `_append_event`, inside the transaction of a caller. */
    method AppendEvent(row: TaskRow, status: TaskStatus, payload: EventPayload, now: Time)
      modifies this`events
      ensures events == Announce(old(events), row, status, payload, now)
    {
      if row.origin.None? {
        return;
      }
      var o := row.origin.value;
      var id := if events == [] then 1 else events[|events| - 1].eventId + 1;
      events := events + [Event(id, o.workflowId, TaskEvent(status), Some(o.key), Some(o.generation), payload, now)];
    }

    method FailTask(id: TaskId, reason: Text, now: Time) returns (r: Result<TaskRow>)
      modifies this`tasks, this`events
      ensures Contents() == After(old(Contents()), Tables.FailTask(old(Contents()), id, reason, now))
      ensures r == Reply(Tables.FailTask(old(Contents()), id, reason, now))
    {
      if id !in tasks {
        return Err(TaskNotFound);
      }
      var task := tasks[id];
      tasks := tasks[id := task.(status := Failed, lastError := Some(reason), updatedAt := now, completedAt := Some(now))];
      if !task.status.Failed? {
        AppendEvent(task, Failed, FailureReport(reason), now);
      }
      return Ok(tasks[id]);
    }

    method ObserveJob(id: TaskId, job: ExecutorJob, now: Time) returns (r: Result<TaskRow>)
      modifies this`tasks, this`events
      ensures Contents() == After(old(Contents()), Tables.ObserveJob(old(Contents()), id, job, now))
      ensures r == Reply(Tables.ObserveJob(old(Contents()), id, job, now))
    {
      if id !in tasks {
        return Err(TaskNotFound);
      }
      var task := tasks[id];
      var row, error := Observe(task, job, now);
      if JobTaken(tasks, id, job.jobId) {
        return Err(IntegrityError);
      }
      tasks := tasks[id := row];
      if row.status != task.status {
        AppendEvent(task, row.status, JobReport(job.jobId, job.status, job.recoveryCount, error), now);
      }
      return Ok(tasks[id]);
    }

    /** The row as `observe_job` rewrites it, and the error it reports. */
    method Observe(task: TaskRow, job: ExecutorJob, now: Time) returns (row: TaskRow, error: Option<Text>)
      ensures row == ObservedRow(task, job, now) && error == JobError(task, job)
    {
      var status := StatusOf(job.status);
      var completedAt := if status.IsTerminal() then Some(now) else None;
      var result := task.result;
      error := task.lastError;
      if status.Succeeded? {
        result := Some(JobResult(job.jobId, job.recoveryCount));
        error := None;
      } else if status.Failed? {
        error := if job.failureReason.Some? && job.failureReason.value.chars != "" then job.failureReason
                 else Some(Text("SkyPilot job ended as " + job.status.chars));
      }
      row := task.(status := status, jobId := Some(job.jobId), executorStatus := Some(job.status), recoveryCount := job.recoveryCount,
                   result := result, lastError := error, updatedAt := now, completedAt := completedAt);
    }

    method RecordCheckpoint(id: TaskId, c: CheckpointRef, now: Time) returns (r: Result<TaskRow>)
      modifies this`tasks, this`checkpoints
      ensures Contents() == After(old(Contents()), Tables.RecordCheckpoint(old(Contents()), id, c, now))
      ensures r == Reply(Tables.RecordCheckpoint(old(Contents()), id, c, now))
    {
      ghost var was := Contents();
      if id !in tasks {
        return Err(TaskNotFound);
      }
      var row := tasks[id];
      if (id, c.sequence) in checkpoints {
        if checkpoints[(id, c.sequence)].uri != c.uri {
          return Err(BarrierConflict);
        }
      } else {
        checkpoints := checkpoints[(id, c.sequence) := CheckpointRow(c.uri, c.metadata, now)];
      }
      if row.checkpoint.None? || c.sequence > row.checkpoint.value.sequence {
        tasks := tasks[id := row.(checkpoint := Some(c), updatedAt := now)];
      }
      assert tasks == was.tasks[id := tasks[id]];
      return Ok(tasks[id]);
    }

    // -------------------------------------------------------------------------------
    // Workflows

    /** A child task and its component row, inside the transaction of a caller, which rolls back on an error. */
    method InsertComponent(wid: WorkflowId, c: ComponentSpec, createdAt: Time, now: Time) returns (r: Result<TaskRow>)
      requires TasksOk(name, tasks)
      modifies this`tasks, this`components
      ensures match PutComponent(name, old(Contents()), wid, c, createdAt, now)
              case Ok((db', row)) => r == Ok(row) && Contents() == db'
              case Err(e) => r == Err(e)
    {
      r := InsertRow(c.task, Some(Origin(wid, c.key, c.generation)), now);
      if r.Err? {
        return;
      }
      if wid !in workflows || ComponentTaken(components, (wid, c.key), r.value.Id()) {
        return Err(IntegrityError);
      }
      components := components[(wid, c.key) := ComponentRow(c.generation, r.value.Id(), c.required, createdAt, now)];
    }

    method SubmitWorkflow(spec: WorkflowSpec, specs: seq<ComponentSpec>, initial: State, now: Time) returns (r: Result<WorkflowRow>)
      requires Sound(name, Contents())
      modifies this`tasks, this`workflows, this`components
      ensures Contents() == After(old(Contents()), Tables.SubmitWorkflow(name, old(Contents()), spec, specs, initial, now))
      ensures r == Reply(Tables.SubmitWorkflow(name, old(Contents()), spec, specs, initial, now))
    {
      if spec.workflowId in workflows {
        return Err(IntegrityError);
      }
      var tasks0, workflows0, components0 := tasks, workflows, components;
      var row := NewWorkflow(spec, initial, now);
      workflows := workflows[spec.workflowId := row];
      var inserted := InsertComponents(spec.workflowId, specs, now);
      if !inserted {
        tasks, workflows, components := tasks0, workflows0, components0;
        return Err(IntegrityError);
      }
      return Ok(row);
    }

    /** The loop of `submit_workflow`, inside its transaction. */
    method InsertComponents(wid: WorkflowId, specs: seq<ComponentSpec>, now: Time) returns (ok: bool)
      requires Sound(name, Contents())
      modifies this`tasks, this`components
      ensures AddComponents(name, old(Contents()), wid, specs, now) == if ok then Ok(Contents()) else Err(IntegrityError)
    {
      ghost var goal := AddComponents(name, Contents(), wid, specs, now);
      var i := 0;
      assert specs[0..] == specs;
      while i < |specs|
        invariant 0 <= i <= |specs| && Sound(name, Contents())
        invariant goal == AddComponents(name, Contents(), wid, specs[i..], now)
      {
        AddRound(name, Contents(), wid, specs[i..], now);
        assert specs[i..][1..] == specs[i + 1..];
        ok := InsertNext(wid, specs[i], now);
        if !ok {
          return;
        }
        i := i + 1;
      }
      assert specs[i..] == [];
      return true;
    }

    method InsertNext(wid: WorkflowId, c: ComponentSpec, now: Time) returns (ok: bool)
      requires TasksOk(name, tasks)
      modifies this`tasks, this`components
      ensures match Round(name, old(Contents()), wid, c, now)
              case Ok(db') => ok && Contents() == db'
              case Err(_) => !ok
    {
      if (wid, c.key) in components {
        return false;
      }
      var inserted := InsertComponent(wid, c, now, now);
      return inserted.Ok?;
    }

    method ListActiveWorkflows() returns (ids: seq<WorkflowId>)
      ensures ListsActive(workflows, ids)
    {
      ids := [];
      var rest := workflows.Keys;
      while rest != {}
        invariant rest <= workflows.Keys
        invariant forall wid :: wid in ids <==> wid in workflows && wid !in rest && workflows[wid].status.Active?
        invariant forall i, j | 0 <= i < j < |ids| :: ids[i] != ids[j]
        decreases |rest|
      {
        var wid :| wid in rest;
        rest := rest - {wid};
        if workflows[wid].status.Active? {
          ids := ids + [wid];
        }
      }
    }

    /** `get_workflow_components`: the children by component key. */
    method GetWorkflowComponents(wid: WorkflowId) returns (children: map<Text, TaskRow>)
      ensures children == ComponentTasks(Contents(), wid)
    {
      children := map slot | slot in components && slot.0 == wid && components[slot].taskId in tasks
        :: slot.1 := tasks[components[slot].taskId];
    }

    method ReplaceComponent(wid: WorkflowId, c: ComponentSpec, now: Time) returns (r: Result<TaskRow>)
      requires TasksOk(name, tasks)
      modifies this`tasks, this`components
      ensures Contents() == After(old(Contents()), Tables.ReplaceComponent(name, old(Contents()), wid, c, now))
      ensures r == Reply(Tables.ReplaceComponent(name, old(Contents()), wid, c, now))
    {
      var slot := (wid, c.key);
      if slot in components && c.generation <= components[slot].generation {
        var task := components[slot].taskId;
        return if task in tasks then Ok(tasks[task]) else Err(IntegrityError);
      }
      var tasks0, components0 := tasks, components;
      r := InsertComponent(wid, c, if slot in components then components[slot].createdAt else now, now);
      if r.Err? {
        tasks, components := tasks0, components0;
      }
    }

    /** `get_workflow_events`: the workflow's events after the cursor, oldest first. */
    method GetWorkflowEvents(wid: WorkflowId, after: nat) returns (found: seq<Event>)
      requires LogOk(events)
      ensures found == EventsAfter(events, wid, after)
    {
      found := [];
      var i := 0;
      while i < |events|
        invariant 0 <= i <= |events|
        invariant found == EventsBetween(events[..i], wid, after, LastEventId(events))
      {
        assert events[..i + 1][..i] == events[..i];
        if events[i].workflowId == wid && events[i].eventId > after {
          found := found + [events[i]];
        }
        i := i + 1;
      }
      assert events[..i] == events;
    }

    method SaveWorkflowState(wid: WorkflowId, state: State, cursor: nat, now: Time) returns (r: Result<WorkflowRow>)
      modifies this`workflows
      ensures Contents() == After(old(Contents()), SaveState(old(Contents()), wid, state, cursor, now))
      ensures r == Reply(SaveState(old(Contents()), wid, state, cursor, now))
    {
      if wid !in workflows {
        return Err(WorkflowNotFound);
      }
      workflows := workflows[wid := workflows[wid].(state := state, cursor := cursor, updatedAt := now)];
      return Ok(workflows[wid]);
    }

    /** `complete_workflow` and `fail_workflow`. */
    method FinishWorkflow(wid: WorkflowId, status: WorkflowStatus, result: Option<Outcome>, error: Option<Text>, now: Time)
      returns (r: Result<WorkflowRow>)
      modifies this`workflows
      ensures Contents() == After(old(Contents()), Tables.FinishWorkflow(old(Contents()), wid, status, result, error, now))
      ensures r == Reply(Tables.FinishWorkflow(old(Contents()), wid, status, result, error, now))
    {
      if wid !in workflows {
        return Err(WorkflowNotFound);
      }
      workflows := workflows[wid := workflows[wid].(status := status, result := result, lastError := error, updatedAt := now, completedAt := Some(now))];
      return Ok(workflows[wid]);
    }

    // -------------------------------------------------------------------------------
    // Barriers

    /** The heads of the required components, and whether all of them are at the barrier. */
    method RequiredHeads(wid: WorkflowId, barrier: int) returns (complete: bool, manifest: map<Text, CheckpointRef>)
      ensures complete == EveryHeadAt(Contents(), wid, barrier) && manifest == ManifestOf(Contents(), wid)
    {
      var rest := set slot | slot in components && slot.0 == wid && components[slot].required && components[slot].taskId in tasks;
      ghost var required := rest;
      assert forall slot :: slot in required <==> slot in components && IsRequired(Contents(), slot, wid);
      complete, manifest := true, map[];
      while rest != {}
        invariant rest <= required
        invariant complete <==> forall slot | slot in required && slot !in rest :: AtBarrier(Contents(), slot, barrier)
        invariant forall k :: k in manifest <==> InManifest(Contents(), required, rest, wid, k)
        invariant forall k | k in manifest :: InManifest(Contents(), required, rest, wid, k) && HeadOf(Contents(), (wid, k)) == Some(manifest[k])
        decreases |rest|
      {
        var slot :| slot in rest;
        assert slot == (wid, slot.1);
        rest := rest - {slot};
        var head := tasks[components[slot].taskId].checkpoint;
        complete := complete && head.Some? && head.value.sequence == barrier;
        if head.Some? {
          manifest := manifest[slot.1 := head.value];
        }
      }
      WholeManifest(Contents(), wid, required, manifest);
    }

    method CommitBarrier(wid: WorkflowId, barrier: int, uri: Option<Text>, now: Time) returns (r: Result<BarrierCommit>)
      modifies this`commits, this`events
      ensures Contents() == After(old(Contents()), Tables.CommitBarrier(old(Contents()), wid, barrier, uri, now))
      ensures r == Reply(Tables.CommitBarrier(old(Contents()), wid, barrier, uri, now))
    {
      if wid !in workflows {
        return Err(WorkflowNotFound);
      }
      var complete, manifest := RequiredHeads(wid, barrier);
      if !complete {
        return Err(BarrierConflict);
      }
      if (wid, barrier) in commits {
        var existing := commits[(wid, barrier)];
        if existing.manifest != manifest || existing.controllerUri != uri {
          return Err(BarrierConflict);
        }
        return Ok(BarrierCommit(wid, barrier, uri, manifest, existing.createdAt));
      }
      commits := commits[(wid, barrier) := CommitRow(uri, manifest, now)];
      var id := if events == [] then 1 else events[|events| - 1].eventId + 1;
      events := events + [Event(id, wid, BarrierCommitted, None, None, BarrierReport(barrier), now)];
      return Ok(BarrierCommit(wid, barrier, uri, manifest, now));
    }

    /** `latest_barrier`: the greatest barrier committed for the workflow. */
    method LatestBarrier(wid: WorkflowId) returns (r: Option<BarrierCommit>)
      ensures r.None? <==> forall c | c in commits :: c.0 != wid
      ensures r.Some? ==> IsLatest(Contents(), wid, r.value.barrier) && IsCommit(commits, wid, r.value)
    {
      var rest := set c | c in commits && c.0 == wid;
      ghost var all := rest;
      r := None;
      while rest != {}
        invariant rest <= all
        invariant r.None? ==> rest == all
        invariant r.Some? ==>
          && (wid, r.value.barrier) in all
          && (forall c | c in all && c !in rest :: c.1 <= r.value.barrier)
          && IsCommit(commits, wid, r.value)
        decreases |rest|
      {
        var c :| c in rest;
        assert c == (wid, c.1);
        rest := rest - {c};
        if r.None? || c.1 > r.value.barrier {
          r := Some(BarrierCommit(wid, c.1, commits[c].controllerUri, commits[c].manifest, commits[c].createdAt));
        }
      }
      assert forall c | c in commits && c.0 == wid :: c in all;
    }

    // -------------------------------------------------------------------------------
    // Leadership

    method AcquireLeadership(c: ControllerId, length: Time, now: Time) returns (lease: Option<ControllerLease>)
      modifies this`leadership
      ensures (leadership, lease) == Acquire(old(leadership), c, length, now)
    {
      if leadership.Some? && leadership.value.expiresAt > now && leadership.value.controllerId != c {
        return None;
      }
      var token := if leadership.None? then 1 else leadership.value.token + 1;
      leadership := Some(ControllerLease(c, token, now + length));
      return leadership;
    }

    method RenewLeadership(lease: ControllerLease, length: Time, now: Time) returns (r: Result<ControllerLease>)
      modifies this`leadership
      ensures match Renew(old(leadership), lease, length, now)
              case Ok((row, renewed)) => leadership == row && r == Ok(renewed)
              case Err(e) => leadership == old(leadership) && r == Err(e)
    {
      if leadership.Some? && leadership.value.controllerId == lease.controllerId && leadership.value.token == lease.token
         && leadership.value.expiresAt >= now {
        leadership := Some(leadership.value.(expiresAt := now + length));
        return Ok(ControllerLease(lease.controllerId, lease.token, now + length));
      }
      return Err(LeadershipLost);
    }
  }

  // ---------------------------------------------------------------------------------
  // What the methods' proofs use

  function SeenOf(tasks: TaskTable, seen: set<TaskId>, class_: Text): set<TaskId> {
    set id | id in seen && id in tasks && tasks[id].Class() == class_
  }

  function Counted(active: map<Text, nat>, class_: Text): nat {
    if class_ in active then active[class_] else 0
  }

  ghost predicate CountsSeen(tasks: TaskTable, seen: set<TaskId>, active: map<Text, nat>) {
    forall c :: Counted(active, c) == |SeenOf(tasks, seen, c)|
  }

  lemma SeenOneMore(tasks: TaskTable, seen: set<TaskId>, id: TaskId, class_: Text)
    requires id in tasks && id !in seen
    ensures |SeenOf(tasks, seen + {id}, class_)| == |SeenOf(tasks, seen, class_)| + (if class_ == tasks[id].Class() then 1 else 0)
  {
    if class_ == tasks[id].Class() {
      assert SeenOf(tasks, seen + {id}, class_) == SeenOf(tasks, seen, class_) + {id};
    } else {
      assert SeenOf(tasks, seen + {id}, class_) == SeenOf(tasks, seen, class_);
    }
  }

  lemma CountsOneMore(tasks: TaskTable, seen: set<TaskId>, active: map<Text, nat>, id: TaskId)
    requires id in tasks && id !in seen && CountsSeen(tasks, seen, active)
    ensures CountsSeen(tasks, seen + {id}, active[tasks[id].Class() := Counted(active, tasks[id].Class()) + 1])
  {
    var active' := active[tasks[id].Class() := Counted(active, tasks[id].Class()) + 1];
    forall c ensures Counted(active', c) == |SeenOf(tasks, seen + {id}, c)| { SeenOneMore(tasks, seen, id, c); }
  }

  lemma AllCounted(tasks: TaskTable, seen: set<TaskId>, active: map<Text, nat>)
    requires CountsSeen(tasks, seen, active) && forall id :: id in seen <==> id in tasks && tasks[id].status.OccupiesSlot()
    ensures forall c :: Counted(active, c) == ActiveCount(tasks, c)
  {
    forall c ensures Counted(active, c) == ActiveCount(tasks, c) {
      assert SeenOf(tasks, seen, c) == ActiveIds(tasks, c);
    }
  }

  ghost predicate AtBarrier(db: Db, slot: (WorkflowId, Text), barrier: int) {
    && slot in db.components && db.components[slot].taskId in db.tasks
    && HeadOf(db, slot).Some? && HeadOf(db, slot).value.sequence == barrier
  }

  ghost predicate InManifest(db: Db, required: set<(WorkflowId, Text)>, rest: set<(WorkflowId, Text)>, wid: WorkflowId, key: Text) {
    && (wid, key) in required && (wid, key) !in rest
    && (wid, key) in db.components && db.components[(wid, key)].taskId in db.tasks && HeadOf(db, (wid, key)).Some?
  }

  lemma WholeManifest(db: Db, wid: WorkflowId, required: set<(WorkflowId, Text)>, manifest: map<Text, CheckpointRef>)
    requires forall slot :: slot in required <==> slot in db.components && IsRequired(db, slot, wid)
    requires forall k :: k in manifest <==> InManifest(db, required, {}, wid, k)
    requires forall k | k in manifest :: InManifest(db, required, {}, wid, k) && HeadOf(db, (wid, k)) == Some(manifest[k])
    ensures manifest == ManifestOf(db, wid)
  {
    forall k ensures k in manifest <==> k in ManifestOf(db, wid) {
      if k in ManifestOf(db, wid) {
        var slot :| slot in db.components && IsRequired(db, slot, wid) && HeadOf(db, slot).Some? && slot.1 == k;
        assert slot == (wid, k);
      }
      if k in manifest { assert IsRequired(db, (wid, k), wid); }
    }
  }

  /** The value is what the commit's row says. */
  ghost predicate IsCommit(commits: map<(WorkflowId, int), CommitRow>, wid: WorkflowId, value: BarrierCommit) {
    && (wid, value.barrier) in commits
    && var row := commits[(wid, value.barrier)];
      value == BarrierCommit(wid, value.barrier, row.controllerUri, row.manifest, row.createdAt)
  }

  /** One round of the loop of `submit_workflow`. */
  ghost function Round(name: Naming, db: Db, wid: WorkflowId, c: ComponentSpec, now: Time): Result<Db> {
    if (wid, c.key) in db.components then Err(IntegrityError)
    else
      match PutComponent(name, db, wid, c, now, now)
      case Ok((db', _)) => Ok(db')
      case Err(e) => Err(e)
  }

  lemma AddRound(name: Naming, db: Db, wid: WorkflowId, specs: seq<ComponentSpec>, now: Time)
    requires Sound(name, db) && specs != []
    ensures match Round(name, db, wid, specs[0], now)
            case Ok(db') => Sound(name, db') && AddComponents(name, db, wid, specs, now) == AddComponents(name, db', wid, specs[1..], now)
            case Err(_) => AddComponents(name, db, wid, specs, now) == Err(IntegrityError)
  {
    if PutComponent(name, db, wid, specs[0], now, now).Ok? { PutComponentOk(name, db, wid, specs[0], now, now); }
  }

  /** A batch with what was selected and left before it. */
  function Continued(b: Batch, selected: seq<TaskRow>, left: seq<TaskRow>): Batch {
    Batch(b.tasks, selected + b.selected, left + b.left)
  }

  /** One turn of the loop. */
  lemma ContinuedStep(policies: Policies, tasks: TaskTable, rows: seq<TaskRow>, limit: nat, now: Time, selected: seq<TaskRow>, left: seq<TaskRow>)
    requires limit > 0 && rows != []
    ensures Continued(Admit(policies, tasks, rows, limit, now), selected, left)
         == if HasRoom(policies, ActiveCount(tasks, rows[0].Class()), rows[0])
            then Continued(Admit(policies, MarkSubmitting(tasks, rows[0], now), rows[1..], limit - 1, now), selected + [Reserved(rows[0], now)], left)
            else Continued(Admit(policies, tasks, rows[1..], limit, now), selected, left + [rows[0]])
  {
    if HasRoom(policies, ActiveCount(tasks, rows[0].Class()), rows[0]) {
      var b := Admit(policies, MarkSubmitting(tasks, rows[0], now), rows[1..], limit - 1, now);
      assert selected + ([Reserved(rows[0], now)] + b.selected) == (selected + [Reserved(rows[0], now)]) + b.selected;
    } else {
      var b := Admit(policies, tasks, rows[1..], limit, now);
      assert left + ([rows[0]] + b.left) == (left + [rows[0]]) + b.left;
    }
  }

  /**
   * Before turn `i`: the counters are the true slot counts, and what remains of the batch
   * is the batch of the remaining rows on the present table.
   */
  ghost predicate AtTurn(policies: Policies, was: TaskTable, rows: seq<TaskRow>, limit: nat, now: Time,
                         tasks: TaskTable, i: nat, active: map<Text, nat>, selected: seq<TaskRow>, left: seq<TaskRow>)
  {
    && i <= |rows| && |selected| <= limit && Candidates(tasks, rows[i..])
    && (forall c :: Counted(active, c) == ActiveCount(tasks, c))
    && Admit(policies, was, rows, limit, now) == Continued(Admit(policies, tasks, rows[i..], limit - |selected|, now), selected, left)
  }

  lemma TurnAdmits(policies: Policies, was: TaskTable, rows: seq<TaskRow>, limit: nat, now: Time,
                   tasks: TaskTable, i: nat, active: map<Text, nat>, selected: seq<TaskRow>, left: seq<TaskRow>,
                   tasks': TaskTable, active': map<Text, nat>, selected': seq<TaskRow>)
    requires i < |rows| && |selected| < limit && AtTurn(policies, was, rows, limit, now, tasks, i, active, selected, left)
    requires HasRoom(policies, ActiveCount(tasks, rows[i].Class()), rows[i])
    requires tasks' == MarkSubmitting(tasks, rows[i], now) && selected' == selected + [Reserved(rows[i], now)]
    requires active' == active[rows[i].Class() := Counted(active, rows[i].Class()) + 1]
    ensures AtTurn(policies, was, rows, limit, now, tasks', i + 1, active', selected', left)
  {
    var row := rows[i];
    assert rows[i..][0] == row && rows[i..][1..] == rows[i + 1..];
    AdmitStep(tasks, rows[i..], now, row.Class());
    ContinuedStep(policies, tasks, rows[i..], limit - |selected|, now, selected, left);
    forall c ensures Counted(active', c) == ActiveCount(tasks', c) { MarkCounts(tasks, row, now, c); }
  }

  lemma TurnSkips(policies: Policies, was: TaskTable, rows: seq<TaskRow>, limit: nat, now: Time,
                  tasks: TaskTable, i: nat, active: map<Text, nat>, selected: seq<TaskRow>, left: seq<TaskRow>, left': seq<TaskRow>)
    requires i < |rows| && |selected| < limit && AtTurn(policies, was, rows, limit, now, tasks, i, active, selected, left)
    requires !HasRoom(policies, ActiveCount(tasks, rows[i].Class()), rows[i]) && left' == left + [rows[i]]
    ensures AtTurn(policies, was, rows, limit, now, tasks, i + 1, active, selected, left')
  {
    assert rows[i..][0] == rows[i] && rows[i..][1..] == rows[i + 1..];
    AdmitStep(tasks, rows[i..], now, rows[i].Class());
    ContinuedStep(policies, tasks, rows[i..], limit - |selected|, now, selected, left);
  }

  /** Either way a turn goes. */
  lemma Turn(policies: Policies, was: TaskTable, rows: seq<TaskRow>, limit: nat, now: Time,
             tasks: TaskTable, i: nat, active: map<Text, nat>, selected: seq<TaskRow>, left: seq<TaskRow>,
             tasks': TaskTable, active': map<Text, nat>, selected': seq<TaskRow>, left': seq<TaskRow>)
    requires i < |rows| && |selected| < limit && AtTurn(policies, was, rows, limit, now, tasks, i, active, selected, left)
    requires var row, count := rows[i], Counted(active, rows[i].Class());
      if HasRoom(policies, count, row) then
        && tasks' == MarkSubmitting(tasks, row, now) && selected' == selected + [Reserved(row, now)]
        && active' == active[row.Class() := count + 1] && left' == left
      else
        tasks' == tasks && selected' == selected && active' == active && left' == left + [row]
    ensures AtTurn(policies, was, rows, limit, now, tasks', i + 1, active', selected', left')
  {
    if HasRoom(policies, ActiveCount(tasks, rows[i].Class()), rows[i]) {
      TurnAdmits(policies, was, rows, limit, now, tasks, i, active, selected, left, tasks', active', selected');
    } else {
      TurnSkips(policies, was, rows, limit, now, tasks, i, active, selected, left, left');
    }
  }

  lemma FirstTurn(policies: Policies, tasks: TaskTable, rows: seq<TaskRow>, limit: nat, now: Time, active: map<Text, nat>)
    requires Candidates(tasks, rows) && forall c :: Counted(active, c) == ActiveCount(tasks, c)
    ensures AtTurn(policies, tasks, rows, limit, now, tasks, 0, active, [], [])
  {
    assert rows[0..] == rows;
    ContinuesNothing(Admit(policies, tasks, rows, limit, now));
  }

  lemma ContinuesNothing(b: Batch)
    ensures Continued(b, [], []) == b
  {
    assert [] + b.selected == b.selected && [] + b.left == b.left;
  }

  lemma LastTurn(policies: Policies, was: TaskTable, rows: seq<TaskRow>, limit: nat, now: Time,
                 tasks: TaskTable, i: nat, active: map<Text, nat>, selected: seq<TaskRow>, left: seq<TaskRow>)
    requires AtTurn(policies, was, rows, limit, now, tasks, i, active, selected, left) && (i == |rows| || |selected| == limit)
    ensures Admit(policies, was, rows, limit, now).tasks == tasks && Admit(policies, was, rows, limit, now).selected == selected
  {
    assert selected + [] == selected;
  }
}
