// What holds of the tables after any sequence of transactions, whoever issues them:
// uniqueness of tasks, references, the event counter and the checkpoint heads.

module Integrity {
  import opened Types
  import opened RowOrder
  import opened Admission
  import opened Tables

  // ---------------------------------------------------------------------------------
  // The invariant

  /** No UNIQUE column is shared. */
  ghost predicate Distinct(a: TaskRow, b: TaskRow) {
    && a.jobName != b.jobName
    && (a.spec.idempotencyKey.Some? ==> a.spec.idempotencyKey != b.spec.idempotencyKey)
    && (a.jobId.Some? ==> a.jobId != b.jobId)
    && (a.origin.Some? ==> a.origin != b.origin)
  }

  ghost predicate TasksOk(name: Naming, tasks: TaskTable) {
    && KeyedById(tasks)
    && (forall id | id in tasks :: tasks[id].jobName == name.Of(id))
    && (forall a, b {:trigger Distinct(tasks[a], tasks[b])} | a in tasks && b in tasks && a != b :: Distinct(tasks[a], tasks[b]))
  }

  ghost predicate Apart(a: ComponentRow, b: ComponentRow) {
    a.taskId != b.taskId
  }

  ghost predicate ComponentsOk(db: Db) {
    && (forall s | s in db.components :: s.0 in db.workflows && db.components[s].taskId in db.tasks)
    && (forall s, t {:trigger Apart(db.components[s], db.components[t])} | s in db.components && t in db.components && s != t ::
          Apart(db.components[s], db.components[t]))
  }

  /** The part of the invariant that inserting tasks and components relies on. */
  ghost predicate Sound(name: Naming, db: Db) {
    TasksOk(name, db.tasks) && ComponentsOk(db)
  }

  ghost predicate RefsOk(db: Db) {
    && (forall w | w in db.workflows :: db.workflows[w].workflowId == w)
    && (forall c | c in db.commits :: c.0 in db.workflows)
  }

  /** Event ids start at one and strictly increase. */
  ghost predicate LogOk(events: seq<Event>) {
    && (forall i | 0 <= i < |events| :: events[i].eventId >= 1)
    && (forall i, j | 0 <= i < j < |events| :: events[i].eventId < events[j].eventId)
  }

  /** The head of a task is its checkpoint with the greatest sequence. */
  ghost predicate HeadOk(checkpoints: map<(TaskId, int), CheckpointRow>, row: TaskRow) {
    match row.checkpoint
    case None => forall p | p in checkpoints :: p.0 != row.Id()
    case Some(c) =>
      && (row.Id(), c.sequence) in checkpoints
      && checkpoints[(row.Id(), c.sequence)].uri == c.uri
      && checkpoints[(row.Id(), c.sequence)].metadata == c.metadata
      && forall p | p in checkpoints && p.0 == row.Id() :: p.1 <= c.sequence
  }

  ghost predicate HeadsOk(db: Db) {
    && (forall id {:trigger HeadOk(db.checkpoints, db.tasks[id])} | id in db.tasks :: HeadOk(db.checkpoints, db.tasks[id]))
    && (forall p | p in db.checkpoints :: p.0 in db.tasks)
  }

  ghost predicate Intact(name: Naming, db: Db) {
    TasksOk(name, db.tasks) && ComponentsOk(db) && RefsOk(db) && LogOk(db.events) && HeadsOk(db)
  }

  /** `get_workflow_components`, key by key. */
  lemma ChildOf(db: Db, wid: WorkflowId, key: Text)
    ensures key in ComponentTasks(db, wid) <==> (wid, key) in db.components && db.components[(wid, key)].taskId in db.tasks
    ensures key in ComponentTasks(db, wid) ==> ComponentTasks(db, wid)[key] == db.tasks[db.components[(wid, key)].taskId]
  {
    if key in ComponentTasks(db, wid) {
      var slot :| slot in db.components && slot.0 == wid && db.components[slot].taskId in db.tasks && slot.1 == key;
      assert slot == (wid, key);
    }
  }

  // ---------------------------------------------------------------------------------
  // How transactions change the tasks table

  ghost predicate IsFresh(name: Naming, row: TaskRow) {
    && row.status.Pending? && row.jobId.None? && row.checkpoint.None? && row.startedAt.None?
    && row.result.None? && row.completedAt.None? && row.jobName == name.Of(row.Id())
  }

  /** Rows are only added, and every added row is new. */
  ghost predicate Inserts(name: Naming, tasks: TaskTable, tasks': TaskTable) {
    && (forall id | id in tasks :: id in tasks' && tasks'[id] == tasks[id])
    && (forall id | id in tasks' && id !in tasks :: IsFresh(name, tasks'[id]))
  }

  ghost predicate SameIdentity(a: TaskRow, b: TaskRow) {
    a.spec == b.spec && a.jobName == b.jobName && a.origin == b.origin && a.createdAt == b.createdAt
  }

  /** No row is deleted and none changes what identifies it. */
  ghost predicate Persists(tasks: TaskTable, tasks': TaskTable) {
    forall id | id in tasks :: id in tasks' && SameIdentity(tasks[id], tasks'[id])
  }

  /** A head never moves back. */
  ghost predicate HeadAdvances(a: TaskRow, b: TaskRow) {
    a.checkpoint.Some? ==> b.checkpoint.Some? && b.checkpoint.value.sequence >= a.checkpoint.value.sequence
  }

  ghost predicate HeadsAdvance(tasks: TaskTable, tasks': TaskTable) {
    forall id | id in tasks && id in tasks' :: HeadAdvances(tasks[id], tasks'[id])
  }

  ghost predicate CheckpointsKept(db: Db, db': Db) {
    forall p | p in db.checkpoints :: p in db'.checkpoints && db'.checkpoints[p] == db.checkpoints[p]
  }

  ghost predicate CommitsKept(db: Db, db': Db) {
    forall c | c in db.commits :: c in db'.commits && db'.commits[c] == db.commits[c]
  }

  /** At most one event was appended; if so, a task's. */
  ghost predicate TaskEventsOnly(events: seq<Event>, events': seq<Event>) {
    || events' == events
    || (|events'| == |events| + 1 && events'[..|events|] == events && events'[|events|].kind.TaskEvent?)
  }

  /** The tables stay intact, no task is lost or renamed, and what was published or committed stays. */
  ghost predicate Keeps(name: Naming, db: Db, db': Db) {
    && Intact(name, db') && Persists(db.tasks, db'.tasks) && HeadsAdvance(db.tasks, db'.tasks)
    && CheckpointsKept(db, db') && CommitsKept(db, db')
  }

  /** Which tables a transaction may write. */
  ghost predicate Scope(op: Op, db: Db, db': Db) {
    && (op.OpCommit? || (db'.commits == db.commits && TaskEventsOnly(db.events, db'.events)))
    && (op.OpObserve? || op.OpFail? || op.OpCommit? || db'.events == db.events)
    && (op.OpSubmitWorkflow? || op.OpSaveState? || op.OpFinish? || db'.workflows == db.workflows)
    && (op.OpSubmitWorkflow? || op.OpReplace? || db'.components == db.components)
    && (op.OpSetPolicy? || db'.policies == db.policies)
    && (op.OpCheckpoint? || db'.checkpoints == db.checkpoints)
    && (op.OpSetPolicy? || op.OpSaveState? || op.OpFinish? || op.OpCommit? ==> db'.tasks == db.tasks)
  }

  ghost predicate Effect(name: Naming, db: Db, op: Op, db': Db) {
    Keeps(name, db, db') && Scope(op, db, db')
  }

  /** The task under the asked id, or the one already stored under the asked key. */
  ghost predicate Answers(row: TaskRow, spec: TaskSpec) {
    row.Id() == spec.taskId || (row.spec.idempotencyKey.Some? && row.spec.idempotencyKey == spec.idempotencyKey)
  }

  lemma InsertEffect(name: Naming, tasks: TaskTable, spec: TaskSpec, origin: Option<Origin>, now: Time)
    requires TasksOk(name, tasks)
    ensures var r := InsertTask(name, tasks, spec, origin, now);
      r.Ok? ==> var (tasks', row) := r.value;
        && TasksOk(name, tasks') && Inserts(name, tasks, tasks')
        && row.Id() in tasks' && tasks'[row.Id()] == row
        && Answers(row, spec)
  {
    var row := NewRow(name, spec, origin, now);
    if !Conflicts(tasks, row) {
      var tasks' := tasks[spec.taskId := row];
      forall id | id in tasks ensures Distinct(tasks[id], row) && Distinct(row, tasks[id]) {
        assert !HasKey(tasks, id, row.spec.idempotencyKey);
      }
    }
  }

  /** An idempotency key names one task. */
  lemma OneKeyHolder(name: Naming, tasks: TaskTable, a: TaskId, b: TaskId, key: Option<Text>)
    requires TasksOk(name, tasks) && HasKey(tasks, a, key) && HasKey(tasks, b, key)
    ensures a == b
  {
    assert a != b ==> Distinct(tasks[a], tasks[b]);
  }

  /** One row changes; its identity does not, and its job id is nobody else's. */
  lemma UpdateOk(name: Naming, tasks: TaskTable, id: TaskId, row: TaskRow)
    requires TasksOk(name, tasks) && id in tasks && SameIdentity(tasks[id], row)
    requires row.jobId == tasks[id].jobId || (row.jobId.Some? && !JobTaken(tasks, id, row.jobId.value))
    ensures TasksOk(name, tasks[id := row]) && Persists(tasks, tasks[id := row])
  {
    forall other | other in tasks && other != id ensures Distinct(tasks[other], row) && Distinct(row, tasks[other]) {
      assert Distinct(tasks[other], tasks[id]) && Distinct(tasks[id], tasks[other]);
    }
  }

  lemma ReserveSelects(policies: Policies, tasks: TaskTable, limit: int, now: Time)
    requires KeyedById(tasks)
    ensures Selects(tasks, Reserve(policies, tasks, limit, now), now)
  {
    if limit >= 1 {
      AllPendingAreCandidates(tasks);
      AdmitSelects(policies, tasks, Sorted(PendingRows(tasks)), limit, now);
    }
  }

  lemma ReserveOk(name: Naming, policies: Policies, tasks: TaskTable, limit: int, now: Time)
    requires TasksOk(name, tasks)
    ensures var tasks' := Reserve(policies, tasks, limit, now).tasks;
      && TasksOk(name, tasks') && Persists(tasks, tasks') && tasks'.Keys == tasks.Keys
      && forall id | id in tasks :: tasks'[id] == tasks[id] || (tasks[id].status.Pending? && tasks'[id] == Reserved(tasks[id], now))
  {
    ReserveSelects(policies, tasks, limit, now);
    var b := Reserve(policies, tasks, limit, now);
    forall id | id in tasks
      ensures b.tasks[id] == tasks[id] || (tasks[id].status.Pending? && b.tasks[id] == Reserved(tasks[id], now))
    {
      if b.tasks[id] in b.selected { assert Picked(tasks, b.tasks, b.tasks[id], now); }
    }
    forall a, c | a in b.tasks && c in b.tasks && a != c ensures Distinct(b.tasks[a], b.tasks[c]) {
      assert Distinct(tasks[a], tasks[c]);
    }
  }

  // ---------------------------------------------------------------------------------
  // Every transaction keeps the invariant

  /** Rows of `a` are rows of `b`. */
  ghost predicate Contains(a: map<(WorkflowId, Text), ComponentRow>, b: map<(WorkflowId, Text), ComponentRow>) {
    forall s | s in a :: s in b && b[s] == a[s]
  }

  lemma ExtendsTransitive(name: Naming, a: Db, b: Db, c: Db, wid: WorkflowId)
    requires Extends(name, a, b, wid) && Extends(name, b, c, wid)
    ensures Extends(name, a, c, wid)
  {
  }

  /** Only tasks and components changed: tasks by insertion, components by writing slots of `wid`. */
  ghost predicate Extends(name: Naming, db: Db, db': Db, wid: WorkflowId) {
    && db'.checkpoints == db.checkpoints && db'.workflows == db.workflows && db'.events == db.events
    && db'.commits == db.commits && db'.policies == db.policies
    && Inserts(name, db.tasks, db'.tasks)
    && ComponentsGrow(db.components, db'.components, wid)
  }

  /** No component row is deleted, and only rows of `wid` are written. */
  ghost predicate ComponentsGrow(a: map<(WorkflowId, Text), ComponentRow>, b: map<(WorkflowId, Text), ComponentRow>, wid: WorkflowId) {
    && (forall s | s in a :: s in b && (s.0 != wid ==> b[s] == a[s]))
    && (forall s | s in b && s !in a :: s.0 == wid)
  }

  lemma ComponentWritten(db: Db, slot: (WorkflowId, Text), row: ComponentRow, tasks: TaskTable)
    requires ComponentsOk(db) && slot.0 in db.workflows && row.taskId in tasks && db.tasks.Keys <= tasks.Keys
    requires !ComponentTaken(db.components, slot, row.taskId)
    ensures ComponentsOk(db.(tasks := tasks, components := db.components[slot := row]))
  {
    var components := db.components[slot := row];
    forall s, t | s in components && t in components && s != t ensures Apart(components[s], components[t]) {
      if s != slot && t != slot { assert Apart(db.components[s], db.components[t]); }
    }
  }

  lemma PutComponentOk(name: Naming, db: Db, wid: WorkflowId, c: ComponentSpec, createdAt: Time, now: Time)
    requires TasksOk(name, db.tasks) && ComponentsOk(db) && PutComponent(name, db, wid, c, createdAt, now).Ok?
    ensures var (db', row) := PutComponent(name, db, wid, c, createdAt, now).value;
      && TasksOk(name, db'.tasks) && ComponentsOk(db') && Extends(name, db, db', wid)
      && db'.components == db.components[(wid, c.key) := ComponentRow(c.generation, row.Id(), c.required, createdAt, now)]
      && row.Id() in db'.tasks && db'.tasks[row.Id()] == row && Answers(row, c.task)
  {
    InsertEffect(name, db.tasks, c.task, Some(Origin(wid, c.key, c.generation)), now);
    var (tasks, row) := InsertTask(name, db.tasks, c.task, Some(Origin(wid, c.key, c.generation)), now).value;
    ComponentWritten(db, (wid, c.key), ComponentRow(c.generation, row.Id(), c.required, createdAt, now), tasks);
  }

  /** A component put into a free slot is placed, and every other component row stays. */
  lemma PutPlaces(name: Naming, db: Db, wid: WorkflowId, c: ComponentSpec, createdAt: Time, now: Time)
    requires Sound(name, db) && PutComponent(name, db, wid, c, createdAt, now).Ok? && (wid, c.key) !in db.components
    ensures var db' := PutComponent(name, db, wid, c, createdAt, now).value.0;
      Placed(db', wid, c) && Contains(db.components, db'.components)
  {
    PutComponentOk(name, db, wid, c, createdAt, now);
  }

  /** Unfolds one round of the loop. */
  lemma AddUnfolds(name: Naming, db: Db, wid: WorkflowId, specs: seq<ComponentSpec>, now: Time)
    requires specs != [] && AddComponents(name, db, wid, specs, now).Ok?
    ensures (wid, specs[0].key) !in db.components && PutComponent(name, db, wid, specs[0], now, now).Ok?
    ensures AddComponents(name, db, wid, specs, now)
         == AddComponents(name, PutComponent(name, db, wid, specs[0], now, now).value.0, wid, specs[1..], now)
  {
  }

  lemma AddFirst(name: Naming, db: Db, wid: WorkflowId, specs: seq<ComponentSpec>, now: Time) returns (db1: Db)
    requires TasksOk(name, db.tasks) && ComponentsOk(db) && specs != [] && AddComponents(name, db, wid, specs, now).Ok?
    ensures TasksOk(name, db1.tasks) && ComponentsOk(db1) && Extends(name, db, db1, wid) && Contains(db.components, db1.components)
    ensures Placed(db1, wid, specs[0])
    ensures AddComponents(name, db, wid, specs, now) == AddComponents(name, db1, wid, specs[1..], now)
  {
    AddUnfolds(name, db, wid, specs, now);
    PutComponentOk(name, db, wid, specs[0], now, now);
    PutPlaces(name, db, wid, specs[0], now, now);
    db1 := PutComponent(name, db, wid, specs[0], now, now).value.0;
  }

  lemma {:induction false} AddComponentsOk(name: Naming, db: Db, wid: WorkflowId, specs: seq<ComponentSpec>, now: Time)
    requires TasksOk(name, db.tasks) && ComponentsOk(db) && AddComponents(name, db, wid, specs, now).Ok?
    ensures var db' := AddComponents(name, db, wid, specs, now).value;
      && TasksOk(name, db'.tasks) && ComponentsOk(db') && Extends(name, db, db', wid)
      && Contains(db.components, db'.components)
    decreases |specs|
  {
    if specs != [] {
      var db1 := AddFirst(name, db, wid, specs, now);
      AddComponentsOk(name, db1, wid, specs[1..], now);
      ExtendsTransitive(name, db, db1, AddComponents(name, db1, wid, specs[1..], now).value, wid);
    }
  }

  /** The component row is there, of the asked generation, and names a stored task that answers the spec. */
  ghost predicate Placed(db: Db, wid: WorkflowId, c: ComponentSpec) {
    var slot := (wid, c.key);
    && slot in db.components && db.components[slot].generation == c.generation && db.components[slot].required == c.required
    && db.components[slot].taskId in db.tasks && Answers(db.tasks[db.components[slot].taskId], c.task)
  }

  /** Tasks and components grew and nothing else did. */
  lemma ExtendsIntact(name: Naming, db: Db, db': Db, wid: WorkflowId)
    requires Intact(name, db) && Extends(name, db, db', wid) && TasksOk(name, db'.tasks) && ComponentsOk(db')
    ensures Keeps(name, db, db')
  {
    InsertsKeepsHeads(name, db, db');
  }

  lemma InsertsKeepsHeads(name: Naming, db: Db, db': Db)
    requires HeadsOk(db) && Inserts(name, db.tasks, db'.tasks) && db'.checkpoints == db.checkpoints
    requires KeyedById(db'.tasks)
    ensures HeadsOk(db')
  {
    forall id | id in db'.tasks ensures HeadOk(db'.checkpoints, db'.tasks[id]) {
      if id in db.tasks { assert HeadOk(db.checkpoints, db.tasks[id]); }
    }
  }

  lemma AnnounceOk(events: seq<Event>, row: TaskRow, status: TaskStatus, payload: EventPayload, now: Time)
    requires LogOk(events)
    ensures LogOk(Announce(events, row, status, payload, now))
    ensures TaskEventsOnly(events, Announce(events, row, status, payload, now))
  {
  }

  /** One row changed in place, its checkpoint apart, and a task event may have been appended. */
  lemma RowUpdateIntact(name: Naming, db: Db, id: TaskId, row: TaskRow, events: seq<Event>, db': Db)
    requires Intact(name, db) && LogOk(events) && TaskEventsOnly(db.events, events)
    requires id in db.tasks && SameIdentity(db.tasks[id], row) && row.checkpoint == db.tasks[id].checkpoint
    requires row.jobId == db.tasks[id].jobId || (row.jobId.Some? && !JobTaken(db.tasks, id, row.jobId.value))
    requires db' == db.(tasks := db.tasks[id := row], events := events)
    ensures Keeps(name, db, db')
  {
    UpdateOk(name, db.tasks, id, row);
    SameHeads(db, db');
  }

  /** The tasks keep their checkpoints, so the heads stay right. */
  lemma SameHeads(db: Db, db': Db)
    requires HeadsOk(db) && KeyedById(db.tasks) && KeyedById(db'.tasks)
    requires db'.checkpoints == db.checkpoints && db'.tasks.Keys == db.tasks.Keys
    requires forall id | id in db.tasks :: db'.tasks[id].checkpoint == db.tasks[id].checkpoint
    ensures HeadsOk(db')
  {
    forall id | id in db'.tasks ensures HeadOk(db'.checkpoints, db'.tasks[id]) {
      assert HeadOk(db.checkpoints, db.tasks[id]);
    }
  }

  /** The checkpoint just recorded heads its task if its sequence is the greatest. */
  lemma CheckpointHeads(db: Db, id: TaskId, c: CheckpointRef, now: Time)
    requires KeyedById(db.tasks) && HeadsOk(db) && RecordCheckpoint(db, id, c, now).Ok?
    ensures HeadsOk(RecordCheckpoint(db, id, c, now).value.0)
  {
    var db' := RecordCheckpoint(db, id, c, now).value.0;
    assert HeadOk(db.checkpoints, db.tasks[id]);
    assert HeadOk(db'.checkpoints, db'.tasks[id]);
    forall other | other in db'.tasks && other != id ensures HeadOk(db'.checkpoints, db'.tasks[other]) {
      assert HeadOk(db.checkpoints, db.tasks[other]);
    }
  }

  lemma CheckpointHistory(db: Db, id: TaskId, c: CheckpointRef, now: Time)
    requires RecordCheckpoint(db, id, c, now).Ok?
    ensures var db' := RecordCheckpoint(db, id, c, now).value.0;
      HeadsAdvance(db.tasks, db'.tasks) && CheckpointsKept(db, db')
  {
  }

  lemma CheckpointTables(name: Naming, db: Db, id: TaskId, c: CheckpointRef, now: Time)
    requires TasksOk(name, db.tasks) && ComponentsOk(db) && RecordCheckpoint(db, id, c, now).Ok?
    ensures var db' := RecordCheckpoint(db, id, c, now).value.0;
      TasksOk(name, db'.tasks) && Persists(db.tasks, db'.tasks) && ComponentsOk(db')
  {
    UpdateOk(name, db.tasks, id, RecordCheckpoint(db, id, c, now).value.1);
  }

  lemma CheckpointOk(name: Naming, db: Db, id: TaskId, c: CheckpointRef, now: Time)
    requires Intact(name, db) && RecordCheckpoint(db, id, c, now).Ok?
    ensures Effect(name, db, OpCheckpoint(id, c), RecordCheckpoint(db, id, c, now).value.0)
  {
    CheckpointHeads(db, id, c, now);
    CheckpointHistory(db, id, c, now);
    CheckpointTables(name, db, id, c, now);
  }

  lemma ReplaceOk(name: Naming, db: Db, wid: WorkflowId, c: ComponentSpec, now: Time)
    requires Intact(name, db) && ReplaceComponent(name, db, wid, c, now).Ok?
    ensures var db' := ReplaceComponent(name, db, wid, c, now).value.0;
      Effect(name, db, OpReplace(wid, c), db') && Extends(name, db, db', wid)
  {
    var slot := (wid, c.key);
    if slot !in db.components || c.generation > db.components[slot].generation {
      var createdAt := if slot in db.components then db.components[slot].createdAt else now;
      PutComponentOk(name, db, wid, c, createdAt, now);
      ExtendsIntact(name, db, PutComponent(name, db, wid, c, createdAt, now).value.0, wid);
    }
  }

  ghost function WithWorkflow(db: Db, row: WorkflowRow): Db {
    db.(workflows := db.workflows[row.workflowId := row])
  }

  lemma WithWorkflowIntact(name: Naming, db: Db, row: WorkflowRow)
    requires Intact(name, db)
    ensures Intact(name, WithWorkflow(db, row))
  {
    assert HeadsOk(WithWorkflow(db, row));
  }

  lemma SubmittedKeeps(name: Naming, db: Db, spec: WorkflowSpec, specs: seq<ComponentSpec>, initial: State, now: Time)
    requires Intact(name, db) && SubmitWorkflow(name, db, spec, specs, initial, now).Ok?
    ensures var (db', row) := SubmitWorkflow(name, db, spec, specs, initial, now).value;
      Keeps(name, WithWorkflow(db, row), db') && Extends(name, WithWorkflow(db, row), db', spec.workflowId)
  {
    var (db', row) := SubmitWorkflow(name, db, spec, specs, initial, now).value;
    WithWorkflowIntact(name, db, row);
    AddComponentsOk(name, WithWorkflow(db, row), spec.workflowId, specs, now);
    ExtendsIntact(name, WithWorkflow(db, row), db', spec.workflowId);
  }

  lemma SubmitWorkflowOk(name: Naming, db: Db, spec: WorkflowSpec, specs: seq<ComponentSpec>, initial: State, now: Time)
    requires Intact(name, db) && SubmitWorkflow(name, db, spec, specs, initial, now).Ok?
    ensures var (db', row) := SubmitWorkflow(name, db, spec, specs, initial, now).value;
      && Effect(name, db, OpSubmitWorkflow(spec, specs, initial), db')
      && Extends(name, WithWorkflow(db, row), db', spec.workflowId)
  {
    SubmittedKeeps(name, db, spec, specs, initial, now);
  }

  lemma SubmitTaskOk(name: Naming, db: Db, spec: TaskSpec, now: Time)
    requires Intact(name, db) && SubmitTask(name, db, spec, now).Ok?
    ensures var db' := SubmitTask(name, db, spec, now).value.0;
      && Effect(name, db, OpSubmitTask(spec), db') && Extends(name, db, db', Text(""))
  {
    InsertEffect(name, db.tasks, spec, None, now);
    ExtendsIntact(name, db, SubmitTask(name, db, spec, now).value.0, Text(""));
  }

  lemma ObserveOk(name: Naming, db: Db, id: TaskId, job: ExecutorJob, now: Time)
    requires Intact(name, db) && ObserveJob(db, id, job, now).Ok?
    ensures Effect(name, db, OpObserve(id, job), ObserveJob(db, id, job, now).value.0)
  {
    var (db', row) := ObserveJob(db, id, job, now).value;
    AnnounceOk(db.events, db.tasks[id], row.status, ObservedPayload(db.tasks[id], job), now);
    RowUpdateIntact(name, db, id, row, db'.events, db');
  }

  lemma FailOk(name: Naming, db: Db, id: TaskId, reason: Text, now: Time)
    requires Intact(name, db) && FailTask(db, id, reason, now).Ok?
    ensures Effect(name, db, OpFail(id, reason), FailTask(db, id, reason, now).value.0)
  {
    var (db', row) := FailTask(db, id, reason, now).value;
    AnnounceOk(db.events, db.tasks[id], Failed, FailureReport(reason), now);
    RowUpdateIntact(name, db, id, row, db'.events, db');
  }

  lemma ReservedIntact(name: Naming, db: Db, limit: int, now: Time)
    requires Intact(name, db)
    ensures Effect(name, db, OpReserve(limit), ReserveSubmissions(db, limit, now).0)
  {
    ReserveOk(name, db.policies, db.tasks, limit, now);
    SameHeads(db, ReserveSubmissions(db, limit, now).0);
  }

  /** Neither tasks, components nor checkpoints changed. */
  lemma SameTasksIntact(name: Naming, db: Db, db': Db)
    requires Intact(name, db) && RefsOk(db') && LogOk(db'.events)
    requires db'.tasks == db.tasks && db'.components == db.components && db'.checkpoints == db.checkpoints
    requires db.workflows.Keys <= db'.workflows.Keys && CommitsKept(db, db')
    ensures Keeps(name, db, db')
  {
    SameHeads(db, db');
  }

  lemma BindOk(name: Naming, db: Db, id: TaskId, job: JobId, status: Text, now: Time)
    requires Intact(name, db) && BindJob(db, id, job, status, now).Ok?
    ensures Effect(name, db, OpBind(id, job, status), BindJob(db, id, job, status, now).value.0)
  {
    var (db', row) := BindJob(db, id, job, status, now).value;
    RowUpdateIntact(name, db, id, row, db.events, db');
  }

  lemma ResetOk(name: Naming, db: Db, id: TaskId, reason: Text, now: Time)
    requires Intact(name, db) && ResetSubmission(db, id, reason, now).Ok?
    ensures Effect(name, db, OpReset(id, reason), ResetSubmission(db, id, reason, now).value.0)
  {
    var (db', row) := ResetSubmission(db, id, reason, now).value;
    RowUpdateIntact(name, db, id, row, db.events, db');
  }

  lemma SaveStateOk(name: Naming, db: Db, wid: WorkflowId, state: State, cursor: nat, now: Time)
    requires Intact(name, db) && SaveState(db, wid, state, cursor, now).Ok?
    ensures Effect(name, db, OpSaveState(wid, state, cursor), SaveState(db, wid, state, cursor, now).value.0)
  {
    SameTasksIntact(name, db, SaveState(db, wid, state, cursor, now).value.0);
  }

  lemma FinishOk(name: Naming, db: Db, wid: WorkflowId, status: WorkflowStatus, result: Option<Outcome>, error: Option<Text>, now: Time)
    requires Intact(name, db) && FinishWorkflow(db, wid, status, result, error, now).Ok?
    ensures Effect(name, db, OpFinish(wid, status, result, error), FinishWorkflow(db, wid, status, result, error, now).value.0)
  {
    SameTasksIntact(name, db, FinishWorkflow(db, wid, status, result, error, now).value.0);
  }

  lemma CommitOk(name: Naming, db: Db, wid: WorkflowId, barrier: int, uri: Option<Text>, now: Time)
    requires Intact(name, db) && CommitBarrier(db, wid, barrier, uri, now).Ok?
    ensures Effect(name, db, OpCommit(wid, barrier, uri), CommitBarrier(db, wid, barrier, uri, now).value.0)
  {
    if (wid, barrier) in db.commits {
      NoEffect(name, db, OpCommit(wid, barrier, uri));
    } else {
      var row := CommitRow(uri, ManifestOf(db, wid), now);
      NewCommitOk(name, db, (wid, barrier), row, BarrierEvent(db.events, wid, barrier, now),
                  CommitBarrier(db, wid, barrier, uri, now).value.0);
    }
  }

  lemma NewCommitOk(name: Naming, db: Db, slot: (WorkflowId, int), row: CommitRow, event: Event, db': Db)
    requires Intact(name, db) && slot.0 in db.workflows && slot !in db.commits && event.eventId == NextEventId(db.events)
    requires db' == db.(commits := db.commits[slot := row], events := db.events + [event])
    ensures Keeps(name, db, db')
  {
    SameTasksIntact(name, db, db');
  }

  /** A refused transaction has no effect. */
  lemma NoEffect(name: Naming, db: Db, op: Op)
    requires Intact(name, db)
    ensures Effect(name, db, op, db)
  {
  }

  lemma SetPolicyOk(name: Naming, db: Db, c: Text, p: ResourcePolicy)
    requires Intact(name, db)
    ensures Effect(name, db, OpSetPolicy(c, p), db.(policies := db.policies[c := p]))
  {
    SameTasksIntact(name, db, db.(policies := db.policies[c := p]));
  }

  predicate IsTaskOp(op: Op) {
    op.OpSubmitTask? || op.OpBind? || op.OpReset? || op.OpFail? || op.OpObserve? || op.OpCheckpoint? || op.OpReserve? || op.OpSetPolicy?
  }

  lemma ApplyTaskOp(name: Naming, db: Db, op: Op, now: Time)
    requires Intact(name, db) && IsTaskOp(op)
    ensures Effect(name, db, op, Apply(name, db, op, now))
  {
    NoEffect(name, db, op);
    match op
    case OpSetPolicy(c, p) => SetPolicyOk(name, db, c, p);
    case OpReserve(limit) => ReservedIntact(name, db, limit, now);
    case OpSubmitTask(spec) =>
      if SubmitTask(name, db, spec, now).Ok? { SubmitTaskOk(name, db, spec, now); }
    case OpBind(id, job, status) =>
      if BindJob(db, id, job, status, now).Ok? { BindOk(name, db, id, job, status, now); }
    case OpReset(id, reason) =>
      if ResetSubmission(db, id, reason, now).Ok? { ResetOk(name, db, id, reason, now); }
    case OpFail(id, reason) =>
      if FailTask(db, id, reason, now).Ok? { FailOk(name, db, id, reason, now); }
    case OpObserve(id, job) =>
      if ObserveJob(db, id, job, now).Ok? { ObserveOk(name, db, id, job, now); }
    case OpCheckpoint(id, c) =>
      if RecordCheckpoint(db, id, c, now).Ok? { CheckpointOk(name, db, id, c, now); }
    case _ =>
  }

  lemma ApplyWorkflowOp(name: Naming, db: Db, op: Op, now: Time)
    requires Intact(name, db) && !IsTaskOp(op)
    ensures Effect(name, db, op, Apply(name, db, op, now))
  {
    NoEffect(name, db, op);
    match op
    case OpSubmitWorkflow(spec, specs, initial) =>
      if SubmitWorkflow(name, db, spec, specs, initial, now).Ok? { SubmitWorkflowOk(name, db, spec, specs, initial, now); }
    case OpReplace(wid, c) =>
      if ReplaceComponent(name, db, wid, c, now).Ok? { ReplaceOk(name, db, wid, c, now); }
    case OpSaveState(wid, state, cursor) =>
      if SaveState(db, wid, state, cursor, now).Ok? { SaveStateOk(name, db, wid, state, cursor, now); }
    case OpFinish(wid, status, result, error) =>
      if FinishWorkflow(db, wid, status, result, error, now).Ok? { FinishOk(name, db, wid, status, result, error, now); }
    case OpCommit(wid, barrier, uri) =>
      if CommitBarrier(db, wid, barrier, uri, now).Ok? { CommitOk(name, db, wid, barrier, uri, now); }
    case _ =>
  }

  /** Every transaction keeps the tables intact, and writes only the tables in its scope. */
  lemma ApplyKeeps(name: Naming, db: Db, op: Op, now: Time)
    requires Intact(name, db)
    ensures Effect(name, db, op, Apply(name, db, op, now))
  {
    if IsTaskOp(op) { ApplyTaskOp(name, db, op, now); } else { ApplyWorkflowOp(name, db, op, now); }
  }

  // ---------------------------------------------------------------------------------
  // Runs

  /** The i-th transaction leads from the i-th state to the next. */
  ghost predicate Stepped(name: Naming, dbs: seq<Db>, ops: seq<(Op, Time)>, i: nat) {
    i < |ops| && i + 1 < |dbs| && dbs[i + 1] == Apply(name, dbs[i], ops[i].0, ops[i].1)
  }

  /** The states that a sequence of transactions with their times goes through. */
  ghost predicate IsRun(name: Naming, dbs: seq<Db>, ops: seq<(Op, Time)>) {
    && |dbs| == |ops| + 1
    && forall i {:trigger Stepped(name, dbs, ops, i)} | 0 <= i < |ops| :: Stepped(name, dbs, ops, i)
  }

  lemma StepEffect(name: Naming, dbs: seq<Db>, ops: seq<(Op, Time)>, i: nat)
    requires IsRun(name, dbs, ops) && i < |ops| && Intact(name, dbs[i])
    ensures Effect(name, dbs[i], ops[i].0, dbs[i + 1])
    ensures forall wid, barrier, uri :: ops[i].0 == OpCommit(wid, barrier, uri) ==>
      dbs[i + 1] == After(dbs[i], CommitBarrier(dbs[i], wid, barrier, uri, ops[i].1))
  {
    assert Stepped(name, dbs, ops, i);
    ApplyKeeps(name, dbs[i], ops[i].0, ops[i].1);
  }

  lemma KeepsTransitive(name: Naming, a: Db, b: Db, c: Db)
    requires Keeps(name, a, b) && Keeps(name, b, c)
    ensures Keeps(name, a, c)
  {
  }

  lemma KeepsReflexive(name: Naming, a: Db)
    requires Intact(name, a)
    ensures Keeps(name, a, a)
  {
  }

  /** Between any two states of a run the tables stay intact and history stays. */
  lemma {:induction false} RunKeeps(name: Naming, dbs: seq<Db>, ops: seq<(Op, Time)>, i: nat, j: nat)
    requires IsRun(name, dbs, ops) && Intact(name, dbs[0]) && i <= j <= |ops|
    ensures Intact(name, dbs[i]) && Keeps(name, dbs[i], dbs[j])
    decreases j
  {
    if j == 0 {
      KeepsReflexive(name, dbs[0]);
    } else if i == j {
      RunKeeps(name, dbs, ops, 0, j - 1);
      StepEffect(name, dbs, ops, j - 1);
      KeepsReflexive(name, dbs[j]);
    } else {
      RunKeeps(name, dbs, ops, i, j - 1);
      StepEffect(name, dbs, ops, j - 1);
      KeepsTransitive(name, dbs[i], dbs[j - 1], dbs[j]);
    }
  }

  /** One step of a run, without the invariant: what it may write and what it preserves. */
  lemma StepHistory(name: Naming, dbs: seq<Db>, ops: seq<(Op, Time)>, i: nat)
    requires IsRun(name, dbs, ops) && i < |ops| && Intact(name, dbs[0])
    ensures Scope(ops[i].0, dbs[i], dbs[i + 1]) && HeadsAdvance(dbs[i].tasks, dbs[i + 1].tasks)
    ensures CheckpointsKept(dbs[i], dbs[i + 1]) && CommitsKept(dbs[i], dbs[i + 1]) && Persists(dbs[i].tasks, dbs[i + 1].tasks)
    ensures forall wid, barrier, uri :: ops[i].0 == OpCommit(wid, barrier, uri) ==>
      dbs[i + 1] == After(dbs[i], CommitBarrier(dbs[i], wid, barrier, uri, ops[i].1))
  {
    RunKeeps(name, dbs, ops, i, i);
    StepEffect(name, dbs, ops, i);
  }

  /** No component row is deleted, its generation never falls, and only a greater one brings another task or flag. */
  ghost predicate GenerationsRise(a: map<(WorkflowId, Text), ComponentRow>, b: map<(WorkflowId, Text), ComponentRow>) {
    forall s {:trigger s in b} | s in a ::
      && s in b && b[s].generation >= a[s].generation
      && (b[s].generation == a[s].generation ==> b[s].taskId == a[s].taskId && b[s].required == a[s].required)
  }

  lemma ReplaceRises(name: Naming, db: Db, wid: WorkflowId, c: ComponentSpec, now: Time)
    ensures GenerationsRise(db.components, After(db, ReplaceComponent(name, db, wid, c, now)).components)
  {
  }

  lemma {:induction false} AddsRise(name: Naming, db: Db, wid: WorkflowId, specs: seq<ComponentSpec>, now: Time)
    requires AddComponents(name, db, wid, specs, now).Ok?
    ensures GenerationsRise(db.components, AddComponents(name, db, wid, specs, now).value.components)
    decreases |specs|
  {
    if specs != [] {
      AddsRise(name, PutComponent(name, db, wid, specs[0], now, now).value.0, wid, specs[1..], now);
    }
  }

  lemma SubmitRises(name: Naming, db: Db, spec: WorkflowSpec, specs: seq<ComponentSpec>, initial: State, now: Time)
    ensures GenerationsRise(db.components, After(db, SubmitWorkflow(name, db, spec, specs, initial, now)).components)
  {
    if SubmitWorkflow(name, db, spec, specs, initial, now).Ok? {
      AddsRise(name, db.(workflows := db.workflows[spec.workflowId := NewWorkflow(spec, initial, now)]), spec.workflowId, specs, now);
    }
  }

  lemma ComponentOpRises(name: Naming, db: Db, op: Op, now: Time)
    requires op.OpReplace? || op.OpSubmitWorkflow?
    ensures GenerationsRise(db.components, Apply(name, db, op, now).components)
  {
    match op
    case OpReplace(wid, c) => ReplaceRises(name, db, wid, c, now);
    case OpSubmitWorkflow(spec, specs, initial) => SubmitRises(name, db, spec, specs, initial, now);
    case _ =>
  }

  lemma OpRises(name: Naming, db: Db, op: Op, now: Time)
    requires Intact(name, db)
    ensures GenerationsRise(db.components, Apply(name, db, op, now).components)
  {
    if op.OpReplace? || op.OpSubmitWorkflow? {
      ComponentOpRises(name, db, op, now);
    } else {
      OthersLeaveComponents(name, db, op, now);
    }
  }

  lemma OthersLeaveComponents(name: Naming, db: Db, op: Op, now: Time)
    requires Intact(name, db) && !op.OpReplace? && !op.OpSubmitWorkflow?
    ensures Apply(name, db, op, now).components == db.components
  {
    ApplyKeeps(name, db, op, now);
  }

  lemma StepRises(name: Naming, dbs: seq<Db>, ops: seq<(Op, Time)>, i: nat)
    requires IsRun(name, dbs, ops) && i < |ops| && Intact(name, dbs[0])
    ensures GenerationsRise(dbs[i].components, dbs[i + 1].components)
  {
    RunKeeps(name, dbs, ops, i, i);
    assert Stepped(name, dbs, ops, i);
    OpRises(name, dbs[i], ops[i].0, ops[i].1);
  }

  /**
   * Component generations are monotone: between any two states of a run no component is
   * lost, none falls back to an older generation, and its task changes only with a newer one.
   */
  lemma {:induction false} GenerationsMonotone(name: Naming, dbs: seq<Db>, ops: seq<(Op, Time)>, i: nat, j: nat)
    requires IsRun(name, dbs, ops) && Intact(name, dbs[0]) && i <= j <= |ops|
    ensures GenerationsRise(dbs[i].components, dbs[j].components)
    decreases j
  {
    if i < j {
      GenerationsMonotone(name, dbs, ops, i, j - 1);
      StepRises(name, dbs, ops, j - 1);
    }
  }

  /** A run from the empty store. */
  ghost predicate IsHistory(name: Naming, dbs: seq<Db>, ops: seq<(Op, Time)>) {
    IsRun(name, dbs, ops) && dbs[0] == EMPTY_DB
  }

  /** From the empty store, no two tasks ever share an id, a key, a job name, a job or a slot. */
  lemma UniqueForever(name: Naming, dbs: seq<Db>, ops: seq<(Op, Time)>, i: nat)
    requires IsHistory(name, dbs, ops) && i <= |ops|
    ensures var tasks := dbs[i].tasks;
      forall a, b | a in tasks && b in tasks ::
        && tasks[a].Id() == a
        && (a != b ==> tasks[a].jobName != tasks[b].jobName)
        && (a != b && tasks[a].spec.idempotencyKey.Some? ==> tasks[a].spec.idempotencyKey != tasks[b].spec.idempotencyKey)
        && (a != b && tasks[a].jobId.Some? ==> tasks[a].jobId != tasks[b].jobId)
        && (a != b && tasks[a].origin.Some? ==> tasks[a].origin != tasks[b].origin)
  {
    RunKeeps(name, dbs, ops, i, i);
    var tasks := dbs[i].tasks;
    forall a, b | a in tasks && b in tasks && a != b ensures Distinct(tasks[a], tasks[b]) {}
  }

  /**
   * A task submitted once is found again by every later submission under its key or its
   * id, whatever happened in between, and the later submission changes nothing.
   */
  lemma ResubmissionReturnsStored(name: Naming, db: Db, spec: TaskSpec, now: Time,
                                  dbs: seq<Db>, ops: seq<(Op, Time)>, again: TaskSpec, later: Time)
    requires Intact(name, db) && SubmitTask(name, db, spec, now).Ok?
    requires IsRun(name, dbs, ops) && dbs[0] == SubmitTask(name, db, spec, now).value.0
    requires var row := SubmitTask(name, db, spec, now).value.1;
      || (again.idempotencyKey.Some? && again.idempotencyKey == row.spec.idempotencyKey)
      || (again.taskId == row.Id() && forall id :: !HasKey(dbs[|ops|].tasks, id, again.idempotencyKey))
    ensures var row, last := SubmitTask(name, db, spec, now).value.1, dbs[|ops|];
      && row.Id() in last.tasks && SameIdentity(row, last.tasks[row.Id()])
      && SubmitTask(name, last, again, later) == Ok((last, last.tasks[row.Id()]))
  {
    var row, last := SubmitTask(name, db, spec, now).value.1, dbs[|ops|];
    InsertEffect(name, db.tasks, spec, None, now);
    SubmitTaskOk(name, db, spec, now);
    RunKeeps(name, dbs, ops, 0, |ops|);
    RunKeeps(name, dbs, ops, |ops|, |ops|);
    FoundAgain(name, last, row.Id(), again, later);
  }

  lemma FoundAgain(name: Naming, db: Db, id: TaskId, again: TaskSpec, now: Time)
    requires TasksOk(name, db.tasks) && id in db.tasks
    requires || (again.idempotencyKey.Some? && again.idempotencyKey == db.tasks[id].spec.idempotencyKey)
             || (again.taskId == id && forall other :: !HasKey(db.tasks, other, again.idempotencyKey))
    ensures SubmitTask(name, db, again, now) == Ok((db, db.tasks[id]))
  {
    assert db.(tasks := db.tasks) == db;
    if again.idempotencyKey.Some? && again.idempotencyKey == db.tasks[id].spec.idempotencyKey {
      assert HasKey(db.tasks, id, again.idempotencyKey);
      forall other | HasKey(db.tasks, other, again.idempotencyKey) ensures other == id {
        OneKeyHolder(name, db.tasks, other, id, again.idempotencyKey);
      }
    }
  }

  /** A row as it is first stored: the spec as submitted, PENDING, and every other column empty. */
  ghost predicate FreshlyStored(name: Naming, row: TaskRow, spec: TaskSpec, origin: Option<Origin>, now: Time) {
    && row.spec == spec && row.jobName == name.Of(spec.taskId) && row.origin == origin && row.status == Pending
    && row.createdAt == now && row.updatedAt == now && row.recoveryCount == 0
    && row.jobId == None && row.executorStatus == None && row.checkpoint == None && row.result == None
    && row.lastError == None && row.startedAt == None && row.completedAt == None
  }

  lemma NewRowIsFresh(name: Naming, spec: TaskSpec, origin: Option<Origin>, now: Time)
    ensures FreshlyStored(name, NewRow(name, spec, origin, now), spec, origin, now)
  {
  }

  /** The row has the idempotency key that the spec asks for. */
  ghost predicate UnderKey(row: TaskRow, spec: TaskSpec) {
    spec.idempotencyKey.Some? && row.spec.idempotencyKey == spec.idempotencyKey
  }

  /**
   * All that `submit_task` can do: find the task under the key, else the task under the id,
   * else refuse a task whose executor name is taken, else store the new one.
   */
  lemma SubmitTaskExact(name: Naming, db: Db, spec: TaskSpec, now: Time)
    requires Intact(name, db)
    ensures Apply(name, db, OpSubmitTask(spec), now) == After(db, SubmitTask(name, db, spec, now))
    ensures forall id | id in db.tasks && UnderKey(db.tasks[id], spec) :: SubmitTask(name, db, spec, now) == Ok((db, db.tasks[id]))
    ensures (forall id | id in db.tasks :: !UnderKey(db.tasks[id], spec)) ==>
      var r := SubmitTask(name, db, spec, now);
      if spec.taskId in db.tasks then r == Ok((db, db.tasks[spec.taskId]))
      else if exists id | id in db.tasks :: name.Of(id) == name.Of(spec.taskId) then r == Err(IntegrityError)
      else r.Ok? && r.value.0 == db.(tasks := db.tasks[spec.taskId := r.value.1]) && FreshlyStored(name, r.value.1, spec, None, now)
  {
    forall id | id in db.tasks && UnderKey(db.tasks[id], spec) ensures SubmitTask(name, db, spec, now) == Ok((db, db.tasks[id])) {
      FoundAgain(name, db, id, spec, now);
    }
    if forall id | id in db.tasks :: !UnderKey(db.tasks[id], spec) {
      NoKeyHolder(name, db, spec, now);
    }
  }

  lemma NoKeyHolder(name: Naming, db: Db, spec: TaskSpec, now: Time)
    requires TasksOk(name, db.tasks) && forall id | id in db.tasks :: !UnderKey(db.tasks[id], spec)
    ensures var r := SubmitTask(name, db, spec, now);
      if spec.taskId in db.tasks then r == Ok((db, db.tasks[spec.taskId]))
      else if exists id | id in db.tasks :: name.Of(id) == name.Of(spec.taskId) then r == Err(IntegrityError)
      else r.Ok? && r.value.0 == db.(tasks := db.tasks[spec.taskId := r.value.1]) && FreshlyStored(name, r.value.1, spec, None, now)
  {
    assert forall id :: !HasKey(db.tasks, id, spec.idempotencyKey);
    if spec.taskId in db.tasks {
      FoundAgain(name, db, spec.taskId, spec, now);
    } else {
      NewRowIsFresh(name, spec, None, now);
      assert (exists id | id in db.tasks :: name.Of(id) == name.Of(spec.taskId))
        <==> exists id | id in db.tasks :: db.tasks[id].jobName == name.Of(spec.taskId);
    }
  }

  /**
   * `submit_workflow` is all or nothing: on an error the tables are the old ones, on
   * success every component has its row and its task.
   */
  lemma SubmitWorkflowAtomic(name: Naming, db: Db, spec: WorkflowSpec, specs: seq<ComponentSpec>, initial: State, now: Time)
    requires Intact(name, db)
    ensures var r := SubmitWorkflow(name, db, spec, specs, initial, now);
      var db' := Apply(name, db, OpSubmitWorkflow(spec, specs, initial), now);
      && (r.Err? ==> db' == db)
      && (r.Ok? ==>
           && spec.workflowId !in db.workflows && spec.workflowId in db'.workflows
           && forall c | c in specs :: Placed(db', spec.workflowId, c))
  {
    if SubmitWorkflow(name, db, spec, specs, initial, now).Ok? { AllPlaced(name, db, spec, specs, initial, now); }
  }

  lemma AllPlaced(name: Naming, db: Db, spec: WorkflowSpec, specs: seq<ComponentSpec>, initial: State, now: Time)
    requires Sound(name, db) && SubmitWorkflow(name, db, spec, specs, initial, now).Ok?
    ensures var db' := SubmitWorkflow(name, db, spec, specs, initial, now).value.0;
      spec.workflowId in db'.workflows && forall c | c in specs :: Placed(db', spec.workflowId, c)
  {
    var db0 := db.(workflows := db.workflows[spec.workflowId := NewWorkflow(spec, initial, now)]);
    AddComponentsOk(name, db0, spec.workflowId, specs, now);
    forall c | c in specs ensures Placed(SubmitWorkflow(name, db, spec, specs, initial, now).value.0, spec.workflowId, c) {
      AddComponentsPlaces(name, db0, spec.workflowId, specs, now, c);
    }
  }

  lemma PlacedStays(name: Naming, db: Db, db': Db, wid: WorkflowId, c: ComponentSpec)
    requires Placed(db, wid, c) && Contains(db.components, db'.components) && Inserts(name, db.tasks, db'.tasks)
    ensures Placed(db', wid, c)
  {
  }

  lemma {:induction false} AddComponentsPlaces(name: Naming, db: Db, wid: WorkflowId, specs: seq<ComponentSpec>, now: Time, c: ComponentSpec)
    requires TasksOk(name, db.tasks) && ComponentsOk(db)
    requires AddComponents(name, db, wid, specs, now).Ok? && c in specs
    ensures Placed(AddComponents(name, db, wid, specs, now).value, wid, c)
    decreases |specs|
  {
    var db1 := AddFirst(name, db, wid, specs, now);
    if c in specs[1..] {
      AddComponentsPlaces(name, db1, wid, specs[1..], now, c);
    } else {
      AddComponentsOk(name, db1, wid, specs[1..], now);
      PlacedStays(name, db1, AddComponents(name, db1, wid, specs[1..], now).value, wid, c);
    }
  }
}
