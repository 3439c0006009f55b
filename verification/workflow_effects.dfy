// What each transaction on a workflow leaves, column by column: the workflow's row, its
// component rows and children, and the rows of a barrier.

module WorkflowEffects {
  import opened Types
  import opened Admission
  import opened Tables
  import opened Integrity

  // ---------------------------------------------------------------------------------
  // Children

  /** An insertion finds a stored task that answers the spec and changes nothing, or stores the spec as a new row. */
  lemma InsertStores(name: Naming, tasks: TaskTable, spec: TaskSpec, origin: Option<Origin>, now: Time)
    requires TasksOk(name, tasks) && InsertTask(name, tasks, spec, origin, now).Ok?
    ensures var (tasks', row) := InsertTask(name, tasks, spec, origin, now).value; var id := row.spec.taskId;
      if id in tasks then tasks' == tasks && row == tasks[id] && (id == spec.taskId || UnderKey(row, spec))
      else id == spec.taskId && tasks' == tasks[id := row] && FreshlyStored(name, row, spec, origin, now)
  {
    NewRowIsFresh(name, spec, origin, now);
  }

  /**
   * The component row is as asked and names a child that answers the spec: one stored
   * before, left as it was, or else the spec itself, stored new for this component.
   */
  ghost predicate ChildStored(name: Naming, was: TaskTable, db: Db, wid: WorkflowId, c: ComponentSpec, createdAt: Time, now: Time) {
    var slot := (wid, c.key);
    && slot in db.components
    && var row := db.components[slot];
      && row.generation == c.generation && row.required == c.required && row.createdAt == createdAt && row.updatedAt == now
      && row.taskId in db.tasks
      && var child := db.tasks[row.taskId];
        if row.taskId in was then child == was[row.taskId] && (row.taskId == c.task.taskId || UnderKey(child, c.task))
        else row.taskId == c.task.taskId && FreshlyStored(name, child, c.task, Some(Origin(wid, c.key, c.generation)), now)
  }

  /** Every task that came after `was` belongs to a component. */
  ghost predicate NewOnesNamed(was: TaskTable, db: Db) {
    forall id | id in db.tasks && id !in was :: exists slot :: slot in db.components && db.components[slot].taskId == id
  }

  lemma PutStores(name: Naming, was: TaskTable, db: Db, wid: WorkflowId, c: ComponentSpec, createdAt: Time, now: Time)
    requires Sound(name, db) && Persisting(was, db.tasks) && NewOnesNamed(was, db)
    requires (wid, c.key) !in db.components || db.components[(wid, c.key)].taskId in was
    requires PutComponent(name, db, wid, c, createdAt, now).Ok?
    ensures ChildStored(name, was, PutComponent(name, db, wid, c, createdAt, now).value.0, wid, c, createdAt, now)
  {
    var slot, origin := (wid, c.key), Some(Origin(wid, c.key, c.generation));
    InsertStores(name, db.tasks, c.task, origin, now);
    var (tasks, row) := InsertTask(name, db.tasks, c.task, origin, now).value;
    var id := row.spec.taskId;
    if id in db.tasks && id !in was { assert false; }
  }

  /** Rows stay as they were. */
  ghost predicate Persisting(was: TaskTable, tasks: TaskTable) {
    forall id | id in was :: id in tasks && tasks[id] == was[id]
  }

  lemma NamesGrow(was: TaskTable, db: Db, slot: (WorkflowId, Text), row: ComponentRow, tasks: TaskTable)
    requires NewOnesNamed(was, db) && tasks.Keys == db.tasks.Keys + {row.taskId}
    requires slot !in db.components || db.components[slot].taskId in was
    ensures NewOnesNamed(was, db.(tasks := tasks, components := db.components[slot := row]))
  {
    var components := db.components[slot := row];
    forall id | id in tasks && id !in was ensures exists s :: s in components && components[s].taskId == id {
      if id in db.tasks {
        var s :| s in db.components && db.components[s].taskId == id;
        assert s in components && components[s].taskId == id;
      } else {
        assert slot in components && components[slot].taskId == id;
      }
    }
  }

  lemma PutNames(name: Naming, was: TaskTable, db: Db, wid: WorkflowId, c: ComponentSpec, createdAt: Time, now: Time)
    requires Sound(name, db) && Persisting(was, db.tasks) && NewOnesNamed(was, db)
    requires (wid, c.key) !in db.components || db.components[(wid, c.key)].taskId in was
    requires PutComponent(name, db, wid, c, createdAt, now).Ok?
    ensures var db' := PutComponent(name, db, wid, c, createdAt, now).value.0; Persisting(was, db'.tasks) && NewOnesNamed(was, db')
  {
    var slot, origin := (wid, c.key), Some(Origin(wid, c.key, c.generation));
    InsertStores(name, db.tasks, c.task, origin, now);
    var (tasks, row) := InsertTask(name, db.tasks, c.task, origin, now).value;
    assert tasks.Keys == db.tasks.Keys + {row.spec.taskId};
    NamesGrow(was, db, slot, ComponentRow(c.generation, row.spec.taskId, c.required, createdAt, now), tasks);
  }

  lemma StoredStays(name: Naming, was: TaskTable, db: Db, db': Db, wid: WorkflowId, c: ComponentSpec, createdAt: Time, now: Time)
    requires ChildStored(name, was, db, wid, c, createdAt, now)
    requires Contains(db.components, db'.components) && Persisting(db.tasks, db'.tasks)
    ensures ChildStored(name, was, db', wid, c, createdAt, now)
  {
  }

  lemma {:induction false} AddStores(name: Naming, was: TaskTable, db: Db, wid: WorkflowId, specs: seq<ComponentSpec>, now: Time, c: ComponentSpec)
    requires Sound(name, db) && Persisting(was, db.tasks) && NewOnesNamed(was, db)
    requires AddComponents(name, db, wid, specs, now).Ok? && c in specs
    ensures ChildStored(name, was, AddComponents(name, db, wid, specs, now).value, wid, c, now, now)
    decreases |specs|
  {
    AddUnfolds(name, db, wid, specs, now);
    var db1 := PutComponent(name, db, wid, specs[0], now, now).value.0;
    PutComponentOk(name, db, wid, specs[0], now, now);
    if c == specs[0] {
      PutStores(name, was, db, wid, c, now, now);
      AddComponentsOk(name, db1, wid, specs[1..], now);
      StoredStays(name, was, db1, AddComponents(name, db1, wid, specs[1..], now).value, wid, c, now, now);
    } else {
      PutNames(name, was, db, wid, specs[0], now, now);
      AddStores(name, was, db1, wid, specs[1..], now, c);
    }
  }

  lemma {:induction false} AddsNoOther(name: Naming, db: Db, wid: WorkflowId, specs: seq<ComponentSpec>, now: Time)
    requires Sound(name, db) && AddComponents(name, db, wid, specs, now).Ok?
    ensures var components := AddComponents(name, db, wid, specs, now).value.components;
      forall slot | slot in components && slot !in db.components :: exists c | c in specs :: slot == (wid, c.key)
    decreases |specs|
  {
    if specs != [] {
      AddUnfolds(name, db, wid, specs, now);
      PutComponentOk(name, db, wid, specs[0], now, now);
      var db1 := PutComponent(name, db, wid, specs[0], now, now).value.0;
      AddsNoOther(name, db1, wid, specs[1..], now);
      assert specs[0] in specs && forall c | c in specs[1..] :: c in specs;
    }
  }

  // ---------------------------------------------------------------------------------
  // Submission and replacement

  ghost predicate WorkflowStored(row: WorkflowRow, spec: WorkflowSpec, initial: State, now: Time) {
    && row.workflowId == spec.workflowId && row.kind == spec.kind && row.payload == spec.payload && row.metadata == spec.metadata
    && row.mode == spec.mode && row.state == initial && row.status == Active && row.cursor == 0
    && row.result == None && row.lastError == None && row.createdAt == now && row.updatedAt == now && row.completedAt == None
  }

  /** An accepted workflow is stored as asked with each of its children; a refused one leaves nothing. */
  lemma SubmitEffect(name: Naming, db: Db, spec: WorkflowSpec, specs: seq<ComponentSpec>, initial: State, now: Time)
    requires Intact(name, db)
    ensures var r, db' := SubmitWorkflow(name, db, spec, specs, initial, now), Apply(name, db, OpSubmitWorkflow(spec, specs, initial), now);
      if r.Err? then db' == db
      else
        var wid := spec.workflowId;
        && wid !in db.workflows && wid in db'.workflows && r == Ok((db', db'.workflows[wid]))
        && db'.workflows == db.workflows[wid := db'.workflows[wid]] && WorkflowStored(db'.workflows[wid], spec, initial, now)
        && (forall c | c in specs :: ChildStored(name, db.tasks, db', wid, c, now, now))
        && Persisting(db.tasks, db'.tasks) && Contains(db.components, db'.components)
        && (forall slot | slot in db'.components && slot !in db.components :: exists c | c in specs :: slot == (wid, c.key))
        && db'.events == db.events && db'.commits == db.commits && db'.checkpoints == db.checkpoints && db'.policies == db.policies
  {
    if SubmitWorkflow(name, db, spec, specs, initial, now).Ok? {
      SubmitChildren(name, db, spec, specs, initial, now);
    }
  }

  lemma SubmitChildren(name: Naming, db: Db, spec: WorkflowSpec, specs: seq<ComponentSpec>, initial: State, now: Time)
    requires Sound(name, db) && SubmitWorkflow(name, db, spec, specs, initial, now).Ok?
    ensures var db' := SubmitWorkflow(name, db, spec, specs, initial, now).value.0;
      && Extends(name, WithWorkflow(db, NewWorkflow(spec, initial, now)), db', spec.workflowId)
      && Contains(db.components, db'.components)
      && (forall c | c in specs :: ChildStored(name, db.tasks, db', spec.workflowId, c, now, now))
      && (forall slot | slot in db'.components && slot !in db.components :: exists c | c in specs :: slot == (spec.workflowId, c.key))
  {
    var db0 := WithWorkflow(db, NewWorkflow(spec, initial, now));
    AddComponentsOk(name, db0, spec.workflowId, specs, now);
    AddsNoOther(name, db0, spec.workflowId, specs, now);
    forall c | c in specs
      ensures ChildStored(name, db.tasks, SubmitWorkflow(name, db, spec, specs, initial, now).value.0, spec.workflowId, c, now, now)
    {
      AddStores(name, db.tasks, db0, spec.workflowId, specs, now, c);
    }
  }

  /** A replacement that is not newer answers with the present child. */
  lemma ReplaceStale(name: Naming, db: Db, wid: WorkflowId, c: ComponentSpec, now: Time)
    requires ComponentsOk(db) && (wid, c.key) in db.components && c.generation <= db.components[(wid, c.key)].generation
    ensures ReplaceComponent(name, db, wid, c, now) == Ok((db, db.tasks[db.components[(wid, c.key)].taskId]))
    ensures Apply(name, db, OpReplace(wid, c), now) == db
  {
  }

  /** Only tasks and the component row of the slot may differ. */
  ghost predicate OnlySlot(db: Db, db': Db, slot: (WorkflowId, Text)) {
    && slot in db'.components && Persisting(db.tasks, db'.tasks)
    && db' == db.(tasks := db'.tasks, components := db.components[slot := db'.components[slot]])
  }

  lemma PutOnly(name: Naming, db: Db, wid: WorkflowId, c: ComponentSpec, createdAt: Time, now: Time)
    requires Sound(name, db) && PutComponent(name, db, wid, c, createdAt, now).Ok?
    ensures var (db', row) := PutComponent(name, db, wid, c, createdAt, now).value; var slot := (wid, c.key);
      && OnlySlot(db, db', slot) && wid in db.workflows
      && db'.components[slot].taskId in db'.tasks && row == db'.tasks[db'.components[slot].taskId]
  {
    PutComponentOk(name, db, wid, c, createdAt, now);
  }

  /**
   * A newer one, where it is not refused, writes the component's row and its child and keeps
   * the row's creation time; refused, it leaves nothing.
   */
  lemma ReplaceNewer(name: Naming, db: Db, wid: WorkflowId, c: ComponentSpec, now: Time)
    requires Sound(name, db)
    requires (wid, c.key) in db.components ==> c.generation > db.components[(wid, c.key)].generation
    ensures var r, db', slot := ReplaceComponent(name, db, wid, c, now), Apply(name, db, OpReplace(wid, c), now), (wid, c.key);
      if r.Err? then db' == db
      else
        && wid in db.workflows && OnlySlot(db, db', slot)
        && ChildStored(name, db.tasks, db', wid, c, if slot in db.components then db.components[slot].createdAt else now, now)
        && r == Ok((db', db'.tasks[db'.components[slot].taskId]))
  {
    var slot := (wid, c.key);
    var createdAt := if slot in db.components then db.components[slot].createdAt else now;
    if PutComponent(name, db, wid, c, createdAt, now).Ok? {
      PutStores(name, db.tasks, db, wid, c, createdAt, now);
      PutOnly(name, db, wid, c, createdAt, now);
    }
  }

  // ---------------------------------------------------------------------------------
  // When a submission is accepted

  /** Nothing stored has the id, the key or the executor name of the spec. */
  ghost predicate Unclaimed(name: Naming, tasks: TaskTable, spec: TaskSpec) {
    spec.taskId !in tasks && forall id | id in tasks :: tasks[id].jobName != name.Of(spec.taskId) && !UnderKey(tasks[id], spec)
  }

  /** No task was created for the slot in that generation. */
  ghost predicate SlotUnclaimed(tasks: TaskTable, wid: WorkflowId, c: ComponentSpec) {
    forall id | id in tasks :: tasks[id].origin != Some(Origin(wid, c.key, c.generation))
  }

  ghost predicate SpecsDiffer(name: Naming, a: ComponentSpec, b: ComponentSpec) {
    && a.key != b.key && name.Of(a.task.taskId) != name.Of(b.task.taskId)
    && (a.task.idempotencyKey.Some? ==> a.task.idempotencyKey != b.task.idempotencyKey)
  }

  lemma PutAccepts(name: Naming, db: Db, wid: WorkflowId, c: ComponentSpec, createdAt: Time, now: Time)
    requires Sound(name, db) && wid in db.workflows && Unclaimed(name, db.tasks, c.task) && SlotUnclaimed(db.tasks, wid, c)
    ensures var r := PutComponent(name, db, wid, c, createdAt, now);
      && r.Ok? && c.task.taskId in r.value.0.tasks
      && r.value.0.tasks == db.tasks[c.task.taskId := r.value.0.tasks[c.task.taskId]]
      && FreshlyStored(name, r.value.0.tasks[c.task.taskId], c.task, Some(Origin(wid, c.key, c.generation)), now)
      && r.value.0.components.Keys == db.components.Keys + {(wid, c.key)} && r.value.0.workflows == db.workflows
  {
    var origin := Some(Origin(wid, c.key, c.generation));
    var row := NewRow(name, c.task, origin, now);
    forall id | id in db.tasks ensures !HasKey(db.tasks, id, c.task.idempotencyKey) { assert !UnderKey(db.tasks[id], c.task); }
    assert !Conflicts(db.tasks, row);
    NewRowIsFresh(name, c.task, origin, now);
  }

  /** Components that differ from each other and from all that is stored. */
  ghost predicate Acceptable(name: Naming, db: Db, wid: WorkflowId, specs: seq<ComponentSpec>) {
    && (forall i | 0 <= i < |specs| :: Unclaimed(name, db.tasks, specs[i].task) && SlotUnclaimed(db.tasks, wid, specs[i]))
    && (forall i | 0 <= i < |specs| :: (wid, specs[i].key) !in db.components)
    && (forall i, j | 0 <= i < j < |specs| :: SpecsDiffer(name, specs[i], specs[j]))
  }

  lemma RestAcceptable(name: Naming, db: Db, wid: WorkflowId, specs: seq<ComponentSpec>, now: Time)
    requires Sound(name, db) && wid in db.workflows && specs != [] && Acceptable(name, db, wid, specs)
    ensures var r := PutComponent(name, db, wid, specs[0], now, now); r.Ok? && Acceptable(name, r.value.0, wid, specs[1..])
  {
    var c := specs[0];
    PutAccepts(name, db, wid, c, now, now);
    var db1 := PutComponent(name, db, wid, c, now, now).value.0;
    forall i | 0 <= i < |specs| - 1
      ensures Unclaimed(name, db1.tasks, specs[1..][i].task) && SlotUnclaimed(db1.tasks, wid, specs[1..][i])
      ensures (wid, specs[1..][i].key) !in db1.components
    {
      assert SpecsDiffer(name, specs[0], specs[i + 1]);
      assert Unclaimed(name, db.tasks, specs[i + 1].task) && SlotUnclaimed(db.tasks, wid, specs[i + 1]);
    }
    forall i, j | 0 <= i < j < |specs| - 1 ensures SpecsDiffer(name, specs[1..][i], specs[1..][j]) {
      assert SpecsDiffer(name, specs[i + 1], specs[j + 1]);
    }
  }

  lemma {:induction false} AddAccepts(name: Naming, db: Db, wid: WorkflowId, specs: seq<ComponentSpec>, now: Time)
    requires Sound(name, db) && wid in db.workflows && Acceptable(name, db, wid, specs)
    ensures AddComponents(name, db, wid, specs, now).Ok?
    decreases |specs|
  {
    if specs != [] {
      RestAcceptable(name, db, wid, specs, now);
      PutComponentOk(name, db, wid, specs[0], now, now);
      AddAccepts(name, PutComponent(name, db, wid, specs[0], now, now).value.0, wid, specs[1..], now);
    }
  }

  /** A new workflow whose children differ from each other and from all that is stored is accepted. */
  lemma SubmitAccepts(name: Naming, db: Db, spec: WorkflowSpec, specs: seq<ComponentSpec>, initial: State, now: Time)
    requires Intact(name, db) && spec.workflowId !in db.workflows && Acceptable(name, db, spec.workflowId, specs)
    ensures SubmitWorkflow(name, db, spec, specs, initial, now).Ok?
  {
    AddAccepts(name, WithWorkflow(db, NewWorkflow(spec, initial, now)), spec.workflowId, specs, now);
  }

  /** So is a newer component of a stored workflow whose child differs from all that is stored. */
  lemma ReplaceAccepts(name: Naming, db: Db, wid: WorkflowId, c: ComponentSpec, now: Time)
    requires Sound(name, db) && wid in db.workflows && Unclaimed(name, db.tasks, c.task) && SlotUnclaimed(db.tasks, wid, c)
    ensures ReplaceComponent(name, db, wid, c, now).Ok?
  {
    var slot := (wid, c.key);
    PutAccepts(name, db, wid, c, if slot in db.components then db.components[slot].createdAt else now, now);
  }

  // ---------------------------------------------------------------------------------
  // The workflow's row

  /** State and cursor are written together, and nothing else but the time. */
  lemma SaveEffect(name: Naming, db: Db, wid: WorkflowId, state: State, cursor: nat, now: Time)
    ensures var r, db' := SaveState(db, wid, state, cursor, now), Apply(name, db, OpSaveState(wid, state, cursor), now);
      if wid !in db.workflows then r == Err(WorkflowNotFound) && db' == db
      else
        wid in db'.workflows && var was, row := db.workflows[wid], db'.workflows[wid];
        && r == Ok((db', row)) && db' == db.(workflows := db.workflows[wid := row])
        && row.state == state && row.cursor == cursor && row.updatedAt == now
        && row == was.(state := row.state, cursor := row.cursor, updatedAt := row.updatedAt)
  {
  }

  /** Status, result and error are written together, with the time of completion. */
  lemma FinishEffect(name: Naming, db: Db, wid: WorkflowId, status: WorkflowStatus, result: Option<Outcome>, error: Option<Text>, now: Time)
    ensures var r, db' := FinishWorkflow(db, wid, status, result, error, now), Apply(name, db, OpFinish(wid, status, result, error), now);
      if wid !in db.workflows then r == Err(WorkflowNotFound) && db' == db
      else
        wid in db'.workflows && var was, row := db.workflows[wid], db'.workflows[wid];
        && r == Ok((db', row)) && db' == db.(workflows := db.workflows[wid := row])
        && row.status == status && row.result == result && row.lastError == error
        && row.updatedAt == now && row.completedAt == Some(now)
        && row.workflowId == was.workflowId && row.kind == was.kind && row.payload == was.payload && row.metadata == was.metadata
        && row.state == was.state && row.mode == was.mode && row.cursor == was.cursor && row.createdAt == was.createdAt
  {
  }

  // ---------------------------------------------------------------------------------
  // Barriers

  /** Every required component's child has its newest checkpoint at the barrier. */
  ghost predicate AllAt(db: Db, wid: WorkflowId, barrier: int)
    requires ComponentsOk(db)
  {
    forall key | (wid, key) in db.components && db.components[(wid, key)].required ::
      var head := db.tasks[db.components[(wid, key)].taskId].checkpoint; head.Some? && head.value.sequence == barrier
  }

  /** The manifest lists the newest checkpoints of the required components, and nothing else. */
  ghost predicate ListsHeads(db: Db, wid: WorkflowId, manifest: map<Text, CheckpointRef>)
    requires ComponentsOk(db)
  {
    && (forall key :: key in manifest <==> (wid, key) in db.components && db.components[(wid, key)].required)
    && (forall key | key in manifest :: db.tasks[db.components[(wid, key)].taskId].checkpoint == Some(manifest[key]))
  }

  lemma AllAtExact(db: Db, wid: WorkflowId, barrier: int)
    requires ComponentsOk(db)
    ensures EveryHeadAt(db, wid, barrier) <==> AllAt(db, wid, barrier)
  {
    forall slot | slot in db.components && IsRequired(db, slot, wid) && AllAt(db, wid, barrier)
      ensures HeadOf(db, slot).Some? && HeadOf(db, slot).value.sequence == barrier
    {
      assert slot == (wid, slot.1);
    }
    forall key | (wid, key) in db.components && db.components[(wid, key)].required && EveryHeadAt(db, wid, barrier)
      ensures var head := db.tasks[db.components[(wid, key)].taskId].checkpoint; head.Some? && head.value.sequence == barrier
    {
      assert IsRequired(db, (wid, key), wid);
    }
  }

  lemma ManifestLists(db: Db, wid: WorkflowId, barrier: int)
    requires ComponentsOk(db) && EveryHeadAt(db, wid, barrier)
    ensures ListsHeads(db, wid, ManifestOf(db, wid))
  {
    var manifest := ManifestOf(db, wid);
    forall key
      ensures key in manifest <==> (wid, key) in db.components && db.components[(wid, key)].required
      ensures key in manifest ==> db.tasks[db.components[(wid, key)].taskId].checkpoint == Some(manifest[key])
    {
      if key in manifest {
        var slot :| slot in db.components && IsRequired(db, slot, wid) && HeadOf(db, slot).Some? && slot.1 == key;
        assert slot == (wid, key);
      }
      if (wid, key) in db.components && db.components[(wid, key)].required { assert IsRequired(db, (wid, key), wid); }
    }
  }

  lemma OneListing(db: Db, wid: WorkflowId, a: map<Text, CheckpointRef>, b: map<Text, CheckpointRef>)
    requires ComponentsOk(db) && ListsHeads(db, wid, a) && ListsHeads(db, wid, b)
    ensures a == b
  {
  }

  /** Without its workflow, or with a required component not at it, a barrier is refused. */
  lemma CommitRefused(name: Naming, db: Db, wid: WorkflowId, barrier: int, uri: Option<Text>, now: Time)
    requires ComponentsOk(db) && (wid !in db.workflows || !AllAt(db, wid, barrier))
    ensures CommitBarrier(db, wid, barrier, uri, now) == Err(if wid !in db.workflows then WorkflowNotFound else BarrierConflict)
    ensures Apply(name, db, OpCommit(wid, barrier, uri), now) == db
  {
    AllAtExact(db, wid, barrier);
  }

  /** Otherwise one committed before is answered again if list and controller URI are the same, else refused. */
  lemma CommitAgain(name: Naming, db: Db, wid: WorkflowId, barrier: int, uri: Option<Text>, now: Time, manifest: map<Text, CheckpointRef>)
    requires Intact(name, db) && wid in db.workflows && (wid, barrier) in db.commits
    requires AllAt(db, wid, barrier) && ListsHeads(db, wid, manifest)
    ensures Apply(name, db, OpCommit(wid, barrier, uri), now) == db
    ensures var r, row := CommitBarrier(db, wid, barrier, uri, now), db.commits[(wid, barrier)];
      if row.manifest == manifest && row.controllerUri == uri
      then r == Ok((db, BarrierCommit(wid, barrier, uri, manifest, row.createdAt))) else r == Err(BarrierConflict)
  {
    AllAtExact(db, wid, barrier);
    ManifestLists(db, wid, barrier);
    OneListing(db, wid, manifest, ManifestOf(db, wid));
  }

  ghost predicate BarrierAnnounced(events: seq<Event>, events': seq<Event>, wid: WorkflowId, barrier: int, now: Time) {
    && |events'| == |events| + 1 && events'[..|events|] == events
    && var e := events'[|events|];
      && e.eventId == (if events == [] then 1 else events[|events| - 1].eventId + 1)
      && e.workflowId == wid && e.kind == BarrierCommitted && e.componentKey == None && e.generation == None
      && e.payload == BarrierReport(barrier) && e.createdAt == now
  }

  /** And a new one is stored with the list of the required components' checkpoints, and announced. */
  lemma CommitNew(name: Naming, db: Db, wid: WorkflowId, barrier: int, uri: Option<Text>, now: Time, manifest: map<Text, CheckpointRef>)
    requires Intact(name, db) && wid in db.workflows && (wid, barrier) !in db.commits
    requires AllAt(db, wid, barrier) && ListsHeads(db, wid, manifest)
    ensures var r, db' := CommitBarrier(db, wid, barrier, uri, now), Apply(name, db, OpCommit(wid, barrier, uri), now);
      && r == Ok((db', BarrierCommit(wid, barrier, uri, manifest, now)))
      && db' == db.(commits := db.commits[(wid, barrier) := CommitRow(uri, manifest, now)], events := db'.events)
      && BarrierAnnounced(db.events, db'.events, wid, barrier, now)
  {
    AllAtExact(db, wid, barrier);
    ManifestLists(db, wid, barrier);
    OneListing(db, wid, manifest, ManifestOf(db, wid));
  }

  /** There is such a list. */
  lemma HeadsListed(name: Naming, db: Db, wid: WorkflowId, barrier: int)
    requires Intact(name, db) && AllAt(db, wid, barrier)
    ensures exists manifest :: ListsHeads(db, wid, manifest)
  {
    AllAtExact(db, wid, barrier);
    ManifestLists(db, wid, barrier);
  }
}
