// A crash of `WorkflowEngine.reconcile` in its loop is harmless: after any prefix of its
// `replace_component` calls a full run ends in the tables that an uninterrupted run would
// have left, up to timestamps.

module Crash {
  import opened Types
  import opened Tables
  import opened Integrity
  import opened StaticHandler
  import opened Folding

  /** `registry.validate_task`: the validated payload of a task of that kind, or `None` if it raises. */
  type Validator = (Text, Blob) -> Option<Blob>

  function Validated(v: Validator, c: ComponentSpec): Option<ComponentSpec> {
    match v(c.task.kind, c.task.payload)
    case None => None
    case Some(payload) => Some(c.(task := c.task.(payload := payload)))
  }

  /** The generation of the task that a component has, zero if it was not created for one. */
  function GenerationOf(row: TaskRow): nat {
    if row.origin.Some? then row.origin.value.generation else 0
  }

  predicate Wanted(current: map<Text, TaskRow>, c: ComponentSpec) {
    c.key !in current || c.generation > GenerationOf(current[c.key])
  }

  /** The tables so far, and whether the loop is still going. */
  datatype Progress = Progress(db: Db, ok: bool)

  /** One round: the component is validated, compared with `current` and replaced if wanted. */
  ghost function ReplaceNext(name: Naming, v: Validator, p: Progress, wid: WorkflowId, current: map<Text, TaskRow>, c: ComponentSpec, at: Time): Progress {
    if !p.ok then p
    else
      match Validated(v, c)
      case None => Progress(p.db, false)
      case Some(desired) =>
        if !Wanted(current, desired) then p
        else
          var r := ReplaceComponent(name, p.db, wid, desired, at);
          Progress(After(p.db, r), r.Ok?)
  }

  ghost function ReplaceAll(name: Naming, v: Validator, db: Db, wid: WorkflowId, current: map<Text, TaskRow>, specs: seq<ComponentSpec>, at: Time): Progress {
    if specs == [] then Progress(db, true)
    else
      var n := |specs| - 1;
      ReplaceNext(name, v, ReplaceAll(name, v, db, wid, current, specs[..n], at), wid, current, specs[n], at)
  }

  // ---------------------------------------------------------------------------------
  // The whole call

  /** The state and the cursor after the events not yet folded. */
  ghost function Caught(h: Handler, db: Db, wid: WorkflowId): (State, nat)
    requires wid in db.workflows
  {
    var row := db.workflows[wid];
    var es := EventsAfter(db.events, wid, row.cursor);
    (Fold(h, row.state, es), CursorAfter(row.cursor, es))
  }

  ghost function DesiredNow(h: Handler, db: Db, wid: WorkflowId): Option<seq<ComponentSpec>>
    requires wid in db.workflows
  {
    var (state, cursor) := Caught(h, db, wid);
    h.desired(db.workflows[wid].(state := state, cursor := cursor), state)
  }

  function VerdictOf(h: Handler, row: WorkflowRow, state: State, tasks: map<Text, TaskRow>): Verdict {
    var result := h.completion(row, state, tasks);
    if result.Some? then Completed(result.value)
    else
      var reason := h.failure(row, state, tasks);
      if reason.Some? then Broken(reason.value) else Undecided
  }

  /** `WorkflowEngine.reconcile` up to and including `save_workflow_state`; not `ok` where it raises. */
  ghost function Materialized(name: Naming, v: Validator, h: Handler, db: Db, wid: WorkflowId, at: Time): Progress
    requires wid in db.workflows
  {
    var desired := DesiredNow(h, db, wid);
    if desired.None? then Progress(db, false)
    else
      SaveAfter(ReplaceAll(name, v, db, wid, ComponentTasks(db, wid), desired.value, at), wid, Caught(h, db, wid), at)
  }

  ghost function SaveAfter(p: Progress, wid: WorkflowId, view: (State, nat), at: Time): Progress {
    if p.ok then Progress(After(p.db, SaveState(p.db, wid, view.0, view.1, at)), true) else p
  }

  /** The rest of it: read the children and finish the workflow if the handler says so. */
  ghost function Judged(h: Handler, db: Db, wid: WorkflowId, state: State, at: Time): Db
    requires wid in db.workflows
  {
    Ended(db, wid, VerdictOf(h, db.workflows[wid], state, ComponentTasks(db, wid)), at)
  }

  ghost function Ended(db: Db, wid: WorkflowId, verdict: Verdict, at: Time): Db {
    match verdict
    case Undecided => db
    case Completed(result) => After(db, FinishWorkflow(db, wid, WfSucceeded, Some(result), None, at))
    case Broken(reason) => After(db, FinishWorkflow(db, wid, WfFailed, None, Some(reason), at))
  }

  /** The tables after a call of `WorkflowEngine.reconcile`, which may end in an exception. */
  ghost function Reconciled(name: Naming, v: Validator, h: Handler, db: Db, wid: WorkflowId, at: Time): Db {
    if wid !in db.workflows || !db.workflows[wid].status.Active? then db
    else
      var p := Materialized(name, v, h, db, wid, at);
      if p.ok && wid in p.db.workflows then Judged(h, p.db, wid, Caught(h, db, wid).0, at) else p.db
  }

  function FirstRounds(specs: seq<ComponentSpec>, k: nat): seq<ComponentSpec> {
    specs[..if k < |specs| then k else |specs|]
  }

  /** The tables left by a crash after the first `k` rounds of the loop. */
  ghost function Crashed(name: Naming, v: Validator, h: Handler, db: Db, wid: WorkflowId, k: nat, at: Time): Db {
    if wid !in db.workflows || !db.workflows[wid].status.Active? then db
    else
      var desired := DesiredNow(h, db, wid);
      if desired.None? then db
      else ReplaceAll(name, v, db, wid, ComponentTasks(db, wid), FirstRounds(desired.value, k), at).db
  }

  /** The crash points of the loop: nothing done, then one round more each, and behind the last round the save is next. */
  lemma CrashedByRounds(name: Naming, v: Validator, h: Handler, db: Db, wid: WorkflowId, k: nat, at: Time)
    requires wid in db.workflows && db.workflows[wid].status == Active && DesiredNow(h, db, wid).Some?
    requires k < |DesiredNow(h, db, wid).value|
    ensures Crashed(name, v, h, db, wid, 0, at) == db
    ensures var specs := DesiredNow(h, db, wid).value; var before := ReplaceAll(name, v, db, wid, ComponentTasks(db, wid), specs[..k], at);
      && Crashed(name, v, h, db, wid, k, at) == before.db
      && Crashed(name, v, h, db, wid, k + 1, at) == ReplaceNext(name, v, before, wid, ComponentTasks(db, wid), specs[k], at).db
      && Materialized(name, v, h, db, wid, at)
         == SaveAfter(ReplaceNext(name, v, ReplaceAll(name, v, db, wid, ComponentTasks(db, wid), specs[..|specs| - 1], at),
                                  wid, ComponentTasks(db, wid), specs[|specs| - 1], at), wid, Caught(h, db, wid), at)
  {
    var specs := DesiredNow(h, db, wid).value;
    assert FirstRounds(specs, k) == specs[..k] && FirstRounds(specs, k + 1) == specs[..k + 1];
    assert specs[..k + 1][..k] == specs[..k];
  }

  // ---------------------------------------------------------------------------------
  // Equal up to timestamps

  ghost predicate TaskAlike(a: TaskRow, b: TaskRow) {
    b == a.(createdAt := b.createdAt, updatedAt := b.updatedAt)
  }

  ghost predicate ComponentAlike(a: ComponentRow, b: ComponentRow) {
    a.generation == b.generation && a.taskId == b.taskId && a.required == b.required
  }

  ghost predicate WorkflowAlike(a: WorkflowRow, b: WorkflowRow) {
    b == a.(updatedAt := b.updatedAt, completedAt := b.completedAt)
  }

  ghost predicate TasksAlike(a: TaskTable, b: TaskTable) {
    a.Keys == b.Keys && forall id | id in a && id in b :: TaskAlike(a[id], b[id])
  }

  ghost predicate ComponentsAlike(a: map<(WorkflowId, Text), ComponentRow>, b: map<(WorkflowId, Text), ComponentRow>) {
    a.Keys == b.Keys && forall s | s in a && s in b :: ComponentAlike(a[s], b[s])
  }

  ghost predicate WorkflowsAlike(a: map<WorkflowId, WorkflowRow>, b: map<WorkflowId, WorkflowRow>) {
    a.Keys == b.Keys && forall w | w in a && w in b :: WorkflowAlike(a[w], b[w])
  }

  ghost predicate Alike(a: Db, b: Db) {
    && TasksAlike(a.tasks, b.tasks) && ComponentsAlike(a.components, b.components) && WorkflowsAlike(a.workflows, b.workflows)
    && a.checkpoints == b.checkpoints && a.events == b.events && a.commits == b.commits && a.policies == b.policies
  }

  lemma AlikeTransitive(a: Db, b: Db, c: Db)
    requires Alike(a, b) && Alike(b, c)
    ensures Alike(a, c)
  {
  }

  /** The same refusals, whatever the timestamps. */
  lemma ConflictsAlike(a: TaskTable, b: TaskTable, x: TaskRow, y: TaskRow)
    requires TasksAlike(a, b) && TaskAlike(x, y) && Conflicts(a, x)
    ensures Conflicts(b, y)
  {
    if id :| HasKey(a, id, x.spec.idempotencyKey) {
      assert HasKey(b, id, y.spec.idempotencyKey);
    } else if id :| id in a && a[id].jobName == x.jobName {
      assert id in b && b[id].jobName == y.jobName;
    } else if x.Id() !in a {
      var id :| id in a && a[id].origin == x.origin;
      assert id in b && b[id].origin == y.origin;
    }
  }

  lemma TasksAlikeSymmetric(a: TaskTable, b: TaskTable)
    requires TasksAlike(a, b)
    ensures TasksAlike(b, a)
  {
  }

  ghost predicate InsertsAlike(x: Result<(TaskTable, TaskRow)>, y: Result<(TaskTable, TaskRow)>) {
    && x.Ok? == y.Ok?
    && (x.Err? && y.Err? ==> x.error == y.error)
    && (x.Ok? && y.Ok? ==> TasksAlike(x.value.0, y.value.0) && TaskAlike(x.value.1, y.value.1))
  }

  lemma InsertAlike(name: Naming, a: TaskTable, b: TaskTable, spec: TaskSpec, origin: Option<Origin>, at: Time, at': Time)
    requires TasksOk(name, a) && TasksOk(name, b) && TasksAlike(a, b)
    ensures InsertsAlike(InsertTask(name, a, spec, origin, at), InsertTask(name, b, spec, origin, at'))
  {
    var x, y := NewRow(name, spec, origin, at), NewRow(name, spec, origin, at');
    if Conflicts(a, x) {
      ConflictsAlike(a, b, x, y);
      StoredAlike(name, a, b, spec, origin, at, at');
    } else if Conflicts(b, y) {
      TasksAlikeSymmetric(a, b);
      ConflictsAlike(b, a, y, x);
    }
  }

  /** A refused insert finds the same row. */
  lemma StoredAlike(name: Naming, a: TaskTable, b: TaskTable, spec: TaskSpec, origin: Option<Origin>, at: Time, at': Time)
    requires TasksOk(name, a) && TasksOk(name, b) && TasksAlike(a, b)
    requires Conflicts(a, NewRow(name, spec, origin, at)) && Conflicts(b, NewRow(name, spec, origin, at'))
    ensures InsertsAlike(InsertTask(name, a, spec, origin, at), InsertTask(name, b, spec, origin, at'))
  {
    if id :| HasKey(a, id, spec.idempotencyKey) {
      assert HasKey(b, id, spec.idempotencyKey);
      forall other | HasKey(a, other, spec.idempotencyKey) ensures other == id { OneKeyHolder(name, a, other, id, spec.idempotencyKey); }
      forall other | HasKey(b, other, spec.idempotencyKey) ensures other == id { OneKeyHolder(name, b, other, id, spec.idempotencyKey); }
    } else {
      assert forall id :: HasKey(b, id, spec.idempotencyKey) ==> HasKey(a, id, spec.idempotencyKey);
    }
  }

  // ---------------------------------------------------------------------------------
  // One replacement

  lemma TakenAlike(a: Db, b: Db, slot: (WorkflowId, Text), id: TaskId)
    requires Alike(a, b)
    ensures ComponentTaken(a.components, slot, id) <==> ComponentTaken(b.components, slot, id)
  {
    if ComponentTaken(a.components, slot, id) {
      var other :| other in a.components && other != slot && a.components[other].taskId == id;
      assert other in b.components && b.components[other].taskId == id;
    }
    if ComponentTaken(b.components, slot, id) {
      var other :| other in b.components && other != slot && b.components[other].taskId == id;
      assert other in a.components && a.components[other].taskId == id;
    }
  }

  ghost predicate ProgressAlike(p: Progress, q: Progress) {
    p.ok == q.ok && Alike(p.db, q.db)
  }

  lemma PutAlike(name: Naming, a: Db, b: Db, wid: WorkflowId, c: ComponentSpec, created: Time, created': Time, at: Time, at': Time)
    requires Sound(name, a) && Sound(name, b) && Alike(a, b)
    ensures PutComponent(name, a, wid, c, created, at).Ok? == PutComponent(name, b, wid, c, created', at').Ok?
    ensures Alike(After(a, PutComponent(name, a, wid, c, created, at)), After(b, PutComponent(name, b, wid, c, created', at')))
  {
    var x := InsertTask(name, a.tasks, c.task, Some(Origin(wid, c.key, c.generation)), at);
    var y := InsertTask(name, b.tasks, c.task, Some(Origin(wid, c.key, c.generation)), at');
    InsertAlike(name, a.tasks, b.tasks, c.task, Some(Origin(wid, c.key, c.generation)), at, at');
    if x.Ok? {
      TakenAlike(a, b, (wid, c.key), x.value.1.Id());
      WrittenAlike(a.components, b.components, (wid, c.key), ComponentRow(c.generation, x.value.1.Id(), c.required, created, at),
                   ComponentRow(c.generation, y.value.1.Id(), c.required, created', at'));
    }
  }

  lemma WrittenAlike(a: map<(WorkflowId, Text), ComponentRow>, b: map<(WorkflowId, Text), ComponentRow>, slot: (WorkflowId, Text), x: ComponentRow, y: ComponentRow)
    requires ComponentsAlike(a, b) && ComponentAlike(x, y)
    ensures ComponentsAlike(a[slot := x], b[slot := y])
  {
  }

  lemma ReplaceAlike(name: Naming, a: Db, b: Db, wid: WorkflowId, c: ComponentSpec, at: Time, at': Time)
    requires Sound(name, a) && Sound(name, b) && Alike(a, b)
    ensures ReplaceComponent(name, a, wid, c, at).Ok? == ReplaceComponent(name, b, wid, c, at').Ok?
    ensures Alike(After(a, ReplaceComponent(name, a, wid, c, at)), After(b, ReplaceComponent(name, b, wid, c, at')))
  {
    var slot := (wid, c.key);
    assert slot in a.components <==> slot in b.components;
    if slot !in a.components || c.generation > a.components[slot].generation {
      PutAlike(name, a, b, wid, c, if slot in a.components then a.components[slot].createdAt else at,
               if slot in b.components then b.components[slot].createdAt else at', at, at');
    }
  }

  lemma NextAlike(name: Naming, v: Validator, p: Progress, q: Progress, wid: WorkflowId,
                  current: map<Text, TaskRow>, current': map<Text, TaskRow>, c: ComponentSpec, at: Time, at': Time)
    requires Sound(name, p.db) && Sound(name, q.db) && ProgressAlike(p, q)
    requires Validated(v, c).Some? ==> (Wanted(current, Validated(v, c).value) <==> Wanted(current', Validated(v, c).value))
    ensures ProgressAlike(ReplaceNext(name, v, p, wid, current, c, at), ReplaceNext(name, v, q, wid, current', c, at'))
  {
    if p.ok && Validated(v, c).Some? { ReplaceAlike(name, p.db, q.db, wid, Validated(v, c).value, at, at'); }
  }

  lemma ReplaceSound(name: Naming, db: Db, wid: WorkflowId, c: ComponentSpec, at: Time)
    requires Sound(name, db)
    ensures var db' := After(db, ReplaceComponent(name, db, wid, c, at));
      Sound(name, db') && Extends(name, db, db', wid) && (db'.components == db.components || OneSlot(db.components, db'.components, (wid, c.key)))
  {
    var slot := (wid, c.key);
    if (slot !in db.components || c.generation > db.components[slot].generation) && ReplaceComponent(name, db, wid, c, at).Ok? {
      PutComponentOk(name, db, wid, c, if slot in db.components then db.components[slot].createdAt else at, at);
    }
  }

  ghost predicate OneSlot(a: map<(WorkflowId, Text), ComponentRow>, b: map<(WorkflowId, Text), ComponentRow>, slot: (WorkflowId, Text)) {
    slot in b && b == a[slot := b[slot]]
  }

  lemma NextExtends(name: Naming, v: Validator, p: Progress, wid: WorkflowId, current: map<Text, TaskRow>, c: ComponentSpec, at: Time)
    requires Sound(name, p.db)
    ensures var q := ReplaceNext(name, v, p, wid, current, c, at); Sound(name, q.db) && Extends(name, p.db, q.db, wid)
  {
    var d := Validated(v, c);
    if p.ok && d.Some? && Wanted(current, d.value) { ReplaceSound(name, p.db, wid, d.value, at); }
  }

  lemma NextElsewhere(name: Naming, v: Validator, p: Progress, wid: WorkflowId, current: map<Text, TaskRow>, c: ComponentSpec, at: Time, key: Text)
    requires Sound(name, p.db) && key != c.key
    ensures SlotSame(p.db, ReplaceNext(name, v, p, wid, current, c, at).db, wid, key)
  {
    var d := Validated(v, c);
    if p.ok && d.Some? && Wanted(current, d.value) { ReplaceSound(name, p.db, wid, d.value, at); }
  }

  lemma {:induction false} AllExtends(name: Naming, v: Validator, db: Db, wid: WorkflowId, current: map<Text, TaskRow>, specs: seq<ComponentSpec>, at: Time)
    requires Sound(name, db)
    ensures var q := ReplaceAll(name, v, db, wid, current, specs, at); Sound(name, q.db) && Extends(name, db, q.db, wid)
    decreases |specs|
  {
    if specs != [] {
      var n := |specs| - 1;
      AllExtends(name, v, db, wid, current, specs[..n], at);
      var p := ReplaceAll(name, v, db, wid, current, specs[..n], at);
      NextExtends(name, v, p, wid, current, specs[n], at);
      ExtendsTransitive(name, db, p.db, ReplaceNext(name, v, p, wid, current, specs[n], at).db, wid);
    }
  }

  // ---------------------------------------------------------------------------------
  // What a rerun finds

  ghost predicate SlotSame(a: Db, b: Db, wid: WorkflowId, key: Text) {
    && ((wid, key) in a.components <==> (wid, key) in b.components)
    && ((wid, key) in a.components ==> b.components[(wid, key)] == a.components[(wid, key)])
  }

  predicate Mentions(specs: seq<ComponentSpec>, key: Text) {
    exists i | 0 <= i < |specs| :: specs[i].key == key
  }

  predicate DistinctKeys(specs: seq<ComponentSpec>) {
    forall i, j | 0 <= i < j < |specs| :: specs[i].key != specs[j].key
  }

  lemma UnmentionedTail(specs: seq<ComponentSpec>, key: Text)
    requires specs != [] && !Mentions(specs, key)
    ensures !Mentions(specs[..|specs| - 1], key) && specs[|specs| - 1].key != key
  {
    var n := |specs| - 1;
    forall i | 0 <= i < n ensures specs[..n][i].key != key { assert specs[i].key != key; }
    assert specs[n].key != key;
  }

  lemma {:induction false} UnmentionedSame(name: Naming, v: Validator, db: Db, wid: WorkflowId, current: map<Text, TaskRow>, specs: seq<ComponentSpec>, at: Time, key: Text)
    requires Sound(name, db) && !Mentions(specs, key)
    ensures SlotSame(db, ReplaceAll(name, v, db, wid, current, specs, at).db, wid, key)
    decreases |specs|
  {
    if specs != [] {
      var n := |specs| - 1;
      UnmentionedTail(specs, key);
      UnmentionedSame(name, v, db, wid, current, specs[..n], at, key);
      AllExtends(name, v, db, wid, current, specs[..n], at);
      NextElsewhere(name, v, ReplaceAll(name, v, db, wid, current, specs[..n], at), wid, current, specs[n], at, key);
    }
  }

  /** `Wanted` against the tables themselves. */
  predicate WantedAt(db: Db, wid: WorkflowId, c: ComponentSpec) {
    var slot := (wid, c.key);
    || slot !in db.components || db.components[slot].taskId !in db.tasks
    || c.generation > GenerationOf(db.tasks[db.components[slot].taskId])
  }

  /** The children read at the start of a run. */
  ghost predicate ReadFrom(current: map<Text, TaskRow>, db: Db, wid: WorkflowId) {
    forall c {:trigger Wanted(current, c)} :: Wanted(current, c) <==> WantedAt(db, wid, c)
  }

  lemma ChildrenReadFrom(db: Db, wid: WorkflowId)
    ensures ReadFrom(ComponentTasks(db, wid), db, wid)
  {
    forall c: ComponentSpec ensures Wanted(ComponentTasks(db, wid), c) <==> WantedAt(db, wid, c) {
      if c.key in ComponentTasks(db, wid) {
        var slot :| slot in db.components && slot.0 == wid && db.components[slot].taskId in db.tasks && slot.1 == c.key;
        assert slot == (wid, c.key);
      }
    }
  }

  /** An untouched slot is wanted as before. */
  lemma WantedSame(name: Naming, a: Db, b: Db, wid: WorkflowId, c: ComponentSpec)
    requires ComponentsOk(a) && SlotSame(a, b, wid, c.key) && Inserts(name, a.tasks, b.tasks)
    ensures WantedAt(a, wid, c) <==> WantedAt(b, wid, c)
  {
  }

  /** A rerun has nothing to do for the component. */
  ghost predicate Settled(v: Validator, db: Db, wid: WorkflowId, c: ComponentSpec) {
    match Validated(v, c)
    case None => false
    case Some(d) =>
      || !WantedAt(db, wid, d)
      || (&& (wid, c.key) in db.components && d.generation <= db.components[(wid, c.key)].generation
          && db.components[(wid, c.key)].taskId in db.tasks)
  }

  lemma SettledNoOp(name: Naming, v: Validator, db: Db, wid: WorkflowId, current: map<Text, TaskRow>, c: ComponentSpec, at: Time)
    requires Settled(v, db, wid, c) && ReadFrom(current, db, wid)
    ensures ReplaceNext(name, v, Progress(db, true), wid, current, c, at) == Progress(db, true)
  {
  }

  lemma SettledStays(name: Naming, v: Validator, p: Progress, wid: WorkflowId, current: map<Text, TaskRow>, other: ComponentSpec, at: Time, c: ComponentSpec)
    requires Sound(name, p.db) && Settled(v, p.db, wid, c) && other.key != c.key
    ensures Settled(v, ReplaceNext(name, v, p, wid, current, other, at).db, wid, c)
  {
    NextExtends(name, v, p, wid, current, other, at);
    NextElsewhere(name, v, p, wid, current, other, at, c.key);
    WantedSame(name, p.db, ReplaceNext(name, v, p, wid, current, other, at).db, wid, Validated(v, c).value);
  }

  lemma ReplacedSettles(name: Naming, db: Db, wid: WorkflowId, d: ComponentSpec, at: Time)
    requires Sound(name, db) && ReplaceComponent(name, db, wid, d, at).Ok?
    ensures var db' := ReplaceComponent(name, db, wid, d, at).value.0;
      && (wid, d.key) in db'.components && d.generation <= db'.components[(wid, d.key)].generation
      && db'.components[(wid, d.key)].taskId in db'.tasks
  {
    var slot := (wid, d.key);
    if slot !in db.components || d.generation > db.components[slot].generation {
      PutComponentOk(name, db, wid, d, if slot in db.components then db.components[slot].createdAt else at, at);
    }
  }

  /** A round that went well settles its component. */
  lemma SettledHere(name: Naming, v: Validator, p: Progress, wid: WorkflowId, current: map<Text, TaskRow>, c: ComponentSpec, at: Time)
    requires Sound(name, p.db) && p.ok && ReplaceNext(name, v, p, wid, current, c, at).ok
    requires !Wanted(current, Validated(v, c).value) ==> !WantedAt(p.db, wid, Validated(v, c).value)
    ensures Settled(v, ReplaceNext(name, v, p, wid, current, c, at).db, wid, c)
  {
    var d := Validated(v, c).value;
    if Wanted(current, d) { ReplacedSettles(name, p.db, wid, d, at); }
  }

  /** All components that the interrupted run went through are settled. */
  lemma {:induction false} AllSettled(name: Naming, v: Validator, db: Db, wid: WorkflowId, current: map<Text, TaskRow>, specs: seq<ComponentSpec>, at: Time, i: nat)
    requires Sound(name, db) && ReadFrom(current, db, wid) && DistinctKeys(specs) && i < |specs|
    requires ReplaceAll(name, v, db, wid, current, specs, at).ok
    ensures Settled(v, ReplaceAll(name, v, db, wid, current, specs, at).db, wid, specs[i])
    decreases |specs|
  {
    if i < |specs| - 1 {
      AllSettled(name, v, db, wid, current, specs[..|specs| - 1], at, i);
      SettledOn(name, v, db, wid, current, specs, at, i);
    } else {
      SettledLast(name, v, db, wid, current, specs, at);
    }
  }

  lemma SettledOn(name: Naming, v: Validator, db: Db, wid: WorkflowId, current: map<Text, TaskRow>, specs: seq<ComponentSpec>, at: Time, i: nat)
    requires Sound(name, db) && i < |specs| - 1 && specs[i].key != specs[|specs| - 1].key
    requires Settled(v, ReplaceAll(name, v, db, wid, current, specs[..|specs| - 1], at).db, wid, specs[i])
    ensures Settled(v, ReplaceAll(name, v, db, wid, current, specs, at).db, wid, specs[i])
  {
    var n := |specs| - 1;
    AllExtends(name, v, db, wid, current, specs[..n], at);
    SettledStays(name, v, ReplaceAll(name, v, db, wid, current, specs[..n], at), wid, current, specs[n], at, specs[i]);
  }

  lemma SettledLast(name: Naming, v: Validator, db: Db, wid: WorkflowId, current: map<Text, TaskRow>, specs: seq<ComponentSpec>, at: Time)
    requires Sound(name, db) && ReadFrom(current, db, wid) && DistinctKeys(specs) && specs != []
    requires ReplaceAll(name, v, db, wid, current, specs, at).ok
    ensures Settled(v, ReplaceAll(name, v, db, wid, current, specs, at).db, wid, specs[|specs| - 1])
  {
    var n := |specs| - 1;
    AllExtends(name, v, db, wid, current, specs[..n], at);
    LastUnread(name, v, db, wid, current, specs, at);
    SettledHere(name, v, ReplaceAll(name, v, db, wid, current, specs[..n], at), wid, current, specs[n], at);
  }

  /** When its round comes, a component is still as `current` has it. */
  lemma LastUnread(name: Naming, v: Validator, db: Db, wid: WorkflowId, current: map<Text, TaskRow>, specs: seq<ComponentSpec>, at: Time)
    requires Sound(name, db) && ReadFrom(current, db, wid) && DistinctKeys(specs) && specs != []
    ensures var p, d := ReplaceAll(name, v, db, wid, current, specs[..|specs| - 1], at), Validated(v, specs[|specs| - 1]);
      d.Some? ==> (Wanted(current, d.value) <==> WantedAt(p.db, wid, d.value))
  {
    var n := |specs| - 1;
    var d := Validated(v, specs[n]);
    AllExtends(name, v, db, wid, current, specs[..n], at);
    UnmentionedSame(name, v, db, wid, current, specs[..n], at, specs[n].key);
    if d.Some? { WantedSame(name, db, ReplaceAll(name, v, db, wid, current, specs[..n], at).db, wid, d.value); }
  }

  lemma {:induction false} SettledRerun(name: Naming, v: Validator, db: Db, wid: WorkflowId, current: map<Text, TaskRow>, specs: seq<ComponentSpec>, at: Time)
    requires ReadFrom(current, db, wid) && forall i | 0 <= i < |specs| :: Settled(v, db, wid, specs[i])
    ensures ReplaceAll(name, v, db, wid, current, specs, at) == Progress(db, true)
    decreases |specs|
  {
    if specs != [] {
      var n := |specs| - 1;
      forall i | 0 <= i < n ensures Settled(v, db, wid, specs[..n][i]) { assert specs[..n][i] == specs[i]; }
      SettledRerun(name, v, db, wid, current, specs[..n], at);
      SettledNoOp(name, v, db, wid, current, specs[n], at);
    }
  }

  // ---------------------------------------------------------------------------------
  // The rerun

  /** The rounds do not look at the clock. */
  lemma {:induction false} TimesAlike(name: Naming, v: Validator, db: Db, wid: WorkflowId, current: map<Text, TaskRow>, specs: seq<ComponentSpec>, at: Time, at': Time)
    requires Sound(name, db)
    ensures ProgressAlike(ReplaceAll(name, v, db, wid, current, specs, at), ReplaceAll(name, v, db, wid, current, specs, at'))
    decreases |specs|
  {
    if specs != [] {
      var n := |specs| - 1;
      TimesAlike(name, v, db, wid, current, specs[..n], at, at');
      OneRoundAlike(name, v, db, db, wid, current, current, specs, at, at');
    }
  }

  /** A round that raises leaves the tables as they are. */
  lemma {:induction false} LastGood(name: Naming, v: Validator, db: Db, wid: WorkflowId, current: map<Text, TaskRow>, specs: seq<ComponentSpec>, at: Time) returns (k: nat)
    ensures k <= |specs|
    ensures ReplaceAll(name, v, db, wid, current, specs[..k], at) == Progress(ReplaceAll(name, v, db, wid, current, specs, at).db, true)
    decreases |specs|
  {
    var n := |specs| - 1;
    if ReplaceAll(name, v, db, wid, current, specs, at).ok {
      k := |specs|;
      assert specs[..k] == specs;
    } else if ReplaceAll(name, v, db, wid, current, specs[..n], at).ok {
      k := n;
    } else {
      k := LastGood(name, v, db, wid, current, specs[..n], at);
      assert specs[..n][..k] == specs[..k];
    }
  }

  /** Once a round has raised, the rest of the loop is not run. */
  lemma {:induction false} RaisedStays(name: Naming, v: Validator, db: Db, wid: WorkflowId, current: map<Text, TaskRow>, specs: seq<ComponentSpec>, k: nat, at: Time)
    requires k <= |specs| && !ReplaceAll(name, v, db, wid, current, specs[..k], at).ok
    ensures ReplaceAll(name, v, db, wid, current, specs, at) == ReplaceAll(name, v, db, wid, current, specs[..k], at)
    decreases |specs|
  {
    var n := |specs| - 1;
    if k == |specs| {
      assert specs[..k] == specs;
    } else {
      assert specs[..n][..k] == specs[..k];
      RaisedStays(name, v, db, wid, current, specs[..n], k, at);
    }
  }

  /** The tables of an interrupted run, `k` rounds in. */
  ghost function Interrupted(name: Naming, v: Validator, db: Db, wid: WorkflowId, current: map<Text, TaskRow>, specs: seq<ComponentSpec>, k: nat, at: Time): Progress
    requires k <= |specs|
  {
    ReplaceAll(name, v, db, wid, current, specs[..k], at)
  }

  lemma RerunStart(name: Naming, v: Validator, db: Db, wid: WorkflowId, current: map<Text, TaskRow>, current': map<Text, TaskRow>,
                   specs: seq<ComponentSpec>, k: nat, crash: Time, at: Time, again: Time)
    requires Sound(name, db) && ReadFrom(current, db, wid) && DistinctKeys(specs) && k <= |specs|
    requires Interrupted(name, v, db, wid, current, specs, k, crash).ok
    requires ReadFrom(current', Interrupted(name, v, db, wid, current, specs, k, crash).db, wid)
    ensures ProgressAlike(ReplaceAll(name, v, db, wid, current, specs[..k], at),
                          ReplaceAll(name, v, Interrupted(name, v, db, wid, current, specs, k, crash).db, wid, current', specs[..k], again))
  {
    var d := Interrupted(name, v, db, wid, current, specs, k, crash).db;
    forall i | 0 <= i < k ensures Settled(v, d, wid, specs[..k][i]) { AllSettled(name, v, db, wid, current, specs[..k], crash, i); }
    SettledRerun(name, v, d, wid, current', specs[..k], again);
    TimesAlike(name, v, db, wid, current, specs[..k], at, crash);
  }

  /** Alike before the last round, alike after it. */
  lemma OneRoundAlike(name: Naming, v: Validator, db: Db, d: Db, wid: WorkflowId, current: map<Text, TaskRow>, current': map<Text, TaskRow>,
                      specs: seq<ComponentSpec>, at: Time, again: Time)
    requires Sound(name, db) && Sound(name, d) && specs != []
    requires var n := |specs| - 1;
      && ProgressAlike(ReplaceAll(name, v, db, wid, current, specs[..n], at), ReplaceAll(name, v, d, wid, current', specs[..n], again))
      && (Validated(v, specs[n]).Some? ==> (Wanted(current, Validated(v, specs[n]).value) <==> Wanted(current', Validated(v, specs[n]).value)))
    ensures ProgressAlike(ReplaceAll(name, v, db, wid, current, specs, at), ReplaceAll(name, v, d, wid, current', specs, again))
  {
    var n := |specs| - 1;
    AllExtends(name, v, db, wid, current, specs[..n], at);
    AllExtends(name, v, d, wid, current', specs[..n], again);
    NextAlike(name, v, ReplaceAll(name, v, db, wid, current, specs[..n], at), ReplaceAll(name, v, d, wid, current', specs[..n], again),
              wid, current, current', specs[n], at, again);
  }

  /** The interrupted run did not touch what comes after. */
  lemma StillWanted(name: Naming, v: Validator, db: Db, wid: WorkflowId, current: map<Text, TaskRow>, current': map<Text, TaskRow>,
                    specs: seq<ComponentSpec>, k: nat, i: nat, crash: Time)
    requires Sound(name, db) && ReadFrom(current, db, wid) && DistinctKeys(specs) && k <= i < |specs|
    requires ReadFrom(current', Interrupted(name, v, db, wid, current, specs, k, crash).db, wid) && Validated(v, specs[i]).Some?
    ensures var d := Validated(v, specs[i]).value; Wanted(current, d) <==> Wanted(current', d)
  {
    AllExtends(name, v, db, wid, current, specs[..k], crash);
    UnmentionedSame(name, v, db, wid, current, specs[..k], crash, specs[i].key);
    WantedSame(name, db, Interrupted(name, v, db, wid, current, specs, k, crash).db, wid, Validated(v, specs[i]).value);
  }

  /** From the k-th on both runs want the same. */
  ghost predicate RestWanted(v: Validator, current: map<Text, TaskRow>, current': map<Text, TaskRow>, specs: seq<ComponentSpec>, k: nat) {
    forall i | k <= i < |specs| && Validated(v, specs[i]).Some? ::
      Wanted(current, Validated(v, specs[i]).value) <==> Wanted(current', Validated(v, specs[i]).value)
  }

  /** Both runs are alike after i rounds. */
  ghost predicate AlikeAfter(name: Naming, v: Validator, db: Db, d: Db, wid: WorkflowId, current: map<Text, TaskRow>, current': map<Text, TaskRow>,
                             specs: seq<ComponentSpec>, i: nat, at: Time, again: Time)
  {
    i <= |specs| && ProgressAlike(ReplaceAll(name, v, db, wid, current, specs[..i], at), ReplaceAll(name, v, d, wid, current', specs[..i], again))
  }

  lemma RestRound(name: Naming, v: Validator, db: Db, d: Db, wid: WorkflowId, current: map<Text, TaskRow>, current': map<Text, TaskRow>,
                  specs: seq<ComponentSpec>, k: nat, i: nat, at: Time, again: Time)
    requires Sound(name, db) && Sound(name, d) && k <= i < |specs| && RestWanted(v, current, current', specs, k)
    requires AlikeAfter(name, v, db, d, wid, current, current', specs, i, at, again)
    ensures AlikeAfter(name, v, db, d, wid, current, current', specs, i + 1, at, again)
  {
    assert specs[..i + 1][..i] == specs[..i];
    OneRoundAlike(name, v, db, d, wid, current, current', specs[..i + 1], at, again);
  }

  lemma {:induction false} RestAlike(name: Naming, v: Validator, db: Db, d: Db, wid: WorkflowId, current: map<Text, TaskRow>, current': map<Text, TaskRow>,
                                     specs: seq<ComponentSpec>, k: nat, i: nat, at: Time, again: Time)
    requires Sound(name, db) && Sound(name, d) && k <= i <= |specs| && RestWanted(v, current, current', specs, k)
    requires AlikeAfter(name, v, db, d, wid, current, current', specs, k, at, again)
    ensures AlikeAfter(name, v, db, d, wid, current, current', specs, i, at, again)
    decreases i
  {
    if i > k {
      RestAlike(name, v, db, d, wid, current, current', specs, k, i - 1, at, again);
      RestRound(name, v, db, d, wid, current, current', specs, k, i - 1, at, again);
    }
  }

  lemma RerunAlike(name: Naming, v: Validator, db: Db, wid: WorkflowId, current: map<Text, TaskRow>, current': map<Text, TaskRow>,
                   specs: seq<ComponentSpec>, k: nat, crash: Time, at: Time, again: Time)
    requires Sound(name, db) && ReadFrom(current, db, wid) && DistinctKeys(specs) && k <= |specs|
    requires Interrupted(name, v, db, wid, current, specs, k, crash).ok
    requires ReadFrom(current', Interrupted(name, v, db, wid, current, specs, k, crash).db, wid)
    ensures ProgressAlike(ReplaceAll(name, v, db, wid, current, specs, at),
                          ReplaceAll(name, v, Interrupted(name, v, db, wid, current, specs, k, crash).db, wid, current', specs, again))
  {
    RerunStart(name, v, db, wid, current, current', specs, k, crash, at, again);
    forall i | k <= i < |specs| && Validated(v, specs[i]).Some?
      ensures Wanted(current, Validated(v, specs[i]).value) <==> Wanted(current', Validated(v, specs[i]).value)
    {
      StillWanted(name, v, db, wid, current, current', specs, k, i, crash);
    }
    AllExtends(name, v, db, wid, current, specs[..k], crash);
    assert specs[..|specs|] == specs;
    RestAlike(name, v, db, Interrupted(name, v, db, wid, current, specs, k, crash).db, wid, current, current', specs, k, |specs|, at, again);
  }

  /** The components a handler asks for have distinct keys. */
  ghost predicate AsksDistinct(h: Handler, db: Db, wid: WorkflowId) {
    wid in db.workflows && DesiredNow(h, db, wid).Some? ==> DistinctKeys(DesiredNow(h, db, wid).value)
  }

  lemma PrefixKeeps(name: Naming, v: Validator, db: Db, wid: WorkflowId, current: map<Text, TaskRow>, specs: seq<ComponentSpec>, at: Time)
    requires Sound(name, db)
    ensures var d := ReplaceAll(name, v, db, wid, current, specs, at).db;
      Sound(name, d) && d.workflows == db.workflows && d.events == db.events
  {
    AllExtends(name, v, db, wid, current, specs, at);
  }

  lemma CrashExtends(name: Naming, v: Validator, h: Handler, db: Db, wid: WorkflowId, k: nat, crash: Time)
    requires Sound(name, db)
    ensures var d := Crashed(name, v, h, db, wid, k, crash);
      Sound(name, d) && d.workflows == db.workflows && d.events == db.events
  {
    if wid in db.workflows && db.workflows[wid].status.Active? && DesiredNow(h, db, wid).Some? {
      PrefixKeeps(name, v, db, wid, ComponentTasks(db, wid), FirstRounds(DesiredNow(h, db, wid).value, k), crash);
    }
  }

  lemma SameView(h: Handler, a: Db, b: Db, wid: WorkflowId)
    requires a.workflows == b.workflows && a.events == b.events && wid in a.workflows
    ensures Caught(h, b, wid) == Caught(h, a, wid) && DesiredNow(h, b, wid) == DesiredNow(h, a, wid)
  {
  }

  /** A crash leaves the workflow, the log and so the reducer's view as they were. */
  lemma CrashKeepsView(name: Naming, v: Validator, h: Handler, db: Db, wid: WorkflowId, k: nat, crash: Time)
    requires Sound(name, db)
    ensures var d := Crashed(name, v, h, db, wid, k, crash);
      && Sound(name, d) && d.workflows == db.workflows && d.events == db.events
      && (wid in db.workflows ==> Caught(h, d, wid) == Caught(h, db, wid) && DesiredNow(h, d, wid) == DesiredNow(h, db, wid))
  {
    CrashExtends(name, v, h, db, wid, k, crash);
    if wid in db.workflows { SameView(h, db, Crashed(name, v, h, db, wid, k, crash), wid); }
  }

  lemma CrashedRerun(name: Naming, v: Validator, db: Db, wid: WorkflowId, specs: seq<ComponentSpec>, k: nat, crash: Time, at: Time, again: Time)
    requires Sound(name, db) && DistinctKeys(specs)
    ensures var d := ReplaceAll(name, v, db, wid, ComponentTasks(db, wid), FirstRounds(specs, k), crash).db;
      ProgressAlike(ReplaceAll(name, v, db, wid, ComponentTasks(db, wid), specs, at),
                    ReplaceAll(name, v, d, wid, ComponentTasks(d, wid), specs, again))
  {
    var current := ComponentTasks(db, wid);
    var d := ReplaceAll(name, v, db, wid, current, FirstRounds(specs, k), crash).db;
    var j := LastGood(name, v, db, wid, current, FirstRounds(specs, k), crash);
    assert FirstRounds(specs, k)[..j] == specs[..j];
    ChildrenReadFrom(db, wid);
    ChildrenReadFrom(d, wid);
    RerunAlike(name, v, db, wid, current, ComponentTasks(d, wid), specs, j, crash, at, again);
  }

  lemma CrashedIs(name: Naming, v: Validator, h: Handler, db: Db, wid: WorkflowId, k: nat, crash: Time)
    requires wid in db.workflows && db.workflows[wid].status.Active? && DesiredNow(h, db, wid).Some?
    ensures Crashed(name, v, h, db, wid, k, crash)
         == ReplaceAll(name, v, db, wid, ComponentTasks(db, wid), FirstRounds(DesiredNow(h, db, wid).value, k), crash).db
  {
  }

  lemma SaveAlike(p: Progress, q: Progress, wid: WorkflowId, view: (State, nat), at: Time, at': Time)
    requires ProgressAlike(p, q)
    ensures ProgressAlike(SaveAfter(p, wid, view, at), SaveAfter(q, wid, view, at'))
  {
  }

  /**
   * For any handler that asks for distinct keys: a crash after any number of rounds of the
   * loop, followed by a full run, ends in the same reducer state, cursor, components and
   * child tasks as an uninterrupted run, up to timestamps, and raises if that raises.
   */
  lemma CrashHarmless(name: Naming, v: Validator, h: Handler, db: Db, wid: WorkflowId, k: nat, crash: Time, at: Time, again: Time)
    requires Sound(name, db) && wid in db.workflows && db.workflows[wid].status.Active? && AsksDistinct(h, db, wid)
    ensures wid in Crashed(name, v, h, db, wid, k, crash).workflows
    ensures ProgressAlike(Materialized(name, v, h, db, wid, at), Materialized(name, v, h, Crashed(name, v, h, db, wid, k, crash), wid, again))
  {
    CrashKeepsView(name, v, h, db, wid, k, crash);
    if DesiredNow(h, db, wid).Some? {
      var d, specs, view := Crashed(name, v, h, db, wid, k, crash), DesiredNow(h, db, wid).value, Caught(h, db, wid);
      CrashedIs(name, v, h, db, wid, k, crash);
      CrashedRerun(name, v, db, wid, specs, k, crash, at, again);
      SaveAlike(ReplaceAll(name, v, db, wid, ComponentTasks(db, wid), specs, at),
                ReplaceAll(name, v, d, wid, ComponentTasks(d, wid), specs, again), wid, view, at, again);
    }
  }

  // ---------------------------------------------------------------------------------
  // To the end of the call

  ghost predicate ChildrenAlike(a: map<Text, TaskRow>, b: map<Text, TaskRow>) {
    a.Keys == b.Keys && forall k | k in a && k in b :: TaskAlike(a[k], b[k])
  }

  /** The handler's verdicts do not look at timestamps. */
  ghost predicate TimeBlind(h: Handler) {
    forall w, w', s, ts, ts' {:trigger h.completion(w, s, ts), h.completion(w', s, ts')} | WorkflowAlike(w, w') && ChildrenAlike(ts, ts') ::
      VerdictOf(h, w, s, ts) == VerdictOf(h, w', s, ts')
  }

  lemma ChildrenStayAlike(a: Db, b: Db, wid: WorkflowId)
    requires Alike(a, b)
    ensures ChildrenAlike(ComponentTasks(a, wid), ComponentTasks(b, wid))
  {
    forall k ensures k in ComponentTasks(a, wid) <==> k in ComponentTasks(b, wid) { ChildAlike(a, b, wid, k); }
    forall k | k in ComponentTasks(a, wid) && k in ComponentTasks(b, wid)
      ensures TaskAlike(ComponentTasks(a, wid)[k], ComponentTasks(b, wid)[k])
    {
      ChildAlike(a, b, wid, k);
    }
  }

  lemma ChildAlike(a: Db, b: Db, wid: WorkflowId, key: Text)
    requires Alike(a, b)
    ensures key in ComponentTasks(a, wid) <==> key in ComponentTasks(b, wid)
    ensures key in ComponentTasks(a, wid) ==> TaskAlike(ComponentTasks(a, wid)[key], ComponentTasks(b, wid)[key])
  {
    ChildOf(a, wid, key);
    ChildOf(b, wid, key);
    if (wid, key) in a.components { assert ComponentAlike(a.components[(wid, key)], b.components[(wid, key)]); }
  }

  lemma FinishAlike(a: Db, b: Db, wid: WorkflowId, verdict: Verdict, at: Time, at': Time)
    requires Alike(a, b)
    ensures Alike(Ended(a, wid, verdict, at), Ended(b, wid, verdict, at'))
  {
  }

  lemma JudgedAlike(h: Handler, a: Db, b: Db, wid: WorkflowId, state: State, at: Time, at': Time)
    requires Alike(a, b) && TimeBlind(h) && wid in a.workflows && wid in b.workflows
    ensures Alike(Judged(h, a, wid, state, at), Judged(h, b, wid, state, at'))
  {
    ChildrenStayAlike(a, b, wid);
    var w, w', ts, ts' := a.workflows[wid], b.workflows[wid], ComponentTasks(a, wid), ComponentTasks(b, wid);
    assert WorkflowAlike(w, w');
    SameVerdict(h, w, w', state, ts, ts');
    FinishAlike(a, b, wid, VerdictOf(h, w, state, ts), at, at');
  }

  lemma SameVerdict(h: Handler, w: WorkflowRow, w': WorkflowRow, s: State, ts: map<Text, TaskRow>, ts': map<Text, TaskRow>)
    requires TimeBlind(h) && WorkflowAlike(w, w') && ChildrenAlike(ts, ts')
    ensures VerdictOf(h, w, s, ts) == VerdictOf(h, w', s, ts')
  {
    assert h.completion(w, s, ts) == h.completion(w, s, ts) && h.completion(w', s, ts') == h.completion(w', s, ts');
  }

  /** One crash and a rerun to the end. */
  lemma CrashedCall(name: Naming, v: Validator, h: Handler, db: Db, wid: WorkflowId, k: nat, crash: Time, at: Time, again: Time)
    requires Sound(name, db) && AsksDistinct(h, db, wid) && TimeBlind(h)
    ensures Alike(Reconciled(name, v, h, db, wid, at), Reconciled(name, v, h, Crashed(name, v, h, db, wid, k, crash), wid, again))
  {
    var d := Crashed(name, v, h, db, wid, k, crash);
    CrashKeepsView(name, v, h, db, wid, k, crash);
    if wid in db.workflows && db.workflows[wid].status.Active? {
      CrashHarmless(name, v, h, db, wid, k, crash, at, again);
      var p, q := Materialized(name, v, h, db, wid, at), Materialized(name, v, h, d, wid, again);
      if p.ok && wid in p.db.workflows { JudgedAlike(h, p.db, q.db, wid, Caught(h, db, wid).0, at, again); }
    }
  }
}
