// What a call of `WorkflowEngine.reconcile` leaves in the tables: the children that the
// handler asked for, the workflow's new state and cursor, and how the workflow ended. Told
// of the tables before and after, with the handler's own answers.

module Outcomes {
  import opened Types
  import opened Admission
  import opened Tables
  import opened Integrity
  import opened StaticHandler
  import opened Folding
  import opened Crash
  import CrashPoints
  import opened StaticRuns
  import opened Engine
  import opened WorkflowEffects

  // ---------------------------------------------------------------------------------
  // The end of a workflow

  /** `children` are the workflow's child tasks by component key. */
  ghost predicate ListsChildren(db: Db, wid: WorkflowId, children: map<Text, TaskRow>) {
    && (forall key :: key in children <==> (wid, key) in db.components && db.components[(wid, key)].taskId in db.tasks)
    && (forall key | key in children && (wid, key) in db.components && db.components[(wid, key)].taskId in db.tasks ::
          children[key] == db.tasks[db.components[(wid, key)].taskId])
  }

  lemma ChildrenListed(db: Db, wid: WorkflowId)
    ensures ListsChildren(db, wid, ComponentTasks(db, wid))
  {
    forall key
      ensures key in ComponentTasks(db, wid) <==> (wid, key) in db.components && db.components[(wid, key)].taskId in db.tasks
      ensures key in ComponentTasks(db, wid) ==> ComponentTasks(db, wid)[key] == db.tasks[db.components[(wid, key)].taskId]
    {
      ChildOf(db, wid, key);
    }
  }

  lemma OneChildren(db: Db, wid: WorkflowId, a: map<Text, TaskRow>, b: map<Text, TaskRow>)
    requires ListsChildren(db, wid, a) && ListsChildren(db, wid, b)
    ensures a == b
  {
  }

  /** The row as it ends: nothing but status, result, error and the time of completion differs from the saved one. */
  ghost predicate EndedAs(saved: WorkflowRow, row: WorkflowRow, status: WorkflowStatus, result: Option<Outcome>, error: Option<Text>, at: Time) {
    && row.status == status && row.result == result && row.lastError == error && row.completedAt == Some(at) && row.updatedAt == at
    && row.workflowId == saved.workflowId && row.kind == saved.kind && row.payload == saved.payload && row.metadata == saved.metadata
    && row.state == saved.state && row.mode == saved.mode && row.cursor == saved.cursor && row.createdAt == saved.createdAt
  }

  /** Completion is asked first, failure next, and without an answer the workflow stays as it was saved. */
  ghost predicate EndsBy(h: Handler, saved: WorkflowRow, children: map<Text, TaskRow>, row: WorkflowRow, at: Time) {
    var result, reason := h.completion(saved, saved.state, children), h.failure(saved, saved.state, children);
    if result.Some? then EndedAs(saved, row, WfSucceeded, result, None, at)
    else if reason.Some? then EndedAs(saved, row, WfFailed, None, reason, at)
    else row == saved
  }

  lemma JudgedEnds(h: Handler, db: Db, wid: WorkflowId, state: State, at: Time)
    requires wid in db.workflows && db.workflows[wid].state == state
    ensures var db' := Judged(h, db, wid, state, at);
      && wid in db'.workflows && db' == db.(workflows := db.workflows[wid := db'.workflows[wid]])
      && EndsBy(h, db.workflows[wid], ComponentTasks(db, wid), db'.workflows[wid], at)
  {
    assert db.workflows[wid := db.workflows[wid]] == db.workflows;
  }

  /** The workflow's row before the verdict: the reducer's new state and cursor, and nothing else but the time. */
  function SavedRow(was: WorkflowRow, row: WorkflowRow, at: Time): WorkflowRow {
    was.(state := row.state, cursor := row.cursor, updatedAt := at)
  }

  /**
   * A call that returns on an active workflow folds the events behind the cursor, one after
   * the other, saves state and cursor, and ends the workflow as its handler answers on the
   * children present then.
   */
  lemma CallEnds(name: Naming, r: Registry, db: Db, wid: WorkflowId, at: Time, es: seq<Event>, states: seq<State>, children: map<Text, TaskRow>)
    requires Intact(name, db) && wid in db.workflows && db.workflows[wid].status == Active && Returns(name, r, db, wid, at)
    requires IsReading(db.events, wid, db.workflows[wid].cursor, es)
    requires IsTrace(r.handlers[db.workflows[wid].kind], db.workflows[wid].state, es, states)
    requires ListsChildren(EngineRun(name, r, db, wid, at), wid, children)
    ensures var db', was := EngineRun(name, r, db, wid, at), db.workflows[wid];
      && wid in db'.workflows && var row := db'.workflows[wid];
      && row.state == states[|es|] && row.cursor == (if es == [] then was.cursor else es[|es| - 1].eventId)
      && EndsBy(r.handlers[was.kind], SavedRow(was, row, at), children, row, at)
  {
    var h := r.handlers[db.workflows[wid].kind];
    EventsAfterExact(db.events, wid, db.workflows[wid].cursor, es);
    FoldIsTrace(h, db.workflows[wid].state, es, states);
    CallSaves(name, r, db, wid, at);
    ChildrenListed(EngineRun(name, r, db, wid, at), wid);
    OneChildren(EngineRun(name, r, db, wid, at), wid, children, ComponentTasks(EngineRun(name, r, db, wid, at), wid));
  }

  /** The call in one piece, by the functions of its model. */
  lemma CallSaves(name: Naming, r: Registry, db: Db, wid: WorkflowId, at: Time)
    requires Intact(name, db) && wid in db.workflows && db.workflows[wid].status == Active && Returns(name, r, db, wid, at)
    ensures var db', was := EngineRun(name, r, db, wid, at), db.workflows[wid];
      var h := r.handlers[was.kind]; var view := Caught(h, db, wid);
      && wid in db'.workflows && db'.workflows[wid].state == view.0 && db'.workflows[wid].cursor == view.1
      && EndsBy(h, SavedRow(was, db'.workflows[wid], at), ComponentTasks(db', wid), db'.workflows[wid], at)
  {
    var h := r.handlers[db.workflows[wid].kind];
    RoundsOf(name, r.validate, h, db, wid, at);
    var view, desired := Caught(h, db, wid), DesiredNow(h, db, wid).value;
    var p := ReplaceAll(name, r.validate, db, wid, ComponentTasks(db, wid), desired, at);
    PrefixKeeps(name, r.validate, db, wid, ComponentTasks(db, wid), desired, at);
    SavedEnds(h, p.db, wid, view.0, view.1, at);
  }

  /** The crash point behind the save: all that the call leaves is there, but for the workflow's end. */
  lemma CrashBehindSave(name: Naming, r: Registry, db: Db, wid: WorkflowId, at: Time)
    requires Intact(name, db) && wid in db.workflows && db.workflows[wid].status == Active && Returns(name, r, db, wid, at)
    ensures var db', m := EngineRun(name, r, db, wid, at),
        CrashPoints.CrashedAt(name, r.validate, r.handlers[db.workflows[wid].kind], db, wid, CrashPoints.AfterSave, at);
      && wid in db'.workflows
      && m == db'.(workflows := db'.workflows[wid := SavedRow(db.workflows[wid], db'.workflows[wid], at)])
  {
    var h := r.handlers[db.workflows[wid].kind];
    RoundsOf(name, r.validate, h, db, wid, at);
    var view, desired := Caught(h, db, wid), DesiredNow(h, db, wid).value;
    var p := ReplaceAll(name, r.validate, db, wid, ComponentTasks(db, wid), desired, at);
    PrefixKeeps(name, r.validate, db, wid, ComponentTasks(db, wid), desired, at);
    SavedEnds(h, p.db, wid, view.0, view.1, at);
    var saved := p.db.(workflows := p.db.workflows[wid := p.db.workflows[wid].(state := view.0, cursor := view.1, updatedAt := at)]);
    assert After(p.db, SaveState(p.db, wid, view.0, view.1, at)) == saved;
  }

  lemma SavedEnds(h: Handler, db: Db, wid: WorkflowId, state: State, cursor: nat, at: Time)
    requires wid in db.workflows
    ensures var db' := Judged(h, After(db, SaveState(db, wid, state, cursor, at)), wid, state, at);
      && wid in db'.workflows && db' == db.(workflows := db.workflows[wid := db'.workflows[wid]])
      && db'.workflows[wid].state == state && db'.workflows[wid].cursor == cursor
      && EndsBy(h, SavedRow(db.workflows[wid], db'.workflows[wid], at), ComponentTasks(db', wid), db'.workflows[wid], at)
  {
    var row := db.workflows[wid].(state := state, cursor := cursor, updatedAt := at);
    var saved := db.(workflows := db.workflows[wid := row]);
    assert After(db, SaveState(db, wid, state, cursor, at)) == saved;
    JudgedEnds(h, saved, wid, state, at);
    SameChildren(saved, Judged(h, saved, wid, state, at), wid);
    SameChildren(saved, db, wid);
  }

  lemma SameChildren(a: Db, b: Db, wid: WorkflowId)
    requires a.tasks == b.tasks && a.components == b.components
    ensures ComponentTasks(a, wid) == ComponentTasks(b, wid)
  {
  }

  // ---------------------------------------------------------------------------------
  // The children

  /** The component as asked for, with the payload that the validation of its task gave. */
  ghost predicate IsChecked(v: Validator, c: ComponentSpec, d: ComponentSpec) {
    && v(c.task.kind, c.task.payload) == Some(d.task.payload)
    && d == c.(task := c.task.(payload := d.task.payload))
  }

  /** There is no child, or the present one was created for an older generation, zero if for none. */
  ghost predicate IsMissing(db: Db, wid: WorkflowId, d: ComponentSpec) {
    var slot := (wid, d.key);
    || slot !in db.components || db.components[slot].taskId !in db.tasks
    || match db.tasks[db.components[slot].taskId].origin
       case None => d.generation > 0
       case Some(o) => d.generation > o.generation
  }

  lemma WantedIsMissing(db: Db, wid: WorkflowId, d: ComponentSpec)
    ensures Wanted(ComponentTasks(db, wid), d) <==> IsMissing(db, wid, d)
  {
    ChildOf(db, wid, d.key);
  }

  /** A missing component of a newer generation than its row, if it has one, got its child; any other kept its row. */
  ghost predicate IsPlaced(name: Naming, db: Db, db': Db, wid: WorkflowId, d: ComponentSpec, at: Time) {
    var slot := (wid, d.key);
    if IsMissing(db, wid, d) && (slot in db.components ==> d.generation > db.components[slot].generation) then
      ChildStored(name, db.tasks, db', wid, d, if slot in db.components then db.components[slot].createdAt else at, at)
    else slot in db.components && slot in db'.components && db'.components[slot] == db.components[slot]
  }

  lemma FirstUnmentioned(specs: seq<ComponentSpec>, n: nat)
    requires DistinctKeys(specs) && n < |specs|
    ensures !Mentions(specs[..n], specs[n].key) && DistinctKeys(specs[..n])
  {
    forall i | 0 <= i < n ensures specs[..n][i].key != specs[n].key { assert specs[i].key != specs[n].key; }
    forall i, j | 0 <= i < j < n ensures specs[..n][i].key != specs[..n][j].key { assert specs[i].key != specs[j].key; }
  }

  /** The tables of a round: they came from `db` and still have its row in the slot. */
  ghost predicate FromDb(name: Naming, db: Db, m: Db, wid: WorkflowId, key: Text) {
    && Sound(name, m) && Persisting(db.tasks, m.tasks) && NewOnesNamed(db.tasks, m) && SlotSame(db, m, wid, key)
    && ((wid, key) in db.components ==> db.components[(wid, key)].taskId in db.tasks)
  }

  lemma StalePlaced(name: Naming, db: Db, m: Db, wid: WorkflowId, d: ComponentSpec, at: Time)
    requires SlotSame(db, m, wid, d.key) && (wid, d.key) in m.components
    requires !IsMissing(db, wid, d) || d.generation <= m.components[(wid, d.key)].generation
    ensures IsPlaced(name, db, m, wid, d, at)
  {
  }

  lemma NewerPlaced(name: Naming, db: Db, m: Db, wid: WorkflowId, d: ComponentSpec, at: Time)
    requires FromDb(name, db, m, wid, d.key) && IsMissing(db, wid, d)
    requires (wid, d.key) in m.components ==> d.generation > m.components[(wid, d.key)].generation
    requires ReplaceComponent(name, m, wid, d, at).Ok?
    ensures var q := After(m, ReplaceComponent(name, m, wid, d, at)); IsPlaced(name, db, q, wid, d, at) && NewOnesNamed(db.tasks, q)
  {
    var slot := (wid, d.key);
    var createdAt := if slot in m.components then m.components[slot].createdAt else at;
    PutStores(name, db.tasks, m, wid, d, createdAt, at);
    PutNames(name, db.tasks, m, wid, d, createdAt, at);
  }

  lemma ReplacePlaces(name: Naming, db: Db, m: Db, wid: WorkflowId, d: ComponentSpec, at: Time)
    requires FromDb(name, db, m, wid, d.key) && IsMissing(db, wid, d) && ReplaceComponent(name, m, wid, d, at).Ok?
    ensures var q := After(m, ReplaceComponent(name, m, wid, d, at)); IsPlaced(name, db, q, wid, d, at) && NewOnesNamed(db.tasks, q)
  {
    if (wid, d.key) in m.components && d.generation <= m.components[(wid, d.key)].generation {
      ReplaceStale(name, m, wid, d, at);
      StalePlaced(name, db, m, wid, d, at);
    } else {
      NewerPlaced(name, db, m, wid, d, at);
    }
  }

  lemma NextUnfolds(name: Naming, v: Validator, p: Progress, wid: WorkflowId, current: map<Text, TaskRow>, c: ComponentSpec, at: Time)
    requires p.ok && ReplaceNext(name, v, p, wid, current, c, at).ok
    ensures Validated(v, c).Some? && Validated(v, c).value.key == c.key
    ensures var q, d := ReplaceNext(name, v, p, wid, current, c, at), Validated(v, c).value;
      if Wanted(current, d) then ReplaceComponent(name, p.db, wid, d, at).Ok? && q.db == After(p.db, ReplaceComponent(name, p.db, wid, d, at))
      else q.db == p.db
  {
  }

  lemma MaybePlaces(name: Naming, db: Db, m: Db, q: Db, wid: WorkflowId, d: ComponentSpec, at: Time)
    requires FromDb(name, db, m, wid, d.key)
    requires if IsMissing(db, wid, d) then ReplaceComponent(name, m, wid, d, at).Ok? && q == After(m, ReplaceComponent(name, m, wid, d, at)) else q == m
    ensures IsPlaced(name, db, q, wid, d, at) && NewOnesNamed(db.tasks, q)
  {
    if IsMissing(db, wid, d) {
      ReplacePlaces(name, db, m, wid, d, at);
    } else {
      StalePlaced(name, db, m, wid, d, at);
    }
  }

  lemma RoundPlaces(name: Naming, v: Validator, db: Db, p: Progress, wid: WorkflowId, c: ComponentSpec, at: Time)
    requires FromDb(name, db, p.db, wid, c.key) && p.ok && ReplaceNext(name, v, p, wid, ComponentTasks(db, wid), c, at).ok
    ensures Validated(v, c).Some?
    ensures var q := ReplaceNext(name, v, p, wid, ComponentTasks(db, wid), c, at);
      IsPlaced(name, db, q.db, wid, Validated(v, c).value, at) && NewOnesNamed(db.tasks, q.db)
  {
    NextUnfolds(name, v, p, wid, ComponentTasks(db, wid), c, at);
    WantedIsMissing(db, wid, Validated(v, c).value);
    MaybePlaces(name, db, p.db, ReplaceNext(name, v, p, wid, ComponentTasks(db, wid), c, at).db, wid, Validated(v, c).value, at);
  }

  lemma PlacedStill(name: Naming, db: Db, a: Db, b: Db, wid: WorkflowId, d: ComponentSpec, at: Time)
    requires IsPlaced(name, db, a, wid, d, at) && SlotSame(a, b, wid, d.key) && Persisting(a.tasks, b.tasks)
    ensures IsPlaced(name, db, b, wid, d, at)
  {
  }

  ghost predicate ArePlaced(name: Naming, v: Validator, db: Db, m: Db, wid: WorkflowId, specs: seq<ComponentSpec>, at: Time) {
    forall i | 0 <= i < |specs| :: Validated(v, specs[i]).Some? && IsPlaced(name, db, m, wid, Validated(v, specs[i]).value, at)
  }

  lemma NextPersists(name: Naming, v: Validator, p: Progress, wid: WorkflowId, current: map<Text, TaskRow>, c: ComponentSpec, at: Time)
    requires Sound(name, p.db)
    ensures Persisting(p.db.tasks, ReplaceNext(name, v, p, wid, current, c, at).db.tasks)
  {
    NextExtends(name, v, p, wid, current, c, at);
  }

  lemma OthersPlaced(name: Naming, v: Validator, db: Db, p: Progress, wid: WorkflowId, current: map<Text, TaskRow>, specs: seq<ComponentSpec>, last: ComponentSpec, at: Time)
    requires Sound(name, p.db) && ArePlaced(name, v, db, p.db, wid, specs, at) && !Mentions(specs, last.key)
    ensures ArePlaced(name, v, db, ReplaceNext(name, v, p, wid, current, last, at).db, wid, specs, at)
  {
    var q := ReplaceNext(name, v, p, wid, current, last, at);
    NextPersists(name, v, p, wid, current, last, at);
    forall i | 0 <= i < |specs| ensures Validated(v, specs[i]).Some? && IsPlaced(name, db, q.db, wid, Validated(v, specs[i]).value, at) {
      assert specs[i].key != last.key;
      NextElsewhere(name, v, p, wid, current, last, at, specs[i].key);
      PlacedStill(name, db, p.db, q.db, wid, Validated(v, specs[i]).value, at);
    }
  }

  /** What the loop keeps: new tasks belong to components, and the components so far are placed. */
  ghost predicate RoundsOk(name: Naming, v: Validator, db: Db, m: Db, wid: WorkflowId, specs: seq<ComponentSpec>, at: Time) {
    NewOnesNamed(db.tasks, m) && ArePlaced(name, v, db, m, wid, specs, at)
  }

  lemma RoundIsFrom(name: Naming, v: Validator, db: Db, wid: WorkflowId, specs: seq<ComponentSpec>, at: Time, key: Text)
    requires Sound(name, db) && !Mentions(specs, key)
    requires NewOnesNamed(db.tasks, ReplaceAll(name, v, db, wid, ComponentTasks(db, wid), specs, at).db)
    ensures FromDb(name, db, ReplaceAll(name, v, db, wid, ComponentTasks(db, wid), specs, at).db, wid, key)
  {
    AllExtends(name, v, db, wid, ComponentTasks(db, wid), specs, at);
    UnmentionedSame(name, v, db, wid, ComponentTasks(db, wid), specs, at, key);
  }

  /** After the loop every component asked for is placed. */
  lemma {:induction false} RoundsPlace(name: Naming, v: Validator, db: Db, wid: WorkflowId, specs: seq<ComponentSpec>, at: Time)
    requires Sound(name, db) && DistinctKeys(specs) && ReplaceAll(name, v, db, wid, ComponentTasks(db, wid), specs, at).ok
    ensures RoundsOk(name, v, db, ReplaceAll(name, v, db, wid, ComponentTasks(db, wid), specs, at).db, wid, specs, at)
    decreases |specs|
  {
    if specs != [] {
      var n := |specs| - 1;
      FirstUnmentioned(specs, n);
      RoundsPlace(name, v, db, wid, specs[..n], at);
      RoundIsFrom(name, v, db, wid, specs[..n], at, specs[n].key);
      LastRound(name, v, db, ReplaceAll(name, v, db, wid, ComponentTasks(db, wid), specs[..n], at), wid, specs, at);
    }
  }

  lemma LastRound(name: Naming, v: Validator, db: Db, p: Progress, wid: WorkflowId, specs: seq<ComponentSpec>, at: Time)
    requires specs != [] && var n := |specs| - 1;
      && !Mentions(specs[..n], specs[n].key) && FromDb(name, db, p.db, wid, specs[n].key) && RoundsOk(name, v, db, p.db, wid, specs[..n], at)
      && p.ok && ReplaceNext(name, v, p, wid, ComponentTasks(db, wid), specs[n], at).ok
    ensures RoundsOk(name, v, db, ReplaceNext(name, v, p, wid, ComponentTasks(db, wid), specs[|specs| - 1], at).db, wid, specs, at)
  {
    var n := |specs| - 1;
    RoundPlaces(name, v, db, p, wid, specs[n], at);
    OthersPlaced(name, v, db, p, wid, ComponentTasks(db, wid), specs[..n], specs[n], at);
    PlacedSnoc(name, v, db, ReplaceNext(name, v, p, wid, ComponentTasks(db, wid), specs[n], at).db, wid, specs, at);
  }

  lemma PlacedSnoc(name: Naming, v: Validator, db: Db, m: Db, wid: WorkflowId, specs: seq<ComponentSpec>, at: Time)
    requires specs != [] && ArePlaced(name, v, db, m, wid, specs[..|specs| - 1], at)
    requires var c := specs[|specs| - 1]; Validated(v, c).Some? && IsPlaced(name, db, m, wid, Validated(v, c).value, at)
    ensures ArePlaced(name, v, db, m, wid, specs, at)
  {
    forall i | 0 <= i < |specs| ensures Validated(v, specs[i]).Some? && IsPlaced(name, db, m, wid, Validated(v, specs[i]).value, at) {
      if i < |specs| - 1 { assert specs[..|specs| - 1][i] == specs[i]; }
    }
  }

  /**
   * A call that returns has validated and placed every component that the handler asked for
   * on the caught-up workflow, if their keys differ.
   */
  lemma CallPlaces(name: Naming, r: Registry, db: Db, wid: WorkflowId, at: Time, es: seq<Event>, states: seq<State>, specs: seq<ComponentSpec>, d: ComponentSpec)
    requires Intact(name, db) && wid in db.workflows && db.workflows[wid].status == Active && Returns(name, r, db, wid, at)
    requires IsReading(db.events, wid, db.workflows[wid].cursor, es)
    requires IsTrace(r.handlers[db.workflows[wid].kind], db.workflows[wid].state, es, states)
    requires var was := db.workflows[wid];
      r.handlers[was.kind].desired(was.(state := states[|es|], cursor := if es == [] then was.cursor else es[|es| - 1].eventId), states[|es|])
      == Some(specs)
    requires DistinctKeys(specs) && exists c | c in specs :: IsChecked(r.validate, c, d)
    ensures IsPlaced(name, db, EngineRun(name, r, db, wid, at), wid, d, at)
  {
    var h := r.handlers[db.workflows[wid].kind];
    EventsAfterExact(db.events, wid, db.workflows[wid].cursor, es);
    FoldIsTrace(h, db.workflows[wid].state, es, states);
    assert DesiredNow(h, db, wid) == Some(specs);
    var c :| c in specs && IsChecked(r.validate, c, d);
    RunPlaces(name, r, db, wid, at, specs, c);
  }

  lemma RunPlaces(name: Naming, r: Registry, db: Db, wid: WorkflowId, at: Time, specs: seq<ComponentSpec>, c: ComponentSpec)
    requires Intact(name, db) && wid in db.workflows && db.workflows[wid].status == Active && Returns(name, r, db, wid, at)
    requires DesiredNow(r.handlers[db.workflows[wid].kind], db, wid) == Some(specs) && DistinctKeys(specs) && c in specs
    ensures Validated(r.validate, c).Some? && IsPlaced(name, db, EngineRun(name, r, db, wid, at), wid, Validated(r.validate, c).value, at)
  {
    var h := r.handlers[db.workflows[wid].kind];
    RoundsOf(name, r.validate, h, db, wid, at);
    RoundsPlace(name, r.validate, db, wid, specs, at);
    var view, p := Caught(h, db, wid), ReplaceAll(name, r.validate, db, wid, ComponentTasks(db, wid), specs, at);
    SavedEnds(h, p.db, wid, view.0, view.1, at);
    PlacedStill(name, db, p.db, EngineRun(name, r, db, wid, at), wid, Validated(r.validate, c).value, at);
  }

  // ---------------------------------------------------------------------------------
  // When a call returns

  /** Every task validates, and the missing children differ from each other and from all that is stored. */
  ghost predicate CanPlace(name: Naming, v: Validator, db: Db, wid: WorkflowId, specs: seq<ComponentSpec>) {
    && (forall i | 0 <= i < |specs| :: v(specs[i].task.kind, specs[i].task.payload).Some?)
    && (forall i | 0 <= i < |specs| && IsMissing(db, wid, specs[i]) ::
          Unclaimed(name, db.tasks, specs[i].task) && SlotUnclaimed(db.tasks, wid, specs[i]))
    && (forall i, j | 0 <= i < j < |specs| && IsMissing(db, wid, specs[i]) && IsMissing(db, wid, specs[j]) ::
          SpecsDiffer(name, specs[i], specs[j]))
  }

  /** The row was stored for the component. */
  ghost predicate StoredFor(name: Naming, row: TaskRow, id: TaskId, wid: WorkflowId, c: ComponentSpec) {
    && id == c.task.taskId && row.jobName == name.Of(id) && row.spec.idempotencyKey == c.task.idempotencyKey
    && row.origin == Some(Origin(wid, c.key, c.generation))
  }

  ghost predicate NewFrom(name: Naming, db: Db, m: Db, wid: WorkflowId, specs: seq<ComponentSpec>) {
    forall id | id in m.tasks && id !in db.tasks ::
      exists i | 0 <= i < |specs| :: IsMissing(db, wid, specs[i]) && StoredFor(name, m.tasks[id], id, wid, specs[i])
  }

  lemma NextUnclaimed(name: Naming, v: Validator, db: Db, m: Db, wid: WorkflowId, specs: seq<ComponentSpec>)
    requires specs != [] && CanPlace(name, v, db, wid, specs) && IsMissing(db, wid, specs[|specs| - 1])
    requires NewFrom(name, db, m, wid, specs[..|specs| - 1]) && Persisting(db.tasks, m.tasks)
    ensures Unclaimed(name, m.tasks, specs[|specs| - 1].task) && SlotUnclaimed(m.tasks, wid, specs[|specs| - 1])
  {
    var n := |specs| - 1;
    var c := specs[n];
    assert Unclaimed(name, db.tasks, c.task) && SlotUnclaimed(db.tasks, wid, c);
    forall id | id in m.tasks
      ensures id != c.task.taskId && m.tasks[id].jobName != name.Of(c.task.taskId) && !UnderKey(m.tasks[id], c.task)
      ensures m.tasks[id].origin != Some(Origin(wid, c.key, c.generation))
    {
      if id !in db.tasks {
        var i :| 0 <= i < n && IsMissing(db, wid, specs[..n][i]) && StoredFor(name, m.tasks[id], id, wid, specs[..n][i]);
        assert SpecsDiffer(name, specs[i], c);
      }
    }
  }

  lemma RoundAccepts(name: Naming, v: Validator, db: Db, m: Db, wid: WorkflowId, specs: seq<ComponentSpec>, at: Time)
    requires Sound(name, m) && wid in m.workflows && specs != [] && CanPlace(name, v, db, wid, specs)
    requires NewFrom(name, db, m, wid, specs[..|specs| - 1]) && Persisting(db.tasks, m.tasks)
    ensures var q := ReplaceNext(name, v, Progress(m, true), wid, ComponentTasks(db, wid), specs[|specs| - 1], at);
      q.ok && NewFrom(name, db, q.db, wid, specs)
  {
    var n := |specs| - 1;
    var c := specs[n];
    assert v(c.task.kind, c.task.payload).Some?;
    var d := Validated(v, c).value;
    WantedIsMissing(db, wid, d);
    assert IsMissing(db, wid, d) <==> IsMissing(db, wid, c);
    NewFromMore(name, db, m, wid, specs);
    if IsMissing(db, wid, c) {
      NextUnclaimed(name, v, db, m, wid, specs);
      assert Unclaimed(name, m.tasks, d.task) && SlotUnclaimed(m.tasks, wid, d);
      ReplaceNew(name, db, m, wid, specs, d, at);
    }
  }

  lemma NewFromMore(name: Naming, db: Db, m: Db, wid: WorkflowId, specs: seq<ComponentSpec>)
    requires specs != [] && NewFrom(name, db, m, wid, specs[..|specs| - 1])
    ensures NewFrom(name, db, m, wid, specs)
  {
    var n := |specs| - 1;
    forall id | id in m.tasks && id !in db.tasks
      ensures exists i | 0 <= i < |specs| :: IsMissing(db, wid, specs[i]) && StoredFor(name, m.tasks[id], id, wid, specs[i])
    {
      var i :| 0 <= i < n && IsMissing(db, wid, specs[..n][i]) && StoredFor(name, m.tasks[id], id, wid, specs[..n][i]);
      assert IsMissing(db, wid, specs[i]) && StoredFor(name, m.tasks[id], id, wid, specs[i]);
    }
  }

  lemma ReplaceNew(name: Naming, db: Db, m: Db, wid: WorkflowId, specs: seq<ComponentSpec>, d: ComponentSpec, at: Time)
    requires Sound(name, m) && wid in m.workflows && specs != [] && IsMissing(db, wid, specs[|specs| - 1])
    requires d == specs[|specs| - 1].(task := specs[|specs| - 1].task.(payload := d.task.payload))
    requires NewFrom(name, db, m, wid, specs) && Unclaimed(name, m.tasks, d.task) && SlotUnclaimed(m.tasks, wid, d)
    ensures var r := ReplaceComponent(name, m, wid, d, at); r.Ok? && NewFrom(name, db, r.value.0, wid, specs)
  {
    if (wid, d.key) in m.components && d.generation <= m.components[(wid, d.key)].generation {
      ReplaceStale(name, m, wid, d, at);
    } else {
      NewerAccepted(name, m, wid, d, at);
      NewFromLast(name, db, m, ReplaceComponent(name, m, wid, d, at).value.0, wid, specs, d);
    }
  }

  lemma NewerAccepted(name: Naming, m: Db, wid: WorkflowId, d: ComponentSpec, at: Time)
    requires Sound(name, m) && wid in m.workflows && Unclaimed(name, m.tasks, d.task) && SlotUnclaimed(m.tasks, wid, d)
    requires (wid, d.key) in m.components ==> d.generation > m.components[(wid, d.key)].generation
    ensures var r := ReplaceComponent(name, m, wid, d, at);
      && r.Ok? && d.task.taskId in r.value.0.tasks && r.value.0.tasks == m.tasks[d.task.taskId := r.value.0.tasks[d.task.taskId]]
      && StoredFor(name, r.value.0.tasks[d.task.taskId], d.task.taskId, wid, d)
  {
    var slot := (wid, d.key);
    PutAccepts(name, m, wid, d, if slot in m.components then m.components[slot].createdAt else at, at);
  }

  lemma NewFromLast(name: Naming, db: Db, m: Db, q: Db, wid: WorkflowId, specs: seq<ComponentSpec>, d: ComponentSpec)
    requires specs != [] && IsMissing(db, wid, specs[|specs| - 1]) && NewFrom(name, db, m, wid, specs)
    requires d.task.taskId in q.tasks && q.tasks == m.tasks[d.task.taskId := q.tasks[d.task.taskId]]
    requires StoredFor(name, q.tasks[d.task.taskId], d.task.taskId, wid, specs[|specs| - 1])
    ensures NewFrom(name, db, q, wid, specs)
  {
    forall id | id in q.tasks && id !in db.tasks
      ensures exists i | 0 <= i < |specs| :: IsMissing(db, wid, specs[i]) && StoredFor(name, q.tasks[id], id, wid, specs[i])
    {
      if id == d.task.taskId {
        assert StoredFor(name, q.tasks[id], id, wid, specs[|specs| - 1]);
      } else {
        var i :| 0 <= i < |specs| && IsMissing(db, wid, specs[i]) && StoredFor(name, m.tasks[id], id, wid, specs[i]);
        assert StoredFor(name, q.tasks[id], id, wid, specs[i]);
      }
    }
  }

  lemma {:induction false} RoundsAccept(name: Naming, v: Validator, db: Db, wid: WorkflowId, specs: seq<ComponentSpec>, at: Time)
    requires Sound(name, db) && wid in db.workflows && CanPlace(name, v, db, wid, specs)
    ensures var q := ReplaceAll(name, v, db, wid, ComponentTasks(db, wid), specs, at); q.ok && NewFrom(name, db, q.db, wid, specs)
    decreases |specs|
  {
    if specs != [] {
      var n := |specs| - 1;
      CanPlaceFirst(name, v, db, wid, specs);
      RoundsAccept(name, v, db, wid, specs[..n], at);
      RoundIsSound(name, v, db, wid, specs[..n], at);
      RoundAccepts(name, v, db, ReplaceAll(name, v, db, wid, ComponentTasks(db, wid), specs[..n], at).db, wid, specs, at);
    }
  }

  lemma CanPlaceFirst(name: Naming, v: Validator, db: Db, wid: WorkflowId, specs: seq<ComponentSpec>)
    requires specs != [] && CanPlace(name, v, db, wid, specs)
    ensures CanPlace(name, v, db, wid, specs[..|specs| - 1])
  {
    var first := specs[..|specs| - 1];
    forall i | 0 <= i < |first| ensures first[i] == specs[i] {}
  }

  lemma RoundIsSound(name: Naming, v: Validator, db: Db, wid: WorkflowId, specs: seq<ComponentSpec>, at: Time)
    requires Sound(name, db)
    ensures var q := ReplaceAll(name, v, db, wid, ComponentTasks(db, wid), specs, at);
      Sound(name, q.db) && q.db.workflows == db.workflows && Persisting(db.tasks, q.db.tasks)
  {
    AllExtends(name, v, db, wid, ComponentTasks(db, wid), specs, at);
  }

  /** A call on an active workflow of a registered kind returns if its handler asks for components that can be placed. */
  lemma CallReturns(name: Naming, r: Registry, db: Db, wid: WorkflowId, at: Time, es: seq<Event>, states: seq<State>, specs: seq<ComponentSpec>)
    requires Intact(name, db) && wid in db.workflows && db.workflows[wid].status == Active && db.workflows[wid].kind in r.handlers
    requires IsReading(db.events, wid, db.workflows[wid].cursor, es)
    requires IsTrace(r.handlers[db.workflows[wid].kind], db.workflows[wid].state, es, states)
    requires var was := db.workflows[wid];
      r.handlers[was.kind].desired(was.(state := states[|es|], cursor := if es == [] then was.cursor else es[|es| - 1].eventId), states[|es|])
      == Some(specs)
    requires CanPlace(name, r.validate, db, wid, specs)
    ensures Returns(name, r, db, wid, at)
  {
    var h := r.handlers[db.workflows[wid].kind];
    EventsAfterExact(db.events, wid, db.workflows[wid].cursor, es);
    FoldIsTrace(h, db.workflows[wid].state, es, states);
    assert DesiredNow(h, db, wid) == Some(specs);
    RoundsAccept(name, r.validate, db, wid, specs, at);
    RoundsOf(name, r.validate, h, db, wid, at);
  }

  // ---------------------------------------------------------------------------------
  // What no call touches

  /** Only the workflow's own row and components and new tasks may differ. */
  ghost predicate OnlyWorkflow(db: Db, db': Db, wid: WorkflowId) {
    && db'.events == db.events && db'.commits == db.commits && db'.checkpoints == db.checkpoints && db'.policies == db.policies
    && Persisting(db.tasks, db'.tasks) && ComponentsGrow(db.components, db'.components, wid)
    && db'.workflows.Keys == db.workflows.Keys && forall w | w in db.workflows && w != wid && w in db'.workflows :: db'.workflows[w] == db.workflows[w]
  }

  lemma RoundsFrame(name: Naming, v: Validator, db: Db, wid: WorkflowId, specs: seq<ComponentSpec>, at: Time)
    requires Sound(name, db)
    ensures var m := ReplaceAll(name, v, db, wid, ComponentTasks(db, wid), specs, at).db;
      OnlyWorkflow(db, m, wid) && m.workflows == db.workflows
  {
    AllExtends(name, v, db, wid, ComponentTasks(db, wid), specs, at);
  }

  lemma RowFrame(db: Db, m: Db, wid: WorkflowId, row: WorkflowRow)
    requires OnlyWorkflow(db, m, wid) && wid in db.workflows
    ensures OnlyWorkflow(db, m.(workflows := m.workflows[wid := row]), wid)
  {
  }

  lemma ActiveFrame(name: Naming, r: Registry, db: Db, wid: WorkflowId, at: Time)
    requires Intact(name, db) && wid in db.workflows && db.workflows[wid].status == Active && db.workflows[wid].kind in r.handlers
    ensures var db' := EngineRun(name, r, db, wid, at);
      OnlyWorkflow(db, db', wid) && (!Returns(name, r, db, wid, at) ==> db'.workflows == db.workflows)
  {
    var h := r.handlers[db.workflows[wid].kind];
    RoundsOf(name, r.validate, h, db, wid, at);
    if DesiredNow(h, db, wid).Some? {
      var view, desired := Caught(h, db, wid), DesiredNow(h, db, wid).value;
      RoundsFrame(name, r.validate, db, wid, desired, at);
      var m := ReplaceAll(name, r.validate, db, wid, ComponentTasks(db, wid), desired, at).db;
      SavedEnds(h, m, wid, view.0, view.1, at);
      RowFrame(db, m, wid, Judged(h, After(m, SaveState(m, wid, view.0, view.1, at)), wid, view.0, at).workflows[wid]);
    }
  }

  /** A call that raises writes no workflow row, and one on an unknown or finished workflow or of an unknown kind nothing. */
  lemma CallFrame(name: Naming, r: Registry, db: Db, wid: WorkflowId, at: Time)
    requires Intact(name, db)
    ensures var db' := EngineRun(name, r, db, wid, at);
      && OnlyWorkflow(db, db', wid)
      && (!Returns(name, r, db, wid, at) ==> db'.workflows == db.workflows)
      && (wid !in db.workflows || db.workflows[wid].status != Active || db.workflows[wid].kind !in r.handlers ==> db' == db)
  {
    if wid in db.workflows && db.workflows[wid].status == Active && db.workflows[wid].kind in r.handlers {
      ActiveFrame(name, r, db, wid, at);
    }
  }

  // ---------------------------------------------------------------------------------
  // Static workflows

  /**
   * A call that returns leaves an active static workflow FAILED exactly if some child is
   * FAILED, with the keys of those in the error, SUCCEEDED exactly if it has children and
   * all are SUCCEEDED, with their results, and otherwise ACTIVE.
   */
  lemma StaticCallEnds(name: Naming, r: Registry, db: Db, wid: WorkflowId, at: Time, children: map<Text, TaskRow>, failed: seq<Text>)
    requires Intact(name, db) && wid in db.workflows && db.workflows[wid].status == Active && Returns(name, r, db, wid, at)
    requires r.handlers[db.workflows[wid].kind] == STATIC
    requires ListsChildren(EngineRun(name, r, db, wid, at), wid, children) && ListsFailed(children, failed)
    ensures var db' := EngineRun(name, r, db, wid, at);
      && wid in db'.workflows && var row := db'.workflows[wid];
      if failed != [] then
        row.status == WfFailed && row.result == None
        && row.lastError == Some(Text("components failed after SkyPilot recovery: " + JoinKeys(failed)))
      else if children != map[] && forall k | k in children :: children[k].status == Succeeded then
        && row.status == WfSucceeded && row.lastError == None && row.result.Some? && row.result.value.StaticOutcome?
        && row.result.value.lastBarrier == (if row.state.StaticState? then row.state.lastBarrier else None)
        && row.result.value.results.Keys == children.Keys && forall k | k in children :: row.result.value.results[k] == children[k].result
      else row.status == Active
  {
    CallSaves(name, r, db, wid, at);
    var db' := EngineRun(name, r, db, wid, at);
    ChildrenListed(db', wid);
    OneChildren(db', wid, children, ComponentTasks(db', wid));
    var saved := SavedRow(db.workflows[wid], db'.workflows[wid], at);
    StaticAnswers(saved, children, failed);
  }

  lemma StaticAnswers(saved: WorkflowRow, children: map<Text, TaskRow>, failed: seq<Text>)
    requires ListsFailed(children, failed)
    ensures var result, reason := STATIC.completion(saved, saved.state, children), STATIC.failure(saved, saved.state, children);
      if failed != [] then
        result == None && reason == Some(Text("components failed after SkyPilot recovery: " + JoinKeys(failed)))
      else if children != map[] && forall k | k in children :: children[k].status == Succeeded then
        && result.Some? && result.value.StaticOutcome?
        && result.value.lastBarrier == (if saved.state.StaticState? then saved.state.lastBarrier else None)
        && result.value.results.Keys == children.Keys && forall k | k in children :: result.value.results[k] == children[k].result
      else result == None && reason == None
  {
    VerdictExact(saved.state, children, failed);
    if failed != [] { assert failed[0] in failed; }
    assert STATIC.completion(saved, saved.state, children) == CompletionResult(saved.state, children);
    assert STATIC.failure(saved, saved.state, children) == FailureReason(children);
  }
}
