// `WorkflowEngine`: the loops of `submit` and `reconcile` over the store.

module Engine {
  import opened Types
  import opened Tables
  import opened Integrity
  import opened StaticHandler
  import opened Folding
  import opened Crash
  import opened StaticRuns
  import opened Store

  /** The workflow handlers by kind, and the validation of tasks by kind. */
  datatype Registry = Registry(handlers: map<Text, Handler>, validate: Validator)

  /** What `submit` hands to the store, or `None` where it raises before. */
  ghost function Submission(r: Registry, spec: WorkflowSpec): Option<(WorkflowSpec, seq<ComponentSpec>, State)> {
    if spec.kind !in r.handlers then None
    else
      var h := r.handlers[spec.kind];
      var payload := h.validate(spec.payload);
      if payload.None? then None
      else
        var spec', state := spec.(payload := payload.value), h.initial(payload.value);
        var desired := h.desired(Placeholder(spec', state), state);
        if desired.None? then None
        else
          var components := AllValidated(r.validate, desired.value);
          if components.None? then None else Some((spec', components.value, state))
  }

  /** The record that the handler sees before the workflow is stored. */
  function Placeholder(spec: WorkflowSpec, state: State): WorkflowRow {
    NewWorkflow(spec, state, 0.0)
  }

  function AllValidated(v: Validator, specs: seq<ComponentSpec>): Option<seq<ComponentSpec>> {
    if specs == [] then Some([])
    else
      var n := |specs| - 1;
      var rest, last := AllValidated(v, specs[..n]), Validated(v, specs[n]);
      if rest.None? || last.None? then None else Some(rest.value + [last.value])
  }

  lemma {:induction false} OneInvalid(v: Validator, specs: seq<ComponentSpec>, i: nat)
    requires i < |specs| && Validated(v, specs[i]).None?
    ensures AllValidated(v, specs).None?
    decreases |specs|
  {
    if i < |specs| - 1 { OneInvalid(v, specs[..|specs| - 1], i); }
  }

  lemma {:induction false} ValidatedEach(v: Validator, specs: seq<ComponentSpec>, i: nat)
    requires AllValidated(v, specs).Some? && i < |specs|
    ensures |AllValidated(v, specs).value| == |specs| && Validated(v, specs[i]) == Some(AllValidated(v, specs).value[i])
    decreases |specs|
  {
    var n := |specs| - 1;
    if i < n {
      ValidatedEach(v, specs[..n], i);
    } else if n > 0 {
      ValidatedEach(v, specs[..n], 0);
    }
  }

  /**
   * A workflow is stored under its kind with the fold of its handler over no events, so
   * its saved state is a fold from the beginning on.
   */
  lemma SubmissionStartsFold(name: Naming, r: Registry, db: Db, spec: WorkflowSpec, at: Time)
    requires Intact(name, db) && Submission(r, spec).Some?
    ensures var (spec', components, state) := Submission(r, spec).value;
      var done := Tables.SubmitWorkflow(name, db, spec', components, state, at);
      done.Ok? ==>
        && spec.workflowId in done.value.0.workflows
        && var row := done.value.0.workflows[spec.workflowId];
          row.kind == spec.kind && IsFold(r.handlers[spec.kind], done.value.0, spec.workflowId, row.state, row.cursor)
  {
    var (spec', components, state) := Submission(r, spec).value;
    var done := Tables.SubmitWorkflow(name, db, spec', components, state, at);
    if done.Ok? {
      SubmitWorkflowOk(name, db, spec', components, state, at);
      ReadNothing(done.value.0.events, spec.workflowId);
    }
  }

  /** Validation may rewrite the payload only. */
  ghost predicate SameButPayload(a: TaskSpec, b: TaskSpec) {
    a == b.(payload := a.payload)
  }

  /** What is submitted of a static workflow: one child per component of a valid payload, with distinct keys and the default ids. */
  lemma StaticSubmission(r: Registry, spec: WorkflowSpec, i: nat)
    requires spec.kind in r.handlers && r.handlers[spec.kind] == STATIC && Submission(r, spec).Some?
    requires i < |Submission(r, spec).value.1|
    ensures var (spec', components, _) := Submission(r, spec).value;
      && ValidPayload(spec'.payload) && |components| == |spec'.payload.components|
      && var c := spec'.payload.components[i];
        && IsConstructible(c) && components[i].key == c.key
        && components[i].generation == c.Generation() && components[i].required == c.required.GetOr(true)
        && SameButPayload(components[i].task, DesiredComponent(spec.workflowId, c).task)
        && forall j | 0 <= j < |components| && j != i :: spec'.payload.components[j].key != c.key
  {
    var (spec', components, state) := Submission(r, spec).value;
    var desired := STATIC.desired(Placeholder(spec', state), state);
    assert desired == DesiredComponents(Placeholder(spec', state), state);
    assert AllValidated(r.validate, desired.value) == Some(components);
    if desired.value != [] { ValidatedEach(r.validate, desired.value, 0); }
    ValidatedEach(r.validate, desired.value, i);
  }

  /** Once a submission succeeded, every component has its row and a task that answers its spec: a new one, or one stored before under its key or id. */
  lemma SubmissionPlaces(name: Naming, r: Registry, db: Db, spec: WorkflowSpec, at: Time, i: nat)
    requires Intact(name, db) && Submission(r, spec).Some? && i < |Submission(r, spec).value.1|
    ensures var (spec', components, state) := Submission(r, spec).value;
      var done := Tables.SubmitWorkflow(name, db, spec', components, state, at);
      done.Ok? ==> Placed(done.value.0, spec.workflowId, components[i])
  {
    var (spec', components, state) := Submission(r, spec).value;
    SubmitWorkflowAtomic(name, db, spec', components, state, at);
    assert components[i] in components;
  }

  class WorkflowEngine {
    const store: SwarmStore
    const registry: Registry

    constructor (s: SwarmStore, r: Registry)
      ensures store == s && registry == r
    {
      store, registry := s, r;
    }

    method ValidatedComponent(c: ComponentSpec) returns (r: Option<ComponentSpec>)
      ensures r == Validated(registry.validate, c)
    {
      var payload := registry.validate(c.task.kind, c.task.payload);
      if payload.None? {
        return None;
      }
      return Some(c.(task := c.task.(payload := payload.value)));
    }

    /** `None` stands for an exception raised before the store is called. */
    method Submit(spec: WorkflowSpec, at: Time) returns (r: Option<Result<WorkflowRow>>)
      requires Sound(store.name, store.Contents())
      modifies store`tasks, store`workflows, store`components
      ensures match Submission(registry, spec)
              case None => r == None && store.Contents() == old(store.Contents())
              case Some((spec', components, state)) =>
                var done := Tables.SubmitWorkflow(store.name, old(store.Contents()), spec', components, state, at);
                r == Some(Reply(done)) && store.Contents() == After(old(store.Contents()), done)
    {
      if spec.kind !in registry.handlers {
        return None;
      }
      var handler := registry.handlers[spec.kind];
      var payload := handler.validate(spec.payload);
      if payload.None? {
        return None;
      }
      var valid := spec.(payload := payload.value);
      var state := handler.initial(valid.payload);
      var desired := handler.desired(Placeholder(valid, state), state);
      if desired.None? {
        return None;
      }
      var components := ValidatedComponents(desired.value);
      if components.None? {
        return None;
      }
      var done := store.SubmitWorkflow(valid, components.value, state, at);
      return Some(done);
    }

    method ValidatedComponents(specs: seq<ComponentSpec>) returns (r: Option<seq<ComponentSpec>>)
      ensures r == AllValidated(registry.validate, specs)
    {
      var components := [];
      var i := 0;
      while i < |specs|
        invariant 0 <= i <= |specs|
        invariant AllValidated(registry.validate, specs[..i]) == Some(components)
      {
        var c := ValidatedComponent(specs[i]);
        if c.None? {
          OneInvalid(registry.validate, specs, i);
          return None;
        }
        assert specs[..i + 1][..i] == specs[..i];
        components := components + [c.value];
        i := i + 1;
      }
      assert specs[..i] == specs;
      return Some(components);
    }

    /** The reducer over the events not yet folded. */
    method CatchUp(handler: Handler, workflow: WorkflowRow) returns (state: State, cursor: nat)
      requires LogOk(store.events)
      ensures var es := EventsAfter(store.events, workflow.workflowId, workflow.cursor);
        state == Fold(handler, workflow.state, es) && cursor == CursorAfter(workflow.cursor, es)
    {
      state, cursor := workflow.state, workflow.cursor;
      var events := store.GetWorkflowEvents(workflow.workflowId, cursor);
      var i := 0;
      while i < |events|
        invariant 0 <= i <= |events|
        invariant state == Fold(handler, workflow.state, events[..i]) && cursor == CursorAfter(workflow.cursor, events[..i])
      {
        assert events[..i + 1][..i] == events[..i];
        state := handler.reduce(state, events[i]);
        cursor := events[i].eventId;
        i := i + 1;
      }
      assert events[..i] == events;
    }

    /** The body of the loop over the desired components. */
    method ReplaceOne(wid: WorkflowId, current: map<Text, TaskRow>, spec: ComponentSpec, at: Time) returns (ok: bool)
      requires Sound(store.name, store.Contents())
      modifies store`tasks, store`components
      ensures ReplaceNext(store.name, registry.validate, Progress(old(store.Contents()), true), wid, current, spec, at)
              == Progress(store.Contents(), ok)
    {
      var desired := ValidatedComponent(spec);
      if desired.None? {
        return false;
      }
      if desired.value.key !in current || desired.value.generation > GenerationOf(current[desired.value.key]) {
        var r := store.ReplaceComponent(wid, desired.value, at);
        return r.Ok?;
      }
      return true;
    }

    /** The loop over the desired components; it ends early where it raises. */
    method ReplaceWanted(wid: WorkflowId, current: map<Text, TaskRow>, specs: seq<ComponentSpec>, at: Time) returns (ok: bool)
      requires Sound(store.name, store.Contents())
      modifies store`tasks, store`components
      ensures ReplaceAll(store.name, registry.validate, old(store.Contents()), wid, current, specs, at) == Progress(store.Contents(), ok)
    {
      ghost var name, v, was := store.name, registry.validate, store.Contents();
      var i := 0;
      while i < |specs|
        invariant 0 <= i <= |specs| && Sound(name, store.Contents())
        invariant ReplaceAll(name, v, was, wid, current, specs[..i], at) == Progress(store.Contents(), true)
      {
        assert specs[..i + 1][..i] == specs[..i];
        ok := ReplaceOne(wid, current, specs[i], at);
        if !ok {
          RaisedStays(name, v, was, wid, current, specs, i + 1, at);
          return;
        }
        AllExtends(name, v, was, wid, current, specs[..i + 1], at);
        i := i + 1;
      }
      assert specs[..i] == specs;
      return true;
    }

    /** `reconcile`: `ok` unless it raises. */
    method Reconcile(wid: WorkflowId, at: Time) returns (ok: bool)
      requires Intact(store.name, store.Contents())
      modifies store`tasks, store`components, store`workflows
      ensures store.Contents() == EngineRun(store.name, registry, old(store.Contents()), wid, at)
      ensures ok == Returns(store.name, registry, old(store.Contents()), wid, at)
    {
      if wid !in store.workflows {
        return false;
      }
      var workflow := store.workflows[wid];
      if !workflow.status.Active? {
        return true;
      }
      if workflow.kind !in registry.handlers {
        return false;
      }
      ok := ReconcileActive(registry.handlers[workflow.kind], wid, at);
    }

    method ReconcileActive(handler: Handler, wid: WorkflowId, at: Time) returns (ok: bool)
      requires Intact(store.name, store.Contents())
      requires wid in store.workflows && store.workflows[wid].status.Active?
      modifies store`tasks, store`components, store`workflows
      ensures store.Contents() == Reconciled(store.name, registry.validate, handler, old(store.Contents()), wid, at)
      ensures ok == Materialized(store.name, registry.validate, handler, old(store.Contents()), wid, at).ok
    {
      ghost var was := store.Contents();
      RoundsOf(store.name, registry.validate, handler, was, wid, at);
      var workflow := store.workflows[wid];
      var state, cursor := CatchUp(handler, workflow);
      var current := store.GetWorkflowComponents(wid);
      var desired := handler.desired(workflow.(state := state, cursor := cursor), state);
      if desired.None? {
        return false;
      }
      ok := ReplaceWanted(wid, current, desired.value, at);
      if ok {
        Conclude(handler, wid, state, cursor, at);
      }
    }

    /** The rest of `reconcile` once every wanted component is there. */
    method Conclude(handler: Handler, wid: WorkflowId, state: State, cursor: nat, at: Time)
      requires wid in store.workflows
      modifies store`workflows
      ensures store.Contents() == Judged(handler, After(old(store.Contents()), SaveState(old(store.Contents()), wid, state, cursor, at)), wid, state, at)
    {
      var saved := store.SaveWorkflowState(wid, state, cursor, at);
      var components := store.GetWorkflowComponents(wid);
      var result := handler.completion(saved.value, state, components);
      if result.Some? {
        var done := store.FinishWorkflow(wid, WfSucceeded, result, None, at);
        return;
      }
      var reason := handler.failure(saved.value, state, components);
      if reason.Some? {
        var done := store.FinishWorkflow(wid, WfFailed, None, reason, at);
      }
    }
  }

  /** How a call on an active workflow goes, by how its loop ends. */
  lemma RoundsOf(name: Naming, v: Validator, h: Handler, db: Db, wid: WorkflowId, at: Time)
    requires Intact(name, db) && wid in db.workflows && db.workflows[wid].workflowId == wid && db.workflows[wid].status.Active?
    ensures var desired, view := DesiredNow(h, db, wid), Caught(h, db, wid);
      if desired.None? then Reconciled(name, v, h, db, wid, at) == db && !Materialized(name, v, h, db, wid, at).ok
      else
        var p := ReplaceAll(name, v, db, wid, ComponentTasks(db, wid), desired.value, at);
        && wid in p.db.workflows
        && Materialized(name, v, h, db, wid, at).ok == p.ok
        && Reconciled(name, v, h, db, wid, at)
           == if p.ok then Judged(h, After(p.db, SaveState(p.db, wid, view.0, view.1, at)), wid, view.0, at) else p.db
  {
    if DesiredNow(h, db, wid).Some? {
      PrefixKeeps(name, v, db, wid, ComponentTasks(db, wid), DesiredNow(h, db, wid).value, at);
    }
  }

  /** A call of `reconcile` raises for an unknown workflow or kind, and where the handler, a validation or a replacement does. */
  ghost predicate Returns(name: Naming, r: Registry, db: Db, wid: WorkflowId, at: Time) {
    && wid in db.workflows
    && (db.workflows[wid].status.Active? ==>
          && db.workflows[wid].kind in r.handlers
          && Materialized(name, r.validate, r.handlers[db.workflows[wid].kind], db, wid, at).ok)
  }

  /** A call of `reconcile` with the handler that is registered for the workflow's kind, if any is. */
  ghost function EngineRun(name: Naming, r: Registry, db: Db, wid: WorkflowId, at: Time): Db {
    if wid in db.workflows && db.workflows[wid].kind in r.handlers
    then Reconciled(name, r.validate, r.handlers[db.workflows[wid].kind], db, wid, at)
    else db
  }
}
