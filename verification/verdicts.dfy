// Finished static workflows: in every run of the machine a static workflow is SUCCEEDED
// only with every child SUCCEEDED and FAILED only with some child FAILED, and stays so.

module Verdicts {
  import opened Types
  import opened Admission
  import opened Tables
  import opened Integrity
  import opened Lifecycle
  import opened StaticHandler
  import opened Machine
  import opened Protocol

  predicate IsStatic(db: Db, wid: WorkflowId) {
    wid in db.workflows && db.workflows[wid].kind == STATIC_KIND
  }

  /** A verdict agrees with the children. */
  ghost predicate Justified(db: Db, wid: WorkflowId, succeeded: bool, failed: bool) {
    && (succeeded ==> AllSucceeded(ComponentTasks(db, wid)))
    && (failed ==> SomeFailed(ComponentTasks(db, wid)))
  }

  ghost predicate WorkflowJustified(db: Db, wid: WorkflowId) {
    IsStatic(db, wid) ==> Justified(db, wid, db.workflows[wid].status.WfSucceeded?, db.workflows[wid].status.WfFailed?)
  }

  /** The engine is at work on an active workflow, and its verdict is justified. */
  ghost predicate EngineOk(s: Sys) {
    match s.phase
    case InEngine(_, wid) => wid in s.db.workflows && s.db.workflows[wid].status.Active?
    case Judging(_, wid) => wid in s.db.workflows && s.db.workflows[wid].status.Active?
    case Finishing(_, wid, verdict) =>
      && wid in s.db.workflows && s.db.workflows[wid].status.Active?
      && (IsStatic(s.db, wid) ==> Justified(s.db, wid, verdict.Completed?, verdict.Broken?))
    case _ => true
  }

  ghost predicate VerdictsOk(s: Sys) {
    EngineOk(s) && forall wid :: WorkflowJustified(s.db, wid)
  }

  /** The components of one workflow have the same tasks. */
  ghost predicate SameChildTasks(db: Db, db': Db, wid: WorkflowId) {
    forall key: Text ::
      && ((wid, key) in db'.components <==> (wid, key) in db.components)
      && ((wid, key) in db.components ==> db'.components[(wid, key)].taskId == db.components[(wid, key)].taskId)
  }

  /** The component rows of one workflow are the same. */
  ghost predicate SameComponents(db: Db, db': Db, wid: WorkflowId) {
    forall key: Text ::
      && ((wid, key) in db'.components <==> (wid, key) in db.components)
      && ((wid, key) in db.components ==> db'.components[(wid, key)] == db.components[(wid, key)])
  }

  /** The same children, and the terminal ones with the same status. */
  lemma ChildStays(db: Db, db': Db, wid: WorkflowId, key: Text)
    requires ComponentsOk(db) && SameChildTasks(db, db', wid) && RowsStep(db.tasks, db'.tasks)
    ensures key in ComponentTasks(db', wid) <==> key in ComponentTasks(db, wid)
    ensures key in ComponentTasks(db, wid) && ComponentTasks(db, wid)[key].status.IsTerminal() ==>
      ComponentTasks(db', wid)[key].status == ComponentTasks(db, wid)[key].status
  {
    ChildOf(db, wid, key);
    ChildOf(db', wid, key);
    if key in ComponentTasks(db, wid) {
      assert RowStep(db.tasks[db.components[(wid, key)].taskId], db'.tasks[db.components[(wid, key)].taskId]);
    }
  }

  /** So a justified verdict stays justified. */
  lemma StaysJustified(db: Db, db': Db, wid: WorkflowId, succeeded: bool, failed: bool)
    requires ComponentsOk(db) && SameChildTasks(db, db', wid) && RowsStep(db.tasks, db'.tasks)
    requires Justified(db, wid, succeeded, failed)
    ensures Justified(db', wid, succeeded, failed)
  {
    var before, after := ComponentTasks(db, wid), ComponentTasks(db', wid);
    if succeeded {
      var key :| key in before;
      ChildStays(db, db', wid, key);
      forall k | k in after ensures after[k].status.Succeeded? { ChildStays(db, db', wid, k); }
    }
    if failed {
      var key :| key in before && before[key].status.Failed?;
      ChildStays(db, db', wid, key);
    }
  }

  /** The workflow's row and its components are the same. */
  ghost predicate WorkflowKept(db: Db, db': Db, wid: WorkflowId) {
    && wid in db.workflows && wid in db'.workflows && db'.workflows[wid] == db.workflows[wid]
    && SameComponents(db, db', wid)
  }

  lemma GrowthKeeps(db: Db, db': Db, other: WorkflowId, wid: WorkflowId)
    requires wid in db.workflows && other != wid && ComponentsGrow(db.components, db'.components, other)
    requires wid in db'.workflows && db'.workflows[wid] == db.workflows[wid]
    ensures WorkflowKept(db, db', wid)
  {
  }

  lemma SubmitKeeps(name: Naming, db: Db, spec: WorkflowSpec, specs: seq<ComponentSpec>, initial: State, at: Time, wid: WorkflowId)
    requires Intact(name, db) && wid in db.workflows && SubmitWorkflow(name, db, spec, specs, initial, at).Ok?
    ensures WorkflowKept(db, SubmitWorkflow(name, db, spec, specs, initial, at).value.0, wid)
  {
    SubmitWorkflowOk(name, db, spec, specs, initial, at);
    GrowthKeeps(db, SubmitWorkflow(name, db, spec, specs, initial, at).value.0, spec.workflowId, wid);
  }

  lemma ReplaceKeeps(name: Naming, db: Db, other: WorkflowId, c: ComponentSpec, at: Time, wid: WorkflowId)
    requires Intact(name, db) && wid in db.workflows && other != wid && ReplaceComponent(name, db, other, c, at).Ok?
    ensures WorkflowKept(db, ReplaceComponent(name, db, other, c, at).value.0, wid)
  {
    ReplaceOk(name, db, other, c, at);
    GrowthKeeps(db, ReplaceComponent(name, db, other, c, at).value.0, other, wid);
  }

  /** Transactions other than the engine's on this workflow leave it and its components alone. */
  lemma OthersKeep(name: Naming, db: Db, op: Op, at: Time, wid: WorkflowId)
    requires Intact(name, db) && wid in db.workflows
    requires op.OpReplace? || op.OpFinish? || op.OpSaveState? ==> op.wid != wid
    ensures WorkflowKept(db, Apply(name, db, op, at), wid)
  {
    match op
    case OpSubmitWorkflow(spec, specs, initial) =>
      if SubmitWorkflow(name, db, spec, specs, initial, at).Ok? { SubmitKeeps(name, db, spec, specs, initial, at, wid); }
    case OpReplace(other, c) =>
      if ReplaceComponent(name, db, other, c, at).Ok? { ReplaceKeeps(name, db, other, c, at, wid); }
    case OpSaveState(_, _, _) => EngineKeeps(name, db, op, at, wid);
    case OpFinish(_, _, _, _) => EngineKeeps(name, db, op, at, wid);
    case _ => ScopeKeeps(name, db, op, at, wid);
  }

  lemma EngineKeeps(name: Naming, db: Db, op: Op, at: Time, wid: WorkflowId)
    requires wid in db.workflows && (op.OpFinish? || op.OpSaveState?) && op.wid != wid
    ensures WorkflowKept(db, Apply(name, db, op, at), wid)
  {
  }

  lemma ScopeKeeps(name: Naming, db: Db, op: Op, at: Time, wid: WorkflowId)
    requires Intact(name, db) && wid in db.workflows
    requires !op.OpReplace? && !op.OpFinish? && !op.OpSaveState? && !op.OpSubmitWorkflow?
    ensures WorkflowKept(db, Apply(name, db, op, at), wid)
  {
    ApplyKeeps(name, db, op, at);
  }

  lemma SaveStaysActive(name: Naming, db: Db, op: Op, at: Time, wid: WorkflowId)
    requires wid in db.workflows && db.workflows[wid].status.Active? && op.OpSaveState?
    ensures wid in Apply(name, db, op, at).workflows && Apply(name, db, op, at).workflows[wid].status.Active?
  {
  }

  lemma ReplaceStaysActive(name: Naming, db: Db, op: Op, at: Time)
    requires Intact(name, db) && op.OpReplace?
    ensures Apply(name, db, op, at).workflows == db.workflows
  {
    ApplyKeeps(name, db, op, at);
  }

  /** Only the engine's finish ends a workflow. */
  lemma StaysActive(name: Naming, db: Db, op: Op, at: Time, wid: WorkflowId)
    requires Intact(name, db) && wid in db.workflows && db.workflows[wid].status.Active? && !op.OpFinish?
    ensures wid in Apply(name, db, op, at).workflows && Apply(name, db, op, at).workflows[wid].status.Active?
  {
    if op.OpReplace? { ReplaceStaysActive(name, db, op, at); }
    else if op.OpSaveState? { SaveStaysActive(name, db, op, at, wid); }
    else { OthersKeep(name, db, op, at, wid); }
  }

  /** A workflow that is new is active. */
  lemma NewWorkflowActive(name: Naming, db: Db, op: Op, at: Time, wid: WorkflowId)
    requires Intact(name, db) && wid !in db.workflows && wid in Apply(name, db, op, at).workflows
    ensures Apply(name, db, op, at).workflows[wid].status.Active?
  {
    if op.OpSubmitWorkflow? { SubmittedActive(name, db, op, at, wid); }
    else if !op.OpSaveState? && !op.OpFinish? { ApplyKeeps(name, db, op, at); }
  }

  lemma SubmittedActive(name: Naming, db: Db, op: Op, at: Time, wid: WorkflowId)
    requires Intact(name, db) && op.OpSubmitWorkflow? && wid !in db.workflows && wid in Apply(name, db, op, at).workflows
    ensures Apply(name, db, op, at).workflows[wid].status.Active?
  {
    SubmitWorkflowOk(name, db, op.wfSpec, op.components, op.initial, at);
  }

  lemma KeepsJustified(name: Naming, db: Db, op: Op, at: Time, wid: WorkflowId, succeeded: bool, failed: bool)
    requires TablesOk(name, db) && Lawful(db, op) && wid in db.workflows
    requires op.OpReplace? || op.OpFinish? || op.OpSaveState? ==> op.wid != wid
    requires Justified(db, wid, succeeded, failed)
    ensures Justified(Apply(name, db, op, at), wid, succeeded, failed)
  {
    OthersKeep(name, db, op, at, wid);
    LawfulStep(name, db, op, at);
    StaysJustified(db, Apply(name, db, op, at), wid, succeeded, failed);
  }

  /** The engine's transactions are on a workflow that is active. */
  ghost predicate OnActive(db: Db, op: Op) {
    op.OpReplace? || op.OpFinish? || op.OpSaveState? ==> op.wid in db.workflows && db.workflows[op.wid].status.Active?
  }

  /** Every transaction but the engine's own finish keeps all verdicts justified. */
  lemma OpKeepsVerdict(name: Naming, db: Db, op: Op, at: Time, wid: WorkflowId)
    requires TablesOk(name, db) && Lawful(db, op) && !op.OpFinish? && OnActive(db, op) && WorkflowJustified(db, wid)
    ensures WorkflowJustified(Apply(name, db, op, at), wid)
  {
    if wid !in db.workflows {
      if wid in Apply(name, db, op, at).workflows { NewWorkflowActive(name, db, op, at, wid); }
    } else if db.workflows[wid].status.Active? {
      StaysActive(name, db, op, at, wid);
    } else {
      OthersKeep(name, db, op, at, wid);
      if IsStatic(db, wid) {
        KeepsJustified(name, db, op, at, wid, db.workflows[wid].status.WfSucceeded?, db.workflows[wid].status.WfFailed?);
      }
    }
  }

  lemma SameChildren(db: Db, db': Db, wid: WorkflowId, succeeded: bool, failed: bool)
    requires db'.tasks == db.tasks && db'.components == db.components && Justified(db, wid, succeeded, failed)
    ensures Justified(db', wid, succeeded, failed)
  {
    assert ComponentTasks(db', wid) == ComponentTasks(db, wid);
  }

  /** The engine finishes with a verdict that is justified. */
  lemma FinishJustified(name: Naming, db: Db, op: Op, at: Time, w: WorkflowId)
    requires op.OpFinish? && WorkflowJustified(db, w) && op.wid in db.workflows
    requires IsStatic(db, op.wid) ==> Justified(db, op.wid, op.status.WfSucceeded?, op.status.WfFailed?)
    ensures WorkflowJustified(Apply(name, db, op, at), w)
  {
    var db' := Apply(name, db, op, at);
    if IsStatic(db', w) {
      SameChildren(db, db', w, db'.workflows[w].status.WfSucceeded?, db'.workflows[w].status.WfFailed?);
    }
  }

  /** While it waits, the engine's workflow and verdict stay what they were. */
  lemma EngineWaits(name: Naming, s: Sys, op: Op, at: Time)
    requires TablesOk(name, s.db) && IsClientOp(op) && EngineOk(s)
    ensures EngineOk(s.(db := Apply(name, s.db, op, at)))
  {
    if s.phase.InEngine? || s.phase.Judging? || s.phase.Finishing? {
      OthersKeep(name, s.db, op, at, s.phase.wid);
      if s.phase.Finishing? && IsStatic(s.db, s.phase.wid) {
        KeepsJustified(name, s.db, op, at, s.phase.wid, s.phase.verdict.Completed?, s.phase.verdict.Broken?);
      }
    }
  }

  lemma EngineStep(name: Naming, grace: Time, s: Sys, step: Step)
    requires SysOk(name, grace, s) && Enabled(name, grace, s, step) && EngineOk(s)
    ensures EngineOk(Next(name, grace, s, step))
  {
    match step
    case ClientCalls(op, at) => EngineWaits(name, s, op, at);
    case EngineReplaces(c, at) => ReplaceStaysActive(name, s.db, OpReplace(s.phase.wid, c), at);
    case SyncsTask => SyncLeavesEngine(grace, s);
    case _ => EngineMoves(name, grace, s, step);
  }

  lemma EngineMoves(name: Naming, grace: Time, s: Sys, step: Step)
    requires Enabled(name, grace, s, step) && EngineOk(s) && !step.ClientCalls? && !step.EngineReplaces? && !step.SyncsTask?
    ensures EngineOk(Next(name, grace, s, step))
  {
    if step.EngineJudges? && IsStatic(s.db, s.phase.wid) {
      var children := ComponentTasks(s.db, s.phase.wid);
      FailedListed(children, []);
      VerdictExact(s.db.workflows[s.phase.wid].state, children, SortedKeys(FailedKeys(children)));
    }
  }

  lemma SyncLeavesEngine(grace: Time, s: Sys)
    requires s.phase.Syncing? && s.phase.todo != []
    ensures SyncNext(grace, s).Idle? || SyncNext(grace, s).Syncing?
  {
  }

  lemma VerdictsStep(name: Naming, grace: Time, s: Sys, step: Step)
    requires SysOk(name, grace, s) && Enabled(name, grace, s, step) && VerdictsOk(s)
    ensures VerdictsOk(Next(name, grace, s, step))
  {
    EngineStep(name, grace, s, step);
    forall wid ensures WorkflowJustified(NextDb(name, grace, s, step), wid) {
      StepJustifies(name, grace, s, step, wid);
    }
  }

  lemma StepJustifies(name: Naming, grace: Time, s: Sys, step: Step, wid: WorkflowId)
    requires SysOk(name, grace, s) && Enabled(name, grace, s, step) && VerdictsOk(s)
    ensures WorkflowJustified(NextDb(name, grace, s, step), wid)
  {
    assert WorkflowJustified(s.db, wid);
    if step.EngineFinishes? {
      if !s.phase.verdict.Undecided? { FinishJustified(name, s.db, FinishOp(s.phase.wid, s.phase.verdict), step.at, wid); }
    } else if OpOf(grace, s, step).Some? {
      var (op, at) := OpOf(grace, s, step).value;
      StepIsLawful(name, grace, s, step);
      EngineOpsOnActive(name, grace, s, step);
      OpKeepsVerdict(name, s.db, op, at, wid);
    }
  }

  /** The engine works on an active workflow, and nobody else replaces, saves or finishes. */
  lemma EngineOpsOnActive(name: Naming, grace: Time, s: Sys, step: Step)
    requires Enabled(name, grace, s, step) && EngineOk(s) && OpOf(grace, s, step).Some?
    ensures OnActive(s.db, OpOf(grace, s, step).value.0) && (OpOf(grace, s, step).value.0.OpFinish? ==> step.EngineFinishes?)
  {
  }

  lemma {:induction false} ExecutionJustified(name: Naming, grace: Time, ss: seq<Sys>, steps: seq<Step>, i: nat)
    requires IsExecution(name, grace, ss, steps) && i <= |steps|
    ensures VerdictsOk(ss[i])
    decreases i
  {
    if i > 0 {
      ExecutionJustified(name, grace, ss, steps, i - 1);
      ExecutionOk(name, grace, ss, steps, i - 1);
      assert Took(name, grace, ss, steps, i - 1);
      VerdictsStep(name, grace, ss[i - 1], steps[i - 1]);
    }
  }

  /**
   * A static workflow is SUCCEEDED only with at least one child and every child SUCCEEDED,
   * and FAILED only with some child FAILED, in every state of every run.
   */
  lemma StaticVerdictsSound(name: Naming, grace: Time, ss: seq<Sys>, steps: seq<Step>, i: nat, wid: WorkflowId)
    requires IsExecution(name, grace, ss, steps) && i <= |steps|
    requires wid in ss[i].db.workflows && ss[i].db.workflows[wid].kind == STATIC_KIND
    ensures var row, children := ss[i].db.workflows[wid], ComponentTasks(ss[i].db, wid);
      && (row.status == WfSucceeded ==> children != map[] && forall k | k in children :: children[k].status == Succeeded)
      && (row.status == WfFailed ==> exists k | k in children :: children[k].status == Failed)
  {
    ExecutionJustified(name, grace, ss, steps, i);
    assert WorkflowJustified(ss[i].db, wid);
  }

  // ---------------------------------------------------------------------------------
  // Finished workflows stay finished

  lemma StepKeepsFinished(name: Naming, grace: Time, s: Sys, step: Step, wid: WorkflowId)
    requires SysOk(name, grace, s) && Enabled(name, grace, s, step) && EngineOk(s)
    requires wid in s.db.workflows && !s.db.workflows[wid].status.Active?
    ensures var db' := NextDb(name, grace, s, step);
      wid in db'.workflows && db'.workflows[wid] == s.db.workflows[wid] && SameComponents(s.db, db', wid)
  {
    if OpOf(grace, s, step).Some? {
      var (op, at) := OpOf(grace, s, step).value;
      EngineOpsOnActive(name, grace, s, step);
      OthersKeep(name, s.db, op, at, wid);
    }
  }

  /** Nothing ever changes a finished workflow, whatever its kind. */
  lemma {:induction false} FinishedForever(name: Naming, grace: Time, ss: seq<Sys>, steps: seq<Step>, i: nat, j: nat, wid: WorkflowId)
    requires IsExecution(name, grace, ss, steps) && i <= j <= |steps|
    requires wid in ss[i].db.workflows && !ss[i].db.workflows[wid].status.Active?
    ensures wid in ss[j].db.workflows && ss[j].db.workflows[wid] == ss[i].db.workflows[wid]
    ensures SameComponents(ss[i].db, ss[j].db, wid)
    decreases j
  {
    if i < j {
      FinishedForever(name, grace, ss, steps, i, j - 1, wid);
      ExecutionJustified(name, grace, ss, steps, j - 1);
      ExecutionOk(name, grace, ss, steps, j - 1);
      assert Took(name, grace, ss, steps, j - 1);
      StepKeepsFinished(name, grace, ss[j - 1], steps[j - 1], wid);
    }
  }

  // ---------------------------------------------------------------------------------
  // Cancelled children

  ghost predicate KindKept(db: Db, db': Db, wid: WorkflowId) {
    wid in db.workflows ==> wid in db'.workflows && db'.workflows[wid].kind == db.workflows[wid].kind
  }

  lemma OpKeepsKind(name: Naming, db: Db, op: Op, at: Time, wid: WorkflowId)
    requires Intact(name, db)
    ensures KindKept(db, Apply(name, db, op, at), wid)
  {
    if op.OpReplace? {
      ReplaceStaysActive(name, db, op, at);
    } else if op.OpSaveState? || op.OpFinish? {
      EngineKeepsKind(name, db, op, at, wid);
    } else if wid in db.workflows {
      OthersKeep(name, db, op, at, wid);
    }
  }

  lemma EngineKeepsKind(name: Naming, db: Db, op: Op, at: Time, wid: WorkflowId)
    requires op.OpSaveState? || op.OpFinish?
    ensures KindKept(db, Apply(name, db, op, at), wid)
  {
  }

  lemma StepKeepsKind(name: Naming, grace: Time, s: Sys, step: Step, wid: WorkflowId)
    requires SysOk(name, grace, s)
    ensures KindKept(s.db, NextDb(name, grace, s, step), wid)
  {
    if OpOf(grace, s, step).Some? { OpKeepsKind(name, s.db, OpOf(grace, s, step).value.0, OpOf(grace, s, step).value.1, wid); }
  }

  lemma {:induction false} KindForever(name: Naming, grace: Time, ss: seq<Sys>, steps: seq<Step>, i: nat, j: nat, wid: WorkflowId)
    requires IsExecution(name, grace, ss, steps) && i <= j <= |steps|
    ensures KindKept(ss[i].db, ss[j].db, wid)
    decreases j
  {
    if i < j {
      KindForever(name, grace, ss, steps, i, j - 1, wid);
      ExecutionOk(name, grace, ss, steps, j - 1);
      assert Took(name, grace, ss, steps, j - 1);
      StepKeepsKind(name, grace, ss[j - 1], steps[j - 1], wid);
    }
  }

  /** The same children, which are terminal, stay as they are over a run. */
  lemma TerminalChild(name: Naming, grace: Time, ss: seq<Sys>, steps: seq<Step>, i: nat, j: nat, wid: WorkflowId, key: Text)
    requires IsExecution(name, grace, ss, steps) && i <= j <= |steps| && SameChildTasks(ss[i].db, ss[j].db, wid)
    ensures key in ComponentTasks(ss[j].db, wid) ==> key in ComponentTasks(ss[i].db, wid)
    ensures key in ComponentTasks(ss[i].db, wid) && ComponentTasks(ss[i].db, wid)[key].status.IsTerminal() ==>
      key in ComponentTasks(ss[j].db, wid) && ComponentTasks(ss[j].db, wid)[key].status == ComponentTasks(ss[i].db, wid)[key].status
  {
    ChildOf(ss[i].db, wid, key);
    ChildOf(ss[j].db, wid, key);
    if (wid, key) in ss[i].db.components {
      ComponentTaskThere(name, grace, ss, steps, i, wid, key);
      var id := ss[i].db.components[(wid, key)].taskId;
      if ss[i].db.tasks[id].status.IsTerminal() { TerminalForever(name, grace, ss, steps, i, j, id); }
    }
  }

  lemma ComponentTaskThere(name: Naming, grace: Time, ss: seq<Sys>, steps: seq<Step>, i: nat, wid: WorkflowId, key: Text)
    requires IsExecution(name, grace, ss, steps) && i <= |steps| && (wid, key) in ss[i].db.components
    ensures ss[i].db.components[(wid, key)].taskId in ss[i].db.tasks
  {
    ExecutionOk(name, grace, ss, steps, i);
  }

  /**
   * Once every child of a static workflow is terminal, some cancelled and none failed, the
   * workflow is neither SUCCEEDED nor FAILED in any later state in which it has these
   * children.
   */
  lemma CancelledNeverFinishes(name: Naming, grace: Time, ss: seq<Sys>, steps: seq<Step>, i: nat, j: nat, wid: WorkflowId)
    requires IsExecution(name, grace, ss, steps) && i <= j <= |steps| && IsStatic(ss[i].db, wid)
    requires var children := ComponentTasks(ss[i].db, wid);
      && (forall k | k in children :: children[k].status.IsTerminal() && !children[k].status.Failed?)
      && (exists k | k in children :: children[k].status.Cancelled?)
    requires SameChildTasks(ss[i].db, ss[j].db, wid)
    ensures wid in ss[j].db.workflows && !ss[j].db.workflows[wid].status.WfSucceeded? && !ss[j].db.workflows[wid].status.WfFailed?
  {
    var before, after := ComponentTasks(ss[i].db, wid), ComponentTasks(ss[j].db, wid);
    KindForever(name, grace, ss, steps, i, j, wid);
    StaticVerdictsSound(name, grace, ss, steps, j, wid);
    var cancelled :| cancelled in before && before[cancelled].status.Cancelled?;
    TerminalChild(name, grace, ss, steps, i, j, wid, cancelled);
    forall k | k in after ensures !after[k].status.Failed? { TerminalChild(name, grace, ss, steps, i, j, wid, k); }
    assert after[cancelled].status.Cancelled?;
  }
}
