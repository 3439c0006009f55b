// Which states of the machine a piece of the controller's code can lead to, and that the
// engine's call is one such piece.

module Reach {
  import opened Types
  import opened Tables
  import opened Integrity
  import opened StaticHandler
  import opened Machine
  import opened Protocol
  import opened Folding
  import opened Crash
  import opened StaticRuns
  import opened Engine

  /** The steps that a pass of the controller takes itself. */
  predicate IsOwn(step: Step) {
    !step.ClientCalls? && !step.ForeignJob? && !step.Crashes?
  }

  /** Some steps of the controller's own lead from one state to the other. */
  ghost predicate Reaches(name: Naming, grace: Time, a: Sys, b: Sys) {
    exists ss, steps :: Leads(name, grace, ss, steps, a, b)
  }

  ghost predicate Leads(name: Naming, grace: Time, ss: seq<Sys>, steps: seq<Step>, a: Sys, b: Sys) {
    IsOwnRun(name, grace, ss, steps) && ss[0] == a && ss[|steps|] == b
  }

  ghost predicate IsOwnRun(name: Naming, grace: Time, ss: seq<Sys>, steps: seq<Step>) {
    IsMachineRun(name, grace, ss, steps) && forall i | 0 <= i < |steps| :: IsOwn(steps[i])
  }

  lemma ReachesSelf(name: Naming, grace: Time, a: Sys)
    ensures Reaches(name, grace, a, a)
  {
    assert Leads(name, grace, [a], [], a, a);
  }

  lemma RunExtends(name: Naming, grace: Time, ss: seq<Sys>, steps: seq<Step>, step: Step)
    requires IsMachineRun(name, grace, ss, steps) && Enabled(name, grace, ss[|steps|], step)
    ensures IsMachineRun(name, grace, ss + [Next(name, grace, ss[|steps|], step)], steps + [step])
  {
    var ss', steps' := ss + [Next(name, grace, ss[|steps|], step)], steps + [step];
    forall i | 0 <= i < |steps'| ensures Took(name, grace, ss', steps', i) {
      if i < |steps| { assert Took(name, grace, ss, steps, i); }
    }
  }

  lemma ReachesNext(name: Naming, grace: Time, a: Sys, b: Sys, step: Step)
    requires Reaches(name, grace, a, b) && Enabled(name, grace, b, step) && IsOwn(step)
    ensures Reaches(name, grace, a, Next(name, grace, b, step))
  {
    var ss, steps :| Leads(name, grace, ss, steps, a, b);
    RunExtends(name, grace, ss, steps, step);
    assert Leads(name, grace, ss + [Next(name, grace, b, step)], steps + [step], a, Next(name, grace, b, step));
  }

  lemma {:induction false} LeadsOn(name: Naming, grace: Time, a: Sys, b: Sys, ss: seq<Sys>, steps: seq<Step>, i: nat)
    requires Reaches(name, grace, a, b) && IsOwnRun(name, grace, ss, steps) && ss[0] == b && i <= |steps|
    ensures Reaches(name, grace, a, ss[i])
    decreases i
  {
    if i > 0 {
      LeadsOn(name, grace, a, b, ss, steps, i - 1);
      assert Took(name, grace, ss, steps, i - 1);
      ReachesNext(name, grace, a, ss[i - 1], steps[i - 1]);
    }
  }

  lemma ReachesOn(name: Naming, grace: Time, a: Sys, b: Sys, c: Sys)
    requires Reaches(name, grace, a, b) && Reaches(name, grace, b, c)
    ensures Reaches(name, grace, a, c)
  {
    var ss, steps :| Leads(name, grace, ss, steps, b, c);
    LeadsOn(name, grace, a, b, ss, steps, |steps|);
  }

  lemma {:induction false} LeadsOk(name: Naming, grace: Time, ss: seq<Sys>, steps: seq<Step>, i: nat)
    requires IsMachineRun(name, grace, ss, steps) && SysOk(name, grace, ss[0]) && i <= |steps|
    ensures SysOk(name, grace, ss[i])
    decreases i
  {
    if i > 0 {
      LeadsOk(name, grace, ss, steps, i - 1);
      assert Took(name, grace, ss, steps, i - 1);
      StepOk(name, grace, ss[i - 1], steps[i - 1]);
    }
  }

  lemma ReachesOk(name: Naming, grace: Time, a: Sys, b: Sys)
    requires SysOk(name, grace, a) && Reaches(name, grace, a, b)
    ensures SysOk(name, grace, b)
  {
    var ss, steps :| Leads(name, grace, ss, steps, a, b);
    LeadsOk(name, grace, ss, steps, |steps|);
  }

  /** Any execution can be continued by steps of the controller. */
  lemma {:induction false} ExecutionGoesOn(name: Naming, grace: Time, ss: seq<Sys>, steps: seq<Step>, own: seq<Sys>, ownSteps: seq<Step>, i: nat)
    returns (ss': seq<Sys>, steps': seq<Step>)
    requires IsExecution(name, grace, ss, steps) && IsOwnRun(name, grace, own, ownSteps) && own[0] == ss[|steps|] && i <= |ownSteps|
    ensures IsExecution(name, grace, ss', steps') && ss'[|steps'|] == own[i]
    decreases i
  {
    if i == 0 {
      ss', steps' := ss, steps;
    } else {
      ss', steps' := ExecutionGoesOn(name, grace, ss, steps, own, ownSteps, i - 1);
      assert Took(name, grace, own, ownSteps, i - 1);
      RunExtends(name, grace, ss', steps', ownSteps[i - 1]);
      ss', steps' := ss' + [Next(name, grace, ss'[|steps'|], ownSteps[i - 1])], steps' + [ownSteps[i - 1]];
    }
  }

  /** A transaction of the pass is refused. */
  ghost predicate RaisesAt(name: Naming, grace: Time, s: Sys, step: Step) {
    Enabled(name, grace, s, step) && IsOwn(step) && !s.phase.Idle? && NextPhase(grace, s, step).Idle?
  }

  /** Somewhere on its way from `a` a pass raises. */
  ghost predicate PassRaised(name: Naming, grace: Time, a: Sys) {
    exists s, step :: Reaches(name, grace, a, s) && RaisesAt(name, grace, s, step)
  }

  lemma RaisesHere(name: Naming, grace: Time, a: Sys, s: Sys, step: Step)
    requires Reaches(name, grace, a, s) && RaisesAt(name, grace, s, step)
    ensures PassRaised(name, grace, a)
  {
  }

  lemma RaisesLater(name: Naming, grace: Time, a: Sys, b: Sys)
    requires Reaches(name, grace, a, b) && PassRaised(name, grace, b)
    ensures PassRaised(name, grace, a)
  {
    var s, step :| Reaches(name, grace, b, s) && RaisesAt(name, grace, s, step);
    ReachesOn(name, grace, a, b, s);
  }

  /** From a good state, so from every state of an execution, no pass raises. */
  lemma NoPassRaises(name: Naming, grace: Time, a: Sys)
    requires SysOk(name, grace, a)
    ensures !PassRaised(name, grace, a)
  {
    forall s, step | Reaches(name, grace, a, s) ensures !RaisesAt(name, grace, s, step) {
      ReachesOk(name, grace, a, s);
      if RaisesAt(name, grace, s, step) { StepCompletes(name, grace, s, step); }
    }
  }

  // ---------------------------------------------------------------------------------
  // The engine's call

  lemma {:induction false} RoundsReach(name: Naming, grace: Time, now: Time, jobs: Jobs, v: Validator, db: Db, wid: WorkflowId,
                                       current: map<Text, TaskRow>, specs: seq<ComponentSpec>, at: Time)
    ensures Reaches(name, grace, Sys(db, jobs, InEngine(now, wid)),
                    Sys(ReplaceAll(name, v, db, wid, current, specs, at).db, jobs, InEngine(now, wid)))
    decreases |specs|
  {
    if specs == [] {
      ReachesSelf(name, grace, Sys(db, jobs, InEngine(now, wid)));
    } else {
      var n := |specs| - 1;
      RoundsReach(name, grace, now, jobs, v, db, wid, current, specs[..n], at);
      var p := ReplaceAll(name, v, db, wid, current, specs[..n], at);
      RoundReaches(name, grace, Sys(db, jobs, InEngine(now, wid)), now, jobs, v, p, wid, current, specs[n], at);
    }
  }

  /** One round is one transaction of the engine or none. */
  lemma RoundReaches(name: Naming, grace: Time, a: Sys, now: Time, jobs: Jobs, v: Validator, p: Progress, wid: WorkflowId,
                     current: map<Text, TaskRow>, c: ComponentSpec, at: Time)
    requires Reaches(name, grace, a, Sys(p.db, jobs, InEngine(now, wid)))
    ensures Reaches(name, grace, a, Sys(ReplaceNext(name, v, p, wid, current, c, at).db, jobs, InEngine(now, wid)))
  {
    var d := Validated(v, c);
    if p.ok && d.Some? && Wanted(current, d.value) {
      ReachesNext(name, grace, a, Sys(p.db, jobs, InEngine(now, wid)), EngineReplaces(d.value, at));
    }
  }

  /** A handler that judges static workflows as the built-in one does. */
  ghost predicate HandlesStatic(h: Handler) {
    forall w, s, ts {:trigger h.completion(w, s, ts)} :: VerdictOf(h, w, s, ts) == StaticVerdict(s, ts)
  }

  /** `register_builtin_handlers` registers each kind once: `None` where it raises. */
  function RegisterBuiltIn(r: Registry): Option<Registry> {
    if STATIC_KIND in r.handlers then None else Some(r.(handlers := r.handlers[STATIC_KIND := STATIC]))
  }

  /** After it, static workflows are judged as the machine expects, and all other kinds are as before. */
  lemma BuiltInHandlesStatic(r: Registry)
    requires RegisterBuiltIn(r).Some?
    ensures var handlers := RegisterBuiltIn(r).value.handlers;
      && handlers.Keys == r.handlers.Keys + {STATIC_KIND} && HandlesStatic(handlers[STATIC_KIND])
      && forall kind | kind in r.handlers :: handlers[kind] == r.handlers[kind]
  {
    forall w, s, ts ensures VerdictOf(STATIC, w, s, ts) == StaticVerdict(s, ts) { StaticVerdictOf(w, s, ts); }
  }

  /** The rest of a call, after its loop went through. */
  lemma ConcludeReaches(name: Naming, grace: Time, a: Sys, now: Time, jobs: Jobs, h: Handler, db: Db, wid: WorkflowId, state: State, cursor: nat, at: Time)
    requires wid in db.workflows && (db.workflows[wid].kind == STATIC_KIND ==> HandlesStatic(h))
    requires Reaches(name, grace, a, Sys(db, jobs, InEngine(now, wid)))
    ensures var saved := After(db, SaveState(db, wid, state, cursor, at));
      Reaches(name, grace, a, Sys(Judged(h, saved, wid, state, at), jobs, Sweeping(now)))
  {
    var saved := After(db, SaveState(db, wid, state, cursor, at));
    var verdict := VerdictOf(h, saved.workflows[wid], state, ComponentTasks(saved, wid));
    ReachesNext(name, grace, a, Sys(db, jobs, InEngine(now, wid)), EngineSaves(state, cursor, at));
    JudgeReaches(name, grace, a, now, jobs, h, saved, wid, at);
  }

  lemma JudgeReaches(name: Naming, grace: Time, a: Sys, now: Time, jobs: Jobs, h: Handler, db: Db, wid: WorkflowId, at: Time)
    requires wid in db.workflows && (db.workflows[wid].kind == STATIC_KIND ==> HandlesStatic(h))
    requires Reaches(name, grace, a, Sys(db, jobs, Judging(now, wid)))
    ensures Reaches(name, grace, a, Sys(Judged(h, db, wid, db.workflows[wid].state, at), jobs, Sweeping(now)))
  {
    var row, ts := db.workflows[wid], ComponentTasks(db, wid);
    var verdict := VerdictOf(h, row, row.state, ts);
    assert h.completion(row, row.state, ts) == h.completion(row, row.state, ts);
    ReachesNext(name, grace, a, Sys(db, jobs, Judging(now, wid)), EngineJudges(verdict));
    FinishReaches(name, grace, a, now, jobs, db, wid, verdict, at);
  }

  lemma FinishReaches(name: Naming, grace: Time, a: Sys, now: Time, jobs: Jobs, db: Db, wid: WorkflowId, verdict: Verdict, at: Time)
    requires Reaches(name, grace, a, Sys(db, jobs, Finishing(now, wid, verdict)))
    ensures Reaches(name, grace, a, Sys(Ended(db, wid, verdict, at), jobs, Sweeping(now)))
  {
    ReachesNext(name, grace, a, Sys(db, jobs, Finishing(now, wid, verdict)), EngineFinishes(at));
  }

  /** A call of the engine, finished or not, is a piece of a run of the machine. */
  lemma EngineReaches(name: Naming, grace: Time, a: Sys, now: Time, jobs: Jobs, r: Registry, db: Db, wid: WorkflowId, at: Time)
    requires Intact(name, db) && Reaches(name, grace, a, Sys(db, jobs, Sweeping(now)))
    requires STATIC_KIND in r.handlers ==> HandlesStatic(r.handlers[STATIC_KIND])
    ensures Reaches(name, grace, a, Sys(EngineRun(name, r, db, wid, at), jobs, Sweeping(now)))
  {
    if wid in db.workflows && db.workflows[wid].kind in r.handlers && db.workflows[wid].status.Active? {
      var h := r.handlers[db.workflows[wid].kind];
      ReachesNext(name, grace, a, Sys(db, jobs, Sweeping(now)), PicksWorkflow(wid));
      ActiveReaches(name, grace, a, now, jobs, r.validate, h, db, wid, at);
    }
  }

  lemma ActiveReaches(name: Naming, grace: Time, a: Sys, now: Time, jobs: Jobs, v: Validator, h: Handler, db: Db, wid: WorkflowId, at: Time)
    requires Intact(name, db) && wid in db.workflows && db.workflows[wid].status.Active?
    requires db.workflows[wid].kind == STATIC_KIND ==> HandlesStatic(h)
    requires Reaches(name, grace, a, Sys(db, jobs, InEngine(now, wid)))
    ensures Reaches(name, grace, a, Sys(Reconciled(name, v, h, db, wid, at), jobs, Sweeping(now)))
  {
    RoundsOf(name, v, h, db, wid, at);
    var desired, view := DesiredNow(h, db, wid), Caught(h, db, wid);
    if desired.None? {
      ReachesNext(name, grace, a, Sys(db, jobs, InEngine(now, wid)), EngineRaises);
    } else {
      var p := ReplaceAll(name, v, db, wid, ComponentTasks(db, wid), desired.value, at);
      RoundsReach(name, grace, now, jobs, v, db, wid, ComponentTasks(db, wid), desired.value, at);
      ReachesOn(name, grace, a, Sys(db, jobs, InEngine(now, wid)), Sys(p.db, jobs, InEngine(now, wid)));
      if p.ok {
        PrefixKeeps(name, v, db, wid, ComponentTasks(db, wid), desired.value, at);
        ConcludeReaches(name, grace, a, now, jobs, h, p.db, wid, view.0, view.1, at);
      } else {
        ReachesNext(name, grace, a, Sys(p.db, jobs, InEngine(now, wid)), EngineRaises);
      }
    }
  }
}
