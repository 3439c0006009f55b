// `WorkflowEngine.reconcile` is a sequence of the moves that folding.dfy interleaves, so
// what holds of every interleaving holds of the engine's code.

module Interleave {
  import opened Types
  import opened Tables
  import opened Integrity
  import opened StaticHandler
  import opened Folding
  import opened Crash
  import opened Engine

  /** Some moves lead from one state to the other. */
  ghost predicate Plays(name: Naming, h: Handler, wid: WorkflowId, a: Shared, b: Shared) {
    exists ss, ms :: PlayLeads(name, h, wid, ss, ms, a, b)
  }

  ghost predicate PlayLeads(name: Naming, h: Handler, wid: WorkflowId, ss: seq<Shared>, ms: seq<Move>, a: Shared, b: Shared) {
    IsPlay(name, h, wid, ss, ms) && ss[0] == a && ss[|ms|] == b
  }

  lemma PlaysSelf(name: Naming, h: Handler, wid: WorkflowId, a: Shared)
    ensures Plays(name, h, wid, a, a)
  {
    assert PlayLeads(name, h, wid, [a], [], a, a);
  }

  lemma PlaysNext(name: Naming, h: Handler, wid: WorkflowId, a: Shared, b: Shared, m: Move)
    requires Plays(name, h, wid, a, b) && Allowed(h, wid, b, m)
    ensures Plays(name, h, wid, a, Moved(name, h, wid, b, m))
  {
    var ss, ms :| PlayLeads(name, h, wid, ss, ms, a, b);
    var ss', ms' := ss + [Moved(name, h, wid, b, m)], ms + [m];
    forall i | 0 <= i < |ms'| ensures DidMove(name, h, wid, ss', ms', i) {
      if i < |ms| { assert DidMove(name, h, wid, ss, ms, i); }
    }
    assert PlayLeads(name, h, wid, ss', ms', a, Moved(name, h, wid, b, m));
  }

  lemma {:induction false} PlayOk(name: Naming, h: Handler, wid: WorkflowId, ss: seq<Shared>, ms: seq<Move>, i: nat)
    requires IsPlay(name, h, wid, ss, ms) && SharedOk(name, h, wid, ss[0]) && i <= |ms|
    ensures SharedOk(name, h, wid, ss[i])
    decreases i
  {
    if i > 0 {
      PlayOk(name, h, wid, ss, ms, i - 1);
      assert DidMove(name, h, wid, ss, ms, i - 1);
      MoveOk(name, h, wid, ss[i - 1], ms[i - 1]);
    }
  }

  // ---------------------------------------------------------------------------------
  // The call as moves

  lemma {:induction false} RoundsPlay(name: Naming, h: Handler, a: Shared, engines: map<nat, Local>, v: Validator, db: Db, wid: WorkflowId,
                                      current: map<Text, TaskRow>, specs: seq<ComponentSpec>, at: Time)
    requires Plays(name, h, wid, a, Shared(db, engines))
    ensures Plays(name, h, wid, a, Shared(ReplaceAll(name, v, db, wid, current, specs, at).db, engines))
    decreases |specs|
  {
    if specs != [] {
      var n := |specs| - 1;
      RoundsPlay(name, h, a, engines, v, db, wid, current, specs[..n], at);
      RoundPlays(name, h, a, engines, v, ReplaceAll(name, v, db, wid, current, specs[..n], at), wid, current, specs[n], at);
    }
  }

  lemma RoundPlays(name: Naming, h: Handler, a: Shared, engines: map<nat, Local>, v: Validator, p: Progress, wid: WorkflowId,
                   current: map<Text, TaskRow>, c: ComponentSpec, at: Time)
    requires Plays(name, h, wid, a, Shared(p.db, engines))
    ensures Plays(name, h, wid, a, Shared(ReplaceNext(name, v, p, wid, current, c, at).db, engines))
  {
    var d := Validated(v, c);
    if p.ok && d.Some? && Wanted(current, d.value) {
      PlaysNext(name, h, wid, a, Shared(p.db, engines), Others(OpReplace(wid, d.value), at));
    }
  }

  /** The engine has read the workflow and folded the new events. */
  lemma CatchesUp(name: Naming, h: Handler, a: Shared, s: Shared, wid: WorkflowId, e: nat)
    requires Plays(name, h, wid, a, s) && wid in s.db.workflows
    ensures Plays(name, h, wid, a, Shared(s.db, s.engines[e := Local(Caught(h, s.db, wid).0, Caught(h, s.db, wid).1)]))
  {
    var row := s.db.workflows[wid];
    var read := Shared(s.db, s.engines[e := Local(row.state, row.cursor)]);
    PlaysNext(name, h, wid, a, s, Reads(e));
    PlaysNext(name, h, wid, a, read, Folds(e));
    var folded := Local(Caught(h, s.db, wid).0, Caught(h, s.db, wid).1);
    assert read.engines[e := folded] == s.engines[e := folded];
  }

  lemma GivesUpPlays(name: Naming, h: Handler, a: Shared, db: Db, engines: map<nat, Local>, wid: WorkflowId, e: nat, l: Local)
    requires e !in engines && Plays(name, h, wid, a, Shared(db, engines[e := l]))
    ensures Plays(name, h, wid, a, Shared(db, engines))
  {
    PlaysNext(name, h, wid, a, Shared(db, engines[e := l]), GivesUp(e));
    assert engines[e := l] - {e} == engines;
  }

  lemma EndPlays(name: Naming, h: Handler, a: Shared, db: Db, engines: map<nat, Local>, wid: WorkflowId, verdict: Verdict, at: Time)
    requires Plays(name, h, wid, a, Shared(db, engines))
    ensures Plays(name, h, wid, a, Shared(Ended(db, wid, verdict, at), engines))
  {
    match verdict
    case Undecided =>
    case Completed(result) => PlaysNext(name, h, wid, a, Shared(db, engines), Others(OpFinish(wid, WfSucceeded, Some(result), None), at));
    case Broken(reason) => PlaysNext(name, h, wid, a, Shared(db, engines), Others(OpFinish(wid, WfFailed, None, Some(reason)), at));
  }

  lemma LocalGone(engines: map<nat, Local>, e: nat, l: Local)
    requires e !in engines
    ensures engines[e := l] - {e} == engines
  {
  }

  lemma SavedPlays(name: Naming, h: Handler, a: Shared, db: Db, engines: map<nat, Local>, wid: WorkflowId, e: nat, l: Local, at: Time)
    requires e !in engines && Plays(name, h, wid, a, Shared(db, engines[e := l]))
    ensures Plays(name, h, wid, a, Shared(After(db, SaveState(db, wid, l.state, l.cursor, at)), engines))
  {
    PlaysNext(name, h, wid, a, Shared(db, engines[e := l]), Saves(e, at));
    LocalGone(engines, e, l);
  }

  lemma JudgedPlays(name: Naming, h: Handler, a: Shared, db: Db, engines: map<nat, Local>, wid: WorkflowId, state: State, at: Time)
    requires wid in db.workflows && Plays(name, h, wid, a, Shared(db, engines))
    ensures Plays(name, h, wid, a, Shared(Judged(h, db, wid, state, at), engines))
  {
    EndPlays(name, h, a, db, engines, wid, VerdictOf(h, db.workflows[wid], state, ComponentTasks(db, wid)), at);
  }

  lemma SavePlays(name: Naming, h: Handler, a: Shared, db: Db, engines: map<nat, Local>, wid: WorkflowId, e: nat, state: State, cursor: nat, at: Time)
    requires e !in engines && wid in db.workflows && Plays(name, h, wid, a, Shared(db, engines[e := Local(state, cursor)]))
    ensures Plays(name, h, wid, a, Shared(Judged(h, After(db, SaveState(db, wid, state, cursor, at)), wid, state, at), engines))
  {
    SavedPlays(name, h, a, db, engines, wid, e, Local(state, cursor), at);
    JudgedPlays(name, h, a, After(db, SaveState(db, wid, state, cursor, at)), engines, wid, state, at);
  }

  /** A call of `reconcile`, finished or not, is a sequence of moves of one engine `e`. */
  lemma ReconciledPlays(name: Naming, v: Validator, h: Handler, a: Shared, s: Shared, wid: WorkflowId, e: nat, at: Time)
    requires Intact(name, s.db) && e !in s.engines && Plays(name, h, wid, a, s)
    ensures Plays(name, h, wid, a, Shared(Reconciled(name, v, h, s.db, wid, at), s.engines))
  {
    if wid in s.db.workflows && s.db.workflows[wid].status.Active? {
      RoundsOf(name, v, h, s.db, wid, at);
      CatchesUp(name, h, a, s, wid, e);
      var desired, view := DesiredNow(h, s.db, wid), Caught(h, s.db, wid);
      var l := Local(view.0, view.1);
      if desired.None? {
        GivesUpPlays(name, h, a, s.db, s.engines, wid, e, l);
      } else {
        var p := ReplaceAll(name, v, s.db, wid, ComponentTasks(s.db, wid), desired.value, at);
        RoundsPlay(name, h, a, s.engines[e := l], v, s.db, wid, ComponentTasks(s.db, wid), desired.value, at);
        if p.ok {
          SavePlays(name, h, a, p.db, s.engines, wid, e, view.0, view.1, at);
        } else {
          GivesUpPlays(name, h, a, p.db, s.engines, wid, e, l);
        }
      }
    }
  }

  /** An engine's call continues any interleaving in which its number is free. */
  lemma CallContinues(name: Naming, v: Validator, h: Handler, wid: WorkflowId, ss: seq<Shared>, ms: seq<Move>, e: nat, at: Time)
    requires IsInterleaving(name, h, wid, ss, ms) && e !in ss[|ms|].engines
    ensures exists ss', ms' ::
      && IsInterleaving(name, h, wid, ss', ms')
      && ss'[|ms'|] == Shared(Reconciled(name, v, h, ss[|ms|].db, wid, at), ss[|ms|].engines)
  {
    InterleavingOk(name, h, wid, ss, ms, |ms|);
    assert PlayLeads(name, h, wid, ss, ms, ss[0], ss[|ms|]);
    ReconciledPlays(name, v, h, ss[0], ss[|ms|], wid, e, at);
    var ss', ms' :| PlayLeads(name, h, wid, ss', ms', ss[0], Shared(Reconciled(name, v, h, ss[|ms|].db, wid, at), ss[|ms|].engines));
    assert IsInterleaving(name, h, wid, ss', ms');
  }

  /**
   * So a call of `reconcile` leaves as saved state the fold of the reducer up to the saved
   * cursor, whatever handler is registered for the workflow's kind.
   */
  lemma EngineSavesFold(name: Naming, r: Registry, db: Db, wid: WorkflowId, at: Time)
    requires Intact(name, db) && wid in db.workflows && db.workflows[wid].kind in r.handlers
    requires SavedOk(r.handlers[db.workflows[wid].kind], db, wid)
    ensures SavedOk(r.handlers[db.workflows[wid].kind], EngineRun(name, r, db, wid, at), wid)
  {
    var h, s := r.handlers[db.workflows[wid].kind], Shared(db, map[]);
    PlaysSelf(name, h, wid, s);
    ReconciledPlays(name, r.validate, h, s, s, wid, 0, at);
    var ss, ms :| PlayLeads(name, h, wid, ss, ms, s, Shared(Reconciled(name, r.validate, h, db, wid, at), s.engines));
    PlayOk(name, h, wid, ss, ms, |ms|);
  }
}
