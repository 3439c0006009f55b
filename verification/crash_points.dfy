// All the points at which `WorkflowEngine.reconcile` may crash, any number of times: in its
// loop, and after `save_workflow_state` before the workflow is finished.

module CrashPoints {
  import opened Types
  import opened Tables
  import opened Integrity
  import opened StaticHandler
  import opened Folding
  import opened Crash

  /** After some rounds of the loop, or after the save. */
  datatype CrashPoint = InLoop(rounds: nat) | AfterSave

  /** The tables left by a call that crashed there; a call that raises before leaves what it did. */
  ghost function CrashedAt(name: Naming, v: Validator, h: Handler, db: Db, wid: WorkflowId, point: CrashPoint, at: Time): Db {
    match point
    case InLoop(rounds) => Crashed(name, v, h, db, wid, rounds, at)
    case AfterSave => if wid in db.workflows && db.workflows[wid].status.Active? then Materialized(name, v, h, db, wid, at).db else db
  }

  /** What a handler asks for does not depend on timestamps. */
  ghost predicate AsksTimeBlind(h: Handler) {
    forall w, w', s {:trigger h.desired(w, s), h.desired(w', s)} | WorkflowAlike(w, w') :: h.desired(w, s) == h.desired(w', s)
  }

  // ---------------------------------------------------------------------------------
  // After the save

  /** Nothing is left to read after the events just folded. */
  lemma NothingLeft(events: seq<Event>, wid: WorkflowId, cursor: nat)
    requires LogOk(events)
    ensures EventsAfter(events, wid, CursorAfter(cursor, EventsAfter(events, wid, cursor))) == []
  {
    if cursor <= LastEventId(events) {
      LastOfBetween(events, wid, cursor, LastEventId(events));
    } else {
      NothingBeyond(events, wid, cursor, LastEventId(events));
    }
  }

  /** The workflow row after the save. */
  ghost function SavedRow(h: Handler, db: Db, wid: WorkflowId, at: Time): WorkflowRow
    requires wid in db.workflows
  {
    db.workflows[wid].(state := Caught(h, db, wid).0, cursor := Caught(h, db, wid).1, updatedAt := at)
  }

  /** The tables after the save: those after the loop, with the workflow row saved. */
  ghost predicate SavedFrom(h: Handler, db: Db, p: Db, m: Db, wid: WorkflowId, at: Time) {
    wid in db.workflows && m == p.(workflows := db.workflows[wid := SavedRow(h, db, wid, at)])
  }

  lemma SaveIs(name: Naming, v: Validator, h: Handler, db: Db, wid: WorkflowId, at: Time)
    requires Sound(name, db) && wid in db.workflows && Materialized(name, v, h, db, wid, at).ok
    ensures DesiredNow(h, db, wid).Some?
    ensures var p := ReplaceAll(name, v, db, wid, ComponentTasks(db, wid), DesiredNow(h, db, wid).value, at);
      p.ok && SavedFrom(h, db, p.db, Materialized(name, v, h, db, wid, at).db, wid, at)
  {
    PrefixKeeps(name, v, db, wid, ComponentTasks(db, wid), DesiredNow(h, db, wid).value, at);
  }

  /** A rerun folds nothing more and asks for the same. */
  lemma SavedView(h: Handler, db: Db, p: Db, m: Db, wid: WorkflowId, at: Time)
    requires LogOk(db.events) && p.events == db.events && SavedFrom(h, db, p, m, wid, at)
    ensures wid in m.workflows && Caught(h, m, wid) == Caught(h, db, wid)
    ensures AsksTimeBlind(h) ==> DesiredNow(h, m, wid) == DesiredNow(h, db, wid)
  {
    var row, view := db.workflows[wid], Caught(h, db, wid);
    NothingLeft(db.events, wid, row.cursor);
    var w, w' := row.(state := view.0, cursor := view.1), m.workflows[wid].(state := view.0, cursor := view.1);
    assert WorkflowAlike(w, w');
    assert h.desired(w, view.0) == h.desired(w, view.0) && h.desired(w', view.0) == h.desired(w', view.0);
  }

  /** All that the saved run asked for is there. */
  lemma SavedEach(name: Naming, v: Validator, db: Db, wid: WorkflowId, current: map<Text, TaskRow>, specs: seq<ComponentSpec>, p: Progress, m: Db, at: Time)
    requires Sound(name, db) && DistinctKeys(specs) && ReadFrom(current, db, wid)
    requires p == ReplaceAll(name, v, db, wid, current, specs, at) && p.ok && m.tasks == p.db.tasks && m.components == p.db.components
    ensures forall i | 0 <= i < |specs| :: Settled(v, m, wid, specs[i])
  {
    forall i | 0 <= i < |specs| ensures Settled(v, m, wid, specs[i]) {
      AllSettled(name, v, db, wid, current, specs, at, i);
      SettledThere(v, p.db, m, wid, specs[i]);
    }
  }

  /** So a rerun replaces nothing. */
  lemma SavedReplaces(name: Naming, v: Validator, db: Db, wid: WorkflowId, current: map<Text, TaskRow>, current': map<Text, TaskRow>,
                      specs: seq<ComponentSpec>, p: Progress, m: Db, at: Time, again: Time)
    requires Sound(name, db) && DistinctKeys(specs) && ReadFrom(current, db, wid) && ReadFrom(current', m, wid)
    requires p == ReplaceAll(name, v, db, wid, current, specs, at) && p.ok && m.tasks == p.db.tasks && m.components == p.db.components
    ensures ReplaceAll(name, v, m, wid, current', specs, again) == Progress(m, true)
  {
    SavedEach(name, v, db, wid, current, specs, p, m, at);
    SettledRerun(name, v, m, wid, current', specs, again);
  }

  lemma SavedSettled(name: Naming, v: Validator, db: Db, wid: WorkflowId, specs: seq<ComponentSpec>, p: Progress, m: Db, at: Time, again: Time)
    requires Sound(name, db) && DistinctKeys(specs) && p == ReplaceAll(name, v, db, wid, ComponentTasks(db, wid), specs, at)
    requires p.ok && m.tasks == p.db.tasks && m.components == p.db.components
    ensures ReplaceAll(name, v, m, wid, ComponentTasks(m, wid), specs, again) == Progress(m, true)
  {
    ChildrenReadFrom(db, wid);
    ChildrenReadFrom(m, wid);
    SavedReplaces(name, v, db, wid, ComponentTasks(db, wid), ComponentTasks(m, wid), specs, p, m, at, again);
  }

  lemma SettledThere(v: Validator, p: Db, m: Db, wid: WorkflowId, c: ComponentSpec)
    requires m.tasks == p.tasks && m.components == p.components && Settled(v, p, wid, c)
    ensures Settled(v, m, wid, c)
  {
  }

  /** Saving again what was saved changes a timestamp. */
  lemma SaveAgainAlike(h: Handler, db: Db, p: Db, m: Db, wid: WorkflowId, at: Time, again: Time)
    requires SavedFrom(h, db, p, m, wid, at)
    ensures ProgressAlike(Progress(m, true), SaveAfter(Progress(m, true), wid, Caught(h, db, wid), again))
  {
  }

  /** A call after a crash behind the save saves the same again. */
  lemma SavedRerun(name: Naming, v: Validator, h: Handler, db: Db, wid: WorkflowId, at: Time, again: Time)
    requires Sound(name, db) && LogOk(db.events) && AsksDistinct(h, db, wid) && AsksTimeBlind(h)
    requires wid in db.workflows && Materialized(name, v, h, db, wid, at).ok
    ensures var m := Materialized(name, v, h, db, wid, at);
      wid in m.db.workflows && ProgressAlike(m, Materialized(name, v, h, m.db, wid, again))
      && Caught(h, m.db, wid) == Caught(h, db, wid) && m.db.workflows[wid].status == db.workflows[wid].status
  {
    var m, specs := Materialized(name, v, h, db, wid, at).db, DesiredNow(h, db, wid).value;
    SaveIs(name, v, h, db, wid, at);
    PrefixKeeps(name, v, db, wid, ComponentTasks(db, wid), specs, at);
    var p := ReplaceAll(name, v, db, wid, ComponentTasks(db, wid), specs, at).db;
    SavedView(h, db, p, m, wid, at);
    SavedSettled(name, v, db, wid, specs, ReplaceAll(name, v, db, wid, ComponentTasks(db, wid), specs, at), m, at, again);
    SaveAgainAlike(h, db, p, m, wid, at, again);
  }

  /** A crash after the save and a rerun to the end. */
  lemma SavedCall(name: Naming, v: Validator, h: Handler, db: Db, wid: WorkflowId, crash: Time, again: Time)
    requires Sound(name, db) && LogOk(db.events) && AsksDistinct(h, db, wid) && AsksTimeBlind(h) && TimeBlind(h)
    requires wid in db.workflows && db.workflows[wid].status.Active? && Materialized(name, v, h, db, wid, crash).ok
    ensures Alike(Reconciled(name, v, h, db, wid, crash), Reconciled(name, v, h, Materialized(name, v, h, db, wid, crash).db, wid, again))
  {
    SavedRerun(name, v, h, db, wid, crash, again);
    var m := Materialized(name, v, h, db, wid, crash);
    var m' := Materialized(name, v, h, m.db, wid, again);
    JudgedAlike(h, m.db, m'.db, wid, Caught(h, db, wid).0, crash, again);
  }

  /** A call that raises left what its loop did, so a crash behind it is a crash in the loop. */
  lemma RaisedIsInLoop(name: Naming, v: Validator, h: Handler, db: Db, wid: WorkflowId, at: Time) returns (k: nat)
    requires wid in db.workflows && db.workflows[wid].status.Active? && !Materialized(name, v, h, db, wid, at).ok
    ensures Materialized(name, v, h, db, wid, at).db == Crashed(name, v, h, db, wid, k, at)
  {
    k := 0;
    if DesiredNow(h, db, wid).Some? {
      var specs := DesiredNow(h, db, wid).value;
      k := |specs|;
      assert FirstRounds(specs, k) == specs;
    }
  }

  // ---------------------------------------------------------------------------------
  // One crash, anywhere

  /** What the proof relies on and a crash preserves. */
  ghost predicate Resumable(name: Naming, h: Handler, db: Db, wid: WorkflowId) {
    Sound(name, db) && LogOk(db.events) && AsksDistinct(h, db, wid)
  }

  lemma InLoopResumable(name: Naming, v: Validator, h: Handler, db: Db, wid: WorkflowId, k: nat, at: Time)
    requires Resumable(name, h, db, wid)
    ensures Resumable(name, h, Crashed(name, v, h, db, wid, k, at), wid)
  {
    CrashKeepsView(name, v, h, db, wid, k, at);
  }

  lemma SavedResumable(name: Naming, v: Validator, h: Handler, db: Db, wid: WorkflowId, at: Time)
    requires Resumable(name, h, db, wid) && AsksTimeBlind(h) && wid in db.workflows && Materialized(name, v, h, db, wid, at).ok
    ensures Resumable(name, h, Materialized(name, v, h, db, wid, at).db, wid)
  {
    var specs := DesiredNow(h, db, wid).value;
    SaveIs(name, v, h, db, wid, at);
    PrefixKeeps(name, v, db, wid, ComponentTasks(db, wid), specs, at);
    var p := ReplaceAll(name, v, db, wid, ComponentTasks(db, wid), specs, at).db;
    var m := Materialized(name, v, h, db, wid, at).db;
    SavedView(h, db, p, m, wid, at);
    SavedSound(name, h, db, p, m, wid, at);
  }

  lemma SavedSound(name: Naming, h: Handler, db: Db, p: Db, m: Db, wid: WorkflowId, at: Time)
    requires Sound(name, p) && p.workflows == db.workflows && SavedFrom(h, db, p, m, wid, at)
    ensures Sound(name, m)
  {
  }

  /** The handler may look at the clock where no crash is behind a save. */
  ghost predicate BlindAt(h: Handler, point: CrashPoint) {
    point.AfterSave? ==> AsksTimeBlind(h)
  }

  lemma CrashAnywhere(name: Naming, v: Validator, h: Handler, db: Db, wid: WorkflowId, point: CrashPoint, crash: Time, at: Time, again: Time)
    requires Resumable(name, h, db, wid) && TimeBlind(h) && BlindAt(h, point)
    ensures var d := CrashedAt(name, v, h, db, wid, point, crash);
      Resumable(name, h, d, wid) && Alike(Reconciled(name, v, h, db, wid, at), Reconciled(name, v, h, d, wid, again))
  {
    if point.InLoop? {
      InLoopCrash(name, v, h, db, wid, point.rounds, crash, at, again);
    } else if wid in db.workflows && db.workflows[wid].status.Active? {
      if Materialized(name, v, h, db, wid, crash).ok {
        SavedCrash(name, v, h, db, wid, crash, at, again);
      } else {
        var k := RaisedIsInLoop(name, v, h, db, wid, crash);
        InLoopCrash(name, v, h, db, wid, k, crash, at, again);
      }
    } else {
      assert Reconciled(name, v, h, db, wid, at) == db == Reconciled(name, v, h, db, wid, again);
    }
  }

  lemma InLoopCrash(name: Naming, v: Validator, h: Handler, db: Db, wid: WorkflowId, k: nat, crash: Time, at: Time, again: Time)
    requires Resumable(name, h, db, wid) && TimeBlind(h)
    ensures var d := Crashed(name, v, h, db, wid, k, crash);
      Resumable(name, h, d, wid) && Alike(Reconciled(name, v, h, db, wid, at), Reconciled(name, v, h, d, wid, again))
  {
    InLoopResumable(name, v, h, db, wid, k, crash);
    CrashedCall(name, v, h, db, wid, k, crash, at, again);
  }

  lemma SavedCrash(name: Naming, v: Validator, h: Handler, db: Db, wid: WorkflowId, crash: Time, at: Time, again: Time)
    requires Resumable(name, h, db, wid) && TimeBlind(h) && AsksTimeBlind(h)
    requires wid in db.workflows && db.workflows[wid].status.Active? && Materialized(name, v, h, db, wid, crash).ok
    ensures var d := Materialized(name, v, h, db, wid, crash).db;
      Resumable(name, h, d, wid) && Alike(Reconciled(name, v, h, db, wid, at), Reconciled(name, v, h, d, wid, again))
  {
    SavedResumable(name, v, h, db, wid, crash);
    UninterruptedAlike(name, v, h, db, wid, at, crash);
    SavedCall(name, v, h, db, wid, crash, again);
    AlikeTransitive(Reconciled(name, v, h, db, wid, at), Reconciled(name, v, h, db, wid, crash),
                    Reconciled(name, v, h, Materialized(name, v, h, db, wid, crash).db, wid, again));
  }

  /** Two uninterrupted calls at different times. */
  lemma UninterruptedAlike(name: Naming, v: Validator, h: Handler, db: Db, wid: WorkflowId, at: Time, again: Time)
    requires Sound(name, db) && AsksDistinct(h, db, wid) && TimeBlind(h)
    ensures Alike(Reconciled(name, v, h, db, wid, at), Reconciled(name, v, h, db, wid, again))
  {
    NoRounds(name, v, h, db, wid, at);
    CrashedCall(name, v, h, db, wid, 0, at, at, again);
  }

  lemma NoRounds(name: Naming, v: Validator, h: Handler, db: Db, wid: WorkflowId, at: Time)
    ensures Crashed(name, v, h, db, wid, 0, at) == db
  {
    if wid in db.workflows && DesiredNow(h, db, wid).Some? { assert DesiredNow(h, db, wid).value[..0] == []; }
  }

  // ---------------------------------------------------------------------------------
  // Any number of crashes

  /** The tables after crashes of several calls in a row, each at some point and at some time. */
  ghost function AfterCrashes(name: Naming, v: Validator, h: Handler, db: Db, wid: WorkflowId, crashes: seq<(CrashPoint, Time)>): Db
    decreases |crashes|
  {
    if crashes == [] then db
    else AfterCrashes(name, v, h, CrashedAt(name, v, h, db, wid, crashes[0].0, crashes[0].1), wid, crashes[1..])
  }

  /** The tables behind a number of crashes are where one crash after the other leads. */
  lemma {:induction false} CrashesAreTrace(name: Naming, v: Validator, h: Handler, wid: WorkflowId, crashes: seq<(CrashPoint, Time)>, dbs: seq<Db>)
    requires |dbs| == |crashes| + 1
    requires forall i | 0 <= i < |crashes| :: dbs[i + 1] == CrashedAt(name, v, h, dbs[i], wid, crashes[i].0, crashes[i].1)
    ensures AfterCrashes(name, v, h, dbs[0], wid, crashes) == dbs[|crashes|]
    decreases |crashes|
  {
    if crashes != [] {
      assert forall i | 0 <= i < |crashes| - 1 :: dbs[1..][i + 1] == dbs[i + 2] && crashes[1..][i] == crashes[i + 1];
      CrashesAreTrace(name, v, h, wid, crashes[1..], dbs[1..]);
    }
  }

  /**
   * However often calls crash, in their loops or behind their saves, the call that gets
   * through leaves the tables that a single uninterrupted one would have left, up to
   * timestamps. The verdicts must not look at timestamps; what the handler asks for must not
   * either where a call crashes behind its save.
   */
  lemma {:induction false} CrashesHarmless(name: Naming, v: Validator, h: Handler, db: Db, wid: WorkflowId, crashes: seq<(CrashPoint, Time)>, at: Time, again: Time)
    requires Resumable(name, h, db, wid) && TimeBlind(h) && forall c | c in crashes :: BlindAt(h, c.0)
    ensures Alike(Reconciled(name, v, h, db, wid, at), Reconciled(name, v, h, AfterCrashes(name, v, h, db, wid, crashes), wid, again))
    decreases |crashes|
  {
    if crashes == [] {
      UninterruptedAlike(name, v, h, db, wid, at, again);
    } else {
      var (point, crash) := crashes[0];
      assert BlindAt(h, crashes[0].0);
      var d := CrashedAt(name, v, h, db, wid, point, crash);
      CrashAnywhere(name, v, h, db, wid, point, crash, at, again);
      CrashesHarmless(name, v, h, d, wid, crashes[1..], again, again);
      AlikeTransitive(Reconciled(name, v, h, db, wid, at), Reconciled(name, v, h, d, wid, again),
                      Reconciled(name, v, h, AfterCrashes(name, v, h, d, wid, crashes[1..]), wid, again));
    }
  }
}
