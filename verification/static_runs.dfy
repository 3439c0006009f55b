// The built-in handler under the engine: its runs survive crashes, and the last barrier
// that its reducer remembers is the latest one committed.

module StaticRuns {
  import opened Types
  import opened Tables
  import opened Integrity
  import opened StaticHandler
  import opened Barriers
  import opened Folding
  import opened Crash
  import opened CrashPoints

  const STATIC := Handler(
    (p: Payload) => if ValidPayload(p) then Some(p) else None,
    InitialState,
    ReduceStatic,
    DesiredComponents,
    (w: WorkflowRow, s: State, ts: map<Text, TaskRow>) => CompletionResult(s, ts),
    (w: WorkflowRow, s: State, ts: map<Text, TaskRow>) => FailureReason(ts))

  /** The two verdict functions combine as in `StaticVerdict`. */
  lemma StaticVerdictOf(w: WorkflowRow, s: State, ts: map<Text, TaskRow>)
    ensures VerdictOf(STATIC, w, s, ts) == StaticVerdict(s, ts)
  {
  }

  lemma StaticTimeBlind()
    ensures TimeBlind(STATIC)
  {
    forall w, w', s, ts, ts' | WorkflowAlike(w, w') && ChildrenAlike(ts, ts')
      ensures VerdictOf(STATIC, w, s, ts) == VerdictOf(STATIC, w', s, ts')
    {
      SameStaticVerdict(s, ts, ts');
    }
  }

  lemma SameStaticVerdict(s: State, ts: map<Text, TaskRow>, ts': map<Text, TaskRow>)
    requires ChildrenAlike(ts, ts')
    ensures CompletionResult(s, ts) == CompletionResult(s, ts') && FailureReason(ts) == FailureReason(ts')
  {
    assert forall k | k in ts :: k in ts' && TaskAlike(ts[k], ts'[k]);
    assert FailedKeys(ts) == FailedKeys(ts');
    if AllSucceeded(ts) {
      var k :| k in ts;
      assert k in ts';
      assert (map k | k in ts :: ts[k].result) == (map k | k in ts' :: ts'[k].result);
    }
  }

  /** A valid payload asks for distinct keys. */
  lemma StaticAsksDistinct(db: Db, wid: WorkflowId)
    requires wid in db.workflows && ValidPayload(db.workflows[wid].payload)
    ensures AsksDistinct(STATIC, db, wid)
  {
    var (state, cursor) := Caught(STATIC, db, wid);
    var projected := db.workflows[wid].(state := state, cursor := cursor);
    assert DesiredNow(STATIC, db, wid) == DesiredComponents(projected, state);
  }

  lemma StaticAsksTimeBlind()
    ensures AsksTimeBlind(STATIC)
  {
    forall w, w', s | WorkflowAlike(w, w') ensures STATIC.desired(w, s) == STATIC.desired(w', s) {
      assert DesiredComponents(w, s) == DesiredComponents(w', s);
    }
  }

  /** So crashes of the engine on a static workflow with a valid payload are harmless, wherever a call crashes. */
  lemma StaticCrashesHarmless(name: Naming, v: Validator, db: Db, wid: WorkflowId, crashes: seq<(CrashPoint, Time)>, at: Time, again: Time)
    requires Intact(name, db) && wid in db.workflows && ValidPayload(db.workflows[wid].payload)
    ensures Alike(Reconciled(name, v, STATIC, db, wid, at), Reconciled(name, v, STATIC, AfterCrashes(name, v, STATIC, db, wid, crashes), wid, again))
  {
    StaticTimeBlind();
    StaticAsksTimeBlind();
    StaticAsksDistinct(db, wid);
    CrashesHarmless(name, v, STATIC, db, wid, crashes, at, again);
  }

  // ---------------------------------------------------------------------------------
  // The last barrier

  function LastOf(barriers: seq<int>): Option<int> {
    if barriers == [] then None else Some(barriers[|barriers| - 1])
  }

  lemma {:induction false} FoldKeepsLastBarrier(events: seq<Event>, wid: WorkflowId, payload: Payload, hi: nat)
    ensures LastBarrier(Fold(STATIC, InitialState(payload), EventsBetween(events, wid, 0, hi)))
         == LastOf(BarrierLog(EventsBetween(events, wid, 0, hi), wid))
    decreases |events|
  {
    if events != [] {
      var rest, last := events[..|events| - 1], events[|events| - 1];
      FoldKeepsLastBarrier(rest, wid, payload, hi);
      var es := EventsBetween(rest, wid, 0, hi);
      assert (es + [last])[..|es + [last]| - 1] == es;
    }
  }

  lemma {:induction false} WholeLog(events: seq<Event>, wid: WorkflowId, hi: nat)
    requires LogOk(events) && LastEventId(events) <= hi
    ensures BarrierLog(EventsBetween(events, wid, 0, hi), wid) == BarrierLog(events, wid)
    decreases |events|
  {
    if events != [] {
      var rest, last := events[..|events| - 1], events[|events| - 1];
      LogPrefix(events);
      WholeLog(rest, wid, hi);
      var es := EventsBetween(rest, wid, 0, hi);
      assert (es + [last])[..|es + [last]| - 1] == es;
    }
  }

  /** While one required component keeps its task the last barrier of the whole log, folded, is the latest one. */
  lemma FoldedBarrierIsLatest(name: Naming, dbs: seq<Db>, ops: seq<(Op, Time)>, j: nat, wid: WorkflowId, key: Text, id: TaskId,
                              payload: Payload, barrier: int)
    requires IsHistory(name, dbs, ops) && j <= |ops| && AnchoredUpTo(dbs, j, wid, key, id)
    ensures var events := dbs[j].events;
      var state := Fold(STATIC, InitialState(payload), EventsBetween(events, wid, 0, LastEventId(events)));
      LastBarrier(state) == Some(barrier) <==> IsLatest(dbs[j], wid, barrier)
  {
    var events := dbs[j].events;
    LogIsOk(name, dbs, ops, j);
    FoldKeepsLastBarrier(events, wid, payload, LastEventId(events));
    WholeLog(events, wid, LastEventId(events));
    LatestIsLastAnnounced(name, dbs, ops, j, wid, key, id, barrier);
  }

  /** A cursor with nothing after it has the whole log before it. */
  lemma CursorAtEnd(name: Naming, wid: WorkflowId, ss: seq<Shared>, ms: seq<Move>, i: nat)
    requires IsInterleaving(name, STATIC, wid, ss, ms) && i <= |ms| && wid in ss[i].db.workflows
    requires EventsAfter(ss[i].db.events, wid, ss[i].db.workflows[wid].cursor) == []
    ensures var row, events := ss[i].db.workflows[wid], ss[i].db.events;
      row.state == Fold(STATIC, InitialState(row.payload), EventsBetween(events, wid, 0, LastEventId(events)))
  {
    var row, events := ss[i].db.workflows[wid], ss[i].db.events;
    SavedStateIsFold(name, STATIC, wid, ss, ms, i);
    CursorInLog(name, STATIC, wid, ss, ms, i);
    EventsSplit(events, wid, 0, row.cursor, LastEventId(events));
    var read := EventsBetween(events, wid, 0, row.cursor);
    assert read + [] == read;
    assert STATIC.initial(row.payload) == InitialState(row.payload);
  }

  /**
   * Whatever engines and clients interleave, while one required component keeps its task:
   * when nothing is left to read after the saved cursor, the last barrier in the saved state
   * of a static workflow is the latest barrier committed.
   */
  lemma LastBarrierIsLatest(name: Naming, wid: WorkflowId, ss: seq<Shared>, ms: seq<Move>, i: nat, key: Text, id: TaskId, barrier: int)
    requires IsInterleaving(name, STATIC, wid, ss, ms) && i <= |ms| && wid in ss[i].db.workflows
    requires forall n | 0 <= n <= i :: Anchored(ss[n].db, wid, key, id)
    requires EventsAfter(ss[i].db.events, wid, ss[i].db.workflows[wid].cursor) == []
    ensures LastBarrier(ss[i].db.workflows[wid].state) == Some(barrier) <==> IsLatest(ss[i].db, wid, barrier)
  {
    PlayIsRun(name, STATIC, wid, ss, ms);
    CursorAtEnd(name, wid, ss, ms, i);
    forall n | 0 <= n <= i ensures Anchored(DbsOf(ss)[n], wid, key, id) { assert Anchored(ss[n].db, wid, key, id); }
    FoldedBarrierIsLatest(name, DbsOf(ss), OpsOf(wid, ss, ms), i, wid, key, id, ss[i].db.workflows[wid].payload, barrier);
  }

  lemma LogIsOk(name: Naming, dbs: seq<Db>, ops: seq<(Op, Time)>, j: nat)
    requires IsHistory(name, dbs, ops) && j <= |ops|
    ensures LogOk(dbs[j].events)
  {
    RunKeeps(name, dbs, ops, j, j);
  }

  // ---------------------------------------------------------------------------------
  // The component statuses

  /** Event `i` is the last one of the component. */
  ghost predicate IsLastOf(events: seq<Event>, key: Text, i: int) {
    && 0 <= i < |events| && events[i].componentKey == Some(key)
    && forall j | i < j < |events| :: events[j].componentKey != Some(key)
  }

  lemma LastOfPrefix(events: seq<Event>, key: Text, i: int)
    requires events != [] && events[|events| - 1].componentKey != Some(key)
    ensures IsLastOf(events, key, i) <==> IsLastOf(events[..|events| - 1], key, i)
  {
  }

  /** In the folded state every component that any event names has the kind of its last event, and no other has one. */
  lemma {:induction false} StatusIsLastKind(payload: Payload, events: seq<Event>, key: Text)
    ensures var state := Fold(STATIC, InitialState(payload), events);
      && state.StaticState?
      && (key in state.statuses <==> exists i :: IsLastOf(events, key, i))
      && (forall i | IsLastOf(events, key, i) :: key in state.statuses && state.statuses[key] == events[i].kind)
    decreases |events|
  {
    if events != [] {
      var n := |events| - 1;
      StatusIsLastKind(payload, events[..n], key);
      if events[n].componentKey == Some(key) {
        assert IsLastOf(events, key, n);
        assert forall i | IsLastOf(events, key, i) :: i == n;
      } else {
        forall i ensures IsLastOf(events, key, i) <==> IsLastOf(events[..n], key, i) { LastOfPrefix(events, key, i); }
        assert forall i | IsLastOf(events, key, i) :: events[i] == events[..n][i];
      }
    }
  }
}
