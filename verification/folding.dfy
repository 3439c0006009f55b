// Event-sourced workflows: whatever engines interleave on a workflow, its saved state is
// the fold of the handler's reducer over exactly the events up to its saved cursor.

module Folding {
  import opened Types
  import opened Tables
  import opened Integrity
  import opened StaticHandler
  import opened Barriers

  /** A workflow handler: any deterministic functions; `validate` and `desired` are `None` where they raise. */
  datatype Handler = Handler(
    validate: Payload -> Option<Payload>,
    initial: Payload -> State,
    reduce: (State, Event) -> State,
    desired: (WorkflowRow, State) -> Option<seq<ComponentSpec>>,
    completion: (WorkflowRow, State, map<Text, TaskRow>) -> Option<Outcome>,
    failure: (WorkflowRow, State, map<Text, TaskRow>) -> Option<Text>)

  function Fold(h: Handler, state: State, events: seq<Event>): State {
    if events == [] then state
    else h.reduce(Fold(h, state, events[..|events| - 1]), events[|events| - 1])
  }

  lemma {:induction false} FoldSplit(h: Handler, state: State, a: seq<Event>, b: seq<Event>)
    ensures Fold(h, state, a + b) == Fold(h, Fold(h, state, a), b)
    decreases |b|
  {
    if b == [] {
      assert a + b == a;
    } else {
      FoldSplit(h, state, a, b[..|b| - 1]);
      assert (a + b)[..|a + b| - 1] == a + b[..|b| - 1];
    }
  }

  // ---------------------------------------------------------------------------------
  // Reading the log by cursor

  lemma LogPrefix(events: seq<Event>)
    requires LogOk(events) && events != []
    ensures LogOk(events[..|events| - 1]) && LastEventId(events[..|events| - 1]) < LastEventId(events)
  {
  }

  lemma {:induction false} NothingBeyond(events: seq<Event>, wid: WorkflowId, lo: nat, hi: nat)
    requires LogOk(events) && LastEventId(events) <= lo
    ensures EventsBetween(events, wid, lo, hi) == []
    decreases |events|
  {
    if events != [] {
      LogPrefix(events);
      NothingBeyond(events[..|events| - 1], wid, lo, hi);
    }
  }

  /** Reading up to a cursor and then on from it is reading all. */
  lemma {:induction false} EventsSplit(events: seq<Event>, wid: WorkflowId, lo: nat, mid: nat, hi: nat)
    requires LogOk(events) && lo <= mid <= hi
    ensures EventsBetween(events, wid, lo, mid) + EventsBetween(events, wid, mid, hi) == EventsBetween(events, wid, lo, hi)
    decreases |events|
  {
    if events != [] {
      var rest, last := events[..|events| - 1], events[|events| - 1];
      LogPrefix(events);
      EventsSplit(rest, wid, lo, mid, hi);
      if last.eventId <= mid { NothingBeyond(rest, wid, mid, hi); }
    }
  }

  /** A log that only grows never changes what lies below an old last id. */
  lemma {:induction false} EventsStable(events: seq<Event>, events': seq<Event>, wid: WorkflowId, lo: nat, hi: nat)
    requires LogOk(events') && events <= events' && hi <= LastEventId(events)
    ensures EventsBetween(events', wid, lo, hi) == EventsBetween(events, wid, lo, hi)
    decreases |events'|
  {
    if |events'| > |events| {
      LogPrefix(events');
      assert events <= events'[..|events'| - 1];
      assert events != [] ==> events[|events| - 1] == events'[|events| - 1];
      EventsStable(events, events'[..|events'| - 1], wid, lo, hi);
    } else {
      assert events == events';
    }
  }

  lemma {:induction false} BetweenIn(events: seq<Event>, wid: WorkflowId, lo: nat, hi: nat, e: Event)
    requires LogOk(events) && e in EventsBetween(events, wid, lo, hi)
    ensures e in events && lo < e.eventId <= hi && e.eventId <= LastEventId(events)
    decreases |events|
  {
    LogPrefix(events);
    if e in EventsBetween(events[..|events| - 1], wid, lo, hi) { BetweenIn(events[..|events| - 1], wid, lo, hi, e); }
  }

  /** The cursor after the events read. */
  function CursorAfter(cursor: nat, events: seq<Event>): nat {
    if events == [] then cursor else events[|events| - 1].eventId
  }

  /** The last event read is the last there is up to the log's end. */
  lemma {:induction false} LastOfBetween(events: seq<Event>, wid: WorkflowId, lo: nat, hi: nat)
    requires LogOk(events) && lo <= hi
    ensures var es := EventsBetween(events, wid, lo, hi);
      && lo <= CursorAfter(lo, es) <= hi
      && EventsBetween(events, wid, CursorAfter(lo, es), hi) == []
      && EventsBetween(events, wid, lo, CursorAfter(lo, es)) == es
    decreases |events|
  {
    var es := EventsBetween(events, wid, lo, hi);
    if events != [] {
      var rest, last := events[..|events| - 1], events[|events| - 1];
      LogPrefix(events);
      LastOfBetween(rest, wid, lo, hi);
      if last.workflowId == wid && lo < last.eventId <= hi {
        NothingBeyond(rest, wid, last.eventId, hi);
        EventsSplit(rest, wid, lo, last.eventId, hi);
      } else if es != [] {
        BetweenIn(rest, wid, lo, hi, es[|es| - 1]);
      }
    }
  }

  /** Reading after a cursor and folding lands on the fold up to the new cursor. */
  lemma FoldOn(h: Handler, payload: Payload, events: seq<Event>, wid: WorkflowId, state: State, cursor: nat)
    requires LogOk(events) && cursor <= LastEventId(events)
    requires state == Fold(h, h.initial(payload), EventsBetween(events, wid, 0, cursor))
    ensures var es := EventsAfter(events, wid, cursor);
      && cursor <= CursorAfter(cursor, es) <= LastEventId(events)
      && Fold(h, state, es) == Fold(h, h.initial(payload), EventsBetween(events, wid, 0, CursorAfter(cursor, es)))
      && EventsAfter(events, wid, CursorAfter(cursor, es)) == []
  {
    var es := EventsAfter(events, wid, cursor);
    LastOfBetween(events, wid, cursor, LastEventId(events));
    EventsSplit(events, wid, 0, cursor, CursorAfter(cursor, es));
    FoldSplit(h, h.initial(payload), EventsBetween(events, wid, 0, cursor), es);
  }

  // ---------------------------------------------------------------------------------
  // Reading and folding told from scratch

  /** `es` are the events of the workflow behind the cursor, each once, oldest first. */
  ghost predicate IsReading(events: seq<Event>, wid: WorkflowId, after: nat, es: seq<Event>) {
    && (forall e :: e in es <==> e in events && e.workflowId == wid && e.eventId > after)
    && (forall i, j | 0 <= i < j < |es| :: es[i].eventId < es[j].eventId)
  }

  lemma {:induction false} BetweenReads(events: seq<Event>, wid: WorkflowId, lo: nat, hi: nat)
    requires LogOk(events) && LastEventId(events) <= hi
    ensures IsReading(events, wid, lo, EventsBetween(events, wid, lo, hi))
    decreases |events|
  {
    if events != [] {
      var rest, last := events[..|events| - 1], events[|events| - 1];
      LogPrefix(events);
      BetweenReads(rest, wid, lo, hi);
      var es := EventsBetween(rest, wid, lo, hi);
      assert events == rest + [last];
      forall e | e in es ensures e.eventId < last.eventId { BetweenIn(rest, wid, lo, hi, e); }
    }
  }

  /** `get_workflow_events` reads exactly these. */
  lemma EventsAfterExact(events: seq<Event>, wid: WorkflowId, after: nat, es: seq<Event>)
    requires LogOk(events)
    ensures es == EventsAfter(events, wid, after) <==> IsReading(events, wid, after, es)
  {
    BetweenReads(events, wid, after, LastEventId(events));
    if IsReading(events, wid, after, es) { ReadingUnique(events, wid, after, es, EventsAfter(events, wid, after)); }
  }

  lemma {:induction false} ReadingUnique(events: seq<Event>, wid: WorkflowId, after: nat, a: seq<Event>, b: seq<Event>)
    requires IsReading(events, wid, after, a) && IsReading(events, wid, after, b)
    ensures a == b
  {
    SameRising(a, b);
  }

  lemma {:induction false} SameRising(a: seq<Event>, b: seq<Event>)
    requires forall e :: e in a <==> e in b
    requires forall i, j | 0 <= i < j < |a| :: a[i].eventId < a[j].eventId
    requires forall i, j | 0 <= i < j < |b| :: b[i].eventId < b[j].eventId
    ensures a == b
    decreases |a|
  {
    SameEmpty(a, b);
    if a != [] {
      assert a[0] in b && b[0] in a;
      assert a[0] == b[0];
      forall e ensures e in a[1..] <==> e in b[1..] {
        TailIn(a, e);
        TailIn(b, e);
      }
      SameRising(a[1..], b[1..]);
    }
  }

  lemma SameEmpty(a: seq<Event>, b: seq<Event>)
    requires forall e :: e in a <==> e in b
    ensures a == [] <==> b == []
  {
    if a != [] { assert a[0] in a; }
    if b != [] { assert b[0] in b; }
  }

  lemma TailIn(a: seq<Event>, e: Event)
    requires a != [] && forall i, j | 0 <= i < j < |a| :: a[i].eventId < a[j].eventId
    ensures e in a[1..] <==> e in a && e != a[0]
  {
    if e in a && e != a[0] {
      var i :| 0 <= i < |a| && a[i] == e;
      assert a[1..][i - 1] == e;
    }
  }

  /** The states that the reducer goes through, one event at a time. */
  ghost predicate IsTrace(h: Handler, start: State, es: seq<Event>, states: seq<State>) {
    && |states| == |es| + 1 && states[0] == start
    && forall i | 0 <= i < |es| :: states[i + 1] == h.reduce(states[i], es[i])
  }

  /** A fold is where the reducer ends. */
  lemma {:induction false} FoldIsTrace(h: Handler, start: State, es: seq<Event>, states: seq<State>)
    requires IsTrace(h, start, es, states)
    ensures states[|es|] == Fold(h, start, es)
    decreases |es|
  {
    if es != [] {
      var n := |es| - 1;
      assert forall i | 0 <= i < n :: es[..n][i] == es[i] && states[..n + 1][i + 1] == states[i + 1];
      FoldIsTrace(h, start, es[..n], states[..n + 1]);
    }
  }

  lemma {:induction false} TraceExists(h: Handler, start: State, es: seq<Event>) returns (states: seq<State>)
    ensures IsTrace(h, start, es, states)
    decreases |es|
  {
    if es == [] {
      states := [start];
    } else {
      var n := |es| - 1;
      states := TraceExists(h, start, es[..n]);
      assert forall i | 0 <= i < n :: states[i + 1] == h.reduce(states[i], es[..n][i]);
      states := states + [h.reduce(states[n], es[n])];
    }
  }

  lemma TaskEventsGrow(events: seq<Event>, events': seq<Event>)
    requires TaskEventsOnly(events, events')
    ensures events <= events'
  {
  }

  lemma CommitGrows(name: Naming, db: Db, op: Op, at: Time)
    requires op.OpCommit?
    ensures db.events <= Apply(name, db, op, at).events
  {
  }

  /** Transactions only append to the log. */
  lemma LogGrows(name: Naming, db: Db, op: Op, at: Time)
    requires Intact(name, db)
    ensures db.events <= Apply(name, db, op, at).events && LogOk(Apply(name, db, op, at).events)
  {
    ApplyKeeps(name, db, op, at);
    if op.OpCommit? { CommitGrows(name, db, op, at); } else { TaskEventsGrow(db.events, Apply(name, db, op, at).events); }
  }

  // ---------------------------------------------------------------------------------
  // Several engines on one workflow

  /** The local variables of an engine at work: what it has folded so far. */
  datatype Local = Local(state: State, cursor: nat)

  datatype Shared = Shared(db: Db, engines: map<nat, Local>)

  datatype Move =
    | Reads(e: nat)
    | Folds(e: nat)
    | Saves(e: nat, at: Time)
    | GivesUp(e: nat)
    | Others(op: Op, at: Time)

  /** Engines create the workflow from the handler and save only what they folded. */
  ghost predicate Allowed(h: Handler, wid: WorkflowId, s: Shared, m: Move) {
    match m
    case Reads(_) => wid in s.db.workflows
    case Folds(e) => e in s.engines
    case Saves(e, _) => e in s.engines
    case GivesUp(e) => e in s.engines
    case Others(op, _) =>
      && (op.OpSaveState? ==> op.wid != wid)
      && (op.OpSubmitWorkflow? && op.wfSpec.workflowId == wid ==> op.initial == h.initial(op.wfSpec.payload))
  }

  ghost function Moved(name: Naming, h: Handler, wid: WorkflowId, s: Shared, m: Move): Shared {
    match m
    case Reads(e) =>
      if wid in s.db.workflows then s.(engines := s.engines[e := Local(s.db.workflows[wid].state, s.db.workflows[wid].cursor)]) else s
    case Folds(e) =>
      if e in s.engines then
        var es := EventsAfter(s.db.events, wid, s.engines[e].cursor);
        s.(engines := s.engines[e := Local(Fold(h, s.engines[e].state, es), CursorAfter(s.engines[e].cursor, es))])
      else s
    case Saves(e, at) =>
      if e in s.engines then
        Shared(Apply(name, s.db, OpSaveState(wid, s.engines[e].state, s.engines[e].cursor), at), s.engines - {e})
      else s
    case GivesUp(e) => s.(engines := s.engines - {e})
    case Others(op, at) => s.(db := Apply(name, s.db, op, at))
  }

  /** A state and cursor that belong together. */
  ghost predicate IsFold(h: Handler, db: Db, wid: WorkflowId, state: State, cursor: nat) {
    && wid in db.workflows && cursor <= LastEventId(db.events)
    && state == Fold(h, h.initial(db.workflows[wid].payload), EventsBetween(db.events, wid, 0, cursor))
  }

  ghost predicate SavedOk(h: Handler, db: Db, wid: WorkflowId) {
    wid in db.workflows ==> IsFold(h, db, wid, db.workflows[wid].state, db.workflows[wid].cursor)
  }

  ghost predicate SharedOk(name: Naming, h: Handler, wid: WorkflowId, s: Shared) {
    && Intact(name, s.db) && SavedOk(h, s.db, wid)
    && forall e | e in s.engines :: IsFold(h, s.db, wid, s.engines[e].state, s.engines[e].cursor)
  }

  /** What was a fold stays one while the log grows. */
  lemma FoldStays(h: Handler, db: Db, db': Db, wid: WorkflowId, state: State, cursor: nat)
    requires IsFold(h, db, wid, state, cursor) && LogOk(db'.events) && db.events <= db'.events
    requires wid in db'.workflows && db'.workflows[wid].payload == db.workflows[wid].payload
    ensures IsFold(h, db', wid, state, cursor)
  {
    EventsStable(db.events, db'.events, wid, 0, cursor);
    if db.events != [] { assert db'.events[|db.events| - 1] == db.events[|db.events| - 1]; }
  }

  /** The workflow keeps its payload, its state and its cursor; a new one starts at the beginning. */
  ghost predicate RowKept(h: Handler, db: Db, db': Db, wid: WorkflowId) {
    if wid in db.workflows then
      var row := db.workflows[wid];
      wid in db'.workflows && db'.workflows[wid] == row.(status := db'.workflows[wid].status, result := db'.workflows[wid].result,
        lastError := db'.workflows[wid].lastError, updatedAt := db'.workflows[wid].updatedAt, completedAt := db'.workflows[wid].completedAt)
    else
      wid in db'.workflows ==> db'.workflows[wid].state == h.initial(db'.workflows[wid].payload) && db'.workflows[wid].cursor == 0
  }

  lemma SubmitRow(name: Naming, h: Handler, db: Db, wid: WorkflowId, spec: WorkflowSpec, specs: seq<ComponentSpec>, initial: State, at: Time)
    requires Intact(name, db) && (spec.workflowId == wid ==> initial == h.initial(spec.payload))
    ensures RowKept(h, db, After(db, SubmitWorkflow(name, db, spec, specs, initial, at)), wid)
  {
    if SubmitWorkflow(name, db, spec, specs, initial, at).Ok? { SubmitWorkflowOk(name, db, spec, specs, initial, at); }
  }

  lemma SameRows(name: Naming, h: Handler, db: Db, wid: WorkflowId, op: Op, at: Time)
    requires Intact(name, db) && !op.OpSubmitWorkflow? && !op.OpSaveState? && !op.OpFinish?
    ensures RowKept(h, db, Apply(name, db, op, at), wid)
  {
    ApplyKeeps(name, db, op, at);
  }

  lemma SavedRow(name: Naming, h: Handler, db: Db, wid: WorkflowId, op: Op, at: Time)
    requires op.OpSaveState? && op.wid != wid
    ensures RowKept(h, db, Apply(name, db, op, at), wid)
  {
  }

  lemma FinishedRow(name: Naming, h: Handler, db: Db, wid: WorkflowId, op: Op, at: Time)
    requires op.OpFinish?
    ensures RowKept(h, db, Apply(name, db, op, at), wid)
  {
  }

  lemma OthersRow(name: Naming, h: Handler, db: Db, wid: WorkflowId, op: Op, at: Time)
    requires Intact(name, db) && (op.OpSaveState? ==> op.wid != wid)
    requires op.OpSubmitWorkflow? && op.wfSpec.workflowId == wid ==> op.initial == h.initial(op.wfSpec.payload)
    ensures RowKept(h, db, Apply(name, db, op, at), wid)
  {
    match op
    case OpSubmitWorkflow(spec, specs, initial) => SubmitRow(name, h, db, wid, spec, specs, initial, at);
    case OpSaveState(_, _, _) => SavedRow(name, h, db, wid, op, at);
    case OpFinish(_, _, _, _) => FinishedRow(name, h, db, wid, op, at);
    case _ => SameRows(name, h, db, wid, op, at);
  }

  lemma OthersKeepFold(name: Naming, h: Handler, db: Db, wid: WorkflowId, op: Op, at: Time, state: State, cursor: nat)
    requires Intact(name, db) && IsFold(h, db, wid, state, cursor) && (op.OpSaveState? ==> op.wid != wid)
    requires op.OpSubmitWorkflow? && op.wfSpec.workflowId == wid ==> op.initial == h.initial(op.wfSpec.payload)
    ensures IsFold(h, Apply(name, db, op, at), wid, state, cursor)
  {
    LogGrows(name, db, op, at);
    OthersRow(name, h, db, wid, op, at);
    FoldStays(h, db, Apply(name, db, op, at), wid, state, cursor);
  }

  lemma OthersSaved(name: Naming, h: Handler, db: Db, wid: WorkflowId, op: Op, at: Time)
    requires Intact(name, db) && SavedOk(h, db, wid) && (op.OpSaveState? ==> op.wid != wid)
    requires op.OpSubmitWorkflow? && op.wfSpec.workflowId == wid ==> op.initial == h.initial(op.wfSpec.payload)
    ensures SavedOk(h, Apply(name, db, op, at), wid)
  {
    var db' := Apply(name, db, op, at);
    OthersRow(name, h, db, wid, op, at);
    if wid in db.workflows {
      OthersKeepFold(name, h, db, wid, op, at, db.workflows[wid].state, db.workflows[wid].cursor);
    } else {
      ReadNothing(db'.events, wid);
    }
  }

  lemma {:induction false} ReadNothing(events: seq<Event>, wid: WorkflowId)
    ensures EventsBetween(events, wid, 0, 0) == []
    decreases |events|
  {
    if events != [] { ReadNothing(events[..|events| - 1], wid); }
  }

  lemma SaveMove(name: Naming, h: Handler, wid: WorkflowId, s: Shared, e: nat, at: Time)
    requires SharedOk(name, h, wid, s) && e in s.engines
    ensures SharedOk(name, h, wid, Moved(name, h, wid, s, Saves(e, at)))
  {
    var l := s.engines[e];
    ApplyKeeps(name, s.db, OpSaveState(wid, l.state, l.cursor), at);
  }

  lemma OtherMove(name: Naming, h: Handler, wid: WorkflowId, s: Shared, op: Op, at: Time)
    requires SharedOk(name, h, wid, s) && Allowed(h, wid, s, Others(op, at))
    ensures SharedOk(name, h, wid, Moved(name, h, wid, s, Others(op, at)))
  {
    ApplyKeeps(name, s.db, op, at);
    OthersSaved(name, h, s.db, wid, op, at);
    forall e | e in s.engines ensures IsFold(h, Apply(name, s.db, op, at), wid, s.engines[e].state, s.engines[e].cursor) {
      OthersKeepFold(name, h, s.db, wid, op, at, s.engines[e].state, s.engines[e].cursor);
    }
  }

  lemma MoveOk(name: Naming, h: Handler, wid: WorkflowId, s: Shared, m: Move)
    requires SharedOk(name, h, wid, s) && Allowed(h, wid, s, m)
    ensures SharedOk(name, h, wid, Moved(name, h, wid, s, m))
  {
    match m
    case Folds(e) => FoldOn(h, s.db.workflows[wid].payload, s.db.events, wid, s.engines[e].state, s.engines[e].cursor);
    case Saves(e, at) => SaveMove(name, h, wid, s, e, at);
    case Others(op, at) => OtherMove(name, h, wid, s, op, at);
    case _ =>
  }

  ghost predicate DidMove(name: Naming, h: Handler, wid: WorkflowId, ss: seq<Shared>, ms: seq<Move>, i: nat) {
    i < |ms| && i + 1 < |ss| && Allowed(h, wid, ss[i], ms[i]) && ss[i + 1] == Moved(name, h, wid, ss[i], ms[i])
  }

  /** Any interleaving of engines and other transactions. */
  ghost predicate IsPlay(name: Naming, h: Handler, wid: WorkflowId, ss: seq<Shared>, ms: seq<Move>) {
    && |ss| == |ms| + 1
    && forall i {:trigger DidMove(name, h, wid, ss, ms, i)} | 0 <= i < |ms| :: DidMove(name, h, wid, ss, ms, i)
  }

  /** The same from an empty store. */
  ghost predicate IsInterleaving(name: Naming, h: Handler, wid: WorkflowId, ss: seq<Shared>, ms: seq<Move>) {
    IsPlay(name, h, wid, ss, ms) && ss[0] == Shared(EMPTY_DB, map[])
  }

  lemma {:induction false} InterleavingOk(name: Naming, h: Handler, wid: WorkflowId, ss: seq<Shared>, ms: seq<Move>, i: nat)
    requires IsInterleaving(name, h, wid, ss, ms) && i <= |ms|
    ensures SharedOk(name, h, wid, ss[i])
    decreases i
  {
    if i > 0 {
      InterleavingOk(name, h, wid, ss, ms, i - 1);
      assert DidMove(name, h, wid, ss, ms, i - 1);
      MoveOk(name, h, wid, ss[i - 1], ms[i - 1]);
    }
  }

  /**
   * In every state of every interleaving the saved state of the workflow is the fold of the
   * reducer, from the handler's initial state, over exactly the workflow's events with an
   * id up to the saved cursor.
   */
  lemma SavedStateIsFold(name: Naming, h: Handler, wid: WorkflowId, ss: seq<Shared>, ms: seq<Move>, i: nat)
    requires IsInterleaving(name, h, wid, ss, ms) && i <= |ms| && wid in ss[i].db.workflows
    ensures var row := ss[i].db.workflows[wid];
      row.state == Fold(h, h.initial(row.payload), EventsBetween(ss[i].db.events, wid, 0, row.cursor))
  {
    InterleavingOk(name, h, wid, ss, ms, i);
  }

  lemma CursorInLog(name: Naming, h: Handler, wid: WorkflowId, ss: seq<Shared>, ms: seq<Move>, i: nat)
    requires IsInterleaving(name, h, wid, ss, ms) && i <= |ms| && wid in ss[i].db.workflows
    ensures LogOk(ss[i].db.events) && ss[i].db.workflows[wid].cursor <= LastEventId(ss[i].db.events)
  {
    InterleavingOk(name, h, wid, ss, ms, i);
  }

  // ---------------------------------------------------------------------------------
  // A single engine never moves the cursor back

  ghost predicate IsSole(m: Move) {
    m.Others? || m.e == 0
  }

  ghost predicate SoleOk(wid: WorkflowId, s: Shared) {
    && s.engines.Keys <= {0}
    && (0 in s.engines && wid in s.db.workflows ==> s.engines[0].cursor >= s.db.workflows[wid].cursor)
  }

  lemma SoleOthers(name: Naming, h: Handler, wid: WorkflowId, s: Shared, op: Op, at: Time)
    requires Intact(name, s.db) && Allowed(h, wid, s, Others(op, at)) && SoleOk(wid, s)
    requires 0 in s.engines ==> wid in s.db.workflows
    ensures SoleOk(wid, Moved(name, h, wid, s, Others(op, at)))
    ensures CursorKept(s.db, Apply(name, s.db, op, at), wid)
  {
    OthersRow(name, h, s.db, wid, op, at);
  }

  ghost predicate CursorKept(db: Db, db': Db, wid: WorkflowId) {
    wid in db.workflows ==> wid in db'.workflows && db'.workflows[wid].cursor >= db.workflows[wid].cursor
  }

  lemma SoleMove(name: Naming, h: Handler, wid: WorkflowId, s: Shared, m: Move)
    requires SharedOk(name, h, wid, s) && Allowed(h, wid, s, m) && IsSole(m) && SoleOk(wid, s)
    ensures SoleOk(wid, Moved(name, h, wid, s, m)) && CursorKept(s.db, Moved(name, h, wid, s, m).db, wid)
  {
    match m
    case Folds(e) => FoldOn(h, s.db.workflows[wid].payload, s.db.events, wid, s.engines[e].state, s.engines[e].cursor);
    case Others(op, at) => SoleOthers(name, h, wid, s, op, at);
    case _ =>
  }

  lemma {:induction false} SoleEngineOk(name: Naming, h: Handler, wid: WorkflowId, ss: seq<Shared>, ms: seq<Move>, i: nat)
    requires IsInterleaving(name, h, wid, ss, ms) && i <= |ms| && forall m | m in ms :: IsSole(m)
    ensures SoleOk(wid, ss[i])
    decreases i
  {
    if i > 0 {
      SoleEngineOk(name, h, wid, ss, ms, i - 1);
      InterleavingOk(name, h, wid, ss, ms, i - 1);
      assert DidMove(name, h, wid, ss, ms, i - 1) && ms[i - 1] in ms;
      SoleMove(name, h, wid, ss[i - 1], ms[i - 1]);
    }
  }

  lemma CursorStep(name: Naming, h: Handler, wid: WorkflowId, ss: seq<Shared>, ms: seq<Move>, i: nat)
    requires IsInterleaving(name, h, wid, ss, ms) && i < |ms| && forall m | m in ms :: IsSole(m)
    ensures CursorKept(ss[i].db, ss[i + 1].db, wid)
  {
    SoleEngineOk(name, h, wid, ss, ms, i);
    InterleavingOk(name, h, wid, ss, ms, i);
    assert DidMove(name, h, wid, ss, ms, i) && ms[i] in ms;
    SoleMove(name, h, wid, ss[i], ms[i]);
  }

  /** With one engine at a time the saved cursor only moves forward. */
  lemma {:induction false} CursorAdvances(name: Naming, h: Handler, wid: WorkflowId, ss: seq<Shared>, ms: seq<Move>, i: nat, j: nat)
    requires IsInterleaving(name, h, wid, ss, ms) && i <= j <= |ms| && forall m | m in ms :: IsSole(m)
    requires wid in ss[i].db.workflows
    ensures wid in ss[j].db.workflows && ss[i].db.workflows[wid].cursor <= ss[j].db.workflows[wid].cursor
    decreases j
  {
    if i < j {
      CursorAdvances(name, h, wid, ss, ms, i, j - 1);
      CursorStep(name, h, wid, ss, ms, j - 1);
    }
  }

  // ---------------------------------------------------------------------------------
  // An interleaving is a run of transactions

  /** The transaction of a move; reserving nothing stands for those that have none. */
  ghost function OpOfMove(wid: WorkflowId, s: Shared, m: Move): (Op, Time) {
    match m
    case Saves(e, at) => if e in s.engines then (OpSaveState(wid, s.engines[e].state, s.engines[e].cursor), at) else (OpReserve(0), 0.0)
    case Others(op, at) => (op, at)
    case _ => (OpReserve(0), 0.0)
  }

  ghost function DbsOf(ss: seq<Shared>): seq<Db> {
    seq(|ss|, i requires 0 <= i < |ss| => ss[i].db)
  }

  ghost function OpsOf(wid: WorkflowId, ss: seq<Shared>, ms: seq<Move>): seq<(Op, Time)>
    requires |ss| == |ms| + 1
  {
    seq(|ms|, i requires 0 <= i < |ms| => OpOfMove(wid, ss[i], ms[i]))
  }

  lemma MoveIsOp(name: Naming, h: Handler, wid: WorkflowId, s: Shared, m: Move)
    ensures Moved(name, h, wid, s, m).db == Apply(name, s.db, OpOfMove(wid, s, m).0, OpOfMove(wid, s, m).1)
  {
    assert s.db.(tasks := s.db.tasks) == s.db;
  }

  lemma PlayIsRun(name: Naming, h: Handler, wid: WorkflowId, ss: seq<Shared>, ms: seq<Move>)
    requires IsPlay(name, h, wid, ss, ms)
    ensures IsRun(name, DbsOf(ss), OpsOf(wid, ss, ms))
  {
    forall i | 0 <= i < |ms| ensures Stepped(name, DbsOf(ss), OpsOf(wid, ss, ms), i) {
      assert DidMove(name, h, wid, ss, ms, i);
      MoveIsOp(name, h, wid, ss[i], ms[i]);
    }
  }
}
