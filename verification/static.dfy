// The built-in handler of static workflows: a fixed list of child tasks, a reducer that
// remembers the last event of every component and the last barrier, and the verdicts.

module StaticHandler {
  import opened Types
  import opened RowOrder
  import opened Tables
  import opened Barriers

  const STATIC_KIND := Text("static_multi.v1")

  // ---------------------------------------------------------------------------------
  // Payload and child tasks

  /** `validate_payload`: a non-empty list of components with distinct non-empty keys. */
  predicate ValidPayload(payload: Payload) {
    && payload.Components? && payload.components != []
    && (forall i | 0 <= i < |payload.components| :: payload.components[i].key.chars != "")
    && (forall i, j | 0 <= i < j < |payload.components| :: payload.components[i].key != payload.components[j].key)
  }

  function Digit(d: nat): char
    requires d < 10
  {
    '0' + d as char
  }

  /** The decimal numeral that an f-string prints. */
  function Decimal(n: nat): (s: string)
    ensures s != [] && forall i | 0 <= i < |s| :: '0' <= s[i] <= '9'
  {
    if n < 10 then [Digit(n)] else Decimal(n / 10) + [Digit(n % 10)]
  }

  function DefaultTaskId(wid: WorkflowId, key: Text, generation: nat): TaskId {
    Text(wid.chars + "-" + key.chars + "-g" + Decimal(generation))
  }

  /** Space, the controls from tab to carriage return and the four separators. */
  predicate IsAsciiSpace(c: char) {
    c == ' ' || '\t' <= c <= '\r' || '\U{1c}' <= c <= '\U{1f}'
  }

  /** `str.strip` leaves nothing of it; only ASCII whitespace is known here. */
  predicate IsBlank(t: Text) {
    forall i | 0 <= i < |t.chars| :: IsAsciiSpace(t.chars[i])
  }

  /** The constructors of `ComponentSpec` and `TaskSpec` do not raise. */
  predicate IsConstructible(c: StaticComponent) {
    !IsBlank(c.key) && c.Generation() >= 0 && !IsBlank(c.kind) && !IsBlank(c.resourceClass)
  }

  function DesiredComponent(wid: WorkflowId, c: StaticComponent): ComponentSpec
    requires IsConstructible(c)
  {
    ComponentSpec(
      c.key,
      TaskSpec(c.taskId.GetOr(DefaultTaskId(wid, c.key, c.Generation())), c.kind, c.resourceClass, c.payload, c.metadata,
               c.priority.GetOr(WorkflowStart), c.recoveryPriority.GetOr(BlockingRecovery), c.idempotencyKey),
      c.Generation(), c.required.GetOr(true))
  }

  /** `desired_components`: the components of the payload, whatever the state; `None` where it raises. */
  function DesiredComponents(workflow: WorkflowRow, state: State): Option<seq<ComponentSpec>> {
    if !workflow.payload.Components? then None
    else
      var cs := workflow.payload.components;
      if exists c | c in cs :: !IsConstructible(c) then None
      else Some(seq(|cs|, i requires 0 <= i < |cs| && IsConstructible(cs[i]) => DesiredComponent(workflow.workflowId, cs[i])))
  }

  function DecimalValue(s: string): int {
    if s == [] then 0 else 10 * DecimalValue(s[..|s| - 1]) + (s[|s| - 1] as int - '0' as int)
  }

  lemma {:induction false} DecimalRoundTrip(n: nat)
    ensures DecimalValue(Decimal(n)) == n
  {
    if n >= 10 {
      DecimalRoundTrip(n / 10);
      assert Decimal(n)[..|Decimal(n)| - 1] == Decimal(n / 10);
    } else {
      assert Decimal(n)[..0] == [];
    }
  }

  lemma LastG(a: string, m: nat)
    ensures var s := a + "-g" + Decimal(m);
      |s| > |a| + 1 && s[|a| + 1] == 'g' && forall j | |a| + 1 < j < |s| :: s[j] != 'g'
  {
    var s := a + "-g" + Decimal(m);
    forall j | |a| + 1 < j < |s| ensures s[j] != 'g' { assert s[j] == Decimal(m)[j - |a| - 2]; }
  }

  /** The numeral behind the last "-g" is determined by the whole string. */
  lemma SuffixUnique(a: string, m: nat, b: string, n: nat)
    requires a + "-g" + Decimal(m) == b + "-g" + Decimal(n)
    ensures a == b && m == n
  {
    var s := a + "-g" + Decimal(m);
    LastG(a, m);
    LastG(b, n);
    assert a == s[..|a|] == b;
    assert Decimal(m) == s[|a| + 2..] == Decimal(n);
    DecimalRoundTrip(m);
    DecimalRoundTrip(n);
  }

  /**
   * When two default task ids coincide. Of one workflow they never do, even for keys that
   * themselves contain "-g" and digits; across workflows they do exactly when the
   * concatenations of workflow and key do.
   */
  lemma DefaultTaskIdCollides(w: WorkflowId, key: Text, generation: nat, w': WorkflowId, key': Text, generation': nat)
    ensures DefaultTaskId(w, key, generation) == DefaultTaskId(w', key', generation')
       <==> generation == generation' && w.chars + "-" + key.chars == w'.chars + "-" + key'.chars
    ensures w == w' ==>
      (DefaultTaskId(w, key, generation) == DefaultTaskId(w', key', generation') <==> key == key' && generation == generation')
  {
    if DefaultTaskId(w, key, generation) == DefaultTaskId(w', key', generation') {
      SuffixUnique(w.chars + "-" + key.chars, generation, w'.chars + "-" + key'.chars, generation');
    }
    if w == w' && w.chars + "-" + key.chars == w'.chars + "-" + key'.chars {
      var s := w.chars + "-" + key.chars;
      assert key.chars == s[|w.chars| + 1..] == key'.chars;
    }
  }

  /** Two workflows whose default task ids coincide. */
  lemma DefaultTaskIdAcrossWorkflows()
    ensures exists w, key, w', key' :: w != w' && DefaultTaskId(w, key, 0) == DefaultTaskId(w', key', 0)
  {
    var w, key, w', key' := Text("a"), Text("b-c"), Text("a-b"), Text("c");
    DefaultTaskIdCollides(w, key, 0, w', key', 0);
    assert w.chars + "-" + key.chars == "a-b-c" == w'.chars + "-" + key'.chars;
    assert w.chars != w'.chars;
  }

  // ---------------------------------------------------------------------------------
  // The reducer

  function InitialState(payload: Payload): State {
    StaticState(map[], None)
  }

  function LastBarrier(state: State): Option<int> {
    if state.StaticState? then state.lastBarrier else None
  }

  /** The last event kind of every component, and the last barrier. */
  function ReduceStatic(state: State, event: Event): State {
    var statuses := if state.StaticState? then state.statuses else map[];
    StaticState(
      if event.componentKey.Some? then statuses[event.componentKey.value := event.kind] else statuses,
      if event.kind.BarrierCommitted? && event.payload.BarrierReport? then Some(event.payload.barrier) else LastBarrier(state))
  }

  // ---------------------------------------------------------------------------------
  // Verdicts

  predicate AllSucceeded(tasks: map<Text, TaskRow>) {
    tasks != map[] && forall k | k in tasks :: tasks[k].status.Succeeded?
  }

  predicate SomeFailed(tasks: map<Text, TaskRow>) {
    exists k | k in tasks :: tasks[k].status.Failed?
  }

  function CompletionResult(state: State, tasks: map<Text, TaskRow>): Option<Outcome> {
    if AllSucceeded(tasks) then Some(StaticOutcome(map k | k in tasks :: tasks[k].result, LastBarrier(state)))
    else None
  }

  predicate IsLeast(k: Text, keys: set<Text>) {
    k in keys && forall x | x in keys :: x == k || LexLess(k.chars, x.chars)
  }

  lemma LeastUnique(a: Text, b: Text, keys: set<Text>)
    requires IsLeast(a, keys) && IsLeast(b, keys)
    ensures a == b
  {
    if a != b { LexAsymmetric(a.chars, b.chars); }
  }

  lemma {:induction false} LeastExists(keys: set<Text>)
    requires keys != {}
    ensures exists k :: IsLeast(k, keys)
    decreases |keys|
  {
    var x :| x in keys;
    var rest := keys - {x};
    assert forall y | y in keys :: y == x || y in rest;
    if rest == {} {
      assert IsLeast(x, keys);
    } else {
      LeastExists(rest);
      var m :| IsLeast(m, rest);
      LexTotal(x.chars, m.chars);
      if LexLess(x.chars, m.chars) {
        forall y | y in keys && y != x && y != m ensures LexLess(x.chars, y.chars) {
          assert y in rest;
          LexTransitive(x.chars, m.chars, y.chars);
        }
        assert IsLeast(x, keys);
      } else {
        assert IsLeast(m, keys);
      }
    }
  }

  /** `sorted` on strings. */
  function SortedKeys(keys: set<Text>): seq<Text>
    decreases |keys|
  {
    if !(exists k | k in keys :: IsLeast(k, keys)) then []
    else
      assert forall a, b | IsLeast(a, keys) && IsLeast(b, keys) :: a == b by {
        forall a, b | IsLeast(a, keys) && IsLeast(b, keys) ensures a == b { LeastUnique(a, b, keys); }
      }
      var k :| k in keys && IsLeast(k, keys);
      [k] + SortedKeys(keys - {k})
  }

  /** In increasing code-point order, without duplicates. */
  ghost predicate InOrder(keys: seq<Text>) {
    forall i, j | 0 <= i < j < |keys| :: Precedes(keys[i].chars, keys[j].chars)
  }

  lemma {:induction false} SortedKeysCorrect(keys: set<Text>)
    ensures forall k :: k in SortedKeys(keys) <==> k in keys
    ensures InOrder(SortedKeys(keys))
    decreases |keys|
  {
    if keys != {} {
      LeastExists(keys);
      var k := SortedKeys(keys)[0];
      assert IsLeast(k, keys);
      SortedKeysCorrect(keys - {k});
      forall x | x in keys && x != k ensures Precedes(k.chars, x.chars) { LexExact(k.chars, x.chars); }
      assert SortedKeys(keys) == [k] + SortedKeys(keys - {k});
    }
  }

  lemma HeadIsLeast(s: seq<Text>)
    requires s != [] && InOrder(s)
    ensures IsLeast(s[0], set k | k in s) && s[0] !in s[1..] && (set k | k in s[1..]) == (set k | k in s) - {s[0]}
  {
    forall i | 0 < i < |s| ensures LexLess(s[0].chars, s[i].chars) && s[i] != s[0] {
      LexExact(s[0].chars, s[i].chars);
      if s[i] == s[0] { LexAsymmetric(s[0].chars, s[0].chars); }
    }
    assert s == [s[0]] + s[1..];
  }

  /** An increasing listing of the keys is the only one. */
  lemma {:induction false} SortedKeysUnique(s: seq<Text>, keys: set<Text>)
    requires InOrder(s) && keys == set k | k in s
    ensures s == SortedKeys(keys)
    decreases |s|
  {
    if s != [] {
      HeadIsLeast(s);
      LeastUnique(s[0], SortedKeys(keys)[0], keys);
      SortedKeysUnique(s[1..], keys - {s[0]});
      assert s == [s[0]] + s[1..];
    }
  }

  function JoinKeys(keys: seq<Text>): string {
    if keys == [] then "" else if |keys| == 1 then keys[0].chars else keys[0].chars + ", " + JoinKeys(keys[1..])
  }

  /** A joined list ends in its last key, set off by a comma and a blank. */
  lemma {:induction false} JoinExact(keys: seq<Text>, last: Text)
    ensures JoinKeys([last]) == last.chars
    ensures keys != [] ==> JoinKeys(keys + [last]) == JoinKeys(keys) + ", " + last.chars
    decreases |keys|
  {
    if keys != [] {
      JoinExact(keys[1..], last);
      assert (keys + [last])[1..] == keys[1..] + [last];
      if |keys| == 1 { assert keys[1..] + [last] == [last]; }
    }
  }

  function FailedKeys(tasks: map<Text, TaskRow>): set<Text> {
    set k | k in tasks && tasks[k].status.Failed?
  }

  function FailureReason(tasks: map<Text, TaskRow>): Option<Text> {
    var failed := SortedKeys(FailedKeys(tasks));
    if failed == [] then None
    else Some(Text("components failed after SkyPilot recovery: " + JoinKeys(failed)))
  }

  datatype Verdict = Undecided | Completed(result: Outcome) | Broken(reason: Text)

  /** The end of `WorkflowEngine.reconcile` with this handler. */
  function StaticVerdict(state: State, tasks: map<Text, TaskRow>): Verdict {
    var result := CompletionResult(state, tasks);
    if result.Some? then Completed(result.value)
    else
      var reason := FailureReason(tasks);
      if reason.Some? then Broken(reason.value) else Undecided
  }

  /** The keys of the failed children in increasing order. */
  ghost predicate ListsFailed(tasks: map<Text, TaskRow>, keys: seq<Text>) {
    InOrder(keys) && forall k :: k in keys <==> k in tasks && tasks[k].status == Failed
  }

  lemma FailedListed(tasks: map<Text, TaskRow>, keys: seq<Text>)
    ensures ListsFailed(tasks, SortedKeys(FailedKeys(tasks)))
    ensures ListsFailed(tasks, keys) ==> keys == SortedKeys(FailedKeys(tasks))
  {
    SortedKeysCorrect(FailedKeys(tasks));
    if ListsFailed(tasks, keys) {
      assert FailedKeys(tasks) == set k | k in keys;
      SortedKeysUnique(keys, FailedKeys(tasks));
    }
  }

  /**
   * Exactly when the handler finishes a workflow: it completes when there are children and
   * every one succeeded, and fails when some child failed, naming the failed ones in order.
   * A cancelled child does neither.
   */
  lemma VerdictExact(state: State, tasks: map<Text, TaskRow>, failed: seq<Text>)
    requires ListsFailed(tasks, failed)
    ensures var verdict := StaticVerdict(state, tasks);
      && (verdict.Completed? <==> tasks != map[] && forall k | k in tasks :: tasks[k].status == Succeeded)
      && (verdict.Broken? <==> exists k | k in tasks :: tasks[k].status == Failed)
      && ((exists k | k in tasks :: tasks[k].status == Cancelled) && failed == [] ==> verdict.Undecided?)
      && (verdict.Broken? ==> verdict.reason.chars == "components failed after SkyPilot recovery: " + JoinKeys(failed))
      && (verdict.Completed? ==>
            && verdict.result.StaticOutcome?
            && verdict.result.lastBarrier == (if state.StaticState? then state.lastBarrier else None)
            && verdict.result.results.Keys == tasks.Keys && forall k | k in tasks :: verdict.result.results[k] == tasks[k].result)
  {
    FailedListed(tasks, failed);
    if SomeFailed(tasks) {
      var k :| k in tasks && tasks[k].status == Failed;
      assert k in failed;
    }
    if failed != [] { assert failed[0] in failed; }
  }
}
