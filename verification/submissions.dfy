// What `WorkflowEngine.submit` hands to the store, told from the handler's answers, and
// what the built-in handler answers, told from the payload.

module Submissions {
  import opened Types
  import opened Tables
  import opened StaticHandler
  import opened Folding
  import opened Crash
  import opened StaticRuns
  import opened Engine
  import opened WorkflowEffects
  import opened Outcomes

  // ---------------------------------------------------------------------------------
  // Any handler

  lemma {:induction false} AllOrOneInvalid(v: Validator, specs: seq<ComponentSpec>)
    ensures AllValidated(v, specs).None? <==> exists c | c in specs :: v(c.task.kind, c.task.payload).None?
    decreases |specs|
  {
    if specs != [] {
      var n := |specs| - 1;
      AllOrOneInvalid(v, specs[..n]);
      assert specs == specs[..n] + [specs[n]];
      assert Validated(v, specs[n]).None? <==> v(specs[n].task.kind, specs[n].task.payload).None?;
    }
  }

  lemma EachChecked(v: Validator, specs: seq<ComponentSpec>)
    requires AllValidated(v, specs).Some?
    ensures var ds := AllValidated(v, specs).value; |ds| == |specs| && forall i | 0 <= i < |specs| :: IsChecked(v, specs[i], ds[i])
  {
    if specs != [] { ValidatedEach(v, specs, 0); }
    forall i | 0 <= i < |specs| ensures IsChecked(v, specs[i], AllValidated(v, specs).value[i]) { ValidatedEach(v, specs, i); }
  }

  /**
   * A submission raises before the store is asked exactly where the kind is unknown, the
   * handler refuses the payload or raises, or a task's payload is refused. Otherwise the
   * store is given the spec with the payload that the handler returned, its initial state,
   * and the components it asks for on a placeholder, each with its validated payload.
   */
  lemma SubmissionExact(r: Registry, spec: WorkflowSpec, h: Handler, payload: Payload, placeholder: WorkflowRow)
    requires spec.kind in r.handlers && r.handlers[spec.kind] == h && h.validate(spec.payload) == Some(payload)
    requires WorkflowStored(placeholder, spec.(payload := payload), h.initial(payload), 0.0)
    ensures var desired := h.desired(placeholder, h.initial(payload));
      match Submission(r, spec)
      case None => desired.None? || exists c | c in desired.value :: r.validate(c.task.kind, c.task.payload).None?
      case Some((spec', components, state)) =>
        && spec' == spec.(payload := payload) && state == h.initial(payload)
        && desired.Some? && |components| == |desired.value|
        && forall i | 0 <= i < |components| :: IsChecked(r.validate, desired.value[i], components[i])
  {
    assert placeholder == Placeholder(spec.(payload := payload), h.initial(payload));
    var desired := h.desired(placeholder, h.initial(payload));
    if desired.Some? {
      AllOrOneInvalid(r.validate, desired.value);
      if AllValidated(r.validate, desired.value).Some? { EachChecked(r.validate, desired.value); }
    }
  }

  lemma SubmissionRaises(r: Registry, spec: WorkflowSpec)
    requires spec.kind !in r.handlers || r.handlers[spec.kind].validate(spec.payload).None?
    ensures Submission(r, spec).None?
  {
  }

  // ---------------------------------------------------------------------------------
  // The built-in handler

  /** A list of components with distinct keys, none of them empty, and at least one component. */
  ghost predicate IsListOfComponents(payload: Payload) {
    match payload
    case OtherPayload(_) => false
    case Components(cs) =>
      && |cs| > 0 && (forall c | c in cs :: |c.key.chars| > 0)
      && forall i, j | 0 <= i < |cs| && 0 <= j < |cs| && cs[i].key == cs[j].key :: i == j
  }

  lemma StaticValidates(payload: Payload)
    ensures STATIC.validate(payload) == if IsListOfComponents(payload) then Some(payload) else None
  {
    assert STATIC.validate(payload) == if ValidPayload(payload) then Some(payload) else None;
    if payload.Components? {
      var cs := payload.components;
      if IsListOfComponents(payload) { assert forall i | 0 <= i < |cs| :: cs[i] in cs; }
    }
  }

  /** Some character of the text is not white space. */
  ghost predicate HasInk(t: Text) {
    exists i | 0 <= i < |t.chars| ::
      var c := t.chars[i]; c != ' ' && !('\t' <= c <= '\r') && !('\U{1c}' <= c <= '\U{1f}')
  }

  ghost predicate CanBeBuilt(c: StaticComponent) {
    && HasInk(c.key) && HasInk(c.kind) && HasInk(c.resourceClass)
    && (c.generation == None || c.generation.value >= 0)
  }

  lemma BuiltExactly(c: StaticComponent)
    ensures IsConstructible(c) <==> CanBeBuilt(c)
  {
    InkOrBlank(c.key);
    InkOrBlank(c.kind);
    InkOrBlank(c.resourceClass);
  }

  lemma InkOrBlank(t: Text)
    ensures HasInk(t) <==> !IsBlank(t)
  {
    if !IsBlank(t) {
      var i :| 0 <= i < |t.chars| && !IsAsciiSpace(t.chars[i]);
    }
  }

  /** A decimal numeral without leading zeros. */
  ghost predicate IsNumeral(s: string, n: nat) {
    && s != [] && (forall i | 0 <= i < |s| :: '0' <= s[i] <= '9') && (|s| > 1 ==> s[0] != '0') && DecimalValue(s) == n
  }

  lemma {:induction false} DecimalIsNumeral(n: nat)
    ensures IsNumeral(Decimal(n), n) && (n > 0 ==> Decimal(n)[0] != '0')
    decreases n
  {
    DecimalRoundTrip(n);
    if n >= 10 {
      DecimalIsNumeral(n / 10);
      assert Decimal(n)[0] == Decimal(n / 10)[0];
    }
  }

  /** The child that a component stands for, with the defaults for what was left out. */
  ghost predicate IsChildOf(wid: WorkflowId, c: StaticComponent, d: ComponentSpec) {
    var generation := match c.generation case None => 0 case Some(g) => g;
    && d.key == c.key && d.generation == generation && d.required == (match c.required case None => true case Some(b) => b)
    && (match c.taskId
        case Some(id) => d.task.taskId == id
        case None => exists s :: DefaultsTo(wid, c.key, generation, s, d.task.taskId))
    && d.task.kind == c.kind && d.task.resourceClass == c.resourceClass && d.task.payload == c.payload && d.task.metadata == c.metadata
    && d.task.priority == (match c.priority case None => WorkflowStart case Some(p) => p)
    && d.task.recoveryPriority == (match c.recoveryPriority case None => BlockingRecovery case Some(p) => p)
    && d.task.idempotencyKey == c.idempotencyKey
  }

  ghost predicate DefaultsTo(wid: WorkflowId, key: Text, generation: int, numeral: string, id: TaskId) {
    generation >= 0 && IsNumeral(numeral, generation) && id.chars == wid.chars + "-" + key.chars + "-g" + numeral
  }

  lemma ChildExact(wid: WorkflowId, c: StaticComponent)
    requires IsConstructible(c)
    ensures IsChildOf(wid, c, DesiredComponent(wid, c))
  {
    DecimalIsNumeral(c.Generation());
    if c.taskId == None {
      assert DefaultsTo(wid, c.key, c.Generation(), Decimal(c.Generation()), DesiredComponent(wid, c).task.taskId);
    }
  }

  /** Whatever the state, the handler asks for the child of every component, and raises if one cannot be built. */
  lemma StaticDesires(row: WorkflowRow, state: State)
    ensures match STATIC.desired(row, state)
            case None => row.payload.OtherPayload? || exists c | c in row.payload.components :: !CanBeBuilt(c)
            case Some(ds) =>
              && row.payload.Components? && |ds| == |row.payload.components|
              && forall i | 0 <= i < |ds| :: CanBeBuilt(row.payload.components[i]) && IsChildOf(row.workflowId, row.payload.components[i], ds[i])
  {
    assert STATIC.desired(row, state) == DesiredComponents(row, state);
    if row.payload.Components? {
      var cs := row.payload.components;
      if exists c | c in cs :: !IsConstructible(c) {
        var c :| c in cs && !IsConstructible(c);
        BuiltExactly(c);
      } else {
        forall i | 0 <= i < |cs| ensures CanBeBuilt(cs[i]) && IsChildOf(row.workflowId, cs[i], DesiredComponent(row.workflowId, cs[i])) {
          assert cs[i] in cs;
          BuiltExactly(cs[i]);
          ChildExact(row.workflowId, cs[i]);
        }
      }
    }
  }
}
