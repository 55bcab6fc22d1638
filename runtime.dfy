/**
 * Effect application, conflict detection and the dry/plan/apply run of a
 * list of rules against a context.
 */
module Runtime {
  import opened Wrappers
  import opened Values
  import opened Node
  import opened Explanations
  import opened Evaluator
  import opened Mutations

  // ---------------------------------------------------------------------
  // Effect application
  // ---------------------------------------------------------------------

  /**
   * The TypeError (or AttributeError) Python raises when an effect meets a
   * non-dict root or arithmetic on values that are not integers.
   */
  datatype ApplyError = TypeMismatch(path: string)

  /** The context after an effect, and the error that stopped it, if any. */
  datatype Applied = Applied(context: Value, error: Option<ApplyError>)

  /** A map after a write, and whether the final field was written. */
  datatype Written = Written(fields: map<string, Value>, ok: bool)

  /**
   * The new value of the final field from its current value (None when
   * absent): set replaces it, increment and decrement read an absent field
   * as 0. None when the arithmetic is not on integers.
   */
  function Combine(op: EffectOp, prior: Option<Value>, v: Value): Option<Value>
  {
    var base := if prior.Some? then prior.value else VInt(0);
    match op
    case Set => Some(v)
    case Increment => if base.VInt? && v.VInt? then Some(VInt(base.i + v.i)) else None
    case Decrement => if base.VInt? && v.VInt? then Some(VInt(base.i - v.i)) else None
  }

  /**
   * Writes `parts` into a map: every segment but the last descends into a
   * map, replacing a missing or non-map entry by an empty map; the last is
   * combined with `v`. The maps created on the way stay even when the final
   * arithmetic fails, as in the source's in-place walk.
   */
  function WriteAt(m: map<string, Value>, parts: seq<string>, op: EffectOp, v: Value): Written
    requires |parts| >= 1
    decreases |parts|
  {
    var key := parts[0];
    if |parts| == 1 then
      match Combine(op, if key in m then Some(m[key]) else None, v)
      case Some(nv) => Written(m[key := nv], true)
      case None => Written(m, false)
    else
      var child := if key in m && m[key].VMap? then m[key].fields else map[];
      var w := WriteAt(child, parts[1..], op, v);
      Written(m[key := VMap(w.fields)], w.ok)
  }

  /** One effect applied to the context's root. */
  function ApplyEffectTo(root: Value, e: Effect): Applied
  {
    if !root.VMap? then Applied(root, Some(TypeMismatch(e.path)))
    else
      var w := WriteAt(root.fields, Split(e.path), e.op, e.value);
      Applied(VMap(w.fields), if w.ok then None else Some(TypeMismatch(e.path)))
  }

  /** Applies one effect to the shared context object. */
  method ApplyEffect(e: Effect, context: Context) returns (error: Option<ApplyError>)
    modifies context
    ensures Applied(context.root, error) == ApplyEffectTo(old(context.root), e)
  {
    var applied := ApplyEffectTo(context.root, e);
    context.root := applied.context;
    error := applied.error;
  }

  /** Effects applied one after another, stopping at the first error. */
  function ApplyAll(effects: seq<Effect>, root: Value): Applied
  {
    if |effects| == 0 then Applied(root, None)
    else
      var first := ApplyEffectTo(root, effects[0]);
      if first.error.Some? then first else ApplyAll(effects[1..], first.context)
  }

  /** Two segment lists that part ways: neither is a prefix of the other. */
  predicate Diverge(p: seq<string>, q: seq<string>)
  {
    |p| > 0 && |q| > 0 && (p[0] != q[0] || Diverge(p[1..], q[1..]))
  }

  /** The value at the written path is the combination of its old value and `v`. */
  lemma {:induction false} WriteAtLookup(m: map<string, Value>, parts: seq<string>, op: EffectOp, v: Value)
    requires |parts| >= 1
    ensures var w := WriteAt(m, parts, op, v);
      && (w.ok <==> Combine(op, Lookup(VMap(m), parts), v).Some?)
      && (w.ok ==> Lookup(VMap(w.fields), parts) == Combine(op, Lookup(VMap(m), parts), v))
    decreases |parts|
  {
    var key := parts[0];
    if |parts| > 1 {
      var rest := parts[1..];
      var child := if key in m && m[key].VMap? then m[key].fields else map[];
      WriteAtLookup(child, rest, op, v);
      assert Lookup(VMap(child), rest) == Lookup(VMap(m), parts);
    }
  }

  /** Paths that part ways with the written one read the same before and after. */
  lemma {:induction false} WriteAtFrame(m: map<string, Value>, parts: seq<string>, op: EffectOp, v: Value, q: seq<string>)
    requires |parts| >= 1
    requires Diverge(parts, q)
    ensures Lookup(VMap(WriteAt(m, parts, op, v).fields), q) == Lookup(VMap(m), q)
    decreases |parts|
  {
    var key := parts[0];
    if |parts| > 1 && q[0] == key {
      var rest := parts[1..];
      var child := if key in m && m[key].VMap? then m[key].fields else map[];
      WriteAtFrame(child, rest, op, v, q[1..]);
      assert Lookup(VMap(child), q[1..]) == Lookup(VMap(m), q);
    }
  }

  /** A write adds at most its first segment to a map's keys. */
  lemma {:induction false} WriteAtKeys(m: map<string, Value>, parts: seq<string>, op: EffectOp, v: Value)
    requires |parts| >= 1
    ensures WriteAt(m, parts, op, v).fields.Keys <= m.Keys + {parts[0]}
  {
  }

  /**
   * Every intermediate segment ends up holding a map; where the old value
   * there was missing or not a map, the new map holds nothing but the next
   * segment: the old data is discarded.
   */
  lemma {:induction false} WriteAtClobbers(m: map<string, Value>, parts: seq<string>, op: EffectOp, v: Value, j: nat)
    requires 1 <= j < |parts|
    ensures var node := Lookup(VMap(WriteAt(m, parts, op, v).fields), parts[..j]);
      && node.Some? && node.value.VMap?
      && (!(Lookup(VMap(m), parts[..j]).Some? && Lookup(VMap(m), parts[..j]).value.VMap?) ==>
            node.value.fields.Keys <= {parts[j]})
    decreases |parts|
  {
    var key := parts[0];
    var rest := parts[1..];
    var child := if key in m && m[key].VMap? then m[key].fields else map[];
    var w := WriteAt(child, rest, op, v);
    assert WriteAt(m, parts, op, v).fields == m[key := VMap(w.fields)];
    if j == 1 {
      assert parts[..1] == [key];
      assert parts[..1][1..] == [];
      assert rest[0] == parts[1];
      WriteAtKeys(child, rest, op, v);
      assert Lookup(VMap(WriteAt(m, parts, op, v).fields), parts[..1]) == Some(VMap(w.fields));
      assert Lookup(VMap(m), parts[..1]) == if key in m then Some(m[key]) else None;
    } else {
      WriteAtClobbers(child, rest, op, v, j - 1);
      assert parts[..j][0] == key;
      assert parts[..j][1..] == rest[..j - 1];
      if key in m && m[key].VMap? {
        assert Lookup(VMap(child), rest[..j - 1]) == Lookup(VMap(m), parts[..j]);
      } else {
        assert Lookup(VMap(child), rest[..j - 1]) == None;
        assert Lookup(VMap(m), parts[..j]) == None;
      }
    }
  }

  /**
   * Applying an effect to a map root succeeds exactly when its combination
   * with the old value at its path is defined, and then that path holds it.
   */
  lemma ApplyEffectLookup(root: Value, e: Effect)
    requires root.VMap?
    ensures var a := ApplyEffectTo(root, e);
      && a.context.VMap?
      && (a.error.None? <==> Combine(e.op, Lookup(root, Split(e.path)), e.value).Some?)
      && (a.error.None? ==> Lookup(a.context, Split(e.path)) == Combine(e.op, Lookup(root, Split(e.path)), e.value))
  {
    WriteAtLookup(root.fields, Split(e.path), e.op, e.value);
  }

  /** After a set effect its path holds the value. */
  lemma SetThenLookup(root: Value, path: string, v: Value, tag: Option<string>)
    requires root.VMap?
    ensures var a := ApplyEffectTo(root, Effect(Set, path, v, tag));
      a.error.None? && Lookup(a.context, Split(path)) == Some(v)
  {
    ApplyEffectLookup(root, Effect(Set, path, v, tag));
  }

  /** The old value at the path read as an integer, an absent one as 0. */
  function IntOrZero(prior: Option<Value>): int
    requires prior.None? || prior.value.VInt?
  {
    if prior.Some? then prior.value.i else 0
  }

  /**
   * Increment and decrement of an integer at an absent or integer field give
   * (old or 0) + d, respectively (old or 0) - d; any other old value or a
   * non-integer amount is a type error.
   */
  lemma IncrementDecrement(root: Value, e: Effect)
    requires root.VMap? && (e.op == Increment || e.op == Decrement)
    ensures var prior := Lookup(root, Split(e.path));
      var a := ApplyEffectTo(root, e);
      && ((prior.None? || prior.value.VInt?) && e.value.VInt? ==>
            a.error.None? && Lookup(a.context, Split(e.path)) ==
              Some(VInt(if e.op == Increment then IntOrZero(prior) + e.value.i else IntOrZero(prior) - e.value.i)))
      && (!((prior.None? || prior.value.VInt?) && e.value.VInt?) ==> a.error == Some(TypeMismatch(e.path)))
  {
    ApplyEffectLookup(root, e);
  }

  /** Paths that part ways with the effect's path are unchanged, whatever its outcome. */
  lemma ApplyEffectFrame(root: Value, e: Effect, q: seq<string>)
    requires Diverge(Split(e.path), q)
    ensures Lookup(ApplyEffectTo(root, e).context, q) == Lookup(root, q)
  {
    if root.VMap? {
      WriteAtFrame(root.fields, Split(e.path), e.op, e.value, q);
    }
  }

  /** Every intermediate segment of the effect's path holds a map afterwards; old non-map data there is gone. */
  lemma ApplyEffectClobbers(root: Value, e: Effect, j: nat)
    requires root.VMap?
    requires 1 <= j < |Split(e.path)|
    ensures var parts := Split(e.path);
      var node := Lookup(ApplyEffectTo(root, e).context, parts[..j]);
      && node.Some? && node.value.VMap?
      && (!(Lookup(root, parts[..j]).Some? && Lookup(root, parts[..j]).value.VMap?) ==>
            node.value.fields.Keys <= {parts[j]})
  {
    WriteAtClobbers(root.fields, Split(e.path), e.op, e.value, j);
  }

  /** A sequence of effects leaves paths that part ways with all of them unchanged. */
  lemma {:induction false} ApplyAllFrame(effects: seq<Effect>, root: Value, q: seq<string>)
    requires forall i :: 0 <= i < |effects| ==> Diverge(Split(effects[i].path), q)
    ensures Lookup(ApplyAll(effects, root).context, q) == Lookup(root, q)
  {
    if |effects| > 0 {
      ApplyEffectFrame(root, effects[0], q);
      var first := ApplyEffectTo(root, effects[0]);
      if first.error.None? {
        ApplyAllFrame(effects[1..], first.context, q);
      }
    }
  }

  /**
   * Set effects whose paths pairwise part ways all land: afterwards each
   * path holds its own value.
   */
  lemma {:induction false} ApplyAllSets(effects: seq<Effect>, root: Value)
    requires root.VMap?
    requires forall i :: 0 <= i < |effects| ==> effects[i].op == Set
    requires forall i, j :: 0 <= i < |effects| && 0 <= j < |effects| && i != j ==>
      Diverge(Split(effects[i].path), Split(effects[j].path))
    ensures ApplyAll(effects, root).error.None?
    ensures forall i :: 0 <= i < |effects| ==>
      Lookup(ApplyAll(effects, root).context, Split(effects[i].path)) == Some(effects[i].value)
  {
    if |effects| > 0 {
      var e := effects[0];
      SetThenLookup(root, e.path, e.value, e.rule);
      ApplyEffectLookup(root, e);
      var first := ApplyEffectTo(root, e);
      var rest := effects[1..];
      assert forall i :: 0 <= i < |rest| ==> rest[i] == effects[i + 1];
      ApplyAllSets(rest, first.context);
      ApplyAllFrame(rest, first.context, Split(e.path));
      forall i | 0 <= i < |effects|
        ensures Lookup(ApplyAll(effects, root).context, Split(effects[i].path)) == Some(effects[i].value)
      {
        if i > 0 {
          assert effects[i] == rest[i - 1];
        }
      }
    }
  }

  // ---------------------------------------------------------------------
  // Conflict detection
  // ---------------------------------------------------------------------

  datatype ConflictError = ConflictError(path: string, earlier: string, current: string)

  const UNKNOWN_RULE: string := "<unknown>"

  /** The rule an effect is tagged with, "<unknown>" when it has none. */
  function RuleTag(e: Effect): string
  {
    if e.rule.Some? then e.rule.value else UNKNOWN_RULE
  }

  ghost predicate PathsDistinct(effects: seq<Effect>)
  {
    forall i, j :: 0 <= i < j < |effects| ==> effects[i].path != effects[j].path
  }

  lemma PathsDistinctSnoc(init: seq<Effect>, last: Effect)
    ensures PathsDistinct(init + [last]) <==>
      PathsDistinct(init) && forall i :: 0 <= i < |init| ==> init[i].path != last.path
  {
    var s := init + [last];
    assert forall i :: 0 <= i < |init| ==> s[i] == init[i];
    assert s[|init|] == last;
    if PathsDistinct(s) {
      forall i, j | 0 <= i < j < |init| ensures init[i].path != init[j].path {
        assert s[i] == init[i] && s[j] == init[j];
      }
      forall i | 0 <= i < |init| ensures init[i].path != last.path {
        assert s[i] == init[i];
      }
    }
  }

  /** The rule first seen on each path. */
  function FirstTags(effects: seq<Effect>): (seen: map<string, string>)
    ensures forall i :: 0 <= i < |effects| ==> effects[i].path in seen
    ensures forall p :: p in seen ==> exists i :: 0 <= i < |effects| && effects[i].path == p
    decreases |effects|
  {
    if |effects| == 0 then map[]
    else
      var n := |effects| - 1;
      var init := effects[..n];
      var seen := FirstTags(init);
      assert forall i :: 0 <= i < n ==> init[i] == effects[i];
      if effects[n].path in seen then seen else seen[effects[n].path := RuleTag(effects[n])]
  }

  /** Without repeated paths, each path is mapped to the tag of its effect. */
  lemma {:induction false} FirstTagsOfDistinct(effects: seq<Effect>, i: nat)
    requires PathsDistinct(effects)
    requires i < |effects|
    ensures FirstTags(effects)[effects[i].path] == RuleTag(effects[i])
    decreases |effects|
  {
    var n := |effects| - 1;
    var init := effects[..n];
    assert effects == init + [effects[n]];
    PathsDistinctSnoc(init, effects[n]);
    if i < n {
      assert init[i] == effects[i];
      FirstTagsOfDistinct(init, i);
    }
  }

  /**
   * Fails on the first effect whose path an earlier effect already has,
   * naming that earlier effect's rule and the current one.
   */
  function ConflictCheck(effects: seq<Effect>): Outcome<ConflictError>
    decreases |effects|
  {
    if |effects| == 0 then Pass
    else
      var n := |effects| - 1;
      match ConflictCheck(effects[..n])
      case Fail(c) => Fail(c)
      case Pass =>
        var seen := FirstTags(effects[..n]);
        var last := effects[n];
        if last.path in seen then Fail(ConflictError(last.path, seen[last.path], RuleTag(last)))
        else Pass
  }

  /** The witness of a repeated path, stated once for the lemmas below. */
  ghost predicate FirstRepeat(effects: seq<Effect>, c: ConflictError)
  {
    exists i, j :: 0 <= i < j < |effects|
      && PathsDistinct(effects[..j])
      && effects[i].path == effects[j].path
      && c == ConflictError(effects[j].path, RuleTag(effects[i]), RuleTag(effects[j]))
  }

  /** A repeat found in a prefix is a repeat of the whole list. */
  lemma FirstRepeatExtends(init: seq<Effect>, last: Effect, c: ConflictError)
    requires FirstRepeat(init, c)
    ensures FirstRepeat(init + [last], c)
  {
    var effects := init + [last];
    var i, j :| 0 <= i < j < |init| && PathsDistinct(init[..j]) && init[i].path == init[j].path
      && c == ConflictError(init[j].path, RuleTag(init[i]), RuleTag(init[j]));
    assert init[..j] == effects[..j] && init[i] == effects[i] && init[j] == effects[j];
  }

  /** A last effect repeating a path of a repeat-free init is the first repeat. */
  lemma FirstRepeatAtEnd(init: seq<Effect>, last: Effect)
    requires PathsDistinct(init)
    requires last.path in FirstTags(init)
    ensures FirstRepeat(init + [last], ConflictError(last.path, FirstTags(init)[last.path], RuleTag(last)))
  {
    var effects := init + [last];
    var n := |init|;
    var i :| 0 <= i < n && init[i].path == last.path;
    FirstTagsOfDistinct(init, i);
    assert init[i] == effects[i] && effects[n] == last;
    assert effects[..n] == init;
  }

  /**
   * The check passes exactly when no two effects share a path; when it
   * fails, it names the first repeated path (every earlier prefix is free of
   * repeats), the rule of the earlier effect with that path and the rule of
   * the repeating one.
   */
  lemma {:induction false} ConflictCheckMeaning(effects: seq<Effect>)
    ensures ConflictCheck(effects).Pass? <==> PathsDistinct(effects)
    ensures ConflictCheck(effects).Fail? ==> FirstRepeat(effects, ConflictCheck(effects).error)
    decreases |effects|
  {
    if |effects| > 0 {
      var n := |effects| - 1;
      var init := effects[..n];
      var last := effects[n];
      ConflictCheckMeaning(init);
      assert effects == init + [last];
      PathsDistinctSnoc(init, last);
      match ConflictCheck(init)
      case Fail(c) =>
        FirstRepeatExtends(init, last, c);
      case Pass =>
        if last.path in FirstTags(init) {
          FirstRepeatAtEnd(init, last);
        }
    }
  }

  /** The source's single pass, filling `seen` with the first rule per path. */
  method DetectConflicts(effects: seq<Effect>) returns (r: Outcome<ConflictError>)
    ensures r == ConflictCheck(effects)
  {
    var seen: map<string, string> := map[];
    var k := 0;
    while k < |effects|
      invariant 0 <= k <= |effects|
      invariant ConflictCheck(effects[..k]) == Pass
      invariant seen == FirstTags(effects[..k])
    {
      assert effects[..k + 1][..k] == effects[..k];
      var path := effects[k].path;
      var rule := RuleTag(effects[k]);
      if path in seen {
        ConflictPrefixFailure(effects, k + 1);
        return Fail(ConflictError(path, seen[path], rule));
      }
      seen := seen[path := rule];
      k := k + 1;
    }
    assert effects[..k] == effects;
    return Pass;
  }

  /** One step of the recursion: a failing init makes the whole list fail alike. */
  lemma ConflictFailsOnInit(effects: seq<Effect>)
    requires |effects| > 0 && ConflictCheck(effects[..|effects| - 1]).Fail?
    ensures ConflictCheck(effects) == ConflictCheck(effects[..|effects| - 1])
  {
  }

  /** Once a prefix conflicts, the whole list fails with the same conflict. */
  lemma {:induction false} ConflictPrefixFailure(effects: seq<Effect>, k: nat)
    requires k <= |effects|
    requires ConflictCheck(effects[..k]).Fail?
    ensures ConflictCheck(effects) == ConflictCheck(effects[..k])
    decreases |effects| - k
  {
    if k < |effects| {
      var n := |effects| - 1;
      assert effects[..n][..k] == effects[..k];
      ConflictPrefixFailure(effects[..n], k);
      ConflictFailsOnInit(effects);
    } else {
      assert effects[..k] == effects;
    }
  }

  // ---------------------------------------------------------------------
  // Running rules
  // ---------------------------------------------------------------------

  /**
   * Why a run stops. `MutationFailed` is the runtime error the source raises
   * from a mutation error; `Conflict` is the conflict error.
   */
  datatype RunError =
    | InvalidMode(mode: string)
    | EvaluationFailed(evalError: EvalError)
    | MutationFailed(mutationError: MutationError)
    | Conflict(conflict: ConflictError)
    | ApplyFailed(applyError: ApplyError)

  predicate ValidMode(mode: string)
  {
    mode == "dry" || mode == "plan" || mode == "apply"
  }

  /** What one rule contributes to a run. */
  datatype Step = Step(matched: bool, effects: seq<Effect>, explanation: RuleExplanation)

  /** What the evaluation loop has gathered. */
  datatype Evaluation = Evaluation(matchedRules: seq<string>, effects: seq<Effect>, explanations: seq<RuleExplanation>)

  /** A run's result without the context; `effects` is None when its key is removed. */
  datatype Report = Report(matchedRules: seq<string>, effects: Option<seq<Effect>>, explanations: seq<RuleExplanation>)

  /** A run's result and the context document it leaves behind. */
  datatype RunOutcome = RunOutcome(result: Result<Report, RunError>, context: Value)

  /** The result the source returns: the context is the caller's own object. */
  datatype RunResult = RunResult(
    matchedRules: seq<string>,
    effects: Option<seq<Effect>>,
    context: Context,
    explanations: seq<RuleExplanation>)

  function Tagged(e: Effect, name: string): Effect
  {
    e.(rule := Some(name))
  }

  function Tag(effects: seq<Effect>, name: string): seq<Effect>
  {
    seq(|effects|, i requires 0 <= i < |effects| => Tagged(effects[i], name))
  }

  function DigitText(n: nat): string
    decreases n
  {
    var d := "0123456789"[n % 10];
    if n < 10 then [d] else DigitText(n / 10) + [d]
  }

  /** Python's str() of the scalar values a mutation can carry; containers are opaque. */
  function ValueText(v: Value): string
  {
    match v
    case VNull => "None"
    case VBool(b) => if b then "True" else "False"
    case VInt(i) => if i < 0 then "-" + DigitText(-i) else DigitText(i)
    case VStr(s) => s
    case VList(_) => "[...]"
    case VMap(_) => "{...}"
  }

  /** The mutation summary "path op value" recorded for an effect. */
  function Summary(e: Effect): string
  {
    e.path + " " + OpName(e.op) + " " + ValueText(e.value)
  }

  function Summaries(effects: seq<Effect>): seq<string>
  {
    seq(|effects|, i requires 0 <= i < |effects| => Summary(effects[i]))
  }

  /** One rule: explain its condition and, when it holds, collect and tag its effects. */
  function RuleStep(rule: Rule, context: Value): Result<Step, RunError>
  {
    match Explain(rule.condition, context)
    case Failure(e) => Failure(EvaluationFailed(e))
    case Success((result, details)) =>
      var condition := ConditionExplanation(rule.condition, result, details);
      if !result then
        Success(Step(false, [], RuleExplanation(rule.name, false, [condition], [])))
      else
        match Collect(rule.mutations)
        case Failure(e) => Failure(MutationFailed(e))
        case Success(effects) =>
          var tagged := Tag(effects, rule.name);
          Success(Step(true, tagged, RuleExplanation(rule.name, true, [condition], Summaries(tagged))))
  }

  function Extend(acc: Evaluation, name: string, step: Step): Evaluation
  {
    Evaluation(
      acc.matchedRules + (if step.matched then [name] else []),
      acc.effects + step.effects,
      acc.explanations + [step.explanation])
  }

  /** The evaluation loop: every rule in order against the same context. */
  function EvaluateRules(rules: seq<Rule>, context: Value): Result<Evaluation, RunError>
    decreases |rules|
  {
    if |rules| == 0 then Success(Evaluation([], [], []))
    else
      var n := |rules| - 1;
      match EvaluateRules(rules[..n], context)
      case Failure(e) => Failure(e)
      case Success(acc) =>
        match RuleStep(rules[n], context)
        case Failure(e) => Failure(e)
        case Success(step) => Success(Extend(acc, rules[n].name, step))
  }

  /** Once a prefix of the rules fails, the whole run of the loop fails with the same error. */
  lemma {:induction false} RulesPrefixFailure(rules: seq<Rule>, k: nat, context: Value)
    requires k <= |rules|
    requires EvaluateRules(rules[..k], context).Failure?
    ensures EvaluateRules(rules, context) == EvaluateRules(rules[..k], context)
    decreases |rules| - k
  {
    if k < |rules| {
      var n := |rules| - 1;
      assert rules[..n][..k] == rules[..k];
      RulesPrefixFailure(rules[..n], k, context);
    } else {
      assert rules[..k] == rules;
    }
  }

  /** The whole run: mode check, evaluation, conflict check, application, result. */
  function RunSpec(rules: seq<Rule>, context: Value, mode: string): RunOutcome
  {
    if !ValidMode(mode) then RunOutcome(Failure(InvalidMode(mode)), context)
    else
      match EvaluateRules(rules, context)
      case Failure(e) => RunOutcome(Failure(e), context)
      case Success(ev) =>
        if (mode == "plan" || mode == "apply") && ConflictCheck(ev.effects).Fail? then
          RunOutcome(Failure(Conflict(ConflictCheck(ev.effects).error)), context)
        else if mode == "apply" then
          var applied := ApplyAll(ev.effects, context);
          if applied.error.Some? then RunOutcome(Failure(ApplyFailed(applied.error.value)), applied.context)
          else RunOutcome(Success(Report(ev.matchedRules, Some(ev.effects), ev.explanations)), applied.context)
        else if mode == "dry" then
          RunOutcome(Success(Report(ev.matchedRules, None, ev.explanations)), context)
        else
          RunOutcome(Success(Report(ev.matchedRules, Some(ev.effects), ev.explanations)), context)
  }

  /** The body of the source's loop for one rule, proved against RuleStep. */
  method EvaluateRule(rule: Rule, context: Value) returns (r: Result<Step, RunError>)
    ensures r == RuleStep(rule, context)
  {
    var explained := Explain(rule.condition, context);
    if explained.Failure? {
      return Failure(EvaluationFailed(explained.error));
    }
    var (result, details) := explained.value;
    var condition := ConditionExplanation(rule.condition, result, details);
    var ruleExpl := RuleExplanation(rule.name, false, [condition], []);
    if !result {
      return Success(Step(false, [], ruleExpl));
    }
    ruleExpl := ruleExpl.(matched := true);
    var collected := CollectEffects(rule.mutations);
    if collected.Failure? {
      return Failure(MutationFailed(collected.error));
    }
    var batch := collected.value;
    var effects: seq<Effect> := [];
    var j := 0;
    while j < |batch|
      invariant 0 <= j <= |batch|
      invariant effects == Tag(batch[..j], rule.name)
      invariant ruleExpl == RuleExplanation(rule.name, true, [condition], Summaries(effects))
    {
      var effect := batch[j].(rule := Some(rule.name));
      assert Tag(batch[..j + 1], rule.name) == Tag(batch[..j], rule.name) + [effect];
      effects := effects + [effect];
      ruleExpl := ruleExpl.(mutations := ruleExpl.mutations + [Summary(effect)]);
      j := j + 1;
    }
    assert batch[..j] == batch;
    return Success(Step(true, effects, ruleExpl));
  }

  /** The apply loop: effects in collected order, stopping at the first error. */
  method ApplyEffects(effects: seq<Effect>, context: Context) returns (error: Option<ApplyError>)
    modifies context
    ensures Applied(context.root, error) == ApplyAll(effects, old(context.root))
  {
    var k := 0;
    while k < |effects|
      invariant 0 <= k <= |effects|
      invariant ApplyAll(effects[k..], context.root) == ApplyAll(effects, old(context.root))
    {
      assert effects[k..][1..] == effects[k + 1..];
      error := ApplyEffect(effects[k], context);
      if error.Some? {
        return;
      }
      k := k + 1;
    }
    return None;
  }

  /** Runs the rules against the shared context in the given mode. */
  method Run(rules: seq<Rule>, context: Context, mode: string) returns (r: Result<RunResult, RunError>)
    modifies context
    ensures var spec := RunSpec(rules, old(context.root), mode);
      && context.root == spec.context
      && (r.Failure? ==> spec.result == Failure(r.error))
      && (r.Success? ==>
            && r.value.context == context
            && spec.result == Success(Report(r.value.matchedRules, r.value.effects, r.value.explanations)))
  {
    if !(mode == "dry" || mode == "plan" || mode == "apply") {
      return Failure(InvalidMode(mode));
    }
    var matchedRules: seq<string> := [];
    var effects: seq<Effect> := [];
    var explanations: seq<RuleExplanation> := [];

    var i := 0;
    while i < |rules|
      invariant 0 <= i <= |rules|
      invariant context.root == old(context.root)
      invariant EvaluateRules(rules[..i], context.root) == Success(Evaluation(matchedRules, effects, explanations))
    {
      assert rules[..i + 1][..i] == rules[..i];
      assert rules[..i + 1][i] == rules[i];
      ghost var acc := Evaluation(matchedRules, effects, explanations);
      var step := EvaluateRule(rules[i], context.root);
      if step.Failure? {
        RulesPrefixFailure(rules, i + 1, context.root);
        return Failure(step.error);
      }
      if step.value.matched {
        matchedRules := matchedRules + [rules[i].name];
      }
      effects := effects + step.value.effects;
      explanations := explanations + [step.value.explanation];
      assert Evaluation(matchedRules, effects, explanations) == Extend(acc, rules[i].name, step.value);
      i := i + 1;
    }
    assert rules[..i] == rules;

    if mode == "plan" || mode == "apply" {
      var check := DetectConflicts(effects);
      if check.Fail? {
        return Failure(Conflict(check.error));
      }
    }

    if mode == "apply" {
      var error := ApplyEffects(effects, context);
      if error.Some? {
        return Failure(ApplyFailed(error.value));
      }
    }

    var reported := if mode == "dry" then None else Some(effects);
    return Success(RunResult(matchedRules, reported, context, explanations));
  }
}
