/** What a run promises, stated over RunSpec and the evaluation loop. */
module RunProperties {
  import opened Wrappers
  import opened Values
  import opened Node
  import opened Explanations
  import opened Evaluator
  import opened Mutations
  import opened Runtime

  /** One rule's name when its condition holds on the context, nothing otherwise. */
  function MatchedName(rule: Rule, context: Value): seq<string>
  {
    if Evaluate(rule.condition, context) == Success(true) then [rule.name] else []
  }

  /** One rule's tagged effects when its condition holds and its mutations build, nothing otherwise. */
  function RuleEffects(rule: Rule, context: Value): seq<Effect>
  {
    if Evaluate(rule.condition, context) == Success(true) && Collect(rule.mutations).Success?
    then Tag(Collect(rule.mutations).value, rule.name)
    else []
  }

  /** The per-rule parts, concatenated in rule order. */
  function Concat<T>(rules: seq<Rule>, part: Rule -> seq<T>): seq<T>
  {
    if |rules| == 0 then [] else part(rules[0]) + Concat(rules[1..], part)
  }

  lemma {:induction false} ConcatAppend<T>(a: seq<Rule>, b: seq<Rule>, part: Rule -> seq<T>)
    ensures Concat(a + b, part) == Concat(a, part) + Concat(b, part)
  {
    if |a| == 0 {
      assert a + b == b;
    } else {
      assert (a + b)[0] == a[0] && (a + b)[1..] == a[1..] + b;
      ConcatAppend(a[1..], b, part);
    }
  }

  function MatchedNameIn(context: Value): Rule -> seq<string>
  {
    rule => MatchedName(rule, context)
  }

  function RuleEffectsIn(context: Value): Rule -> seq<Effect>
  {
    rule => RuleEffects(rule, context)
  }

  /** Reference: the names of the rules whose condition holds on the context, in order. */
  function MatchedNames(rules: seq<Rule>, context: Value): seq<string>
  {
    Concat(rules, MatchedNameIn(context))
  }

  /** Reference: the effects of the matching rules, each tagged with its rule, in order. */
  function PlannedEffects(rules: seq<Rule>, context: Value): seq<Effect>
  {
    Concat(rules, RuleEffectsIn(context))
  }

  /** A rule raises nothing: its condition evaluates and, when it holds, its mutations build. */
  predicate RuleRuns(rule: Rule, context: Value)
  {
    && Evaluate(rule.condition, context).Success?
    && (Evaluate(rule.condition, context).value ==> Collect(rule.mutations).Success?)
  }

  /**
   * One rule's contribution: it fails exactly when it raises; otherwise it
   * matched iff its condition holds, carries that rule's tagged effects when
   * it matched and none otherwise, and explains itself with one condition
   * entry and one mutation summary per effect.
   */
  lemma RuleStepMeaning(rule: Rule, context: Value)
    ensures RuleStep(rule, context).Success? <==> RuleRuns(rule, context)
    ensures RuleStep(rule, context).Success? ==>
      var step := RuleStep(rule, context).value;
      var holds := Evaluate(rule.condition, context) == Success(true);
      && step.matched == holds
      && step.effects == (if holds then Tag(Collect(rule.mutations).value, rule.name) else [])
      && |step.effects| == (if holds then |rule.mutations| else 0)
      && (forall k :: 0 <= k < |step.effects| ==> step.effects[k].rule == Some(rule.name))
      && step.explanation.ruleName == rule.name
      && step.explanation.matched == holds
      && step.explanation.conditions == [ConditionExplanation(rule.condition, holds, "")]
      && step.explanation.mutations == Summaries(step.effects)
  {
    CollectMeaning(rule.mutations);
  }

  /** The evaluation loop succeeds iff no rule raises. */
  lemma {:induction false} EvaluationSucceedsIff(rules: seq<Rule>, context: Value)
    ensures EvaluateRules(rules, context).Success? <==>
      forall i :: 0 <= i < |rules| ==> RuleRuns(rules[i], context)
    decreases |rules|
  {
    if |rules| > 0 {
      var n := |rules| - 1;
      var init := rules[..n];
      EvaluationSucceedsIff(init, context);
      RuleStepMeaning(rules[n], context);
      assert forall i :: 0 <= i < n ==> init[i] == rules[i];
      if EvaluateRules(init, context).Failure? {
        ghost var i :| 0 <= i < n && !RuleRuns(init[i], context);
        assert !RuleRuns(rules[i], context);
      }
    }
  }

  /**
   * A successful evaluation loop has one explanation per rule, in order,
   * each rule's evaluated against the context as it was before the run; the
   * matched names are the in-order names of the rules whose condition holds;
   * the effects are the matching rules' tagged effects, concatenated in rule
   * order.
   */
  lemma {:induction false} EvaluationMeaning(rules: seq<Rule>, context: Value)
    requires EvaluateRules(rules, context).Success?
    ensures var ev := EvaluateRules(rules, context).value;
      && |ev.explanations| == |rules|
      && (forall i :: 0 <= i < |rules| ==>
            RuleStep(rules[i], context).Success? && ev.explanations[i] == RuleStep(rules[i], context).value.explanation)
      && ev.matchedRules == MatchedNames(rules, context)
      && ev.effects == PlannedEffects(rules, context)
    decreases |rules|
  {
    if |rules| > 0 {
      var n := |rules| - 1;
      var init := rules[..n];
      var last := rules[n];
      assert rules == init + [last];
      EvaluationMeaning(init, context);
      var acc := EvaluateRules(init, context).value;
      var step := RuleStep(last, context).value;
      var ev := EvaluateRules(rules, context).value;
      assert ev == Extend(acc, last.name, step);
      RuleStepMeaning(last, context);
      ConcatAppend(init, [last], MatchedNameIn(context));
      ConcatAppend(init, [last], RuleEffectsIn(context));
      assert [last][1..] == [];
      assert MatchedNames([last], context) == (if step.matched then [last.name] else []);
      assert PlannedEffects([last], context) == step.effects;
      forall i | 0 <= i < |rules|
        ensures RuleStep(rules[i], context).Success? && ev.explanations[i] == RuleStep(rules[i], context).value.explanation
      {
        if i < n {
          assert init[i] == rules[i];
        }
      }
    }
  }

  /** A failing evaluation loop fails with the error of the first rule that raises. */
  lemma {:induction false} FirstFailingRule(rules: seq<Rule>, context: Value)
    requires EvaluateRules(rules, context).Failure?
    ensures exists i :: (
      && 0 <= i < |rules|
      && (forall j :: 0 <= j < i ==> RuleRuns(rules[j], context))
      && RuleStep(rules[i], context) == Failure(EvaluateRules(rules, context).error))
    decreases |rules|
  {
    var n := |rules| - 1;
    var init := rules[..n];
    assert forall i :: 0 <= i < n ==> init[i] == rules[i];
    if EvaluateRules(init, context).Failure? {
      FirstFailingRule(init, context);
      ghost var i :| 0 <= i < n
        && (forall j :: 0 <= j < i ==> RuleRuns(init[j], context))
        && RuleStep(init[i], context) == Failure(EvaluateRules(init, context).error);
      assert rules[i] == init[i];
    } else {
      EvaluationSucceedsIff(init, context);
      forall j | 0 <= j < n ensures RuleRuns(rules[j], context) {
        assert init[j] == rules[j];
      }
    }
  }

  /**
   * The mode semantics of a run whose rules raise nothing: dry reports no
   * effects and skips the conflict check; plan and apply fail with the
   * conflict error exactly when two effects share a path, leaving the
   * context unchanged; only apply changes the context, by applying the
   * effects in collected order.
   */
  lemma RunModes(rules: seq<Rule>, context: Value, mode: string)
    requires ValidMode(mode)
    requires EvaluateRules(rules, context).Success?
    ensures var ev := EvaluateRules(rules, context).value;
      var out := RunSpec(rules, context, mode);
      && (mode == "dry" ==>
            out == RunOutcome(Success(Report(ev.matchedRules, None, ev.explanations)), context))
      && (mode != "dry" && !PathsDistinct(ev.effects) ==>
            && out.context == context
            && out.result.Failure? && out.result.error.Conflict?)
      && (mode == "plan" && PathsDistinct(ev.effects) ==>
            out == RunOutcome(Success(Report(ev.matchedRules, Some(ev.effects), ev.explanations)), context))
      && (mode == "apply" && PathsDistinct(ev.effects) ==>
            && out.context == ApplyAll(ev.effects, context).context
            && (out.result.Success? <==> ApplyAll(ev.effects, context).error.None?)
            && (out.result.Success? ==>
                  out.result.value == Report(ev.matchedRules, Some(ev.effects), ev.explanations)))
  {
    ConflictCheckMeaning(EvaluateRules(rules, context).value.effects);
  }

  /** An unknown mode fails at once, whatever the rules would do, and touches nothing. */
  lemma InvalidModeFailsFirst(rules: seq<Rule>, context: Value, mode: string)
    requires !ValidMode(mode)
    ensures RunSpec(rules, context, mode) == RunOutcome(Failure(InvalidMode(mode)), context)
  {
  }

  /**
   * Only the apply phase writes the context: every run that is not in apply
   * mode, and every run that fails before applying (bad mode, evaluation or
   * mutation error, conflict), leaves it as it was.
   */
  lemma ContextUntouchedBeforeApply(rules: seq<Rule>, context: Value, mode: string)
    ensures var out := RunSpec(rules, context, mode);
      && (mode != "apply" ==> out.context == context)
      && (out.result.Failure? && !out.result.error.ApplyFailed? ==> out.context == context)
      && (out.result.Failure? && out.result.error.Conflict? ==>
            && (mode == "plan" || mode == "apply")
            && EvaluateRules(rules, context).Success?
            && !PathsDistinct(EvaluateRules(rules, context).value.effects))
  {
    if ValidMode(mode) && EvaluateRules(rules, context).Success? {
      var ev := EvaluateRules(rules, context).value;
      ConflictCheckMeaning(ev.effects);
      if (mode == "plan" || mode == "apply") && ConflictCheck(ev.effects).Fail? {
        assert RunSpec(rules, context, mode) == RunOutcome(Failure(Conflict(ConflictCheck(ev.effects).error)), context);
      } else if mode == "apply" {
        var applied := ApplyAll(ev.effects, context);
        assert RunSpec(rules, context, mode).result.Failure? ==>
          RunSpec(rules, context, mode).result == Failure(ApplyFailed(applied.error.value));
      }
    } else if ValidMode(mode) {
      FirstFailingRule(rules, context);
      var i :| 0 <= i < |rules| && RuleStep(rules[i], context) == Failure(EvaluateRules(rules, context).error);
      assert !EvaluateRules(rules, context).error.Conflict?;
    }
  }

  /**
   * A raising rule aborts every valid mode, dry included, with that rule's
   * error (an unknown mutation operator surfaces as MutationFailed), and the
   * context is left unchanged.
   */
  lemma RaisingRuleAbortsRun(rules: seq<Rule>, context: Value, mode: string, i: nat)
    requires ValidMode(mode)
    requires i < |rules|
    requires forall j :: 0 <= j < i ==> RuleRuns(rules[j], context)
    requires !RuleRuns(rules[i], context)
    ensures RunSpec(rules, context, mode) == RunOutcome(Failure(RuleStep(rules[i], context).error), context)
  {
    EvaluationSucceedsIff(rules, context);
    FirstFailingRule(rules, context);
    ghost var k :| 0 <= k < |rules|
      && (forall j :: 0 <= j < k ==> RuleRuns(rules[j], context))
      && RuleStep(rules[k], context) == Failure(EvaluateRules(rules, context).error);
    RuleStepMeaning(rules[k], context);
    RuleStepMeaning(rules[i], context);
    assert k == i;
  }

  /**
   * Why the snapshot matters only on shared paths: an effect whose path
   * parts ways with every path a condition reads cannot change that
   * condition's result.
   */
  lemma EffectInvisibleToCondition(condition: Expr, context: Value, e: Effect)
    requires forall p :: p in Paths(condition) ==> Diverge(Split(e.path), Split(p))
    ensures Evaluate(condition, ApplyEffectTo(context, e).context) == Evaluate(condition, context)
  {
    var after := ApplyEffectTo(context, e).context;
    forall p | p in Paths(condition) ensures ResolvePath(after, p) == ResolvePath(context, p) {
      ApplyEffectFrame(context, e, Split(p));
    }
    EvaluateLocal(condition, after, context);
  }
}
