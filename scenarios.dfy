/**
 * The repository's example rule and four edge cases of a run: conflicting
 * rules, snapshot reads, a short-circuit hiding a missing path, and nested
 * paths. Each is stated for every context of the relevant shape.
 */
module Scenarios {
  import opened Wrappers
  import opened Values
  import opened Node
  import opened Explanations
  import opened Evaluator
  import opened Mutations
  import opened Runtime

  lemma SplitTwo(a: string, b: string)
    requires DOT !in a && DOT !in b
    ensures Split(a + "." + b) == [a, b]
  {
    assert "." == [DOT];
    SplitAtDot(a, b);
    SplitSegment(b);
  }

  /** Two map levels: the value under `outer`, then under `inner`. */
  lemma LookupTwo(m: map<string, Value>, outer: string, inner: string)
    ensures Lookup(VMap(m), [outer, inner]) ==
      if outer in m && m[outer].VMap? && inner in m[outer].fields then Some(m[outer].fields[inner]) else None
  {
    var p := [outer, inner];
    assert p[1..] == [inner];
    assert [inner][1..] == [];
    if outer in m {
      var child := m[outer];
      assert Lookup(VMap(m), p) == Lookup(child, [inner]);
      if child.VMap? && inner in child.fields {
        assert Lookup(child, [inner]) == Lookup(child.fields[inner], []);
      }
    }
  }

  // ---------------------------------------------------------------------
  // The example rule: "adult verification"
  // ---------------------------------------------------------------------

  const ADULT: string := "adult verification"

  /** user.age and user.is_verified, spelled out segment by segment. */
  const AGE_PATH: string := "user" + "." + "age"
  const VERIFIED_PATH: string := "user" + "." + "is_verified"

  const ADULT_RULE: Rule :=
    Rule(ADULT, Comparison(AGE_PATH, ">=", VInt(18)), [Mutation(VERIFIED_PATH, "=", VBool(true))])

  /** The effect the example rule plans, tagged with the rule's name. */
  const VERIFIED: Effect := Effect(Set, VERIFIED_PATH, VBool(true), Some(ADULT))

  function AdultExplanation(matched: bool): RuleExplanation
  {
    RuleExplanation(ADULT, matched, [ConditionExplanation(ADULT_RULE.condition, matched, "")],
      if matched then [VERIFIED_PATH + " set True"] else [])
  }

  lemma AgePath()
    ensures Split(AGE_PATH) == ["user", "age"]
  {
    SplitTwo("user", "age");
  }

  lemma VerifiedPath()
    ensures Split(VERIFIED_PATH) == ["user", "is_verified"]
  {
    SplitTwo("user", "is_verified");
  }

  lemma AgeResolves(c: Value, age: int)
    requires Lookup(c, ["user", "age"]) == Some(VInt(age))
    ensures ResolvePath(c, AGE_PATH) == Success(VInt(age))
  {
    AgePath();
  }

  /** Where user.age is an integer, the condition holds exactly when it is at least 18. */
  lemma AdultCondition(c: Value, age: int)
    requires ResolvePath(c, AGE_PATH) == Success(VInt(age))
    ensures Evaluate(ADULT_RULE.condition, c) == Success(age >= 18)
  {
  }

  /** A one-mutation list collects to the one effect its mutation builds. */
  lemma CollectOne(m: Mutation)
    requires BuildEffect(m).Success?
    ensures Collect([m]) == Success([BuildEffect(m).value])
  {
    assert [m][..0] == [];
    assert [] + [BuildEffect(m).value] == [BuildEffect(m).value];
  }

  lemma AdultEffects()
    ensures Collect(ADULT_RULE.mutations) == Success([VERIFIED.(rule := None)])
    ensures Tag([VERIFIED.(rule := None)], ADULT) == [VERIFIED]
    ensures Summaries([VERIFIED]) == [VERIFIED_PATH + " set True"]
  {
    var m := Mutation(VERIFIED_PATH, "=", VBool(true));
    assert BuildEffect(m) == Success(VERIFIED.(rule := None));
    CollectOne(m);
    var t := Tag([VERIFIED.(rule := None)], ADULT);
    assert t[0] == VERIFIED;
    assert Summary(VERIFIED) == VERIFIED_PATH + " set True";
    var u := Summaries([VERIFIED]);
    assert u[0] == VERIFIED_PATH + " set True";
  }

  /** The example rule's one step: its effect and summary when the user is an adult, nothing otherwise. */
  lemma AdultStep(c: Value, age: int)
    requires ResolvePath(c, AGE_PATH) == Success(VInt(age))
    ensures RuleStep(ADULT_RULE, c) ==
      Success(if age >= 18 then Step(true, [VERIFIED], AdultExplanation(true)) else Step(false, [], AdultExplanation(false)))
  {
    AdultCondition(c, age);
    AdultEffects();
  }

  /** A one-rule list evaluates to that rule's step. */
  lemma EvaluateOne(rule: Rule, c: Value)
    ensures EvaluateRules([rule], c) ==
      match RuleStep(rule, c)
      case Failure(e) => Failure(e)
      case Success(step) => Success(Extend(Evaluation([], [], []), rule.name, step))
  {
    assert [rule][..0] == [];
  }

  lemma AdultEvaluation(c: Value, age: int)
    requires ResolvePath(c, AGE_PATH) == Success(VInt(age))
    requires age >= 18
    ensures EvaluateRules([ADULT_RULE], c) == Success(Evaluation([ADULT], [VERIFIED], [AdultExplanation(true)]))
  {
    AdultStep(c, age);
    EvaluateOne(ADULT_RULE, c);
    assert [] + [ADULT] == [ADULT];
    assert [] + [VERIFIED] == [VERIFIED];
    assert [] + [AdultExplanation(true)] == [AdultExplanation(true)];
  }

  lemma MinorEvaluation(c: Value, age: int)
    requires ResolvePath(c, AGE_PATH) == Success(VInt(age))
    requires age < 18
    ensures EvaluateRules([ADULT_RULE], c) == Success(Evaluation([], [], [AdultExplanation(false)]))
  {
    AdultStep(c, age);
    EvaluateOne(ADULT_RULE, c);
    assert [] + [AdultExplanation(false)] == [AdultExplanation(false)];
    var none: seq<Effect> := [];
    assert none + none == none;
    var noNames: seq<string> := [];
    assert noNames + noNames == noNames;
  }

  /** Setting a field one map below the root. */
  lemma WriteTwo(m: map<string, Value>, outer: string, inner: string, u: map<string, Value>, v: Value)
    requires outer in m && m[outer] == VMap(u)
    ensures WriteAt(m, [outer, inner], Set, v) == Written(m[outer := VMap(u[inner := v])], true)
  {
    var p := [outer, inner];
    assert p[1..] == [inner];
  }

  lemma ApplyOne(e: Effect, root: Value)
    ensures ApplyAll([e], root) == ApplyEffectTo(root, e)
  {
    assert [e][1..] == [];
  }

  lemma SingleDistinct(e: Effect)
    ensures ConflictCheck([e]) == Pass
  {
  }

  /**
   * The example run in apply mode on any context whose user.age is at least
   * 18: the rule matches, its effect is reported, and user gains
   * is_verified: true beside everything it held before.
   */
  lemma AdultVerificationApply(m: map<string, Value>, u: map<string, Value>, age: int)
    requires "user" in m && m["user"] == VMap(u) && "age" in u && u["age"] == VInt(age)
    requires age >= 18
    ensures RunSpec([ADULT_RULE], VMap(m), "apply") ==
      RunOutcome(
        Success(Report([ADULT], Some([VERIFIED]), [AdultExplanation(true)])),
        VMap(m["user" := VMap(u["is_verified" := VBool(true)])]))
  {
    LookupTwo(m, "user", "age");
    AgeResolves(VMap(m), age);
    AdultEvaluation(VMap(m), age);
    SingleDistinct(VERIFIED);
    VerifiedPath();
    WriteTwo(m, "user", "is_verified", u, VBool(true));
    ApplyOne(VERIFIED, VMap(m));
  }

  /** Under 18 the rule does not match: no effects, and apply leaves the context as it was. */
  lemma MinorVerificationApply(m: map<string, Value>, u: map<string, Value>, age: int)
    requires "user" in m && m["user"] == VMap(u) && "age" in u && u["age"] == VInt(age)
    requires age < 18
    ensures RunSpec([ADULT_RULE], VMap(m), "apply") ==
      RunOutcome(Success(Report([], Some([]), [AdultExplanation(false)])), VMap(m))
  {
    LookupTwo(m, "user", "age");
    AgeResolves(VMap(m), age);
    MinorEvaluation(VMap(m), age);
  }

  /** The same run in dry mode: matches are reported, effects are not, and the context is unchanged. */
  lemma AdultVerificationDry(c: Value, age: int)
    requires ResolvePath(c, AGE_PATH) == Success(VInt(age))
    ensures RunSpec([ADULT_RULE], c, "dry") ==
      RunOutcome(Success(Report(if age >= 18 then [ADULT] else [], None, [AdultExplanation(age >= 18)])), c)
  {
    if age >= 18 {
      AdultEvaluation(c, age);
    } else {
      MinorEvaluation(c, age);
    }
  }

  /** The run method hands back the caller's own context object, updated. */
  method AdultVerificationClient(m: map<string, Value>, u: map<string, Value>, age: int)
    returns (context: Context, r: Result<RunResult, RunError>)
    requires "user" in m && m["user"] == VMap(u) && "age" in u && u["age"] == VInt(age) && age >= 18
    ensures context.root == VMap(m["user" := VMap(u["is_verified" := VBool(true)])])
    ensures r.Success? && r.value.context == context
    ensures r.value.matchedRules == [ADULT] && r.value.effects == Some([VERIFIED])
  {
    AdultVerificationApply(m, u, age);
    ghost var expected := RunSpec([ADULT_RULE], VMap(m), "apply");
    assert expected.result.Success? && expected.result.value.matchedRules == [ADULT];
    context := new Context(VMap(m));
    r := Run([ADULT_RULE], context, "apply");
  }

  // ---------------------------------------------------------------------
  // Generic steps used by the scenarios below
  // ---------------------------------------------------------------------

  /** A path of two dot-free segments resolves through two map levels. */
  lemma ResolveTwo(m: map<string, Value>, outer: string, inner: string, path: string)
    requires DOT !in outer && DOT !in inner && path == outer + "." + inner
    ensures ResolvePath(VMap(m), path) ==
      if outer in m && m[outer].VMap? && inner in m[outer].fields then Success(m[outer].fields[inner])
      else Failure(PathNotFound(path))
  {
    SplitTwo(outer, inner);
    LookupTwo(m, outer, inner);
  }

  /** A dot-free path names one key of the root map. */
  lemma ResolveOne(m: map<string, Value>, key: string)
    requires DOT !in key
    ensures ResolvePath(VMap(m), key) == if key in m then Success(m[key]) else Failure(PathNotFound(key))
  {
    SplitSegment(key);
    assert [key][1..] == [];
    if key in m {
      assert Lookup(VMap(m), [key]) == Lookup(m[key], []);
    }
  }

  /** A matching rule with one `=` mutation plans exactly that set, tagged with the rule. */
  lemma SetRuleStep(name: string, condition: Expr, path: string, v: Value, c: Value)
    requires Evaluate(condition, c) == Success(true)
    ensures var r := RuleStep(Rule(name, condition, [Mutation(path, "=", v)]), c);
      && r.Success? && r.value.matched
      && r.value.effects == [Effect(Set, path, v, Some(name))]
  {
    var m := Mutation(path, "=", v);
    CollectOne(m);
    var t := Tag([Effect(Set, path, v, None)], name);
    assert t == [t[0]];
  }

  /** A rule whose condition is false plans nothing. */
  lemma UnmatchedStep(rule: Rule, c: Value)
    requires Evaluate(rule.condition, c) == Success(false)
    ensures RuleStep(rule, c) ==
      Success(Step(false, [], RuleExplanation(rule.name, false, [ConditionExplanation(rule.condition, false, "")], [])))
  {
  }

  /** Two rules evaluate to their two steps, in order. */
  lemma EvaluateTwo(a: Rule, b: Rule, c: Value)
    requires RuleStep(a, c).Success? && RuleStep(b, c).Success?
    ensures var ev := EvaluateRules([a, b], c);
      var sa := RuleStep(a, c).value;
      var sb := RuleStep(b, c).value;
      && ev.Success?
      && ev.value.matchedRules == (if sa.matched then [a.name] else []) + (if sb.matched then [b.name] else [])
      && ev.value.effects == sa.effects + sb.effects
  {
    assert [a, b][..1] == [a];
    EvaluateOne(a, c);
    var sa := RuleStep(a, c).value;
    var e1 := Extend(Evaluation([], [], []), a.name, sa);
    assert e1.effects == sa.effects;
    assert e1.matchedRules == (if sa.matched then [a.name] else []);
  }

  // ---------------------------------------------------------------------
  // Conflicts, snapshot reads, short-circuiting, nested paths
  // ---------------------------------------------------------------------

  const RULE_A: Rule := Rule("a", ADULT_RULE.condition, [Mutation("user.status", "=", VStr("x"))])
  const RULE_B: Rule := Rule("b", ADULT_RULE.condition, [Mutation("user.status", "=", VStr("y"))])

  /** Both rules match and plan a set of user.status. */
  lemma ConflictingEffects(c: Value, age: int)
    requires ResolvePath(c, AGE_PATH) == Success(VInt(age)) && age >= 18
    ensures EvaluateRules([RULE_A, RULE_B], c).Success?
    ensures EvaluateRules([RULE_A, RULE_B], c).value.effects ==
      [Effect(Set, "user.status", VStr("x"), Some("a")), Effect(Set, "user.status", VStr("y"), Some("b"))]
  {
    AdultCondition(c, age);
    SetRuleStep("a", ADULT_RULE.condition, "user.status", VStr("x"), c);
    SetRuleStep("b", ADULT_RULE.condition, "user.status", VStr("y"), c);
    EvaluateTwo(RULE_A, RULE_B, c);
  }

  /** The second set of one path is reported against the first rule that set it. */
  lemma SamePathConflict(e1: Effect, e2: Effect)
    requires e1.path == e2.path
    ensures ConflictCheck([e1, e2]) == Fail(ConflictError(e1.path, RuleTag(e1), RuleTag(e2)))
  {
    var s := [e1, e2];
    assert s[..1] == [e1];
    SingleDistinct(e1);
    assert FirstTags([e1]) == map[e1.path := RuleTag(e1)] by {
      assert [e1][..0] == [];
    }
  }

  /**
   * Two matching rules that both set user.status: plan and apply fail with a
   * conflict naming the path and both rules, in order, and the context is
   * left as it was.
   */
  lemma ConflictingRules(c: Value, age: int, mode: string)
    requires ResolvePath(c, AGE_PATH) == Success(VInt(age)) && age >= 18
    requires mode == "plan" || mode == "apply"
    ensures RunSpec([RULE_A, RULE_B], c, mode) ==
      RunOutcome(Failure(Conflict(ConflictError("user.status", "a", "b"))), c)
  {
    ConflictingEffects(c, age);
    SamePathConflict(Effect(Set, "user.status", VStr("x"), Some("a")), Effect(Set, "user.status", VStr("y"), Some("b")));
  }

  const XY_PATH: string := "x" + "." + "y"
  const XZ_PATH: string := "x" + "." + "z"
  const SNAPSHOT_A: Rule := Rule("A", Comparison(XY_PATH, "==", VInt(0)), [Mutation(XY_PATH, "=", VInt(1))])
  const SNAPSHOT_B: Rule := Rule("B", Comparison(XY_PATH, "==", VInt(1)), [Mutation(XZ_PATH, "=", VInt(2))])

  /** Before the run x.y is 0, so A's condition holds and B's does not. */
  lemma SnapshotConditions(m: map<string, Value>, u: map<string, Value>)
    requires "x" in m && m["x"] == VMap(u) && "y" in u && u["y"] == VInt(0)
    ensures Evaluate(SNAPSHOT_A.condition, VMap(m)) == Success(true)
    ensures Evaluate(SNAPSHOT_B.condition, VMap(m)) == Success(false)
  {
    ResolveTwo(m, "x", "y", XY_PATH);
  }

  /** Only A matches, and its one set is the whole plan. */
  lemma SnapshotEvaluation(m: map<string, Value>, u: map<string, Value>)
    requires "x" in m && m["x"] == VMap(u) && "y" in u && u["y"] == VInt(0)
    ensures var ev := EvaluateRules([SNAPSHOT_A, SNAPSHOT_B], VMap(m));
      && ev.Success?
      && ev.value.matchedRules == ["A"]
      && ev.value.effects == [Effect(Set, XY_PATH, VInt(1), Some("A"))]
  {
    SnapshotConditions(m, u);
    SetRuleStep("A", SNAPSHOT_A.condition, XY_PATH, VInt(1), VMap(m));
    UnmatchedStep(SNAPSHOT_B, VMap(m));
    EvaluateTwo(SNAPSHOT_A, SNAPSHOT_B, VMap(m));
    assert [Effect(Set, XY_PATH, VInt(1), Some("A"))] + [] == [Effect(Set, XY_PATH, VInt(1), Some("A"))];
    assert ["A"] + [] == ["A"];
  }

  /**
   * Snapshot reads: rule A sets x.y to 1 and rule B tests x.y == 1. Both
   * conditions are judged on the context before the run, so only A matches
   * and afterwards x.y is 1 and x.z was never written.
   */
  lemma SnapshotIsolation(m: map<string, Value>, u: map<string, Value>)
    requires "x" in m && m["x"] == VMap(u) && "y" in u && u["y"] == VInt(0)
    ensures var out := RunSpec([SNAPSHOT_A, SNAPSHOT_B], VMap(m), "apply");
      && out.result.Success?
      && out.result.value.matchedRules == ["A"]
      && out.result.value.effects == Some([Effect(Set, XY_PATH, VInt(1), Some("A"))])
      && out.context == VMap(m["x" := VMap(u["y" := VInt(1)])])
  {
    SnapshotEvaluation(m, u);
    var e := Effect(Set, XY_PATH, VInt(1), Some("A"));
    SingleDistinct(e);
    SplitTwo("x", "y");
    WriteTwo(m, "x", "y", u, VInt(1));
    ApplyOne(e, VMap(m));
  }

  /**
   * `and` short-circuits: where the left comparison is false, a missing path
   * on the right is never looked up, though evaluating both sides fails.
   */
  lemma ShortCircuitHidesMissingPath(m: map<string, Value>, age: int)
    requires "age" in m && m["age"] == VInt(age) && age <= 30
    requires "missing" !in m
    ensures var e := And(Comparison("age", ">", VInt(30)), Comparison("missing", "==", VNull));
      && Evaluate(e, VMap(m)) == Success(false)
      && EvaluateStrict(e, VMap(m)) == Failure(PathNotFound("missing"))
  {
    NotOverThirty(m, age);
    MissingFails(m);
  }

  lemma NotOverThirty(m: map<string, Value>, age: int)
    requires "age" in m && m["age"] == VInt(age) && age <= 30
    ensures EvalComparison("age", ">", VInt(30), VMap(m)) == Success(false)
  {
    ResolveOne(m, "age");
    assert Compare(">", VInt(age), VInt(30)) == Success(false);
  }

  lemma MissingFails(m: map<string, Value>)
    requires "missing" !in m
    ensures EvalComparison("missing", "==", VNull, VMap(m)) == Failure(PathNotFound("missing"))
  {
    ResolveOne(m, "missing");
  }

  /**
   * The conflict check compares whole path strings, so a set of `a` and a
   * later set of `a.b` both pass it; applying them replaces the value just
   * written at `a` by a map holding only `b`.
   */
  lemma NestedPathsPassConflictCheck(m: map<string, Value>)
    ensures var e1 := Effect(Set, "a", VInt(1), Some("r1"));
      var e2 := Effect(Set, "a.b", VInt(2), Some("r2"));
      && ConflictCheck([e1, e2]) == Pass
      && ApplyAll([e1, e2], VMap(m)) == Applied(VMap(m["a" := VMap(map["b" := VInt(2)])]), None)
  {
    var e1 := Effect(Set, "a", VInt(1), Some("r1"));
    var e2 := Effect(Set, "a.b", VInt(2), Some("r2"));
    SplitSegment("a");
    SplitTwo("a", "b");
    assert "a" + "." + "b" == "a.b";
    var s := [e1, e2];
    assert s[..1] == [e1];
    SingleDistinct(e1);
    assert FirstTags([e1]) == map["a" := "r1"] by {
      assert [e1][..0] == [];
    }
    var m1 := m["a" := VInt(1)];
    assert ApplyEffectTo(VMap(m), e1) == Applied(VMap(m1), None);
    var p := ["a", "b"];
    assert p[1..] == ["b"];
    assert WriteAt(m1, p, Set, VInt(2)).fields == m1["a" := VMap(map["b" := VInt(2)])];
    assert m1["a" := VMap(map["b" := VInt(2)])] == m["a" := VMap(map["b" := VInt(2)])];
    assert s[1..] == [e2];
    ApplyOne(e2, VMap(m1));
  }
}
