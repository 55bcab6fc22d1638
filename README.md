# IntentLang rule execution engine in Dafny

IntentLang is a small declarative rule language. A rule has a name, a
condition over a nested JSON-like context document, and a list of mutations
to apply when the condition holds. This project models the part that runs
already-parsed rules:

- path lookup and condition evaluation (`intentlang/evaluator.py`);
- the mutation-to-effect builder (`intentlang/mutations.py`);
- effect application, conflict detection and the dry/plan/apply state
  machine of `run` (`intentlang/runtime.py`, the live definitions at lines
  121-245).

The project, file by file:

- `wrappers.dfy`: `Option`, `Result` and `Outcome`.
- `values.dfy`: the context values, Python's `str.split(".")` (`Split`), its
  inverse `Join`, and the caller-owned `Context` object.
- `node.dfy` and `explain.dfy`: the rule tree and the explanation records.
- `evaluator.dfy`:
  - `GetValueFromPath`, the lookup loop, proved against `ResolvePath`;
  - comparison and evaluation, with `and`/`or` short-circuiting as Python's
    operators do;
  - `EvaluateStrict`, a reference reading that evaluates both sides.
- `mutations.dfy`: `BuildEffect`, and `CollectEffects`, the collecting loop,
  proved against `Collect`.
- `runtime.dfy`:
  - `ApplyEffect` writes one effect into the `Context` object. `ApplyEffects`
    is the apply loop.
  - `DetectConflicts` is the single pass with its `seen` map.
  - `EvaluateRule` (one iteration of the rule loop) and `Run` (the whole
    run) are methods. Each is proved against a specification function:
    `ApplyEffectTo`, `ApplyAll`, `ConflictCheck`, `RuleStep` and `RunSpec`.
- `run_properties.dfy`: what a run promises, stated over `RunSpec` and the
  evaluation loop. The reference definitions `MatchedNames` and
  `PlannedEffects` make "in rule order" precise.
- `scenarios.dfy`: the repository's example rule ("adult verification") and
  four edge cases of a run:
  - two rules writing one path, which conflict;
  - snapshot reads;
  - a short-circuit that hides a missing path;
  - nested paths that pass the conflict check.

  Each is stated for every context of the relevant shape.

Python exceptions become error values. The errors are:

- `PathNotFound`, `UnknownOperator`, `UnknownExpression` and `NotOrderable`
  from the evaluator;
- `UnknownMutationOperator` from the builder;
- `TypeMismatch` from arithmetic on non-integers during apply;
- the run's `InvalidMode`, `EvaluationFailed`, `MutationFailed`, `Conflict`
  and `ApplyFailed`.

On failure a run returns the error together with the context as it then
stands. Apply mode can fail part-way, after earlier effects have been
written.

`explain` is called by `run` (intentlang/runtime.py:203) but is not defined
in `intentlang/evaluator.py`. The model takes it to return the result of
evaluating the condition, with an empty details text.

## Model

| member | source | states |
|---|---|---|
| Values.SplitMeaning | intentlang/evaluator.py:12 | the segments of a split path contain no dot, and joining them with dots gives the path back |
| Values.SplitJoin | intentlang/runtime.py:125 | splitting the dotted join of dot-free segments gives those segments back |
| Values.SplitAtDot | intentlang/evaluator.py:12 | a path splits at its first dot into the dot-free head and the split of the rest |
| Evaluator.GetValueFromPath | intentlang/evaluator.py:8-21 | the segment-by-segment loop returns exactly the lookup of the split path: the nested value, or PathNotFound naming the whole path |
| Evaluator.LookupThroughMaps | intentlang/evaluator.py:15-17 | a successful lookup passes through a map holding the next segment at every prefix, and its result is exactly the nested value |
| Evaluator.LookupFailsAt | intentlang/evaluator.py:15-19 | a lookup fails exactly when some segment is absent or meets a non-map, including a missing last segment and a non-map root |
| Evaluator.LookupAppend | intentlang/evaluator.py:15-17 | looking up p + q is looking up q from the value found at p, and fails if p fails |
| Evaluator.ResolvePath | intentlang/evaluator.py:12-19 | a context that is not a map makes every path fail with PathNotFound |
| Evaluator.StrLessLexicographic | intentlang/evaluator.py:33-40 | string < is code-point lexicographic order: a is a proper prefix of b, or at the first position where they differ a has the smaller character |
| Evaluator.StrLessTrichotomy | intentlang/evaluator.py:33-40 | string ordering is a strict total order: irreflexive, asymmetric, and exactly one of <, ==, > holds |
| Evaluator.ComparisonLaws | intentlang/evaluator.py:24-42 | == and != are equality and its negation on any values; on two ints <, >, <=, >= are the integer order, on two strs they are StrLess and its converse; < is the converse of >, >= is > or ==, and exactly one of <, ==, > holds; other kinds fail as not orderable; any other operator fails with UnknownOperator |
| Evaluator.Explain | intentlang/runtime.py:203 | the explanation's result and error are those of evaluating the condition |
| Evaluator.ShortCircuit | intentlang/evaluator.py:54-58 | a false left side makes `and` false, a true one makes `or` true, without the right side; otherwise the result is the right side's; a failing left side fails both |
| Evaluator.ShortCircuitRefinesStrict | intentlang/evaluator.py:45-60 | whenever evaluating both sides succeeds, short-circuit evaluation gives the same truth-table result; whenever short-circuit evaluation fails, so does the strict reading |
| Evaluator.UnknownNodeFails | intentlang/evaluator.py:60 | a node other than Comparison, And or Or fails with UnknownExpression |
| Evaluator.EvaluateLocal | intentlang/evaluator.py:45-60 | a condition's result depends only on the values at the paths it mentions |
| Mutations.BuildEffect | intentlang/mutations.py:8-34 | it succeeds exactly for "=", "+=" and "-=", which give set, increment and decrement; path and value are copied unchanged and there is no rule tag; any other operator fails with UnknownMutationOperator naming it |
| Mutations.CollectMeaning | intentlang/mutations.py:37-46 | collecting succeeds iff every mutation builds; it then gives one effect per mutation, in order, element i being the built mutation i; otherwise it fails with the error of the first mutation that does not build, and there is no partial list |
| Mutations.CollectEffects | intentlang/mutations.py:37-46 | the appending loop returns exactly Collect of its input |
| Mutations.PrefixFailure | intentlang/mutations.py:43-44 | once a prefix fails to collect, the whole list fails with the same error |
| Runtime.ApplyEffect | intentlang/runtime.py:121-146 | the context object's new root and the error are those of ApplyEffectTo on the old root |
| Runtime.WriteAtLookup | intentlang/runtime.py:128-143 | the write succeeds iff combining the old value at the path with the effect's value succeeds, and the path then holds the combination |
| Runtime.WriteAtFrame | intentlang/runtime.py:128-143 | every path that parts ways with the written path reads the same afterwards |
| Runtime.WriteAtKeys | intentlang/runtime.py:128-137 | the only top-level key a write can add is the path's first segment |
| Runtime.WriteAtClobbers | intentlang/runtime.py:129-132 | after a write, every intermediate prefix holds a map; where it held no map before, the new map holds at most the next segment |
| Runtime.ApplyEffectLookup | intentlang/runtime.py:121-143 | an effect on a map context succeeds iff the combination at its path is defined, and the path then holds it |
| Runtime.SetThenLookup | intentlang/runtime.py:136-137 | a set on a map context always succeeds, and looking its path up afterwards gives the set value |
| Runtime.IncrementDecrement | intentlang/runtime.py:139-143 | an increment or decrement of an integer or absent field by an integer gives (old or 0) plus or minus the value; any other kind fails with TypeMismatch |
| Runtime.ApplyEffectFrame | intentlang/runtime.py:125-137 | every path that parts ways with the effect's path reads the same after the effect |
| Runtime.ApplyEffectClobbers | intentlang/runtime.py:129-134 | every intermediate segment ends up holding a map, and a missing or non-map value there is replaced by a fresh map that holds at most the next segment |
| Runtime.ApplyAllFrame | intentlang/runtime.py:237-239 | applying effects in order leaves every path that parts ways with all their paths as it was |
| Runtime.ApplyAllSets | intentlang/runtime.py:237-239 | set effects on pairwise diverging paths all succeed, and afterwards each path holds its effect's value |
| Runtime.FirstTags | intentlang/runtime.py:157-169 | the seen map holds exactly the paths of the effects |
| Runtime.FirstTagsOfDistinct | intentlang/runtime.py:159-169 | without repeated paths, each path is mapped to its effect's rule tag, "<unknown>" when the effect has none |
| Runtime.ConflictCheckMeaning | intentlang/runtime.py:153-169 | the check passes iff all paths are pairwise distinct; on failure it names the first repeated path, the earlier effect's rule and the current effect's rule |
| Runtime.DetectConflicts | intentlang/runtime.py:153-169 | the single pass with the seen map returns exactly ConflictCheck |
| Runtime.ConflictPrefixFailure | intentlang/runtime.py:159-167 | once a prefix conflicts, the whole list fails with the same conflict |
| Runtime.RulesPrefixFailure | intentlang/runtime.py:197-230 | once a prefix of the rules raises, the whole loop fails with that error |
| Runtime.EvaluateRule | intentlang/runtime.py:198-230 | one iteration of the rule loop gives exactly RuleStep: the explanation, the matched flag and the tagged effects, or the rule's error |
| Runtime.ApplyEffects | intentlang/runtime.py:237-239 | the apply loop leaves the context as ApplyAll does, effects in collected order, stopping at the first failure |
| Runtime.Run | intentlang/runtime.py:176-245 | the new context and the result are those of RunSpec on the old context; a successful result holds the caller's own context object |
| RunProperties.RuleStepMeaning | intentlang/runtime.py:198-230 | a rule step fails iff the rule raises; otherwise matched is the condition's result, the effects are the rule's collected effects tagged with its name (none when unmatched), and the explanation has one condition entry and one summary per effect |
| RunProperties.EvaluationSucceedsIff | intentlang/runtime.py:197-230 | the rule loop succeeds iff no rule raises |
| RunProperties.EvaluationMeaning | intentlang/runtime.py:197-230 | a successful loop has one explanation per rule, in order, each rule's own; the matched names are the in-order names of the rules whose condition holds; the effects are the matching rules' tagged effects concatenated in rule order |
| RunProperties.FirstFailingRule | intentlang/runtime.py:203-220 | a failing loop fails with the error of the first rule that raises |
| RunProperties.RunModes | intentlang/runtime.py:232-245 | dry reports no effects and skips the conflict check; plan and apply fail with a conflict exactly when two effects share a path, leaving the context unchanged; only apply changes the context, by applying the effects in order |
| RunProperties.InvalidModeFailsFirst | intentlang/runtime.py:186-187 | an unknown mode fails before any rule is evaluated and leaves the context unchanged |
| RunProperties.ContextUntouchedBeforeApply | intentlang/runtime.py:232-239 | outside apply mode, and in any run that fails before applying, the context is unchanged; a conflict arises only in plan or apply mode, and only when evaluation succeeded with repeated paths |
| RunProperties.RaisingRuleAbortsRun | intentlang/runtime.py:217-220 | a rule that raises aborts every valid mode, dry included, with its own error and an unchanged context |
| RunProperties.EffectInvisibleToCondition | intentlang/runtime.py:203-239 | an effect whose path parts ways with every path a condition reads cannot change that condition's result |
| Scenarios.AdultStep | intentlang/runtime.py:197-230 | where user.age is an integer, the example rule matches iff it is at least 18; it then plans one set of user.is_verified to true, tagged "adult verification", with the summary "user.is_verified set True" |
| Scenarios.AdultVerificationApply | parse.py:13-27 | the example in apply mode on any context whose user.age is at least 18 matches the rule, reports its one set effect, and adds is_verified: true to user, keeping everything else |
| Scenarios.MinorVerificationApply | parse.py:13-27 | under 18, apply matches nothing, reports no effects and leaves the context as it was |
| Scenarios.AdultVerificationDry | intentlang/runtime.py:241-243 | the example in dry mode reports the matches and explanations, no effects, and an unchanged context |
| Scenarios.AdultVerificationClient | parse.py:21-30 | running the example through the Run method returns the caller's own context object, now holding is_verified: true, with one matched rule and one effect |
| Scenarios.ConflictingRules | intentlang/runtime.py:153-169 | two matching rules that both set user.status make plan and apply fail with a conflict naming the path and both rules in order, and the context is unchanged |
| Scenarios.SnapshotIsolation | intentlang/runtime.py:197-239 | rule A sets x.y from 0 to 1 and rule B tests x.y == 1; B is judged on the context before the run, so only A matches and afterwards x.y is 1 |
| Scenarios.ShortCircuitHidesMissingPath | intentlang/evaluator.py:54-55 | a false left side of `and` hides a missing path on the right, where evaluating both sides fails with PathNotFound |
| Scenarios.NestedPathsPassConflictCheck | intentlang/runtime.py:129-169 | a set of `a` followed by a set of `a.b` passes the conflict check, and applying both replaces the value at `a` by a map holding only `b` |

## Left out

- Aliasing of nested dicts. The source writes into the dicts it walks, and
  dicts shared elsewhere would see the change. Here the context root is one
  field of a `Context` object, and the nested maps inside it are values.
  `WriteAt` rebuilds the path rather than updating the inner dicts in place.
- Python coercions are not modelled:
  - `True == 1`;
  - bool arithmetic and bool ordering;
  - ordering of lists;
  - string or list concatenation through `+=`.
  Ordering is defined only on two integers or two strings, and arithmetic
  only on integers. Every other combination is an error value.
- Python's TypeError kinds are collapsed into `NotOrderable` and
  `TypeMismatch`. The error message text is not modelled.
- `explain`'s details text, which is not part of this model, is always empty.
- `str(rule.condition)` is not modelled: the condition explanation stores the
  condition itself.
- Runtime.Run: the mode is always passed explicitly. The default mode
  `"plan"` of `run` (intentlang/runtime.py:176) is not modelled.
- Runtime.ValueText: mutation summaries render None, booleans, integers and
  strings as Python's `str` does. List and dict values render as the fixed
  texts "[...]" and "{...}" instead of their Python form.
- The unknown-operation branch of `apply_effect`
  (intentlang/runtime.py:145-146) cannot be reached. Effects are built only
  by `BuildEffect`, so their operation is always set, increment or
  decrement.
- Two stretches of `intentlang/runtime.py` are not modelled: the shadowed
  first copy (lines 1-100) and the unreachable tail after `return`
  (lines 248-261).
- The command line (`intentlang/cli.py`), the parse-tree transformer
  (`intentlang/transform.py`), the grammar, and the demo scripts are not part
  of this model. For them this means:
  - rule trees are given as input;
  - numbers are integers;
  - nothing is read from files or printed.
- Three behaviours of the code that a reader might not expect are modelled
  as the code has them:
  - `and`/`or` short-circuit, so the right side is never evaluated once the
    left side decides. `EvaluateStrict` is a reference reading that always
    evaluates both sides of `and`/`or`.
  - A comparison reads one path and compares its value with a literal
    (intentlang/evaluator.py:25-26). A condition is built only from
    comparisons, `and` and `or`. Any other node kind fails.
  - Dry mode still collects effects, so an unknown mutation operator fails a
    dry run too. It only drops the effects from the report.
