/** Compiling a rule's mutations into declarative effects. */
module Mutations {
  import opened Wrappers
  import opened Values
  import opened Node

  datatype EffectOp = Set | Increment | Decrement

  /**
   * A declarative change of one context path. `rule` is the tag the runtime
   * adds for the rule that produced it; a freshly built effect has none.
   */
  datatype Effect = Effect(op: EffectOp, path: string, value: Value, rule: Option<string>)

  datatype MutationError = UnknownMutationOperator(operator: string)

  /** The mutation operator each effect operation comes from. */
  function OperatorOf(op: EffectOp): string
  {
    match op
    case Set => "="
    case Increment => "+="
    case Decrement => "-="
  }

  /** The effect operation's name as it appears in mutation summaries. */
  function OpName(op: EffectOp): string
  {
    match op
    case Set => "set"
    case Increment => "increment"
    case Decrement => "decrement"
  }

  /**
   * `=` becomes set, `+=` increment, `-=` decrement; the path and value are
   * copied unchanged; any other operator fails.
   */
  function BuildEffect(m: Mutation): (r: Result<Effect, MutationError>)
    ensures r.Success? <==> m.operator in {"=", "+=", "-="}
    ensures r.Success? ==> Mutation(r.value.path, OperatorOf(r.value.op), r.value.value) == m
    ensures r.Success? ==> r.value.rule.None?
    ensures r.Failure? ==> r.error == UnknownMutationOperator(m.operator)
  {
    if m.operator == "=" then Success(Effect(Set, m.path, m.value, None))
    else if m.operator == "+=" then Success(Effect(Increment, m.path, m.value, None))
    else if m.operator == "-=" then Success(Effect(Decrement, m.path, m.value, None))
    else Failure(UnknownMutationOperator(m.operator))
  }

  /**
   * All of a list's effects, in order, or the error of the first mutation
   * that cannot be built (no partial list).
   */
  function Collect(mutations: seq<Mutation>): Result<seq<Effect>, MutationError>
    decreases |mutations|
  {
    if |mutations| == 0 then Success([])
    else
      var n := |mutations| - 1;
      match Collect(mutations[..n])
      case Failure(e) => Failure(e)
      case Success(init) =>
        match BuildEffect(mutations[n])
        case Failure(e) => Failure(e)
        case Success(effect) => Success(init + [effect])
  }

  /**
   * Collecting succeeds exactly when every mutation builds, and then gives
   * one effect per mutation, in order; otherwise it fails with the error of
   * the first mutation that does not build.
   */
  lemma {:induction false} CollectMeaning(mutations: seq<Mutation>)
    ensures Collect(mutations).Success? <==> forall i :: 0 <= i < |mutations| ==> BuildEffect(mutations[i]).Success?
    ensures Collect(mutations).Success? ==>
      && |Collect(mutations).value| == |mutations|
      && forall i :: 0 <= i < |mutations| ==> BuildEffect(mutations[i]) == Success(Collect(mutations).value[i])
    ensures Collect(mutations).Failure? ==>
      exists i :: 0 <= i < |mutations| && BuildEffect(mutations[i]) == Failure(Collect(mutations).error)
        && forall j :: 0 <= j < i ==> BuildEffect(mutations[j]).Success?
    decreases |mutations|
  {
    if |mutations| > 0 {
      var n := |mutations| - 1;
      var init := mutations[..n];
      CollectMeaning(init);
      assert forall i :: 0 <= i < n ==> init[i] == mutations[i];
      if Collect(init).Success? && BuildEffect(mutations[n]).Success? {
        var r := Collect(mutations).value;
        assert r == Collect(init).value + [BuildEffect(mutations[n]).value];
        assert forall i :: 0 <= i < n ==> r[i] == Collect(init).value[i];
      }
    }
  }

  /** The source's loop, appending one built effect per mutation. */
  method CollectEffects(mutations: seq<Mutation>) returns (r: Result<seq<Effect>, MutationError>)
    ensures r == Collect(mutations)
  {
    var effects: seq<Effect> := [];
    var i := 0;
    while i < |mutations|
      invariant 0 <= i <= |mutations|
      invariant Collect(mutations[..i]) == Success(effects)
    {
      assert mutations[..i + 1][..i] == mutations[..i];
      var built := BuildEffect(mutations[i]);
      if built.Failure? {
        PrefixFailure(mutations, i + 1);
        return Failure(built.error);
      }
      effects := effects + [built.value];
      i := i + 1;
    }
    assert mutations[..i] == mutations;
    return Success(effects);
  }

  /** One step of the recursion: a failing init makes the whole list fail alike. */
  lemma CollectFailsOnInit(mutations: seq<Mutation>)
    requires |mutations| > 0 && Collect(mutations[..|mutations| - 1]).Failure?
    ensures Collect(mutations) == Collect(mutations[..|mutations| - 1])
  {
  }

  /** Once a prefix fails to collect, the whole list fails with the same error. */
  lemma {:induction false} PrefixFailure(mutations: seq<Mutation>, k: nat)
    requires k <= |mutations|
    requires Collect(mutations[..k]).Failure?
    ensures Collect(mutations) == Collect(mutations[..k])
    decreases |mutations| - k
  {
    if k < |mutations| {
      var n := |mutations| - 1;
      assert mutations[..n][..k] == mutations[..k];
      PrefixFailure(mutations[..n], k);
      CollectFailsOnInit(mutations);
    } else {
      assert mutations[..k] == mutations;
    }
  }
}
