/** Path lookup and condition evaluation over the context document. */
module Evaluator {
  import opened Wrappers
  import opened Values
  import opened Node

  /**
   * Evaluation failures. `NotOrderable` stands for the TypeError Python
   * raises when an ordering operator meets values it cannot order.
   */
  datatype EvalError =
    | PathNotFound(path: string)
    | UnknownOperator(operator: string)
    | UnknownExpression(kind: string)
    | NotOrderable(operator: string)

  // ---------------------------------------------------------------------
  // Path lookup
  // ---------------------------------------------------------------------

  /** The value reached from `v` by following `parts` through nested maps. */
  function Lookup(v: Value, parts: seq<string>): Option<Value>
  {
    if |parts| == 0 then Some(v)
    else if v.VMap? && parts[0] in v.fields then Lookup(v.fields[parts[0]], parts[1..])
    else None
  }

  /** The value at a dotted path, or the error naming the path. */
  function ResolvePath(context: Value, path: string): (r: Result<Value, EvalError>)
    ensures !context.VMap? ==> r == Failure(PathNotFound(path))
  {
    match Lookup(context, Split(path))
    case Some(v) => Success(v)
    case None => Failure(PathNotFound(path))
  }

  /** Walks the path one segment at a time, as the source's loop does. */
  method GetValueFromPath(context: Value, path: string) returns (r: Result<Value, EvalError>)
    ensures r == ResolvePath(context, path)
  {
    var parts := Split(path);
    var current := context;
    var i := 0;
    while i < |parts|
      invariant 0 <= i <= |parts|
      invariant Lookup(context, parts) == Lookup(current, parts[i..])
    {
      var part := parts[i];
      if current.VMap? && part in current.fields {
        current := current.fields[part];
      } else {
        return Failure(PathNotFound(path));
      }
      i := i + 1;
    }
    return Success(current);
  }

  /** Looking up a concatenation is looking up the second part from the first's result. */
  lemma {:induction false} LookupAppend(v: Value, p: seq<string>, q: seq<string>)
    ensures Lookup(v, p + q) == (match Lookup(v, p) case None => None case Some(w) => Lookup(w, q))
  {
    if |p| == 0 {
      assert p + q == q;
    } else {
      assert (p + q)[0] == p[0];
      assert (p + q)[1..] == p[1..] + q;
      if v.VMap? && p[0] in v.fields {
        LookupAppend(v.fields[p[0]], p[1..], q);
      }
    }
  }

  /**
   * A successful lookup passes through a map at every prefix, each holding
   * the next segment, and returns exactly the nested value.
   */
  lemma {:induction false} LookupThroughMaps(v: Value, parts: seq<string>, k: nat)
    requires Lookup(v, parts).Some?
    requires k < |parts|
    ensures Lookup(v, parts[..k]).Some?
    ensures Lookup(v, parts[..k]).value.VMap?
    ensures parts[k] in Lookup(v, parts[..k]).value.fields
    ensures Lookup(v, parts[..k + 1]) == Some(Lookup(v, parts[..k]).value.fields[parts[k]])
  {
    if k > 0 {
      LookupThroughMaps(v.fields[parts[0]], parts[1..], k - 1);
      assert parts[..k][1..] == parts[1..][..k - 1];
      assert parts[..k + 1][1..] == parts[1..][..k];
    }
  }

  /** The lookup breaks at segment k: the node there is not a map holding parts[k]. */
  ghost predicate BrokenAt(v: Value, parts: seq<string>, k: nat)
    requires k < |parts|
  {
    var node := Lookup(v, parts[..k]);
    node.Some? && !(node.value.VMap? && parts[k] in node.value.fields)
  }

  /**
   * A lookup fails exactly when some segment is absent or meets a non-map
   * (a missing last segment and a non-map root included).
   */
  lemma {:induction false} LookupFailsAt(v: Value, parts: seq<string>)
    ensures Lookup(v, parts).None? <==> exists k :: 0 <= k < |parts| && BrokenAt(v, parts, k)
  {
    if |parts| == 0 {
    } else if v.VMap? && parts[0] in v.fields {
      var w := v.fields[parts[0]];
      LookupFailsAt(w, parts[1..]);
      if Lookup(v, parts).None? {
        var j :| 0 <= j < |parts| - 1 && BrokenAt(w, parts[1..], j);
        assert parts[..j + 1][1..] == parts[1..][..j];
        assert BrokenAt(v, parts, j + 1);
      } else {
        forall k | 0 <= k < |parts| ensures !BrokenAt(v, parts, k) {
          LookupThroughMaps(v, parts, k);
        }
      }
    } else {
      assert parts[..0] == [];
      assert BrokenAt(v, parts, 0);
    }
  }

  // ---------------------------------------------------------------------
  // Comparison
  // ---------------------------------------------------------------------

  /** Python's ordering of strings: lexicographic by code point. */
  predicate StrLess(a: string, b: string)
  {
    if |a| == 0 then |b| > 0
    else if |b| == 0 then false
    else if a[0] != b[0] then a[0] < b[0]
    else StrLess(a[1..], b[1..])
  }

  /**
   * StrLess is lexicographic order by code point: `a` is a proper prefix of
   * `b`, or the first position where they differ holds a smaller character
   * in `a`.
   */
  lemma {:induction false} StrLessLexicographic(a: string, b: string)
    ensures StrLess(a, b) <==>
      (|a| < |b| && a == b[..|a|]) ||
      (exists k :: 0 <= k < |a| && k < |b| && a[..k] == b[..k] && a[k] < b[k])
  {
    if |a| == 0 {
      assert a == b[..0];
    } else if |b| == 0 {
    } else if a[0] != b[0] {
      if a[0] < b[0] {
        assert a[..0] == b[..0];
      }
      forall k | 0 < k < |a| && k < |b|
        ensures a[..k] != b[..k]
      {
        assert a[..k][0] == a[0] && b[..k][0] == b[0];
      }
      if |a| < |b| {
        assert b[..|a|][0] == b[0];
      }
    } else {
      var a', b' := a[1..], b[1..];
      StrLessLexicographic(a', b');
      if |a| < |b| {
        assert b[..|a|] == [b[0]] + b'[..|a'|];
        assert a == [a[0]] + a';
        assert a == b[..|a|] <==> a' == b'[..|a'|];
      }
      forall k | 0 < k < |a| && k < |b|
        ensures (a[..k] == b[..k]) <==> (a'[..k - 1] == b'[..k - 1])
        ensures a[k] == a'[k - 1] && b[k] == b'[k - 1]
      {
        assert a[..k] == [a[0]] + a'[..k - 1];
        assert b[..k] == [b[0]] + b'[..k - 1];
      }
      if exists k :: 0 <= k < |a| && k < |b| && a[..k] == b[..k] && a[k] < b[k] {
        var k :| 0 <= k < |a| && k < |b| && a[..k] == b[..k] && a[k] < b[k];
        assert 0 <= k - 1 < |a'| && k - 1 < |b'| && a'[..k - 1] == b'[..k - 1] && a'[k - 1] < b'[k - 1];
      }
      if exists j :: 0 <= j < |a'| && j < |b'| && a'[..j] == b'[..j] && a'[j] < b'[j] {
        var j :| 0 <= j < |a'| && j < |b'| && a'[..j] == b'[..j] && a'[j] < b'[j];
        assert 0 <= j + 1 < |a| && j + 1 < |b| && a[..j + 1] == b[..j + 1] && a[j + 1] < b[j + 1];
      }
    }
  }

  /** String ordering is a strict total order: exactly one of <, ==, > holds. */
  lemma {:induction false} StrLessTrichotomy(a: string, b: string)
    ensures StrLess(a, b) || a == b || StrLess(b, a)
    ensures !(StrLess(a, b) && StrLess(b, a))
    ensures !StrLess(a, a)
  {
    if |a| > 0 && |b| > 0 {
      StrLessTrichotomy(a[1..], b[1..]);
      StrLessTrichotomy(a[1..], a[1..]);
      if a[0] == b[0] && a[1..] == b[1..] {
        assert a == [a[0]] + a[1..] && b == [b[0]] + b[1..];
      }
    } else if |a| > 0 {
      StrLessTrichotomy(a[1..], a[1..]);
    }
  }

  predicate IsOrdering(op: string)
  {
    op == ">" || op == ">=" || op == "<" || op == "<="
  }

  /** Values Python orders natively in the model: two integers or two strings. */
  predicate Orderable(left: Value, right: Value)
  {
    (left.VInt? && right.VInt?) || (left.VStr? && right.VStr?)
  }

  /** `left < right` for orderable values. */
  predicate Less(left: Value, right: Value)
    requires Orderable(left, right)
  {
    if left.VInt? then left.i < right.i else StrLess(left.s, right.s)
  }

  /** One of the six comparison operators applied to two values. */
  function Compare(op: string, left: Value, right: Value): Result<bool, EvalError>
  {
    if op == "==" then Success(left == right)
    else if op == "!=" then Success(left != right)
    else if IsOrdering(op) then
      if !Orderable(left, right) then Failure(NotOrderable(op))
      else if op == ">" then Success(Less(right, left))
      else if op == ">=" then Success(!Less(left, right))
      else if op == "<" then Success(Less(left, right))
      else Success(!Less(right, left))
    else Failure(UnknownOperator(op))
  }

  /**
   * The six operators agree with one strict total order on integers and on
   * strings: `<` is the converse of `>`, `>=` is `>` or `==`, `<=` is `<` or
   * `==`, exactly one of `<`, `==`, `>` holds, and `!=` negates `==` on any
   * values. Any other operator fails. On two integers the operators are the
   * usual integer order; on two strings they are StrLess, lexicographic by
   * code point.
   */
  lemma ComparisonLaws(op: string, left: Value, right: Value)
    ensures Compare("!=", left, right) == Success(!Compare("==", left, right).value)
    ensures Compare("==", left, right) == Success(left == right)
    ensures op != "==" && op != "!=" && !IsOrdering(op) ==> Compare(op, left, right) == Failure(UnknownOperator(op))
    ensures IsOrdering(op) && !Orderable(left, right) ==> Compare(op, left, right) == Failure(NotOrderable(op))
    ensures Orderable(left, right) ==>
      var lt := Compare("<", left, right).value;
      var gt := Compare(">", left, right).value;
      && Compare("<", left, right) == Compare(">", right, left)
      && Compare("<=", left, right) == Compare(">=", right, left)
      && Compare(">=", left, right) == Success(gt || left == right)
      && Compare("<=", left, right) == Success(lt || left == right)
      && (lt || left == right || gt)
      && !(lt && left == right) && !(gt && left == right) && !(lt && gt)
    ensures left.VInt? && right.VInt? ==>
      && Compare("<", left, right) == Success(left.i < right.i)
      && Compare(">", left, right) == Success(left.i > right.i)
      && Compare("<=", left, right) == Success(left.i <= right.i)
      && Compare(">=", left, right) == Success(left.i >= right.i)
    ensures left.VStr? && right.VStr? ==>
      && Compare("<", left, right) == Success(StrLess(left.s, right.s))
      && Compare(">", left, right) == Success(StrLess(right.s, left.s))
      && Compare("<=", left, right) == Success(!StrLess(right.s, left.s))
      && Compare(">=", left, right) == Success(!StrLess(left.s, right.s))
  {
    if Orderable(left, right) && left.VStr? {
      StrLessTrichotomy(left.s, right.s);
    }
  }

  /** A comparison: the left operand is the value at the path, the right one the literal. */
  function EvalComparison(path: string, op: string, literal: Value, context: Value): Result<bool, EvalError>
  {
    match ResolvePath(context, path)
    case Failure(e) => Failure(e)
    case Success(left) => Compare(op, left, literal)
  }

  // ---------------------------------------------------------------------
  // Evaluation
  // ---------------------------------------------------------------------

  /** Evaluates a condition; `and` and `or` short-circuit as in Python. */
  function Evaluate(e: Expr, context: Value): Result<bool, EvalError>
  {
    match e
    case Comparison(path, op, literal) => EvalComparison(path, op, literal, context)
    case And(l, r) =>
      (match Evaluate(l, context)
       case Failure(err) => Failure(err)
       case Success(b) => if !b then Success(false) else Evaluate(r, context))
    case Or(l, r) =>
      (match Evaluate(l, context)
       case Failure(err) => Failure(err)
       case Success(b) => if b then Success(true) else Evaluate(r, context))
    case Other(kind) => Failure(UnknownExpression(kind))
  }

  /**
   * The condition's explanation. `explain` is called by the runtime but not
   * defined in the evaluator module; it is taken to return the result of
   * Evaluate together with a details text, left empty here.
   */
  function Explain(condition: Expr, context: Value): (r: Result<(bool, string), EvalError>)
    ensures r.Success? <==> Evaluate(condition, context).Success?
    ensures r.Success? ==> r.value.0 == Evaluate(condition, context).value
    ensures r.Failure? ==> r.error == Evaluate(condition, context).error
  {
    match Evaluate(condition, context)
    case Success(b) => Success((b, ""))
    case Failure(e) => Failure(e)
  }

  /**
   * Reference semantics without short-circuiting: both operands of `and`
   * and `or` are always evaluated, left first.
   */
  function EvaluateStrict(e: Expr, context: Value): Result<bool, EvalError>
  {
    match e
    case Comparison(path, op, literal) => EvalComparison(path, op, literal, context)
    case And(l, r) =>
      (match (EvaluateStrict(l, context), EvaluateStrict(r, context))
       case (Failure(err), _) => Failure(err)
       case (Success(_), Failure(err)) => Failure(err)
       case (Success(a), Success(b)) => Success(a && b))
    case Or(l, r) =>
      (match (EvaluateStrict(l, context), EvaluateStrict(r, context))
       case (Failure(err), _) => Failure(err)
       case (Success(_), Failure(err)) => Failure(err)
       case (Success(a), Success(b)) => Success(a || b))
    case Other(kind) => Failure(UnknownExpression(kind))
  }

  /**
   * Short-circuiting changes nothing except that it can succeed where the
   * strict reading fails: whenever strict evaluation succeeds the two agree
   * (so `and`/`or` follow the boolean truth tables), and whenever the
   * short-circuit evaluation fails the strict one fails too (possibly with
   * the error of a side the short-circuit skipped).
   */
  lemma {:induction false} ShortCircuitRefinesStrict(e: Expr, context: Value)
    ensures EvaluateStrict(e, context).Success? ==> Evaluate(e, context) == EvaluateStrict(e, context)
    ensures Evaluate(e, context).Failure? ==> EvaluateStrict(e, context).Failure?
  {
    match e
    case Comparison(_, _, _) =>
    case And(l, r) =>
      ShortCircuitRefinesStrict(l, context);
      ShortCircuitRefinesStrict(r, context);
    case Or(l, r) =>
      ShortCircuitRefinesStrict(l, context);
      ShortCircuitRefinesStrict(r, context);
    case Other(_) =>
  }

  /** `and` never looks at its right side once the left is false; `or` once it is true. */
  lemma ShortCircuit(l: Expr, r: Expr, context: Value)
    ensures Evaluate(l, context) == Success(false) ==> Evaluate(And(l, r), context) == Success(false)
    ensures Evaluate(l, context) == Success(true) ==> Evaluate(Or(l, r), context) == Success(true)
    ensures Evaluate(l, context) == Success(true) ==> Evaluate(And(l, r), context) == Evaluate(r, context)
    ensures Evaluate(l, context) == Success(false) ==> Evaluate(Or(l, r), context) == Evaluate(r, context)
    ensures Evaluate(l, context).Failure? ==>
      Evaluate(And(l, r), context) == Evaluate(l, context) && Evaluate(Or(l, r), context) == Evaluate(l, context)
  {
  }

  /** Any node other than a comparison, `and` or `or` fails, naming its kind. */
  lemma UnknownNodeFails(kind: string, context: Value)
    ensures Evaluate(Other(kind), context) == Failure(UnknownExpression(kind))
    ensures EvaluateStrict(Other(kind), context) == Failure(UnknownExpression(kind))
  {
  }

  /** The paths a condition may read. */
  function Paths(e: Expr): set<string>
  {
    match e
    case Comparison(path, _, _) => {path}
    case And(l, r) => Paths(l) + Paths(r)
    case Or(l, r) => Paths(l) + Paths(r)
    case Other(_) => {}
  }

  /** A condition's result depends only on the context's values at the paths it reads. */
  lemma {:induction false} EvaluateLocal(e: Expr, c1: Value, c2: Value)
    requires forall p :: p in Paths(e) ==> ResolvePath(c1, p) == ResolvePath(c2, p)
    ensures Evaluate(e, c1) == Evaluate(e, c2)
  {
    match e
    case Comparison(path, _, _) =>
      assert path in Paths(e);
    case And(l, r) =>
      EvaluateLocal(l, c1, c2);
      EvaluateLocal(r, c1, c2);
    case Or(l, r) =>
      EvaluateLocal(l, c1, c2);
      EvaluateLocal(r, c1, c2);
    case Other(_) =>
  }
}
