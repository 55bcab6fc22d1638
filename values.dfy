/**
 * The context document: JSON-like values, dotted paths and the mutable
 * context object that the caller shares with the runtime.
 */
module Values {

  /** A value of the context document (numbers are integers). */
  datatype Value =
    | VNull
    | VBool(b: bool)
    | VInt(i: int)
    | VStr(s: string)
    | VList(items: seq<Value>)
    | VMap(fields: map<string, Value>)

  const DOT: char := '.'

  /** Joins path segments with dots, the inverse of Split. */
  function Join(parts: seq<string>): string
    requires |parts| >= 1
  {
    if |parts| == 1 then parts[0] else parts[0] + [DOT] + Join(parts[1..])
  }

  /**
   * The segments of a dotted path, as Python's `path.split(".")` gives them:
   * always at least one segment, possibly empty ones ("" gives [""]).
   */
  function Split(s: string): (parts: seq<string>)
    ensures |parts| >= 1
  {
    if |s| == 0 then [""]
    else
      var rest := Split(s[1..]);
      if s[0] == DOT then [""] + rest
      else [[s[0]] + rest[0]] + rest[1..]
  }

  /** Round trip: the segments hold no dot, and joining them gives the path back. */
  lemma {:induction false} SplitMeaning(s: string)
    ensures forall i :: 0 <= i < |Split(s)| ==> DOT !in Split(s)[i]
    ensures Join(Split(s)) == s
    decreases |s|
  {
    if |s| > 0 {
      var rest := Split(s[1..]);
      SplitMeaning(s[1..]);
      assert s == [s[0]] + s[1..];
      if s[0] != DOT {
        var parts := [[s[0]] + rest[0]] + rest[1..];
        assert parts == Split(s);
        assert parts[1..] == rest[1..];
        assert forall i :: 1 <= i < |parts| ==> parts[i] == rest[i];
        if |rest| > 1 {
          assert Join(rest) == rest[0] + [DOT] + Join(rest[1..]);
          assert Join(parts) == [s[0]] + rest[0] + [DOT] + Join(rest[1..]);
        }
      } else {
        assert Split(s) == [""] + rest;
        assert forall i :: 1 <= i < |Split(s)| ==> Split(s)[i] == rest[i - 1];
        assert (Split(s))[1..] == rest;
      }
    }
  }

  /** A segment without dots splits into itself. */
  lemma {:induction false} SplitSegment(a: string)
    requires DOT !in a
    ensures Split(a) == [a]
  {
    if |a| > 0 {
      assert DOT !in a[1..];
      SplitSegment(a[1..]);
      assert [a[0]] + a[1..] == a;
    }
  }

  /** Splitting at the first dot: a dot-free head followed by the rest. */
  lemma {:induction false} SplitAtDot(a: string, b: string)
    requires DOT !in a
    ensures Split(a + [DOT] + b) == [a] + Split(b)
  {
    if |a| == 0 {
      assert a + [DOT] + b == [DOT] + b;
      assert ([DOT] + b)[1..] == b;
    } else {
      var s := a + [DOT] + b;
      assert s[1..] == a[1..] + [DOT] + b;
      assert DOT !in a[1..];
      SplitAtDot(a[1..], b);
      assert [a[0]] + a[1..] == a;
    }
  }

  /** Round trip: dot-free segments survive a Join followed by a Split. */
  lemma {:induction false} SplitJoin(parts: seq<string>)
    requires |parts| >= 1
    requires forall i :: 0 <= i < |parts| ==> DOT !in parts[i]
    ensures Split(Join(parts)) == parts
  {
    if |parts| == 1 {
      SplitSegment(parts[0]);
    } else {
      SplitJoin(parts[1..]);
      SplitAtDot(parts[0], Join(parts[1..]));
      assert [parts[0]] + parts[1..] == parts;
    }
  }

  /**
   * The context object that the caller owns. The runtime writes its root in
   * apply mode and hands the same object back in the run result.
   */
  class Context {
    var root: Value

    constructor (document: Value)
      ensures root == document
    {
      root := document;
    }
  }
}
