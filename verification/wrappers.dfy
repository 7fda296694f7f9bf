/** Outcome datatypes shared by the whole model.

    The adapter layer signals failure with Python exceptions; the model carries the
    exception class in a `Result` instead, so every error path is an ordinary value. */
module Wrappers {

  /** The exception classes the modelled code raises. */
  datatype PyError =
    | ValueError
    | TypeError
    | KeyError
    | IndexError
    | AttributeError
    | NotImplementedError
    | XmlParseError

  datatype Option<+T> = None | Some(value: T) {
    function GetOr(default: T): T {
      match this
      case Some(v) => v
      case None => default
    }
  }

  /** A value, or the exception that was raised instead of returning it. */
  datatype Result<+T> = Ok(value: T) | Err(error: PyError) {
    predicate IsFailure() {
      Err?
    }

    function PropagateFailure<U>(): Result<U>
      requires Err?
    {
      Err(error)
    }

    function Extract(): T
      requires Ok?
    {
      value
    }
  }

  /** Success without a value (a Python function that returns None or raises). */
  datatype Outcome = Pass | Fail(error: PyError) {
    predicate IsFailure() {
      Fail?
    }

    function PropagateFailure<U>(): Result<U>
      requires Fail?
    {
      Err(error)
    }
  }

  /** `f` applied to every entry in order; the first failure is raised. */
  function MapResults<A, B>(xs: seq<A>, f: A -> Result<B>): (r: Result<seq<B>>)
    ensures r.Ok? ==> |r.value| == |xs|
    ensures r.Ok? ==> forall k :: 0 <= k < |xs| ==> f(xs[k]) == Ok(r.value[k])
    ensures r.Err? ==> exists k :: 0 <= k < |xs| && f(xs[k]) == Err(r.error)
  {
    if xs == [] then Ok([])
    else
      var head := f(xs[0]);
      if head.Err? then Err(head.error)
      else
        var rest := MapResults(xs[1..], f);
        if rest.Err? then
          assert forall k :: 0 <= k < |xs| - 1 ==> xs[1..][k] == xs[k + 1];
          Err(rest.error)
        else
          assert forall k :: 0 < k < |xs| ==> xs[k] == xs[1..][k - 1];
          Ok([head.value] + rest.value)
  }

  /** Entries that each map to an expected value map, together, to the expected values. */
  lemma {:induction false} MapResultsAll<A, B>(xs: seq<A>, f: A -> Result<B>, rs: seq<B>)
    requires |rs| == |xs|
    requires forall k :: 0 <= k < |xs| ==> f(xs[k]) == Ok(rs[k])
    ensures MapResults(xs, f) == Ok(rs)
  {
    if xs != [] {
      assert forall k :: 0 <= k < |xs| - 1 ==> xs[1..][k] == xs[k + 1] && rs[1..][k] == rs[k + 1];
      MapResultsAll(xs[1..], f, rs[1..]);
      assert rs == [rs[0]] + rs[1..];
    }
  }
}
