/** Failure-compatible containers used throughout the model. */
module Wrappers {

  /** An optional value: Python's `X | None`. */
  datatype Option<+T> = None | Some(value: T)

  /** The outcome of an operation that can raise: a value or the exception it raised. */
  datatype Result<+T, +E> = Ok(value: T) | Err(error: E) {

    predicate IsFailure() {
      Err?
    }

    function PropagateFailure<U>(): Result<U, E>
      requires Err?
    {
      Err(error)
    }

    function Extract(): T
      requires Ok?
    {
      value
    }
  }

  /** Applies `f` to every element in order, all or nothing: the first failure, in order, is the
      failure of the whole, and on success there is exactly one result per element. */
  function Collect<A, B, E>(xs: seq<A>, f: A -> Result<B, E>): (r: Result<seq<B>, E>)
    ensures r.Ok? <==> forall i :: 0 <= i < |xs| ==> f(xs[i]).Ok?
    ensures r.Ok? ==> |r.value| == |xs| && forall i :: 0 <= i < |xs| ==> r.value[i] == f(xs[i]).value
    ensures r.Err? ==> exists i :: 0 <= i < |xs| && f(xs[i]) == Err(r.error)
                                   && forall k :: 0 <= k < i ==> f(xs[k]).Ok?
  {
    if xs == [] then Ok([])
    else
      match f(xs[0])
      case Err(e) => Err(e)
      case Ok(y) =>
        match Collect(xs[1..], f)
        case Err(e) =>
          assert exists i :: 0 <= i < |xs| && f(xs[i]) == Err(e) && forall k :: 0 <= k < i ==> f(xs[k]).Ok? by {
            var i :| 0 <= i < |xs| - 1 && f(xs[1..][i]) == Err(e) && forall k :: 0 <= k < i ==> f(xs[1..][k]).Ok?;
            forall k | 0 <= k < i + 1 ensures f(xs[k]).Ok? {
              if k > 0 { assert xs[k] == xs[1..][k - 1]; }
            }
            assert f(xs[i + 1]) == Err(e);
          }
          Err(e)
        case Ok(ys) =>
          assert forall i :: 0 < i < |xs| ==> xs[i] == xs[1..][i - 1];
          Ok([y] + ys)
  }

  /** The first failing element decides the failure of the whole. */
  lemma CollectFirstFailure<A, B, E>(xs: seq<A>, f: A -> Result<B, E>, i: nat)
    requires i < |xs| && f(xs[i]).Err?
    requires forall k :: 0 <= k < i ==> f(xs[k]).Ok?
    ensures Collect(xs, f) == Err(f(xs[i]).error)
  {
    var r := Collect(xs, f);
    var j :| 0 <= j < |xs| && f(xs[j]) == Err(r.error) && forall k :: 0 <= k < j ==> f(xs[k]).Ok?;
  }

  /** Collecting one more element appends its result. */
  lemma CollectAppend<A, B, E>(xs: seq<A>, x: A, f: A -> Result<B, E>)
    requires Collect(xs, f).Ok? && f(x).Ok?
    ensures Collect(xs + [x], f) == Ok(Collect(xs, f).value + [f(x).value])
  {
    var ys := xs + [x];
    assert forall i :: 0 <= i < |ys| ==> f(ys[i]).Ok? by {
      forall i | 0 <= i < |ys| ensures f(ys[i]).Ok? {
        if i < |xs| {
          assert ys[i] == xs[i];
        }
      }
    }
    var r := Collect(ys, f).value;
    var e := Collect(xs, f).value + [f(x).value];
    assert |r| == |e|;
    forall i | 0 <= i < |r| ensures r[i] == e[i] {
      if i < |xs| {
        assert ys[i] == xs[i];
      }
    }
    assert r == e;
  }
}
