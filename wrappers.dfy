/** Option and Result values shared by the model.
    `Result<T, E>` stands for Rust's `Result`; the macro crate's `syn::Result<T>`
    is `Result<T, string>` (an error is known here by its message only). */
module Wrappers {

  datatype Option<+T> = None | Some(value: T) {
    function GetOr(default: T): T {
      match this
      case Some(v) => v
      case None => default
    }

    predicate IsFailure() {
      None?
    }

    function PropagateFailure<U>(): Option<U>
      requires None?
    {
      None
    }

    function Extract(): T
      requires Some?
    {
      value
    }
  }

  datatype Result<+T, +E> = Ok(value: T) | Err(error: E) {
    predicate IsFailure() {
      Err?
    }

    function PropagateFailure<U>(): Result<U, E>
      requires Err?
    {
      Err(error)
    }

    function Extract(): T
      requires Ok?
    {
      value
    }
  }

  /** `xs.iter().map(f).collect::<Result<Vec<_>, _>>()`: every value in order, or
      the error of the first element that fails. */
  function CollectAll<A, B, E>(xs: seq<A>, f: A -> Result<B, E>): (r: Result<seq<B>, E>)
    ensures r.Ok? <==> forall k :: 0 <= k < |xs| ==> f(xs[k]).Ok?
    ensures r.Ok? ==> |r.value| == |xs| && forall k :: 0 <= k < |xs| ==> r.value[k] == f(xs[k]).value
    ensures r.Err? ==>
              exists k :: 0 <= k < |xs| && f(xs[k]) == Err(r.error) && forall j :: 0 <= j < k ==> f(xs[j]).Ok?
    decreases |xs|
  {
    if |xs| == 0 then Ok([])
    else
      var y :- f(xs[0]);
      var ys :- CollectAll(xs[1..], f);
      Ok([y] + ys)
  }

  /** Collecting with two functions that agree on every element gives the same
      result. */
  lemma {:induction false} CollectAllPointwise<A, B, E>(xs: seq<A>, f: A -> Result<B, E>, g: A -> Result<B, E>)
    requires forall k :: 0 <= k < |xs| ==> f(xs[k]) == g(xs[k])
    ensures CollectAll(xs, f) == CollectAll(xs, g)
    decreases |xs|
  {
    if |xs| > 0 {
      assert f(xs[0]) == g(xs[0]);
      CollectAllPointwise(xs[1..], f, g);
    }
  }
}
