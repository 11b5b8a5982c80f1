/** Option and Result values shared by every module of the model. */
module Wrappers {

  datatype Option<T> = None | Some(value: T) {
    predicate IsSome() { this.Some? }
  }

  /** A computation that either produced a value or failed with an error (a Rust `Err`, or a panic). */
  datatype Result<T, E> = Ok(value: T) | Err(error: E) {
    predicate IsOk() { this.Ok? }
  }

  /** Every value of a list of results, or None as soon as one is missing:
      a list comprehension whose element expression may raise. */
  function Collect<T>(xs: seq<Option<T>>): (r: Option<seq<T>>)
    ensures r.Some? ==> |r.value| == |xs|
  {
    if xs == [] then Some([])
    else
      match (xs[0], Collect(xs[1..]))
      case (Some(x), Some(rest)) => Some([x] + rest)
      case _ => None
  }

  /** The list is collected exactly when every element is present, and then
      element by element. */
  lemma {:induction false} CollectEach<T>(xs: seq<Option<T>>)
    ensures Collect(xs).Some? <==> forall i :: 0 <= i < |xs| ==> xs[i].Some?
    ensures Collect(xs).Some? ==> forall i :: 0 <= i < |xs| ==> Collect(xs).value[i] == xs[i].value
  {
    if xs != [] {
      var tail := xs[1..];
      CollectEach(tail);
      assert forall i :: 1 <= i < |xs| ==> xs[i] == tail[i - 1];
      if Collect(xs).Some? {
        var rest := Collect(tail).value;
        assert Collect(xs).value == [xs[0].value] + rest;
      }
    }
  }

  /** `[f(x) for x in xs]` when `f` may fail: all or nothing. */
  function CollectMap<A, B>(f: A -> Option<B>, xs: seq<A>): (r: Option<seq<B>>)
    ensures r.Some? ==> |r.value| == |xs|
  {
    if xs == [] then Some([])
    else
      match (f(xs[0]), CollectMap(f, xs[1..]))
      case (Some(y), Some(rest)) => Some([y] + rest)
      case _ => None
  }

  /** The list is mapped exactly when every element maps. */
  lemma {:induction false} CollectMapSome<A, B>(f: A -> Option<B>, xs: seq<A>)
    ensures CollectMap(f, xs).Some? <==> forall i :: 0 <= i < |xs| ==> f(xs[i]).Some?
  {
    if xs != [] {
      var tail := xs[1..];
      CollectMapSome(f, tail);
      assert forall i :: 1 <= i < |xs| ==> xs[i] == tail[i - 1];
    }
  }

  /** A mapped list holds the image of each element at its position. */
  lemma {:induction false} CollectMapValues<A, B>(f: A -> Option<B>, xs: seq<A>)
    requires CollectMap(f, xs).Some?
    ensures forall i :: 0 <= i < |xs| ==> Some(CollectMap(f, xs).value[i]) == f(xs[i])
  {
    if xs != [] {
      var tail := xs[1..];
      CollectMapValues(f, tail);
      assert CollectMap(f, xs).value == [f(xs[0]).value] + CollectMap(f, tail).value;
      assert forall i :: 1 <= i < |xs| ==> xs[i] == tail[i - 1];
    }
  }

  /** When every element maps to the element of `ys` at its position, the
      list maps to `ys`. */
  lemma {:induction false} CollectMapExact<A, B>(f: A -> Option<B>, xs: seq<A>, ys: seq<B>)
    requires |xs| == |ys| && forall i :: 0 <= i < |xs| ==> f(xs[i]) == Some(ys[i])
    ensures CollectMap(f, xs) == Some(ys)
  {
    if xs != [] {
      CollectMapExact(f, xs[1..], ys[1..]);
      assert ys == [ys[0]] + ys[1..];
    }
  }
}
