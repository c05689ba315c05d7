/** Option and Result: the absent value (PHP null) and the thrown exception. */
module Wrappers {

  datatype Option<+T> = None | Some(value: T)

  datatype Result<+T, +E> = Ok(value: T) | Err(error: E)

  /**
   * A `foreach` (or `array_map`) that applies `f` to every element in order and lets the
   * first exception propagate.
   */
  function MapAll<A, B(==), E(==)>(xs: seq<A>, f: A -> Result<B, E>): (r: Result<seq<B>, E>)
    ensures r.Ok? <==> forall i :: 0 <= i < |xs| ==> f(xs[i]).Ok?
    ensures r.Ok? ==> |r.value| == |xs| && forall i :: 0 <= i < |xs| ==> f(xs[i]) == Ok(r.value[i])
    ensures r.Err? ==> exists i :: (0 <= i < |xs| && (forall k :: 0 <= k < i ==> f(xs[k]).Ok?)
      && f(xs[i]) == Err(r.error))
    decreases |xs|
  {
    if |xs| == 0 then Ok([])
    else
      match f(xs[0])
      case Err(e) => Err(e)
      case Ok(y) =>
        assert forall i :: 1 <= i < |xs| ==> xs[i] == xs[1..][i - 1];
        match MapAll(xs[1..], f)
        case Err(e) =>
          var i :| 0 <= i < |xs[1..]| && (forall k :: 0 <= k < i ==> f(xs[1..][k]).Ok?) && f(xs[1..][i]) == Err(e);
          assert f(xs[i + 1]) == Err(e);
          Err(e)
        case Ok(ys) => Ok([y] + ys)
  }

  /** The error of `MapAll` is the error of the first element that fails. */
  lemma MapAllFirstError<A, B, E>(xs: seq<A>, f: A -> Result<B, E>, i: nat)
    requires i < |xs| && f(xs[i]).Err?
    requires forall k :: 0 <= k < i ==> f(xs[k]).Ok?
    ensures MapAll(xs, f) == Err(f(xs[i]).error)
  {
    var r := MapAll(xs, f);
    var m :| 0 <= m < |xs| && (forall k :: 0 <= k < m ==> f(xs[k]).Ok?) && f(xs[m]) == Err(r.error);
    assert m == i;
  }

  /** `MapAll` succeeds with exactly the list of results when every element succeeds. */
  lemma MapAllValues<A, B, E>(xs: seq<A>, f: A -> Result<B, E>, ys: seq<B>)
    requires |ys| == |xs| && forall i :: 0 <= i < |xs| ==> f(xs[i]) == Ok(ys[i])
    ensures MapAll(xs, f) == Ok(ys)
  {
    var r := MapAll(xs, f);
    assert r.Ok?;
    assert r.value == ys;
  }
}
