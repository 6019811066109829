/**
 * The two iterator pipelines the response models and the cursor drain are built from:
 * `items.into_iter().map(f).collect::<Vec<_>>()` and, for a fallible `f`,
 * `items.into_iter().map(f).collect::<Result<Vec<_>, _>>()`, which stops at the
 * first `Err` and returns it without any of the values produced before it.
 */
module Iter {
  import opened Base

  /** `s.into_iter().map(f).collect()`: same length, `f` applied pointwise, order kept. */
  function Map<T, P>(f: T -> P, s: seq<T>): (r: seq<P>)
    ensures |r| == |s|
    ensures forall i :: 0 <= i < |s| ==> r[i] == f(s[i])
  {
    if s == [] then [] else [f(s[0])] + Map(f, s[1..])
  }

  predicate AllOk<T, E>(rs: seq<Result<T, E>>) {
    forall i :: 0 <= i < |rs| ==> rs[i].Ok?
  }

  /** `k` is the position of the first `Err` in `rs`. */
  predicate FirstError<T, E>(rs: seq<Result<T, E>>, k: int) {
    0 <= k < |rs| && rs[k].Err? && forall j :: 0 <= j < k ==> rs[j].Ok?
  }

  lemma FirstErrorUnique<T, E>(rs: seq<Result<T, E>>, j: int, k: int)
    requires FirstError(rs, j) && FirstError(rs, k)
    ensures j == k
  {
  }

  lemma FirstErrorOfTail<T, E>(rs: seq<Result<T, E>>, k: int)
    requires rs != [] && rs[0].Ok? && FirstError(rs[1..], k)
    ensures FirstError(rs, k + 1) && rs[k + 1] == rs[1..][k]
  {
  }

  /**
   * `collect::<Result<Vec<T>, E>>()` over a finite stream of results: all values in
   * order when every element is `Ok`, otherwise exactly the first error.
   */
  function Collect<T, E>(rs: seq<Result<T, E>>): (r: Result<seq<T>, E>)
    ensures r.Ok? <==> AllOk(rs)
    ensures r.Ok? ==> |r.value| == |rs| && forall i :: 0 <= i < |rs| ==> rs[i].Ok? && r.value[i] == rs[i].value
    ensures r.Err? ==> exists k :: FirstError(rs, k) && r.error == rs[k].error
  {
    if rs == [] then Ok([])
    else
      match rs[0]
      case Err(e) =>
        assert FirstError(rs, 0);
        Err(e)
      case Ok(v) =>
        match Collect(rs[1..])
        case Err(e) =>
          assert forall k :: FirstError(rs[1..], k) ==> FirstError(rs, k + 1) && rs[k + 1] == rs[1..][k] by {
            forall k | FirstError(rs[1..], k) ensures FirstError(rs, k + 1) && rs[k + 1] == rs[1..][k] {
              FirstErrorOfTail(rs, k);
            }
          }
          Err(e)
        case Ok(vs) => Ok([v] + vs)
  }

  /** `f` fails at `k` and succeeds on every element before it. */
  predicate FailsFirstAt<T, P, E>(f: T -> Result<P, E>, s: seq<T>, k: int) {
    0 <= k < |s| && f(s[k]).Err? && forall j :: 0 <= j < k ==> f(s[j]).Ok?
  }

  /** `s.into_iter().map(f).collect::<Result<Vec<P>, E>>()`. */
  function TryMap<T, P, E>(f: T -> Result<P, E>, s: seq<T>): (r: Result<seq<P>, E>)
    ensures r.Ok? <==> forall i :: 0 <= i < |s| ==> f(s[i]).Ok?
    ensures r.Ok? ==> |r.value| == |s| && forall i :: 0 <= i < |s| ==> f(s[i]).Ok? && r.value[i] == f(s[i]).value
    ensures r.Err? ==> exists k :: FailsFirstAt(f, s, k) && r.error == f(s[k]).error
  {
    var rs := Map(f, s);
    var r := Collect(rs);
    assert forall k :: FirstError(rs, k) ==> FailsFirstAt(f, s, k);
    r
  }

  /**
   * The outcome of `TryMap` is settled at the first failing element: any `g` that agrees
   * with `f` up to and including that element, whatever it does afterwards, gives the
   * same error. In the lazy Rust pipeline `f` is never called past that element.
   */
  lemma TryMapSettledAtFirstFailure<T, P, E>(f: T -> Result<P, E>, g: T -> Result<P, E>, s: seq<T>, k: int)
    requires FailsFirstAt(f, s, k)
    requires forall i :: 0 <= i <= k ==> g(s[i]) == f(s[i])
    ensures TryMap(f, s) == Err(f(s[k]).error)
    ensures TryMap(g, s) == Err(f(s[k]).error)
  {
    assert FailsFirstAt(g, s, k);
    var rf, rg := TryMap(f, s), TryMap(g, s);
    assert !rf.Ok? by { assert !f(s[k]).Ok?; }
    assert !rg.Ok? by { assert !g(s[k]).Ok?; }
    var kf :| FailsFirstAt(f, s, kf) && rf.error == f(s[kf]).error;
    var kg :| FailsFirstAt(g, s, kg) && rg.error == g(s[kg]).error;
    assert kf == k && kg == k;
  }
}
