/** Types that several modules share. */
module Basics {

  datatype Option<T> = None | Some(value: T)

  newtype byte = x: int | 0 <= x < 256

  /** Trade numbers of orders are only ever compared, so they are numbered. */
  type TradeNo = nat

  /** `out` is made of the kept elements of `src`, in their order; `idx` says where they stand. */
  ghost predicate KeptInOrder<S, T>(src: seq<S>, keep: S -> bool, make: S -> T, out: seq<T>, idx: seq<nat>) {
    && |out| == |idx|
    && (forall i | 0 <= i < |idx| :: idx[i] < |src| && keep(src[idx[i]]) && out[i] == make(src[idx[i]]))
    && (forall i, j | 0 <= i < j < |idx| :: idx[i] < idx[j])
    && (forall k: nat | k < |src| && keep(src[k]) :: k in idx)
  }

  lemma InOrderPasses<S, T>(src: seq<S>, x: S, keep: S -> bool, make: S -> T, out: seq<T>, idx: seq<nat>)
    requires KeptInOrder(src, keep, make, out, idx) && !keep(x)
    ensures KeptInOrder(src + [x], keep, make, out, idx)
  {
  }

  lemma InOrderTakes<S, T>(src: seq<S>, x: S, keep: S -> bool, make: S -> T, out: seq<T>, idx: seq<nat>)
    requires KeptInOrder(src, keep, make, out, idx) && keep(x)
    ensures KeptInOrder(src + [x], keep, make, out + [make(x)], idx + [|src|])
  {
    var next, src' := idx + [|src|], src + [x];
    forall k: nat | k < |src'| && keep(src'[k]) ensures k in next {
      if k == |src| { assert next[|idx|] == k; } else { assert src'[k] == src[k] && k in idx; }
    }
  }

  lemma SameInOrder<S, T>(src: seq<S>, keep: S -> bool, same: S -> bool, make: S -> T, out: seq<T>, idx: seq<nat>)
    requires KeptInOrder(src, keep, make, out, idx) && forall i | 0 <= i < |src| :: keep(src[i]) <==> same(src[i])
    ensures KeptInOrder(src, same, make, out, idx)
  {
  }
}

/** When two prices or ratios count as equal. */
module NearEquality {

  const EPSILON := 0.000000001

  predicate NearlyEqual(a: real, b: real) {
    if a > b then a - b < EPSILON else b - a < EPSILON
  }

  /** They differ by less than a billionth, either way. */
  lemma NearlyEqualIs(a: real, b: real)
    ensures NearlyEqual(a, b) <==> -0.000000001 < a - b < 0.000000001
  {
  }
}
