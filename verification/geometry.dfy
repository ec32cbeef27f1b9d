/** Real-valued helpers shared by the simulation: clamping and circle tests.
    Distances are compared on their squares, so `dist(a, b) < r` is decided
    exactly over the reals without taking a square root. */
module Geometry {

  function Max(a: real, b: real): real { if a >= b then a else b }

  function Min(a: real, b: real): real { if a <= b then a else b }

  function Sq(v: real): real { v * v }

  /** `dist((x1, y1), (x2, y2)) < r`; a non-positive `r` is never reached. */
  predicate Within(x1: real, y1: real, x2: real, y2: real, r: real) {
    0.0 < r && Sq(x1 - x2) + Sq(y1 - y2) < Sq(r)
  }

  /** `Math.max(lo, Math.min(hi, v))`: the point of [lo, hi] nearest to `v`. */
  function Clamp(lo: real, hi: real, v: real): (r: real)
    ensures lo <= r
    ensures lo <= hi ==> r <= hi
    ensures lo <= v <= hi ==> r == v
    ensures v < lo ==> r == lo
    ensures lo <= hi < v ==> r == hi
  {
    Max(lo, Min(hi, v))
  }
}
