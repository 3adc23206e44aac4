/** Real-valued helpers. Every `Math.hypot(dx, dy) < t` of the controller is
    stated as `dx*dx + dy*dy < t*t`; `SquaredComparison` justifies the swap. */
module Geometry {

  function Abs(a: real): (r: real)
    ensures r >= 0.0
    ensures r == a || r == -a
  {
    if a < 0.0 then -a else a
  }

  function MinReal(a: real, b: real): (r: real)
    ensures r <= a && r <= b
    ensures r == a || r == b
  {
    if b < a then b else a
  }

  function MaxReal(a: real, b: real): (r: real)
    ensures r >= a && r >= b
    ensures r == a || r == b
  {
    if b > a then b else a
  }

  function Sq(a: real): (r: real)
    ensures r >= 0.0
  {
    SquareSign(a);
    a * a
  }

  lemma SquareSign(a: real)
    ensures a * a >= 0.0
    ensures a != 0.0 ==> a * a > 0.0
  {
    if a > 0.0 {
      MulPositive(a, a);
    } else if a < 0.0 {
      MulPositive(-a, -a);
    }
  }

  lemma SqScale(k: real, a: real)
    ensures Sq(k * a) == k * k * Sq(a)
  {
    assert (k * a) * (k * a) == k * k * (a * a);
  }

  lemma MulNonNegative(a: real, b: real)
    requires a >= 0.0 && b >= 0.0
    ensures a * b >= 0.0
  {
  }

  lemma MulPositive(a: real, b: real)
    requires a > 0.0 && b > 0.0
    ensures a * b > 0.0
  {
  }

  /** Squared Euclidean distance between (x1, y1) and (x2, y2). */
  function DistSq(x1: real, y1: real, x2: real, y2: real): (r: real)
    ensures r >= 0.0
  {
    Sq(x1 - x2) + Sq(y1 - y2)
  }

  /** For non-negative lengths, comparing lengths and comparing their squares agree. */
  lemma SquaredComparison(d: real, t: real)
    requires d >= 0.0 && t >= 0.0
    ensures d < t <==> d * d < t * t
  {
    if d < t {
      MulNonNegative(d, t - d);
      MulPositive(t, t - d);
      assert d * (t - d) == d * t - d * d;
      assert t * (t - d) == t * t - t * d;
    } else {
      MulNonNegative(t, d - t);
      MulNonNegative(d, d - t);
      assert t * (d - t) == t * d - t * t;
      assert d * (d - t) == d * d - d * t;
    }
  }
}
