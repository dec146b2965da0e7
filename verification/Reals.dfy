/** The few facts of nonlinear real arithmetic that the amounts need. */
module Reals {

  lemma ProductNonNegative(x: real, y: real)
    requires x >= 0.0 && y >= 0.0
    ensures x * y >= 0.0
  {
  }

  lemma ProductMonotone(x: real, y: real, f: real)
    requires 0.0 <= f && x <= y
    ensures x * f <= y * f
  {
    assert (y - x) * f >= 0.0;
  }

  lemma Distributes(x: real, y: real, f: real)
    ensures (x + y) * f == x * f + y * f
  {
  }

  /** A quotient, characterised by multiplication. */
  lemma RatioFacts(r: real, t: real)
    requires t > 0.0 && r >= 0.0
    ensures r / t >= 0.0 && r / t * t == r
    ensures r / t > 1.0 <==> r > t
    ensures r / t == 1.0 <==> r == t
  {
    var q := r / t;
    Distributes(q, -1.0, t);
    if q < 0.0 {
      ProductNonNegative(-q, t);
    } else if q > 1.0 {
      ProductNonNegative(q - 1.0, t);
    } else {
      ProductMonotone(q, 1.0, t);
    }
  }

  lemma DivideBounds(x: real, t: real, r: real)
    requires t > 0.0
    ensures x <= r * t ==> x / t <= r
    ensures x == r * t ==> x / t == r
    ensures 0.0 <= x ==> 0.0 <= x / t
  {
    var q := x / t;
    assert q * t == x;
    if q > r { assert (q - r) * t > 0.0; }
  }
}
