/** The polynomial shaping functions, over the reals. */
module Shaping {

  function EaseLinear(t: real): real {
    t
  }

  function EaseSmoothstep(t: real): real {
    t * t * (3.0 - 2.0 * t)
  }

  function EaseSmootherstep(t: real): real {
    t * t * t * (t * (6.0 * t - 15.0) + 10.0)
  }

  ghost predicate Unit(t: real) {
    0.0 <= t <= 1.0
  }

  ghost predicate Increasing(f: real -> real) {
    forall a, b :: 0.0 <= a < b <= 1.0 ==> f(a) < f(b)
  }

  /** On [0,1], `f` grows no faster than `slope`. */
  ghost predicate SlopeAtMost(f: real -> real, slope: real) {
    forall a, b :: 0.0 <= a <= b <= 1.0 ==> f(b) - f(a) <= slope * (b - a)
  }

  /** A strictly increasing function from 0 to 1 that is its own mirror image. */
  ghost predicate IsShape(f: real -> real, slope: real) {
    && f(0.0) == 0.0 && f(1.0) == 1.0
    && Increasing(f)
    && SlopeAtMost(f, slope)
    && forall t :: f(1.0 - t) == 1.0 - f(t)
  }

  // ---------------------------------------------------------------------------
  // Products
  // ---------------------------------------------------------------------------

  // The product is named by a parameter so that a proof can go on with the name alone.

  lemma Square(x: real, z: real)
    requires z == x * x
    ensures z >= 0.0
  {
  }

  lemma NonNegative(x: real, y: real, z: real)
    requires x >= 0.0 && y >= 0.0 && z == x * y
    ensures z >= 0.0
  {
  }

  lemma Positive(x: real, y: real, z: real)
    requires x > 0.0 && y > 0.0 && z == x * y
    ensures z > 0.0
  {
  }

  lemma Times(x: real, y: real, c: real, z: real)
    requires x >= 0.0 && y <= c && z == x * y
    ensures z <= c * x
  {
  }

  // ---------------------------------------------------------------------------
  // The hump t (1 - t)
  // ---------------------------------------------------------------------------

  function Hump(t: real): real {
    t * (1.0 - t)
  }

  lemma HumpRange(t: real)
    requires Unit(t)
    ensures 0.0 <= Hump(t) <= 0.25
  {
    Square(t - 0.5, (t - 0.5) * (t - 0.5));
    assert Hump(t) == 0.25 - (t - 0.5) * (t - 0.5);
    NonNegative(t, 1.0 - t, Hump(t));
  }

  /** Two points can lie far apart only if both lie near the ends of [0,1]. */
  lemma HumpGap(a: real, b: real, d: real)
    requires d == (b - a) * (b - a)
    ensures d <= 1.0 - 2.0 * (Hump(a) + Hump(b))
  {
    var m := a + b - 1.0;
    var z := m * m;
    Square(m, z);
    assert 1.0 - 2.0 * (Hump(a) + Hump(b)) - d == z;
  }

  // ---------------------------------------------------------------------------
  // Smoothstep
  // ---------------------------------------------------------------------------

  lemma SmoothDifference(a: real, b: real, d: real)
    requires d == (b - a) * (b - a)
    ensures EaseSmoothstep(b) - EaseSmoothstep(a) == (b - a) * (3.0 * (Hump(a) + Hump(b)) + d)
  {
  }

  lemma SmoothSlope(a: real, b: real)
    requires 0.0 <= a <= b <= 1.0
    ensures EaseSmoothstep(b) - EaseSmoothstep(a) <= 1.5 * (b - a)
    ensures a < b ==> EaseSmoothstep(a) < EaseSmoothstep(b)
  {
    hide Hump, EaseSmoothstep;
    var d := (b - a) * (b - a);
    SmoothDifference(a, b, d);
    HumpRange(a);
    HumpRange(b);
    HumpGap(a, b, d);
    Square(b - a, d);
    var q := 3.0 * (Hump(a) + Hump(b)) + d;
    var rise := EaseSmoothstep(b) - EaseSmoothstep(a);
    assert rise == (b - a) * q;
    Times(b - a, q, 1.5, rise);
    if a < b {
      Positive(b - a, b - a, d);
      Positive(b - a, q, rise);
    }
  }

  // ---------------------------------------------------------------------------
  // Smootherstep
  // ---------------------------------------------------------------------------

  /** A mean slope as a sum of terms that are never negative. */
  function MeanSlope(p: real, q: real, d: real): real {
    10.0 * (p * p + p * q + q * q) + 5.0 * (d * p + d * q) + d * d
  }

  /** The mean slope from `a` to `b` as a polynomial in both. */
  function Quotient(a: real, b: real): real {
    6.0 * (b * b * b * b + a * b * b * b + a * a * b * b + a * a * a * b + a * a * a * a)
    - 15.0 * (b * b * b + a * b * b + a * a * b + a * a * a)
    + 10.0 * (b * b + a * b + a * a)
  }

  /** The products in a mean slope, term by term. */
  lemma HumpProducts(a: real, b: real)
    ensures Hump(a) * Hump(a) == a * a - 2.0 * (a * a * a) + a * a * a * a
    ensures Hump(a) * Hump(b) == a * b - a * b * b - a * a * b + a * a * b * b
  {
  }

  lemma GapProduct(a: real, b: real, d: real)
    requires d == (b - a) * (b - a)
    ensures d * Hump(a)
         == a * b * b - 2.0 * (a * a * b) + a * a * a - a * a * b * b + 2.0 * (a * a * a * b) - a * a * a * a
  {
  }

  lemma GapSquare(a: real, b: real, d: real)
    requires d == (b - a) * (b - a)
    ensures d * d
         == b * b * b * b - 4.0 * (a * b * b * b) + 6.0 * (a * a * b * b) - 4.0 * (a * a * a * b) + a * a * a * a
  {
  }

  lemma QuotientIsMeanSlope(a: real, b: real)
    ensures Quotient(a, b) == MeanSlope(Hump(a), Hump(b), (b - a) * (b - a))
  {
    var p, q, d := Hump(a), Hump(b), (b - a) * (b - a);
    HumpProducts(a, b);
    HumpProducts(b, a);
    GapProduct(a, b, d);
    GapProduct(b, a, d);
    GapSquare(a, b, d);
    hide Hump;
    MeanSlopeTerms(p, q, d, p * p, p * q, q * q, d * p, d * q, d * d);
  }

  lemma MeanSlopeTerms(p: real, q: real, d: real, pp: real, pq: real, qq: real, dp: real, dq: real, dd: real)
    requires pp == p * p && pq == p * q && qq == q * q && dp == d * p && dq == d * q && dd == d * d
    ensures MeanSlope(p, q, d) == 10.0 * (pp + pq + qq) + 5.0 * (dp + dq) + dd
  {
  }

  lemma SmootherDifference(a: real, b: real, d: real)
    requires d == (b - a) * (b - a)
    ensures EaseSmootherstep(b) - EaseSmootherstep(a) == (b - a) * MeanSlope(Hump(a), Hump(b), d)
  {
    hide Hump, MeanSlope;
    QuotientIsMeanSlope(a, b);
    assert MeanSlope(Hump(a), Hump(b), d) == Quotient(a, b);
  }

  lemma MeanSlopePositive(p: real, q: real, d: real)
    requires p >= 0.0 && q >= 0.0 && d > 0.0
    ensures MeanSlope(p, q, d) > 0.0
  {
    var pp, pq, qq, dp, dq, dd := p * p, p * q, q * q, d * p, d * q, d * d;
    Square(p, pp);
    NonNegative(p, q, pq);
    Square(q, qq);
    NonNegative(d, p, dp);
    NonNegative(d, q, dq);
    Positive(d, d, dd);
  }

  /** The bound is reached where both points meet in the middle. */
  lemma MeanSlopeBound(p: real, q: real, d: real)
    requires 0.0 <= p <= 0.25 && 0.0 <= q <= 0.25 && 0.0 <= d <= 1.0 - 2.0 * (p + q)
    ensures MeanSlope(p, q, d) <= 1.875
  {
    var e := 1.0 - 2.0 * (p + q);
    Wider(p, q, d, e);
    AtLargestGap(p, q);
  }

  lemma Wider(p: real, q: real, d: real, e: real)
    requires p >= 0.0 && q >= 0.0 && 0.0 <= d <= e
    ensures MeanSlope(p, q, d) <= MeanSlope(p, q, e)
  {
    var dp, dq, dd, ed := d * p, d * q, d * d, d * e;
    Times(p, d, e, dp);
    Times(q, d, e, dq);
    Times(d, d, e, dd);
    Times(e, d, e, ed);
  }

  lemma AtLargestGap(p: real, q: real)
    requires 0.0 <= p <= 0.25 && 0.0 <= q <= 0.25
    ensures MeanSlope(p, q, 1.0 - 2.0 * (p + q)) <= 1.875
  {
    var u, v := 0.25 - p, 0.25 - q;
    var uu, vv, uv := u * u, v * v, u * v;
    Times(u, u, 0.25, uu);
    Times(v, v, 0.25, vv);
    NonNegative(u, v, uv);
    AtCorner(p, q, uu, vv, uv);
  }

  lemma AtCorner(p: real, q: real, uu: real, vv: real, uv: real)
    requires uu == (0.25 - p) * (0.25 - p) && vv == (0.25 - q) * (0.25 - q) && uv == (0.25 - p) * (0.25 - q)
    ensures MeanSlope(p, q, 1.0 - 2.0 * (p + q))
         == 1.875 - 2.5 * ((0.25 - p) + (0.25 - q)) + 4.0 * uu + 4.0 * vv - 2.0 * uv
  {
  }

  lemma SmootherSlope(a: real, b: real)
    requires 0.0 <= a <= b <= 1.0
    ensures EaseSmootherstep(b) - EaseSmootherstep(a) <= 1.875 * (b - a)
    ensures a < b ==> EaseSmootherstep(a) < EaseSmootherstep(b)
  {
    hide Hump, EaseSmootherstep, MeanSlope;
    var d := (b - a) * (b - a);
    Square(b - a, d);
    SmootherDifference(a, b, d);
    HumpRange(a);
    HumpRange(b);
    HumpGap(a, b, d);
    var m := MeanSlope(Hump(a), Hump(b), d);
    MeanSlopeBound(Hump(a), Hump(b), d);
    var rise := EaseSmootherstep(b) - EaseSmootherstep(a);
    Times(b - a, m, 1.875, rise);
    if a < b {
      Positive(b - a, b - a, d);
      MeanSlopePositive(Hump(a), Hump(b), d);
      Positive(b - a, m, rise);
    }
  }

  // ---------------------------------------------------------------------------
  // All three are shapes
  // ---------------------------------------------------------------------------

  lemma LinearIsShape()
    ensures IsShape(EaseLinear, 1.0)
  {
  }

  lemma SmoothMirror(t: real)
    ensures EaseSmoothstep(1.0 - t) == 1.0 - EaseSmoothstep(t)
  {
  }

  lemma SmoothstepIsShape()
    ensures IsShape(EaseSmoothstep, 1.5)
  {
    assert EaseSmoothstep(0.0) == 0.0 && EaseSmoothstep(1.0) == 1.0;
    hide EaseSmoothstep;
    forall a, b | 0.0 <= a <= b <= 1.0
      ensures EaseSmoothstep(b) - EaseSmoothstep(a) <= 1.5 * (b - a)
      ensures a < b ==> EaseSmoothstep(a) < EaseSmoothstep(b)
    {
      SmoothSlope(a, b);
    }
    forall t ensures EaseSmoothstep(1.0 - t) == 1.0 - EaseSmoothstep(t) {
      SmoothMirror(t);
    }
  }

  lemma SmootherMirror(t: real)
    ensures EaseSmootherstep(1.0 - t) == 1.0 - EaseSmootherstep(t)
  {
  }

  lemma SmootherstepIsShape()
    ensures IsShape(EaseSmootherstep, 1.875)
  {
    assert EaseSmootherstep(0.0) == 0.0 && EaseSmootherstep(1.0) == 1.0;
    hide EaseSmootherstep;
    forall a, b | 0.0 <= a <= b <= 1.0
      ensures EaseSmootherstep(b) - EaseSmootherstep(a) <= 1.875 * (b - a)
      ensures a < b ==> EaseSmootherstep(a) < EaseSmootherstep(b)
    {
      SmootherSlope(a, b);
    }
    forall t ensures EaseSmootherstep(1.0 - t) == 1.0 - EaseSmootherstep(t) {
      SmootherMirror(t);
    }
  }

  lemma ShapeRange(f: real -> real, slope: real, t: real)
    requires IsShape(f, slope) && Unit(t)
    ensures Unit(f(t))
  {
    if 0.0 < t < 1.0 {
      assert f(0.0) < f(t) && f(t) < f(1.0);
    }
  }
}
