/**
 * Tolerance-aware comparison of floating-point values (helpers.py).
 *
 * A Python float is seen as an extended real: a finite value, one of the two
 * infinities, or NaN. Arithmetic is exact over `real`; rounding is not modelled.
 */
module Helpers {

  datatype Float = NegInf | Fin(r: real) | PosInf | NaN

  /** `math.isclose` only accepts non-negative tolerances. */
  type Tolerance = t: real | 0.0 <= t

  /** The default `tol` of `eq_floats`, `lt_floats` and `bt_floats`. */
  const DefaultTol: Tolerance := 0.01

  function Abs(x: real): real {
    if x < 0.0 then -x else x
  }

  function Max(x: real, y: real): real {
    if x < y then y else x
  }

  /** IEEE `a < b`: false whenever either side is NaN. */
  predicate Less(a: Float, b: Float) {
    match (a, b)
    case (NaN, _) => false
    case (_, NaN) => false
    case (NegInf, _) => b != NegInf
    case (_, PosInf) => a != PosInf
    case (Fin(x), Fin(y)) => x < y
    case _ => false
  }

  /**
   * `math.isclose(a, b, rel_tol, abs_tol)`: equal values are close, an
   * infinity is close to nothing else, NaN is close to nothing, and two finite
   * values are close when their distance is within the relative tolerance of
   * either magnitude or within the absolute tolerance.
   */
  predicate IsClose(a: Float, b: Float, relTol: Tolerance, absTol: Tolerance) {
    if a.NaN? || b.NaN? then false
    else if a == b then true
    else if !a.Fin? || !b.Fin? then false
    else
      var diff := Abs(b.r - a.r);
      diff <= relTol * Abs(b.r) || diff <= relTol * Abs(a.r) || diff <= absTol
  }

  /** `eq_floats(f1, f2, tol)`: closeness with both tolerances set to `tol`. */
  function EqFloats(f1: Float, f2: Float, tol: Tolerance): (r: bool)
    ensures r ==> !f1.NaN? && !f2.NaN?
    ensures r && (f1.Fin? || f2.Fin?) ==> f1.Fin? && f2.Fin?
  {
    IsClose(f1, f2, tol, tol)
  }

  /** `lt_floats(f1, f2, tol)`: `f1 < f2` and the two are not close. */
  function LtFloats(f1: Float, f2: Float, tol: Tolerance): (r: bool)
    ensures r ==> Less(f1, f2) && f1 != f2
  {
    Less(f1, f2) && !EqFloats(f1, f2, tol)
  }

  /** `bt_floats(f1, f2, tol)`: `f1 > f2` and the two are not close. */
  function BtFloats(f1: Float, f2: Float, tol: Tolerance): (r: bool)
    ensures r ==> Less(f2, f1) && f1 != f2
  {
    Less(f2, f1) && !EqFloats(f1, f2, tol)
  }

  /** A bound by a maximum of three is a bound by one of them. */
  lemma MaxOfThree(d: real, p: real, q: real, t: real)
    ensures (d <= Max(Max(p, q), t)) == (d <= p || d <= q || d <= t)
  {
  }

  /** `eq_floats` on two distinct finite values, with the three tests spelled out. */
  lemma EqFloatsDistinct(a: real, b: real, tol: Tolerance)
    requires a != b
    ensures EqFloats(Fin(a), Fin(b), tol) ==
            (Abs(a - b) <= tol * Abs(b) || Abs(a - b) <= tol * Abs(a) || Abs(a - b) <= tol)
  {
    assert Abs(b - a) == Abs(a - b);
  }

  /** Scaling by a non-negative tolerance distributes over a maximum. */
  lemma ScaleMax(t: Tolerance, x: real, y: real)
    ensures t * Max(x, y) == Max(t * x, t * y)
  {
    if x < y {
      assert t * (y - x) >= 0.0;
    } else {
      assert t * (x - y) >= 0.0;
    }
  }

  /**
   * The bound `math.isclose` documents, `max(t * max(x, y), t)`, is met
   * exactly when one of the three criteria is.
   */
  lemma BoundIsEitherCriterion(d: real, x: real, y: real, t: Tolerance)
    ensures (d <= Max(t * Max(x, y), t)) == (d <= t * x || d <= t * y || d <= t)
  {
    ScaleMax(t, x, y);
    MaxOfThree(d, t * x, t * y, t);
  }

  /**
   * For finite values, `eq_floats` holds exactly when the distance is within
   * the bound `math.isclose` documents: `max(tol * max(|a|, |b|), tol)`.
   */
  lemma EqFloatsIffWithin(a: real, b: real, tol: Tolerance)
    ensures EqFloats(Fin(a), Fin(b), tol) <==> Abs(a - b) <= Max(tol * Max(Abs(a), Abs(b)), tol)
  {
    BoundIsEitherCriterion(Abs(a - b), Abs(a), Abs(b), tol);
    if a != b {
      EqFloatsDistinct(a, b, tol);
    }
  }

  /** Every value but NaN is close to itself; NaN is close to nothing. */
  lemma EqFloatsReflexive(f: Float, g: Float, tol: Tolerance)
    ensures !f.NaN? ==> EqFloats(f, f, tol)
    ensures !EqFloats(NaN, g, tol) && !EqFloats(g, NaN, tol)
  {
  }

  lemma EqFloatsSymmetric(f1: Float, f2: Float, tol: Tolerance)
    ensures EqFloats(f1, f2, tol) == EqFloats(f2, f1, tol)
  {
    if f1.Fin? && f2.Fin? {
      assert Abs(f2.r - f1.r) == Abs(f1.r - f2.r);
    }
  }

  /** The example next to `eq_floats`: with the default tolerance 2.57 and 2.56 are equal. */
  lemma DefaultTolExample()
    ensures EqFloats(Fin(2.57), Fin(2.56), DefaultTol)
  {
  }

  /**
   * Either criterion suffices: 0.1 and 0.105 are close under tolerance 0.01
   * by the absolute criterion although the relative one fails.
   */
  lemma EitherCriterionSuffices()
    ensures EqFloats(Fin(0.1), Fin(0.105), 0.01)
    ensures Abs(0.105 - 0.1) > 0.01 * Max(Abs(0.1), Abs(0.105))
  {
  }

  /**
   * For finite values, `lt_floats` means "smaller by a gap larger than the
   * tolerance, and larger than the tolerance times either magnitude".
   */
  lemma LtFloatsFinite(a: real, b: real, tol: Tolerance)
    ensures LtFloats(Fin(a), Fin(b), tol) <==> a < b && b - a > tol && b - a > tol * Abs(a) && b - a > tol * Abs(b)
  {
    if a < b {
      EqFloatsDistinct(a, b, tol);
      assert Abs(a - b) == b - a;
    }
  }

  /** `bt_floats` is `lt_floats` with its arguments swapped. */
  lemma BtFloatsIsFlippedLt(f1: Float, f2: Float, tol: Tolerance)
    ensures BtFloats(f1, f2, tol) == LtFloats(f2, f1, tol)
  {
    EqFloatsSymmetric(f1, f2, tol);
  }

  /** For finite values exactly one of `lt_floats`, `eq_floats`, `bt_floats` holds. */
  lemma Trichotomy(a: real, b: real, tol: Tolerance)
    ensures LtFloats(Fin(a), Fin(b), tol) || EqFloats(Fin(a), Fin(b), tol) || BtFloats(Fin(a), Fin(b), tol)
    ensures !(LtFloats(Fin(a), Fin(b), tol) && EqFloats(Fin(a), Fin(b), tol))
    ensures !(BtFloats(Fin(a), Fin(b), tol) && EqFloats(Fin(a), Fin(b), tol))
    ensures !(LtFloats(Fin(a), Fin(b), tol) && BtFloats(Fin(a), Fin(b), tol))
  {
  }

  /** Infinite bounds: every finite value lies strictly inside `(-inf, +inf)` and is close to neither end. */
  lemma InfiniteBounds(x: real, tol: Tolerance)
    ensures BtFloats(Fin(x), NegInf, tol) && LtFloats(Fin(x), PosInf, tol)
    ensures !EqFloats(Fin(x), NegInf, tol) && !EqFloats(Fin(x), PosInf, tol)
  {
  }

  /** NaN is neither approximately smaller nor approximately larger than anything. */
  lemma NaNIncomparable(f: Float, tol: Tolerance)
    ensures !LtFloats(NaN, f, tol) && !BtFloats(NaN, f, tol)
    ensures !LtFloats(f, NaN, tol) && !BtFloats(f, NaN, tol)
  {
  }

  /** The boundary examples: 1.00 is not strictly below 1.005, but is strictly below 1.02. */
  lemma ToleranceBoundaryExamples()
    ensures !LtFloats(Fin(1.00), Fin(1.005), 0.01)
    ensures LtFloats(Fin(1.00), Fin(1.02), 0.01)
  {
  }

  /** `lt_floats` is a strict order: irreflexive and transitive. */
  lemma LtFloatsStrictOrder(a: Float, b: Float, c: Float, tol: Tolerance)
    ensures !LtFloats(a, a, tol)
    ensures LtFloats(a, b, tol) && LtFloats(b, c, tol) ==> LtFloats(a, c, tol)
  {
    if LtFloats(a, b, tol) && LtFloats(b, c, tol) && a.Fin? && b.Fin? && c.Fin? {
      var x, y, z := a.r, b.r, c.r;
      LtFloatsFinite(x, y, tol);
      LtFloatsFinite(y, z, tol);
      LtFloatsFinite(x, z, tol);
      // z - x is the sum of the two gaps: the first exceeds tol and tol * |x|,
      // the second exceeds tol * |z|, and both are positive.
      assert z - x == (y - x) + (z - y);
    }
  }
}
