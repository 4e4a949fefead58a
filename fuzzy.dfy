/** The two fuzzy-decay parameters: `b1`, the configured radius of full
    confidence, and `b2`, derived per feature from its apparent size; and
    the membership function that turns a distance into a confidence. */
module Fuzzy {
  import opened Reals

  /** Default `distance_multiplier` of `calculate_b2`: an object `w` wide is
      taken to be discernible up to about `3440 * w` away. */
  const DistanceMultiplier: real := 3440.0

  /** `calculate_b2`: `max(object_width * distance_multiplier - b1, 1)`. The
      result is never below 1, so the membership formula never divides by 0;
      it is the linear term exactly when that term reaches 1. */
  function CalculateB2(objectWidth: real, b1: real, distanceMultiplier: real): (b2: real)
    ensures b2 >= 1.0
    ensures b2 == objectWidth * distanceMultiplier - b1 || b2 == 1.0
    ensures b2 == objectWidth * distanceMultiplier - b1 <==> objectWidth * distanceMultiplier - b1 >= 1.0
  {
    var a := objectWidth * distanceMultiplier;
    Max(a - b1, 1.0)
  }

  /** A feature of no apparent width (a point) gets the steepest decay allowed. */
  lemma ZeroWidthGivesUnitB2(b1: real, distanceMultiplier: real)
    requires b1 >= -1.0
    ensures CalculateB2(0.0, b1, distanceMultiplier) == 1.0
  {
    assert 0.0 * distanceMultiplier == 0.0;
  }

  /** A wider object never decays faster. */
  lemma B2GrowsWithWidth(w1: real, w2: real, b1: real, distanceMultiplier: real)
    requires w1 <= w2 && distanceMultiplier >= 0.0
    ensures CalculateB2(w1, b1, distanceMultiplier) <= CalculateB2(w2, b1, distanceMultiplier)
  {
    calc {
      w1 * distanceMultiplier;
    <= { assert (w2 - w1) * distanceMultiplier >= 0.0 * distanceMultiplier; }
      w2 * distanceMultiplier;
    }
  }

  /** The fuzzy membership of the `np.where` in `create_fuzzy_viewshed`: 1 up to `b1`, then
      `1 / (1 + 2 * ((d - b1) / b2)^2)`. It lies in (0, 1] and is 1 exactly
      within the full-confidence radius. */
  function Membership(d: real, b1: real, b2: real): (r: real)
    requires b2 > 0.0
    ensures 0.0 < r <= 1.0
    ensures r == 1.0 <==> d <= b1
  {
    if d <= b1 then 1.0
    else
      var q := (d - b1) / b2;
      SquarePositive(q);
      ReciprocalBelowOne(1.0 + 2.0 * Sq(q));
      1.0 / (1.0 + 2.0 * Sq(q))
  }

  lemma DivisionIncreasing(x: real, y: real, c: real)
    requires 0.0 < c && x < y
    ensures x / c < y / c
  {
    calc {
      x / c;
    == (x * (1.0 / c));
    < { assert (y - x) * (1.0 / c) > 0.0 * (1.0 / c); }
      (y * (1.0 / c));
    == y / c;
    }
  }

  /** Membership never increases with distance, and strictly decreases as
      soon as the farther distance lies beyond `b1`. */
  lemma MembershipDecreasing(d1: real, d2: real, b1: real, b2: real)
    requires b2 > 0.0 && d1 < d2
    ensures Membership(d2, b1, b2) <= Membership(d1, b1, b2)
    ensures Membership(d2, b1, b2) < Membership(d1, b1, b2) <==> b1 < d2
  {
    if b1 < d1 {
      var q1, q2 := (d1 - b1) / b2, (d2 - b1) / b2;
      DivisionIncreasing(0.0, d1 - b1, b2);
      DivisionIncreasing(d1 - b1, d2 - b1, b2);
      SquareIncreasing(q1, q2);
      SquareNonNegative(q1);
      ReciprocalDecreasing(1.0 + 2.0 * Sq(q1), 1.0 + 2.0 * Sq(q2));
    }
  }

  /** One `b2` beyond the full-confidence radius the membership is exactly 1/3. */
  lemma MembershipOneB2Beyond(b1: real, b2: real)
    requires b2 > 0.0
    ensures Membership(b1 + b2, b1, b2) == 1.0 / 3.0
  {
    assert (b1 + b2 - b1) / b2 == 1.0;
  }

  /** Beyond `b1` membership falls short of 1 by less than twice the
      relative overshoot `(d - b1) / b2`, once that overshoot is below 1. */
  lemma MembershipNearB1(d: real, b1: real, b2: real)
    requires b2 > 0.0 && b1 < d && (d - b1) / b2 < 1.0
    ensures 1.0 - Membership(d, b1, b2) < 2.0 * ((d - b1) / b2)
  {
    var q := (d - b1) / b2;
    DivisionIncreasing(0.0, d - b1, b2);
    var den := 1.0 + 2.0 * Sq(q);
    calc {
      Sq(q);
    == q * q;
    < { assert (1.0 - q) * q > 0.0 * q; }
      q;
    }
    SquareNonNegative(q);
    calc {
      1.0 - Membership(d, b1, b2);
    == 1.0 - 1.0 / den;
    == (den - 1.0) / den;
    <= { DivisionByAtLeastOne(den - 1.0, den); }
      den - 1.0;
    == 2.0 * Sq(q);
    < 2.0 * q;
    }
  }

  /** Every distance strictly between `b1` and `b1 + delta` has membership
      within `eps` of 1. */
  ghost predicate WithinEpsOfOne(b1: real, b2: real, eps: real, delta: real)
    requires b2 > 0.0
  {
    forall d :: b1 < d < b1 + delta ==> 1.0 - Membership(d, b1, b2) < eps
  }

  /** Membership tends to 1 as the distance falls to `b1` from above: it is
      continuous at `b1`, where it is 1 on both sides. */
  lemma MembershipContinuousAtB1(b1: real, b2: real, eps: real)
    requires b2 > 0.0 && eps > 0.0
    ensures Membership(b1, b1, b2) == 1.0
    ensures exists delta :: delta > 0.0 && WithinEpsOfOne(b1, b2, eps, delta)
  {
    var delta := if eps >= 2.0 then b2 else eps * b2 / 2.0;
    assert delta / b2 <= 1.0 && delta / b2 <= eps / 2.0;
    forall d | b1 < d < b1 + delta
      ensures 1.0 - Membership(d, b1, b2) < eps
    {
      DivisionIncreasing(d - b1, delta, b2);
      MembershipNearB1(d, b1, b2);
    }
    assert WithinEpsOfOne(b1, b2, eps, delta);
  }
}
