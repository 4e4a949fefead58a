/** Facts about real squares and reciprocals that the solver does not find
    unaided; the other modules use them instead of raw non-linear steps. */
module Reals {

  function Sq(x: real): real { x * x }

  function Max(a: real, b: real): real { if a >= b then a else b }

  lemma SquareNonNegative(a: real)
    ensures Sq(a) >= 0.0
  {
    if a >= 0.0 {
      calc { Sq(a); == a * a; >= a * 0.0; }
    } else {
      calc { Sq(a); == (-a) * (-a); >= (-a) * 0.0; }
    }
  }

  lemma SquarePositive(a: real)
    requires a != 0.0
    ensures Sq(a) > 0.0
  {
    if a > 0.0 {
      calc { Sq(a); == a * a; > a * 0.0; }
    } else {
      calc { Sq(a); == (-a) * (-a); > (-a) * 0.0; }
    }
  }

  /** Squaring is strictly increasing on the non-negative reals. */
  lemma SquareIncreasing(a: real, b: real)
    requires 0.0 <= a < b
    ensures Sq(a) < Sq(b)
  {
    calc { Sq(a); == a * a; <= a * b; < b * b; == Sq(b); }
  }

  /** A square does not depend on the sign. */
  lemma SquareOfNegation(a: real)
    ensures Sq(-a) == Sq(a)
  {
    calc { Sq(-a); == (-a) * (-a); == a * a; == Sq(a); }
  }

  lemma ReciprocalBelowOne(d: real)
    requires d > 1.0
    ensures 0.0 < 1.0 / d < 1.0
  {
  }

  lemma ReciprocalDecreasing(d1: real, d2: real)
    requires 0.0 < d1 < d2
    ensures 1.0 / d2 < 1.0 / d1
  {
  }

  lemma DivisionByAtLeastOne(x: real, d: real)
    requires x >= 0.0 && d >= 1.0
    ensures x / d <= x
  {
    ReciprocalAtMostOne(d);
    calc {
      x / d;
    == x * (1.0 / d);
    <= { assert x * (1.0 - 1.0 / d) >= x * 0.0; }
      x * 1.0;
    }
  }

  lemma ReciprocalAtMostOne(d: real)
    requires d >= 1.0
    ensures 0.0 < 1.0 / d <= 1.0
  {
  }

  /** `sqrt` returns the non-negative square root of every non-negative real. */
  ghost predicate IsSquareRoot(sqrt: real -> real) {
    forall x :: 0.0 <= x ==> 0.0 <= sqrt(x) && Sq(sqrt(x)) == x
  }

  /** A true square root preserves and reflects order. */
  lemma RootMonotone(sqrt: real -> real, a: real, b: real)
    requires IsSquareRoot(sqrt)
    requires 0.0 <= a && 0.0 <= b
    ensures sqrt(a) <= sqrt(b) <==> a <= b
  {
    var ra, rb := sqrt(a), sqrt(b);
    assert 0.0 <= ra && Sq(ra) == a;
    assert 0.0 <= rb && Sq(rb) == b;
    if ra < rb {
      SquareIncreasing(ra, rb);
    } else if rb < ra {
      SquareIncreasing(rb, ra);
    }
  }

  /** A number within `s` of 0 has a square at most `s`'s. */
  lemma SquareWithinBound(x: real, s: real)
    requires -s <= x <= s
    ensures Sq(x) <= Sq(s)
  {
    var a := if x >= 0.0 then x else -x;
    SquareOfNegation(x);
    assert Sq(a) == Sq(x);
    if a < s {
      SquareIncreasing(a, s);
    }
  }

  lemma SquareOfProduct(a: real, b: real)
    ensures Sq(a * b) == Sq(a) * Sq(b)
  {
    calc { Sq(a * b); == (a * b) * (a * b); == (a * a) * (b * b); == Sq(a) * Sq(b); }
  }

  /** A sum of two squares vanishes only when both terms do. */
  lemma SumOfSquaresZero(a: real, b: real)
    ensures Sq(a) + Sq(b) == 0.0 <==> a == 0.0 && b == 0.0
  {
    SquareNonNegative(a);
    SquareNonNegative(b);
    if a != 0.0 { SquarePositive(a); }
    if b != 0.0 { SquarePositive(b); }
  }

  /** A true square root is 0 exactly at 0. */
  lemma RootZero(sqrt: real -> real, v: real)
    ensures IsSquareRoot(sqrt) && 0.0 <= v ==> (sqrt(v) == 0.0 <==> v == 0.0)
  {
    if IsSquareRoot(sqrt) && 0.0 <= v {
      var t := sqrt(v);
      assert Sq(t) == v;
      if t != 0.0 {
        SquarePositive(t);
      }
    }
  }

  /** The non-negative number whose square is `v` is the root of `v`. */
  lemma RootUnique(sqrt: real -> real, v: real, r: real)
    requires IsSquareRoot(sqrt)
    requires 0.0 <= r && Sq(r) == v
    ensures sqrt(v) == r
  {
    SquareNonNegative(r);
    var t := sqrt(v);
    assert 0.0 <= t && Sq(t) == v;
    if t < r {
      SquareIncreasing(t, r);
    } else if r < t {
      SquareIncreasing(r, t);
    }
  }

  /** A square factor leaves the root as its non-negative base. */
  lemma RootScale(sqrt: real -> real, v: real, s: real)
    requires IsSquareRoot(sqrt)
    requires 0.0 <= v && 0.0 <= s
    ensures sqrt(v * Sq(s)) == s * sqrt(v)
  {
    var t := sqrt(v);
    assert 0.0 <= t && Sq(t) == v;
    var r := s * t;
    calc { r; == s * t; >= s * 0.0; }
    SquareOfProduct(s, t);
    assert Sq(r) == v * Sq(s);
    RootUnique(sqrt, v * Sq(s), r);
  }
}
