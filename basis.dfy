/** The Cox–de Boor basis recursion (`basis_function`, written out three times
    in the program as the same recursion) and what it guarantees on a
    non-decreasing knot vector: support, non-negativity and the partition of
    unity that makes a B-spline curve an affine combination of its control
    points. */
module CoxDeBoor {
  import opened Geometry

  // ---------------------------------------------------------------------------
  // Knot vectors

  /** `np.linspace(0, 1, m)`, the uniform knot vector every caller builds. */
  function UniformKnots(m: nat): (knots: seq<real>)
    ensures |knots| == m
  {
    Linspace(0.0, 1.0, m)
  }

  ghost predicate NonDecreasing(knots: seq<real>)
  {
    forall i, j :: 0 <= i <= j < |knots| ==> knots[i] <= knots[j]
  }

  ghost predicate StrictlyIncreasing(knots: seq<real>)
  {
    forall i, j :: 0 <= i < j < |knots| ==> knots[i] < knots[j]
  }

  lemma {:induction false} DivLess(a: real, b: real, d: real)
    requires a < b && d > 0.0
    ensures a / d < b / d
  {
  }

  lemma {:induction false} UnitStep(j: real, d: real)
    requires d > 0.0
    ensures 0.0 + j * ((1.0 - 0.0) / d) == j / d
  {
  }

  /** The uniform knots are `j / (m - 1)`. */
  lemma {:induction false} UniformKnotsValue(m: nat)
    requires m >= 2
    ensures forall j :: 0 <= j < m ==> UniformKnots(m)[j] == (j as real) / ((m - 1) as real)
  {
    var u := UniformKnots(m);
    var d := (m - 1) as real;
    forall j | 0 <= j < m ensures u[j] == (j as real) / d {
      assert u[j] == 0.0 + (j as real) * ((1.0 - 0.0) / d);
      UnitStep(j as real, d);
    }
  }

  /** ... so they run from 0 to 1, strictly rising. */
  lemma {:induction false} UniformKnotsShape(m: nat)
    requires m >= 2
    ensures forall j :: 0 <= j < m ==> UniformKnots(m)[j] == (j as real) / ((m - 1) as real)
    ensures UniformKnots(m)[0] == 0.0 && UniformKnots(m)[m - 1] == 1.0
    ensures StrictlyIncreasing(UniformKnots(m)) && NonDecreasing(UniformKnots(m))
  {
    UniformKnotsValue(m);
    var u := UniformKnots(m);
    var d := (m - 1) as real;
    forall i, j | 0 <= i < j < m ensures u[i] < u[j] {
      DivLess(i as real, j as real, d);
    }
  }

  // ---------------------------------------------------------------------------
  // The recursion

  /** The first recursive term: `(t - knots[i]) / denom1 * basis(i, k - 1)`,
      or exactly 0 when `denom1 = knots[i + k - 1] - knots[i]` is 0. */
  function Term1(i: nat, k: nat, t: real, knots: seq<real>): real
    requires 2 <= k && i + k < |knots|
    decreases k, 0
  {
    var denom1 := knots[i + k - 1] - knots[i];
    if denom1 == 0.0 then 0.0 else (t - knots[i]) / denom1 * Basis(i, k - 1, t, knots)
  }

  /** The second recursive term: `(knots[i + k] - t) / denom2 * basis(i + 1, k - 1)`,
      or exactly 0 when `denom2 = knots[i + k] - knots[i + 1]` is 0. */
  function Term2(i: nat, k: nat, t: real, knots: seq<real>): real
    requires 2 <= k && i + k < |knots|
    decreases k, 0
  {
    var denom2 := knots[i + k] - knots[i + 1];
    if denom2 == 0.0 then 0.0 else (knots[i + k] - t) / denom2 * Basis(i + 1, k - 1, t, knots)
  }

  /** `basis_function(i, k, t, knots)`: order 1 is the indicator of the
      half-open span `[knots[i], knots[i + 1])`, higher orders add the two terms. */
  function Basis(i: nat, k: nat, t: real, knots: seq<real>): real
    requires 1 <= k && i + k < |knots|
    decreases k, 1
  {
    if k == 1 then (if knots[i] <= t < knots[i + 1] then 1.0 else 0.0)
    else Term1(i, k, t, knots) + Term2(i, k, t, knots)
  }

  /** The basis values `basis(0, k, t) .. basis(c - 1, k, t)` that weight the
      first `c` control points. */
  function Weights(c: nat, k: nat, t: real, knots: seq<real>): (w: seq<real>)
    requires 1 <= k && c + k <= |knots|
    ensures |w| == c
  {
    seq(c, i requires 0 <= i < c => Basis(i, k, t, knots))
  }

  // ---------------------------------------------------------------------------
  // Local facts

  /** Order 1 is a 0/1 indicator, and 1 exactly on the half-open span. */
  lemma {:induction false} IndicatorOrderOne(i: nat, t: real, knots: seq<real>)
    requires i + 1 < |knots|
    ensures Basis(i, 1, t, knots) == 0.0 || Basis(i, 1, t, knots) == 1.0
    ensures Basis(i, 1, t, knots) == 1.0 <==> knots[i] <= t < knots[i + 1]
  {
  }

  /** Support: on a non-decreasing knot vector, `basis(i, k, t)` is 0 outside
      `[knots[i], knots[i + k])`. */
  lemma {:induction false} BasisSupport(i: nat, k: nat, t: real, knots: seq<real>)
    requires NonDecreasing(knots)
    requires 1 <= k && i + k < |knots|
    requires t < knots[i] || knots[i + k] <= t
    ensures Basis(i, k, t, knots) == 0.0
    decreases k
  {
    if k > 1 {
      BasisSupport(i, k - 1, t, knots);
      BasisSupport(i + 1, k - 1, t, knots);
    }
  }

  lemma {:induction false} DivNonneg(a: real, d: real)
    requires a >= 0.0 && d > 0.0
    ensures a / d >= 0.0
  {
  }

  /** Non-negativity: on a non-decreasing knot vector every basis value is at
      least 0 (term 1 only counts from `knots[i]` on, term 2 only up to
      `knots[i + k]`). */
  lemma {:induction false} BasisNonNegative(i: nat, k: nat, t: real, knots: seq<real>)
    requires NonDecreasing(knots)
    requires 1 <= k && i + k < |knots|
    ensures Basis(i, k, t, knots) >= 0.0
    decreases k
  {
    if k > 1 {
      BasisNonNegative(i, k - 1, t, knots);
      BasisNonNegative(i + 1, k - 1, t, knots);
      var denom1 := knots[i + k - 1] - knots[i];
      if denom1 != 0.0 {
        if t < knots[i] {
          BasisSupport(i, k - 1, t, knots);
        } else {
          DivNonneg(t - knots[i], denom1);
          MulNonneg((t - knots[i]) / denom1, Basis(i, k - 1, t, knots));
        }
      }
      var denom2 := knots[i + k] - knots[i + 1];
      if denom2 != 0.0 {
        if knots[i + k] <= t {
          BasisSupport(i + 1, k - 1, t, knots);
        } else {
          DivNonneg(knots[i + k] - t, denom2);
          MulNonneg((knots[i + k] - t) / denom2, Basis(i + 1, k - 1, t, knots));
        }
      }
    }
  }

  /** The knot vector never ends inside a support: at the last knot, every
      basis function of every order is 0 (the half-open order-1 test excludes
      it). */
  lemma {:induction false} BasisVanishesAtLastKnot(i: nat, k: nat, knots: seq<real>)
    requires NonDecreasing(knots)
    requires 1 <= k && i + k < |knots|
    ensures Basis(i, k, knots[|knots| - 1], knots) == 0.0
  {
    BasisSupport(i, k, knots[|knots| - 1], knots);
  }

  lemma {:induction false} MulZero(a: real)
    ensures a * 0.0 == 0.0
  {
  }

  lemma {:induction false} Term1Vanishes(i: nat, k: nat, t: real, knots: seq<real>)
    requires 2 <= k && i + k < |knots| && Basis(i, k - 1, t, knots) == 0.0
    ensures Term1(i, k, t, knots) == 0.0
  {
    if knots[i + k - 1] != knots[i] {
      MulZero((t - knots[i]) / (knots[i + k - 1] - knots[i]));
    }
  }

  lemma {:induction false} Term2Vanishes(i: nat, k: nat, t: real, knots: seq<real>)
    requires 2 <= k && i + k < |knots| && Basis(i + 1, k - 1, t, knots) == 0.0
    ensures Term2(i, k, t, knots) == 0.0
  {
    if knots[i + k] != knots[i + 1] {
      MulZero((knots[i + k] - t) / (knots[i + k] - knots[i + 1]));
    }
  }

  /** A term whose denominator is 0 is forced to 0, and on a non-decreasing
      knot vector nothing is lost by that: the lower-order basis it would have
      scaled is 0 there too, its span being empty. */
  lemma {:induction false} EmptySpanDropsNothing(i: nat, k: nat, t: real, knots: seq<real>)
    requires NonDecreasing(knots)
    requires 2 <= k && i + k < |knots|
    ensures knots[i + k - 1] == knots[i] ==> Term1(i, k, t, knots) == 0.0 && Basis(i, k - 1, t, knots) == 0.0
    ensures knots[i + k] == knots[i + 1] ==> Term2(i, k, t, knots) == 0.0 && Basis(i + 1, k - 1, t, knots) == 0.0
  {
    if knots[i + k - 1] == knots[i] {
      BasisSupport(i, k - 1, t, knots);
    }
    if knots[i + k] == knots[i + 1] {
      BasisSupport(i + 1, k - 1, t, knots);
    }
  }

  /** At `t = knots[i + 1]` with a non-empty span the ramp factor of term 2 is 1. */
  lemma {:induction false} Term2AtLeftEnd(i: nat, k: nat, knots: seq<real>)
    requires 2 <= k && i + k < |knots| && knots[i + k] != knots[i + 1]
    ensures Term2(i, k, knots[i + 1], knots) == Basis(i + 1, k - 1, knots[i + 1], knots)
  {
    var d := knots[i + k] - knots[i + 1];
    DivSplit(d, 0.0, d, Basis(i + 1, k - 1, knots[i + 1], knots));
  }

  lemma {:induction false} DivSplit(a: real, b: real, d: real, x: real)
    requires d != 0.0 && a + b == d
    ensures a / d * x + b / d * x == x
  {
    assert a / d + b / d == 1.0;
    assert a / d * x + b / d * x == (a / d + b / d) * x;
  }

  /** Term 2 of span `i` and term 1 of span `i + 1` share their denominator,
      and together give back `basis(i + 1, k - 1)`. */
  lemma {:induction false} TermsPair(i: nat, k: nat, t: real, knots: seq<real>)
    requires NonDecreasing(knots)
    requires 2 <= k && i + 1 + k < |knots|
    ensures Term2(i, k, t, knots) + Term1(i + 1, k, t, knots) == Basis(i + 1, k - 1, t, knots)
  {
    var d := knots[i + k] - knots[i + 1];
    if d == 0.0 {
      BasisSupport(i + 1, k - 1, t, knots);
    } else {
      DivSplit(knots[i + k] - t, t - knots[i + 1], d, Basis(i + 1, k - 1, t, knots));
    }
  }

  // ---------------------------------------------------------------------------
  // Partition of unity

  lemma {:induction false} WeightsPrefix(c: nat, k: nat, t: real, knots: seq<real>)
    requires 1 <= k && c + k <= |knots| && c > 0
    ensures Weights(c, k, t, knots)[..c - 1] == Weights(c - 1, k, t, knots)
    ensures Sum(Weights(c, k, t, knots)) == Sum(Weights(c - 1, k, t, knots)) + Basis(c - 1, k, t, knots)
  {
    assert Weights(c, k, t, knots)[..c - 1] == Weights(c - 1, k, t, knots);
  }

  /** Summing over spans telescopes: the inner pairs collapse to order k - 1. */
  lemma {:induction false} Telescope(c: nat, k: nat, t: real, knots: seq<real>)
    requires NonDecreasing(knots)
    requires 2 <= k && 1 <= c && c + k <= |knots|
    ensures Sum(Weights(c, k, t, knots))
         == Term1(0, k, t, knots) + (Sum(Weights(c, k - 1, t, knots)) - Basis(0, k - 1, t, knots))
            + Term2(c - 1, k, t, knots)
    decreases c
  {
    WeightsPrefix(c, k, t, knots);
    WeightsPrefix(c, k - 1, t, knots);
    if c == 1 {
      assert Weights(0, k, t, knots) == [] && Weights(0, k - 1, t, knots) == [];
    } else {
      Telescope(c - 1, k, t, knots);
      TermsPair(c - 2, k, t, knots);
    }
  }

  /** Bases whose support ends at or before `t` add up to 0. */
  lemma {:induction false} SumVanishesBelow(c: nat, k: nat, t: real, knots: seq<real>)
    requires NonDecreasing(knots)
    requires 1 <= k && c + k <= |knots| && c > 0 && knots[c - 1 + k] <= t
    ensures Sum(Weights(c, k, t, knots)) == 0.0
    decreases c
  {
    WeightsPrefix(c, k, t, knots);
    BasisSupport(c - 1, k, t, knots);
    if c == 1 {
      assert Weights(0, k, t, knots) == [];
    } else {
      SumVanishesBelow(c - 1, k, t, knots);
    }
  }

  /** Order 1: exactly one half-open span of `[knots[0], knots[c])` holds `t`. */
  lemma {:induction false} IndicatorsSumToOne(c: nat, t: real, knots: seq<real>)
    requires NonDecreasing(knots)
    requires 1 <= c && c + 1 <= |knots| && knots[0] <= t < knots[c]
    ensures Sum(Weights(c, 1, t, knots)) == 1.0
    decreases c
  {
    WeightsPrefix(c, 1, t, knots);
    if c == 1 {
      assert Weights(0, 1, t, knots) == [];
    } else if t < knots[c - 1] {
      IndicatorsSumToOne(c - 1, t, knots);
    } else {
      SumVanishesBelow(c - 1, 1, t, knots);
    }
  }

  /** Partition of unity on a half-open stretch: for `knots[k - 1] <= t < knots[c]`
      the first `c` basis functions of order k sum to 1. */
  lemma {:induction false} PartitionOfUnityHalfOpen(c: nat, k: nat, t: real, knots: seq<real>)
    requires NonDecreasing(knots)
    requires 1 <= k <= c && c + k <= |knots|
    requires knots[k - 1] <= t < knots[c]
    ensures Sum(Weights(c, k, t, knots)) == 1.0
    decreases k
  {
    if k == 1 {
      IndicatorsSumToOne(c, t, knots);
    } else {
      Telescope(c, k, t, knots);
      BasisSupport(0, k - 1, t, knots);
      BasisSupport(c, k - 1, t, knots);
      Term1Vanishes(0, k, t, knots);
      Term2Vanishes(c - 1, k, t, knots);
      PartitionOfUnityHalfOpen(c, k - 1, t, knots);
    }
  }

  /** At the closing knot `t = knots[c]` (order at least 2, the next knot
      strictly larger) the first `c` basis functions still sum to 1. */
  lemma {:induction false} PartitionOfUnityAtEnd(c: nat, k: nat, knots: seq<real>)
    requires NonDecreasing(knots)
    requires 2 <= k <= c && c + k <= |knots|
    requires knots[c] < knots[c + 1]
    ensures Sum(Weights(c, k, knots[c], knots)) == 1.0
  {
    var t := knots[c];
    Telescope(c, k, t, knots);
    BasisSupport(0, k - 1, t, knots);
    Term1Vanishes(0, k, t, knots);
    var d := knots[c - 1 + k] - knots[c];
    assert d > 0.0;
    Term2AtLeftEnd(c - 1, k, knots);
    WeightsPrefix(c + 1, k - 1, t, knots);
    PartitionOfUnityHalfOpen(c + 1, k - 1, t, knots);
  }

  /** Partition of unity on the sampled domain: with `n >= k >= 2` control
      points and the uniform knots, the `n` basis values sum to 1 for every
      `t` in `[knots[k - 1], knots[n]]`, both ends included. */
  lemma {:induction false} PartitionOfUnity(n: nat, k: nat, t: real)
    requires 2 <= k <= n
    requires UniformKnots(n + k)[k - 1] <= t <= UniformKnots(n + k)[n]
    ensures Sum(Weights(n, k, t, UniformKnots(n + k))) == 1.0
  {
    var knots := UniformKnots(n + k);
    UniformKnotsShape(n + k);
    if t < knots[n] {
      PartitionOfUnityHalfOpen(n, k, t, knots);
    } else {
      PartitionOfUnityAtEnd(n, k, knots);
    }
  }

  /** Order 1 loses the end of its domain: at `t = knots[n]`, the last knot,
      every order-1 weight is 0, so the curve point there is the origin. */
  lemma {:induction false} OrderOneLosesEndpoint(n: nat)
    requires n >= 1
    ensures Sum(Weights(n, 1, UniformKnots(n + 1)[n], UniformKnots(n + 1))) == 0.0
  {
    UniformKnotsShape(n + 1);
    SumVanishesBelow(n, 1, UniformKnots(n + 1)[n], UniformKnots(n + 1));
  }
}
