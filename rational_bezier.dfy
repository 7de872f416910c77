/** The rational Bézier editor: control points with weights, combined with
    Bernstein polynomials and divided by the weighted Bernstein sum.

    The program uses degree `n = len(points)` with only the n terms
    `j = 0 … n - 1`; a curve through n points has degree `n - 1`. Both are
    modelled: `CurvePointAsWritten` with its pole at t = 1, and
    `CorrectedCurvePoint`, defined on the whole of [0, 1] and ending at the
    last control point. */
module RationalBezier {
  import opened Geometry
  import opened MatrixUtils
  import opened Statistics

  /** `comb(n, k)`, by Pascal's rule; 0 when k > n. */
  function Binomial(n: nat, k: nat): nat
    decreases n
  {
    if k == 0 then 1
    else if n == 0 then 0
    else Binomial(n - 1, k - 1) + Binomial(n - 1, k)
  }

  /** There are no ways to choose more than n. */
  lemma {:induction false} BinomialAbove(n: nat, k: nat)
    requires k > n
    ensures Binomial(n, k) == 0
    decreases n
  {
    if n > 0 {
      BinomialAbove(n - 1, k - 1);
      BinomialAbove(n - 1, k);
    }
  }

  /** `comb(n, n) == 1`. */
  lemma {:induction false} BinomialDiagonal(n: nat)
    ensures Binomial(n, n) == 1
    decreases n
  {
    if n > 0 {
      BinomialDiagonal(n - 1);
      BinomialAbove(n - 1, n);
    }
  }

  /** `x ** k` for a natural exponent; `0 ** 0 == 1`. */
  function Pow(x: real, k: nat): real
    decreases k
  {
    if k == 0 then 1.0 else x * Pow(x, k - 1)
  }

  lemma {:induction false} PowNonneg(x: real, k: nat)
    requires x >= 0.0
    ensures Pow(x, k) >= 0.0
    decreases k
  {
    if k > 0 {
      PowNonneg(x, k - 1);
      MulNonneg(x, Pow(x, k - 1));
    }
  }

  lemma {:induction false} PowPositive(x: real, k: nat)
    requires x > 0.0
    ensures Pow(x, k) > 0.0
    decreases k
  {
    if k > 0 {
      PowPositive(x, k - 1);
      MulPos(x, Pow(x, k - 1));
    }
  }

  lemma {:induction false} PowOne(k: nat)
    ensures Pow(1.0, k) == 1.0
    decreases k
  {
    if k > 0 {
      PowOne(k - 1);
    }
  }

  /** `bernstein(n, k, x) = comb(n, k) · x^k · (1 - x)^(n - k)`. */
  function Bernstein(n: nat, k: nat, x: real): real
    requires k <= n
  {
    (Binomial(n, k) as real) * Pow(x, k) * Pow(1.0 - x, n - k)
  }

  /** On [0, 1] every Bernstein polynomial is non-negative. */
  lemma {:induction false} BernsteinNonneg(n: nat, k: nat, x: real)
    requires k <= n && 0.0 <= x <= 1.0
    ensures Bernstein(n, k, x) >= 0.0
  {
    PowNonneg(x, k);
    PowNonneg(1.0 - x, n - k);
    MulNonneg(Binomial(n, k) as real, Pow(x, k));
    MulNonneg((Binomial(n, k) as real) * Pow(x, k), Pow(1.0 - x, n - k));
  }

  /** At x = 0 only the first Bernstein polynomial is non-zero, and it is 1. */
  lemma {:induction false} BernsteinAtZero(n: nat, k: nat)
    requires k <= n
    ensures Bernstein(n, k, 0.0) == if k == 0 then 1.0 else 0.0
  {
    PowOne(n - k);
  }

  /** At x = 1 only the last Bernstein polynomial, k = n, is non-zero, and it
      is 1. */
  lemma {:induction false} BernsteinAtOne(n: nat, k: nat)
    requires k <= n
    ensures Bernstein(n, k, 1.0) == if k == n then 1.0 else 0.0
  {
    PowOne(k);
    if k == n {
      BinomialDiagonal(n);
    }
  }

  /** For x < 1 the first Bernstein polynomial is positive. */
  lemma {:induction false} BernsteinFirstPositive(n: nat, x: real)
    requires x < 1.0
    ensures Bernstein(n, 0, x) > 0.0
  {
    PowPositive(1.0 - x, n);
  }

  // ---------------------------------------------------------------------------
  // The weighted sum and the normalised weights

  /** The summands `weights[j] · bernstein(deg, j, t)` for `j < n`. */
  function Terms(ws: seq<real>, deg: nat, n: nat, t: real): (s: seq<real>)
    requires n <= |ws| && n <= deg + 1
    ensures |s| == n
  {
    seq(n, j requires 0 <= j < n => ws[j] * Bernstein(deg, j, t))
  }

  /** The weights `weights[i] · bernstein(deg, i, t) / denominator`. */
  function Normalized(ws: seq<real>, deg: nat, n: nat, t: real): (s: seq<real>)
    requires n <= |ws| && n <= deg + 1 && Sum(Terms(ws, deg, n, t)) != 0.0
    ensures |s| == n
  {
    var d := Sum(Terms(ws, deg, n, t));
    seq(n, i requires 0 <= i < n => Terms(ws, deg, n, t)[i] / d)
  }

  /** The rational curve of degree `deg` at t: `None` where the program
      divides by a zero denominator; the origin for an empty polygon, where
      the loop never divides. */
  function RationalPoint(ps: seq<Point>, ws: seq<real>, deg: nat, t: real): Option<Point>
    requires |ps| <= |ws| && |ps| <= deg + 1
  {
    var n := |ps|;
    if n == 0 then Some(Point(0.0, 0.0))
    else if Sum(Terms(ws, deg, n, t)) == 0.0 then None
    else Some(Combine(Normalized(ws, deg, n, t), ps))
  }

  /** The program's curve: degree `len(points)`. */
  function CurvePointAsWritten(ps: seq<Point>, ws: seq<real>, t: real): Option<Point>
    requires |ps| <= |ws|
  {
    RationalPoint(ps, ws, |ps|, t)
  }

  /** The rational Bézier curve through n points: degree `n - 1`. */
  function CorrectedCurvePoint(ps: seq<Point>, ws: seq<real>, t: real): Option<Point>
    requires 1 <= |ps| <= |ws|
  {
    RationalPoint(ps, ws, |ps| - 1, t)
  }

  /** Non-negative entries with one positive entry have a positive sum. */
  lemma {:induction false} SumPositive(s: seq<real>, k: nat)
    requires k < |s| && s[k] > 0.0
    requires forall j :: 0 <= j < |s| ==> s[j] >= 0.0
    ensures Sum(s) > 0.0
    decreases |s|
  {
    var l := |s| - 1;
    var front := s[..l];
    assert forall j :: 0 <= j < l ==> front[j] == s[j];
    if k < l {
      SumPositive(front, k);
    } else {
      SumNonNegative(front);
    }
  }

  /** Non-negative entries have a non-negative sum. */
  lemma {:induction false} SumNonNegative(s: seq<real>)
    requires forall j :: 0 <= j < |s| ==> s[j] >= 0.0
    ensures Sum(s) >= 0.0
    decreases |s|
  {
    if |s| > 0 {
      var front := s[..|s| - 1];
      assert forall j :: 0 <= j < |front| ==> front[j] == s[j];
      SumNonNegative(front);
    }
  }

  /** Dividing every entry by d divides the sum by d. */
  lemma {:induction false} SumDivided(s: seq<real>, d: real)
    requires d != 0.0
    ensures Sum(seq(|s|, i requires 0 <= i < |s| => s[i] / d)) == Sum(s) / d
    decreases |s|
  {
    var q := seq(|s|, i requires 0 <= i < |s| => s[i] / d);
    if |s| == 0 {
      assert 0.0 / d == 0.0;
    } else {
      var l := |s| - 1;
      SumDivided(s[..l], d);
      assert q[..l] == seq(l, i requires 0 <= i < l => s[..l][i] / d);
      DivAdd(Sum(s[..l]), s[l], d);
    }
  }

  /** The normalised weights sum to 1. */
  lemma {:induction false} NormalizedSumsToOne(ws: seq<real>, deg: nat, n: nat, t: real)
    requires n <= |ws| && n <= deg + 1 && Sum(Terms(ws, deg, n, t)) != 0.0
    ensures Sum(Normalized(ws, deg, n, t)) == 1.0
  {
    var s := Terms(ws, deg, n, t);
    var d := Sum(s);
    SumDivided(s, d);
    assert Normalized(ws, deg, n, t) == seq(|s|, i requires 0 <= i < |s| => s[i] / d);
    DivSelf(d);
  }

  /** With non-negative weights, `Σ w_i · v_i` is at least `Σ w · lo` when
      every `v_i` is at least lo. */
  lemma {:induction false} DotAtLeast(w: seq<real>, v: seq<real>, lo: real)
    requires |w| == |v|
    requires forall i :: 0 <= i < |w| ==> w[i] >= 0.0 && lo <= v[i]
    ensures Sum(w) * lo <= Dot(w, v)
    decreases |w|
  {
    if |w| > 0 {
      var l := |w| - 1;
      var sw, dw, wl := Sum(w[..l]), Dot(w[..l], v[..l]), w[l];
      DotAtLeast(w[..l], v[..l], lo);
      MulMonotone(lo, v[l], wl);
      var a, b := sw * lo, wl * lo;
      assert (sw + wl) * lo == a + b;
    }
  }

  /** With non-negative weights, `Σ w_i · v_i` is at most `Σ w · hi` when
      every `v_i` is at most hi. */
  lemma {:induction false} DotAtMost(w: seq<real>, v: seq<real>, hi: real)
    requires |w| == |v|
    requires forall i :: 0 <= i < |w| ==> w[i] >= 0.0 && v[i] <= hi
    ensures Dot(w, v) <= Sum(w) * hi
    decreases |w|
  {
    if |w| > 0 {
      var l := |w| - 1;
      var sw, dw, wl := Sum(w[..l]), Dot(w[..l], v[..l]), w[l];
      DotAtMost(w[..l], v[..l], hi);
      MulMonotone(v[l], hi, wl);
      var a, b := sw * hi, wl * hi;
      assert (sw + wl) * hi == a + b;
    }
  }

  /** Wherever the denominator is positive and the weights are not negative,
      the curve point is a convex combination of the control points: it lies
      in every box that holds them. */
  lemma {:induction false} ConvexCombination(ps: seq<Point>, ws: seq<real>, deg: nat, t: real,
                          xlo: real, xhi: real, ylo: real, yhi: real)
    requires 1 <= |ps| <= |ws| && |ps| <= deg + 1 && 0.0 <= t <= 1.0
    requires forall j :: 0 <= j < |ps| ==> ws[j] >= 0.0
    requires Sum(Terms(ws, deg, |ps|, t)) > 0.0
    requires InBox(ps, xlo, xhi, ylo, yhi)
    ensures RationalPoint(ps, ws, deg, t).Some?
    ensures var p := RationalPoint(ps, ws, deg, t).value;
      xlo <= p.x <= xhi && ylo <= p.y <= yhi
  {
    var n := |ps|;
    var s := Terms(ws, deg, n, t);
    var w := Normalized(ws, deg, n, t);
    forall i | 0 <= i < n ensures w[i] >= 0.0 {
      BernsteinNonneg(deg, i, t);
      MulNonneg(ws[i], Bernstein(deg, i, t));
      DivAtLeastZero(s[i], Sum(s));
    }
    NormalizedSumsToOne(ws, deg, n, t);
    DotAtLeast(w, Xs(ps), xlo);
    DotAtMost(w, Xs(ps), xhi);
    DotAtLeast(w, Ys(ps), ylo);
    DotAtMost(w, Ys(ps), yhi);
  }

  /** Positive weights and `0 <= t < 1`: the first summand is positive, so
      the denominator is, whatever the degree. */
  lemma {:induction false} DenominatorPositive(ws: seq<real>, deg: nat, n: nat, t: real)
    requires 1 <= n <= |ws| && n <= deg + 1 && 0.0 <= t < 1.0
    requires forall j :: 0 <= j < n ==> ws[j] > 0.0
    ensures Sum(Terms(ws, deg, n, t)) > 0.0
  {
    var s := Terms(ws, deg, n, t);
    forall j | 0 <= j < n ensures s[j] >= 0.0 {
      BernsteinNonneg(deg, j, t);
      MulNonneg(ws[j], Bernstein(deg, j, t));
    }
    BernsteinFirstPositive(deg, t);
    MulPos(ws[0], Bernstein(deg, 0, t));
    SumPositive(s, 0);
  }

  /** Positive weights at degree `n - 1`: the denominator is positive on the
      whole of [0, 1], since at t = 1 the last summand is its weight. */
  lemma {:induction false} CorrectedDenominatorPositive(ws: seq<real>, n: nat, t: real)
    requires 1 <= n <= |ws| && 0.0 <= t <= 1.0
    requires forall j :: 0 <= j < n ==> ws[j] > 0.0
    ensures Sum(Terms(ws, n - 1, n, t)) > 0.0
  {
    if t < 1.0 {
      DenominatorPositive(ws, n - 1, n, t);
    } else {
      var s := Terms(ws, n - 1, n, t);
      forall j | 0 <= j < n ensures s[j] >= 0.0 {
        BernsteinNonneg(n - 1, j, t);
        MulNonneg(ws[j], Bernstein(n - 1, j, t));
      }
      BernsteinAtOne(n - 1, n - 1);
      SumPositive(s, n - 1);
    }
  }

  /** The program's denominator vanishes at t = 1: every summand it keeps
      carries the factor `0 ** (n - j)` with `n - j >= 1`. */
  lemma {:induction false} DenominatorVanishesAtOne(ws: seq<real>, n: nat)
    requires 1 <= n <= |ws|
    ensures Sum(Terms(ws, n, n, 1.0)) == 0.0
  {
    var s := Terms(ws, n, n, 1.0);
    forall j | 0 <= j < n ensures s[j] == 0.0 {
      BernsteinAtOne(n, j);
    }
    SumBounds(s, 0.0, 0.0);
  }

  /** So the program's curve is undefined at t = 1 for any weights. */
  lemma {:induction false} AsWrittenPoleAtOne(ps: seq<Point>, ws: seq<real>)
    requires 1 <= |ps| <= |ws|
    ensures CurvePointAsWritten(ps, ws, 1.0).None?
  {
    DenominatorVanishesAtOne(ws, |ps|);
  }

  /** A weighted sum whose only non-zero summand is the k-th normalises to
      the unit vector `e_k`, so the curve point is control point k. */
  lemma {:induction false} SingleTermPicksPoint(ps: seq<Point>, ws: seq<real>, deg: nat, t: real, k: nat)
    requires k < |ps| <= |ws| && |ps| <= deg + 1
    requires forall j :: 0 <= j < |ps| ==> (Terms(ws, deg, |ps|, t)[j] == 0.0 <==> j != k)
    ensures RationalPoint(ps, ws, deg, t) == Some(ps[k])
  {
    var n := |ps|;
    var s := Terms(ws, deg, n, t);
    DotUnitRow(n, k, s);
    assert s == UnitRow(n, k)[k := s[k]] by {
      forall j | 0 <= j < n ensures s[j] == UnitRow(n, k)[k := s[k]][j] {
      }
    }
    SumOfSingle(s, k);
    DivSelf(s[k]);
    var w := Normalized(ws, deg, n, t);
    forall j | 0 <= j < n ensures w[j] == UnitRow(n, k)[j] {
      if j != k {
        assert w[j] == 0.0 / s[k];
      }
    }
    assert w == UnitRow(n, k);
    DotUnitRow(n, k, Xs(ps));
    DotUnitRow(n, k, Ys(ps));
  }

  /** The sum of entries that vanish everywhere but at k is the k-th entry. */
  lemma {:induction false} SumOfSingle(s: seq<real>, k: nat)
    requires k < |s| && forall j :: 0 <= j < |s| && j != k ==> s[j] == 0.0
    ensures Sum(s) == s[k]
    decreases |s|
  {
    var l := |s| - 1;
    if k < l {
      assert s[..l][k] == s[k];
      SumOfSingle(s[..l], k);
    } else {
      SumBounds(s[..l], 0.0, 0.0);
    }
  }

  /** With a non-zero first weight, both curves start at the first control
      point. */
  lemma {:induction false} StartsAtFirstPoint(ps: seq<Point>, ws: seq<real>, deg: nat)
    requires 1 <= |ps| <= |ws| && |ps| <= deg + 1 && ws[0] != 0.0
    ensures RationalPoint(ps, ws, deg, 0.0) == Some(ps[0])
  {
    var s := Terms(ws, deg, |ps|, 0.0);
    forall j | 0 <= j < |ps| ensures s[j] == 0.0 <==> j != 0 {
      BernsteinAtZero(deg, j);
    }
    SingleTermPicksPoint(ps, ws, deg, 0.0, 0);
  }

  /** With a non-zero last weight, the corrected curve ends at the last
      control point. */
  lemma {:induction false} CorrectedEndsAtLastPoint(ps: seq<Point>, ws: seq<real>)
    requires 1 <= |ps| <= |ws| && ws[|ps| - 1] != 0.0
    ensures CorrectedCurvePoint(ps, ws, 1.0) == Some(ps[|ps| - 1])
  {
    var n := |ps|;
    var s := Terms(ws, n - 1, n, 1.0);
    forall j | 0 <= j < n ensures s[j] == 0.0 <==> j != n - 1 {
      BernsteinAtOne(n - 1, j);
    }
    SingleTermPicksPoint(ps, ws, n - 1, 1.0, n - 1);
  }

  /** With positive weights the corrected curve is defined on all of [0, 1]
      and stays in the box of its control points. */
  lemma {:induction false} CorrectedInBox(ps: seq<Point>, ws: seq<real>, t: real, xlo: real, xhi: real, ylo: real, yhi: real)
    requires 1 <= |ps| <= |ws| && 0.0 <= t <= 1.0
    requires forall j :: 0 <= j < |ps| ==> ws[j] > 0.0
    requires InBox(ps, xlo, xhi, ylo, yhi)
    ensures CorrectedCurvePoint(ps, ws, t).Some?
    ensures var p := CorrectedCurvePoint(ps, ws, t).value;
      xlo <= p.x <= xhi && ylo <= p.y <= yhi
  {
    CorrectedDenominatorPositive(ws, |ps|, t);
    ConvexCombination(ps, ws, |ps| - 1, t, xlo, xhi, ylo, yhi);
  }

  /** The parameters `draw` evaluates: `t / 100` for t = 0 … 99, leaving out
      t = 1. */
  function DrawParams(): (g: seq<real>)
    ensures |g| == 100 && g[0] == 0.0
    ensures forall i :: 0 <= i < 100 ==> 0.0 <= g[i] < 1.0
  {
    seq(100, t requires 0 <= t < 100 => (t as real) / 100.0)
  }

  /** With positive weights the program's curve is defined at every
      parameter `draw` uses and stays in the box of the control points. */
  lemma {:induction false} DrawAvoidsPole(ps: seq<Point>, ws: seq<real>, i: nat, xlo: real, xhi: real, ylo: real, yhi: real)
    requires 1 <= |ps| <= |ws| && i < 100
    requires forall j :: 0 <= j < |ps| ==> ws[j] > 0.0
    requires InBox(ps, xlo, xhi, ylo, yhi)
    ensures CurvePointAsWritten(ps, ws, DrawParams()[i]).Some?
    ensures var p := CurvePointAsWritten(ps, ws, DrawParams()[i]).value;
      xlo <= p.x <= xhi && ylo <= p.y <= yhi
  {
    var t := DrawParams()[i];
    DenominatorPositive(ws, |ps|, |ps|, t);
    ConvexCombination(ps, ws, |ps|, t, xlo, xhi, ylo, yhi);
  }

  /** Entry i of the program's normalised weights, as the loop computes it. */
  lemma {:induction false} NormalizedEntry(ws: seq<real>, n: nat, t: real, i: nat)
    requires i < n <= |ws| && Sum(Terms(ws, n, n, t)) != 0.0
    ensures (ws[i] * Bernstein(n, i, t)) / Sum(Terms(ws, n, n, t)) == Normalized(ws, n, n, t)[i]
  {
    var terms := Terms(ws, n, n, t);
    assert terms[i] == ws[i] * Bernstein(n, i, t);
    assert Normalized(ws, n, n, t)[i] == terms[i] / Sum(terms);
  }

  /** Where its denominator is not zero, the program's curve point is the
      combination of the control points by the normalised weights. */
  lemma {:induction false} AsWrittenCombines(ps: seq<Point>, ws: seq<real>, t: real)
    requires 1 <= |ps| <= |ws| && Sum(Terms(ws, |ps|, |ps|, t)) != 0.0
    ensures CurvePointAsWritten(ps, ws, t) == Some(Combine(Normalized(ws, |ps|, |ps|, t), ps))
  {
  }

  /** The loop of `denominator(t)`: add `weights[j] · bernstein(n, j, t)`
      for j = 0 … n - 1, with `n = len(points)`. */
  method DenominatorLoop(ps: seq<Point>, ws: seq<real>, t: real) returns (sum: real)
    requires |ps| <= |ws|
    ensures sum == Sum(Terms(ws, |ps|, |ps|, t))
    ensures |ps| >= 1 && t == 1.0 ==> sum == 0.0
  {
    var n := |ps|;
    ghost var s := Terms(ws, n, n, t);
    sum := 0.0;
    for j := 0 to n
      invariant sum == Sum(s[..j])
    {
      assert s[..j + 1][..j] == s[..j];
      sum := sum + ws[j] * Bernstein(n, j, t);
    }
    assert s[..n] == s;
    if n >= 1 && t == 1.0 {
      DenominatorVanishesAtOne(ws, n);
    }
  }

  /** The loop of `bezier(t)`: for each i, recompute the denominator and add
      `(weights[i] · bernstein(n, i, t) / denominator) · points[i]` to both
      coordinates. A zero denominator is the division error, `None`. */
  method BezierLoop(ps: seq<Point>, ws: seq<real>, t: real) returns (r: Option<Point>)
    requires |ps| <= |ws|
    ensures r == CurvePointAsWritten(ps, ws, t)
  {
    var n := |ps|;
    var x, y := 0.0, 0.0;
    for i := 0 to n
      invariant i == 0 ==> x == 0.0 && y == 0.0
      invariant i > 0 ==> Sum(Terms(ws, n, n, t)) != 0.0
      invariant i > 0 ==> x == Dot(Normalized(ws, n, n, t)[..i], Xs(ps)[..i])
      invariant i > 0 ==> y == Dot(Normalized(ws, n, n, t)[..i], Ys(ps)[..i])
    {
      var d := DenominatorLoop(ps, ws, t);
      if d == 0.0 {
        return None;
      }
      var c := (ws[i] * Bernstein(n, i, t)) / d;
      ghost var w := Normalized(ws, n, n, t);
      NormalizedEntry(ws, n, t, i);
      CombineStep(ps, w, i, c, x, y);
      x := x + c * ps[i].x;
      y := y + c * ps[i].y;
    }
    if n > 0 {
      var w := Normalized(ws, n, n, t);
      assert w[..n] == w && Xs(ps)[..n] == Xs(ps) && Ys(ps)[..n] == Ys(ps);
      AsWrittenCombines(ps, ws, t);
    }
    return Some(Point(x, y));
  }

  class BezierCurve {
    var points: seq<Point>
    var weights: seq<real>

    /** Every control point has a weight. */
    ghost predicate Valid()
      reads this
    {
      |points| <= |weights|
    }

    /** `__init__`: four zig-zag points with weights 1, 2, 2, 1. */
    constructor ()
      ensures Valid()
      ensures points == [Point(100.0, 300.0), Point(300.0, 100.0), Point(500.0, 300.0), Point(700.0, 100.0)]
      ensures weights == [1.0, 2.0, 2.0, 1.0]
    {
      points := [Point(100.0, 300.0), Point(300.0, 100.0), Point(500.0, 300.0), Point(700.0, 100.0)];
      weights := [1.0, 2.0, 2.0, 1.0];
    }

    /** `denominator(t)`: `Σ_{j < n} weights[j] · bernstein(n, j, t)` with
        `n = len(points)`. */
    method Denominator(t: real) returns (sum: real)
      requires Valid()
      ensures sum == Sum(Terms(weights, |points|, |points|, t))
      ensures |points| >= 1 && t == 1.0 ==> sum == 0.0
    {
      sum := DenominatorLoop(points, weights, t);
    }

    /** `bezier(t)`: the program's curve point; `None` stands for the
        division by a zero denominator. */
    method Bezier(t: real) returns (r: Option<Point>)
      requires Valid()
      ensures r == CurvePointAsWritten(points, weights, t)
    {
      r := BezierLoop(points, weights, t);
    }

    /** `find_point(x, y)`: the first control point within distance 10 of
        `(x, y)`, if any. */
    method FindPoint(x: real, y: real) returns (r: Option<Point>)
      ensures r.Some? ==> exists i :: (0 <= i < |points| && points[i] == r.value
        && Near(points[i], x, y) && forall j :: 0 <= j < i ==> !Near(points[j], x, y))
      ensures r.None? <==> forall j :: 0 <= j < |points| ==> !Near(points[j], x, y)
    {
      var index := Geometry.FindPoint(points, x, y);
      if index.None? {
        return None;
      }
      return Some(points[index.value]);
    }
  }
}
