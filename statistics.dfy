/** The error statistics both approximators report: the per-sample error
    list, `np.max` and `np.mean` of it. Errors are squared distances, so the
    maximum stands for the square of the maximal distance and the mean for
    the square of the RMS error. */
module Statistics {
  import opened Geometry

  /** Squared distance between corresponding samples of two curves. */
  function SqErrors(a: seq<Point>, b: seq<Point>): (e: seq<real>)
    requires |a| == |b|
    ensures |e| == |a|
    ensures forall j :: 0 <= j < |a| ==> e[j] >= 0.0
    ensures forall j :: 0 <= j < |a| ==> (a[j] == b[j] ==> e[j] == 0.0)
  {
    seq(|a|, j requires 0 <= j < |a| => SqDist(a[j], b[j]))
  }

  /** Every error between a curve and itself is zero. */
  lemma {:induction false} SqErrorsSelf(a: seq<Point>)
    ensures forall j :: 0 <= j < |a| ==> SqErrors(a, a)[j] == 0.0
  {
  }

  /** `np.max`: the largest entry, which is one of the entries. */
  function MaxOf(s: seq<real>): (m: real)
    requires |s| > 0
    ensures forall j :: 0 <= j < |s| ==> s[j] <= m
    ensures exists j :: 0 <= j < |s| && s[j] == m
    decreases |s|
  {
    if |s| == 1 then s[0]
    else
      var rest := MaxOf(s[..|s| - 1]);
      if s[|s| - 1] > rest then s[|s| - 1] else rest
  }

  /** `np.mean`. */
  function Mean(s: seq<real>): real
    requires |s| > 0
  {
    Sum(s) / (|s| as real)
  }

  /** A sum of entries between lo and hi lies between `|s|·lo` and `|s|·hi`. */
  lemma {:induction false} SumBounds(s: seq<real>, lo: real, hi: real)
    requires forall j :: 0 <= j < |s| ==> lo <= s[j] <= hi
    ensures (|s| as real) * lo <= Sum(s) <= (|s| as real) * hi
    decreases |s|
  {
    if |s| > 0 {
      var l := |s| - 1;
      SumBounds(s[..l], lo, hi);
      assert (l as real) * lo + lo == (|s| as real) * lo;
      assert (l as real) * hi + hi == (|s| as real) * hi;
    }
  }

  /** A sum of non-negative entries is 0 only when every entry is 0. */
  lemma {:induction false} SumZero(s: seq<real>)
    requires forall j :: 0 <= j < |s| ==> s[j] >= 0.0
    requires Sum(s) == 0.0
    ensures forall j :: 0 <= j < |s| ==> s[j] == 0.0
    decreases |s|
  {
    if |s| > 0 {
      var l := |s| - 1;
      SumBounds(s[..l], 0.0, 0.0 + MaxOf(s));
      SumZero(s[..l]);
      forall j | 0 <= j < |s| ensures s[j] == 0.0 {
        if j < l {
          assert s[..l][j] == s[j];
        }
      }
    }
  }

  lemma {:induction false} DivAtMost(a: real, d: real, m: real)
    requires d > 0.0 && a <= d * m
    ensures a / d <= m
  {
    var q := a / d;
    assert q * d == a;
    if q > m {
      MulMonotone(m, q, d);
      assert d * m == m * d;
      MulPos(q - m, d);
    }
  }

  lemma {:induction false} DivAtLeastZero(a: real, d: real)
    requires d > 0.0 && a >= 0.0
    ensures a / d >= 0.0
  {
    var q := a / d;
    assert q * d == a;
    if q < 0.0 {
      MulPos(-q, d);
    }
  }

  /** Of non-negative errors, the mean is non-negative and at most the maximum:
      the RMS error never exceeds the maximal error. */
  lemma {:induction false} MeanBetweenZeroAndMax(s: seq<real>)
    requires |s| > 0 && forall j :: 0 <= j < |s| ==> s[j] >= 0.0
    ensures 0.0 <= Mean(s) <= MaxOf(s)
  {
    MeanWithin(s, MaxOf(s));
  }

  lemma {:induction false} MeanWithin(s: seq<real>, m: real)
    requires |s| > 0 && forall j :: 0 <= j < |s| ==> 0.0 <= s[j] <= m
    ensures 0.0 <= Mean(s) <= m
  {
    var total, l := Sum(s), |s| as real;
    SumBounds(s, 0.0, m);
    assert l * 0.0 == 0.0;
    DivAtMost(total, l, m);
    DivAtLeastZero(total, l);
  }

  /** Of non-negative errors, the mean is zero exactly when every error is. */
  lemma {:induction false} MeanZeroIffAllZero(s: seq<real>)
    requires |s| > 0 && forall j :: 0 <= j < |s| ==> s[j] >= 0.0
    ensures Mean(s) == 0.0 <==> forall j :: 0 <= j < |s| ==> s[j] == 0.0
  {
    var l := |s| as real;
    if Mean(s) == 0.0 {
      assert Sum(s) == Mean(s) * l;
      SumZero(s);
    }
    if forall j :: 0 <= j < |s| ==> s[j] == 0.0 {
      SumBounds(s, 0.0, 0.0);
    }
  }

  /** All errors zero: the maximum and the mean are zero. */
  lemma {:induction false} AllZeroStatistics(s: seq<real>)
    requires |s| > 0 && forall j :: 0 <= j < |s| ==> s[j] == 0.0
    ensures MaxOf(s) == 0.0 && Mean(s) == 0.0
  {
    MeanZeroIffAllZero(s);
  }
}
