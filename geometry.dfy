/** Plane points, parameter grids, dot products and the point-list helpers that
    every curve evaluator of the program shares. */
module Geometry {

  datatype Option<T> = None | Some(value: T)

  /** A control point or a curve sample: the `{'x': .., 'y': ..}` records. */
  datatype Point = Point(x: real, y: real)

  /** Squared Euclidean distance; the program takes its square root, the model
      compares squares instead (both sides are non-negative). */
  function SqDist(p: Point, q: Point): (d: real)
    ensures d >= 0.0
    ensures p == q ==> d == 0.0
  {
    SumOfSquares(p.x - q.x, p.y - q.y);
    (p.x - q.x) * (p.x - q.x) + (p.y - q.y) * (p.y - q.y)
  }

  lemma {:induction false} MulPos(a: real, b: real)
    requires a > 0.0 && b > 0.0
    ensures a * b > 0.0
  {
  }

  lemma {:induction false} MulNonneg(a: real, b: real)
    requires a >= 0.0 && b >= 0.0
    ensures a * b >= 0.0
  {
  }

  /** A square is non-negative, and positive away from zero. */
  lemma {:induction false} Square(a: real)
    ensures a * a >= 0.0
    ensures a != 0.0 ==> a * a > 0.0
  {
    if a > 0.0 {
      MulPos(a, a);
    } else if a < 0.0 {
      MulPos(-a, -a);
      assert (-a) * (-a) == a * a;
    }
  }

  lemma {:induction false} SumOfSquares(a: real, b: real)
    ensures a * a + b * b >= 0.0
    ensures a != 0.0 || b != 0.0 ==> a * a + b * b > 0.0
  {
    Square(a);
    Square(b);
  }

  /** `np.linspace(start, stop, num)`: `num` values, `start + j * step` with
      `step = (stop - start) / (num - 1)`; a single value is `start`. */
  function Linspace(start: real, stop: real, num: nat): (r: seq<real>)
    ensures |r| == num
    ensures num >= 1 ==> r[0] == start
    ensures num >= 2 ==> r[num - 1] == stop
  {
    seq(num, j requires 0 <= j < num =>
      if num == 1 then start
      else start + (j as real) * ((stop - start) / ((num - 1) as real)))
  }

  /** Every grid value lies between the two ends, and the grid never goes back. */
  lemma {:induction false} LinspaceBounds(start: real, stop: real, num: nat, j: nat)
    requires start <= stop && j < num
    ensures start <= Linspace(start, stop, num)[j] <= stop
    ensures j + 1 < num ==> Linspace(start, stop, num)[j] <= Linspace(start, stop, num)[j + 1]
  {
    if num > 1 {
      var last := (num - 1) as real;
      var step := (stop - start) / last;
      var grid := Linspace(start, stop, num);
      assert grid[j] == start + (j as real) * step;
      GridPointBounds(start, stop, last, j as real);
      if j + 1 < num {
        assert grid[j + 1] == start + ((j + 1) as real) * step;
        GridPointBounds(start, stop, last, (j + 1) as real);
        GridStep(start, step, j as real);
      }
    }
  }

  /** A grid point `start + j·(stop - start)/last` with `0 <= j <= last`
      lies between the ends. */
  lemma {:induction false} GridPointBounds(start: real, stop: real, last: real, j: real)
    requires start <= stop && last > 0.0 && 0.0 <= j <= last
    ensures start <= start + j * ((stop - start) / last) <= stop
  {
    var step := (stop - start) / last;
    assert step >= 0.0;
    assert step * last == stop - start;
    MulMonotone(j, last, step);
    MulMonotone(0.0, j, step);
  }

  /** Consecutive grid points do not decrease. */
  lemma {:induction false} GridStep(start: real, step: real, j: real)
    requires step >= 0.0
    ensures start + j * step <= start + (j + 1.0) * step
  {
    assert (j + 1.0) * step == j * step + step;
  }

  lemma {:induction false} MulMonotone(a: real, b: real, c: real)
    requires a <= b && c >= 0.0
    ensures a * c <= b * c
  {
  }

  /** The x coordinates, the y coordinates of a point list. */
  function Xs(ps: seq<Point>): (r: seq<real>)
    ensures |r| == |ps| && forall i :: 0 <= i < |ps| ==> r[i] == ps[i].x
  {
    seq(|ps|, i requires 0 <= i < |ps| => ps[i].x)
  }

  function Ys(ps: seq<Point>): (r: seq<real>)
    ensures |r| == |ps| && forall i :: 0 <= i < |ps| ==> r[i] == ps[i].y
  {
    seq(|ps|, i requires 0 <= i < |ps| => ps[i].y)
  }

  /** `sum(a * b for a, b in zip(u, v))`, accumulated left to right exactly as
      the program's `x += basis * points[i]['x']` loops do. */
  function Dot(u: seq<real>, v: seq<real>): real
    requires |u| == |v|
    decreases |u|
  {
    if |u| == 0 then 0.0 else Dot(u[..|u| - 1], v[..|v| - 1]) + u[|u| - 1] * v[|v| - 1]
  }

  /** A dot product of length q + 1 is the one of length q plus the last term. */
  lemma {:induction false} DotLast(u: seq<real>, v: seq<real>, q: nat)
    requires |u| == |v| == q + 1
    ensures Dot(u, v) == Dot(u[..q], v[..q]) + u[q] * v[q]
  {
  }

  /** Extending both prefixes by one entry adds one product: the step of
      every accumulation loop over a dot product. */
  lemma {:induction false} DotPrefixStep(u: seq<real>, v: seq<real>, i: nat, a: real, b: real)
    requires |u| == |v| && i < |u| && a == u[i] && b == v[i]
    ensures Dot(u[..i + 1], v[..i + 1]) == Dot(u[..i], v[..i]) + a * b
  {
    assert u[..i + 1][..i] == u[..i];
    assert v[..i + 1][..i] == v[..i];
    DotLast(u[..i + 1], v[..i + 1], i);
  }

  /** One step of a loop that accumulates the combination `Σ w[i] · ps[i]`
      coordinate by coordinate: point i adds `c = w[i]` times its
      coordinates to both running sums. */
  lemma {:induction false} CombineStep(ps: seq<Point>, w: seq<real>, i: nat, c: real, x: real, y: real)
    requires i < |ps| == |w| && c == w[i]
    requires x == Dot(w[..i], Xs(ps)[..i]) && y == Dot(w[..i], Ys(ps)[..i])
    ensures x + c * ps[i].x == Dot(w[..i + 1], Xs(ps)[..i + 1])
    ensures y + c * ps[i].y == Dot(w[..i + 1], Ys(ps)[..i + 1])
  {
    DotPrefixStep(w, Xs(ps), i, c, ps[i].x);
    DotPrefixStep(w, Ys(ps), i, c, ps[i].y);
  }

  /** Plain left-to-right sum. */
  function Sum(s: seq<real>): real
    decreases |s|
  {
    if |s| == 0 then 0.0 else Sum(s[..|s| - 1]) + s[|s| - 1]
  }

  /** The weighted combination `Σ ws[i] · ps[i]`, taken per coordinate. */
  function Combine(ws: seq<real>, ps: seq<Point>): Point
    requires |ws| == |ps|
  {
    Point(Dot(ws, Xs(ps)), Dot(ws, Ys(ps)))
  }

  /** The row update `a[j] -= f * b[j]` applied to a whole row. */
  function SubScaled(a: seq<real>, f: real, b: seq<real>): (r: seq<real>)
    requires |a| == |b|
    ensures |r| == |a|
  {
    seq(|a|, j requires 0 <= j < |a| => a[j] - f * b[j])
  }

  /** The row update `a[j] /= d` applied to a whole row. */
  function DivRow(a: seq<real>, d: real): (r: seq<real>)
    requires d != 0.0
    ensures |r| == |a|
  {
    seq(|a|, j requires 0 <= j < |a| => a[j] / d)
  }

  /** A dot product is linear in its first argument. */
  lemma {:induction false} DotSubScaled(a: seq<real>, f: real, b: seq<real>, v: seq<real>)
    requires |a| == |b| == |v|
    ensures Dot(SubScaled(a, f, b), v) == Dot(a, v) - f * Dot(b, v)
    decreases |a|
  {
    if |a| > 0 {
      var m := |a| - 1;
      var c := SubScaled(a, f, b);
      SubScaledPrefix(a, f, b, m);
      DotSubScaled(a[..m], f, b[..m], v[..m]);
      DotLast(c, v, m);
      DotLast(a, v, m);
      DotLast(b, v, m);
      assert c[m] == a[m] - f * b[m];
      SubScaledStep(Dot(a[..m], v[..m]), Dot(b[..m], v[..m]), f, a[m], b[m], v[m]);
    }
  }

  /** The row update commutes with taking a prefix. */
  lemma {:induction false} SubScaledPrefix(a: seq<real>, f: real, b: seq<real>, m: nat)
    requires |a| == |b| && m <= |a|
    ensures SubScaled(a, f, b)[..m] == SubScaled(a[..m], f, b[..m])
  {
    forall j | 0 <= j < m ensures SubScaled(a, f, b)[..m][j] == SubScaled(a[..m], f, b[..m])[j] {
      assert a[..m][j] == a[j] && b[..m][j] == b[j];
    }
  }

  /** The arithmetic of one step of `DotSubScaled`. */
  lemma {:induction false} SubScaledStep(da: real, db: real, f: real, x: real, y: real, w: real)
    ensures (da - f * db) + (x - f * y) * w == (da + x * w) - f * (db + y * w)
  {
    assert (x - f * y) * w == x * w - f * (y * w);
  }

  lemma {:induction false} DivMul(a: real, d: real, v: real)
    requires d != 0.0
    ensures (a / d) * v == (a * v) / d
  {
  }

  lemma {:induction false} DivAdd(a: real, b: real, d: real)
    requires d != 0.0
    ensures a / d + b / d == (a + b) / d
  {
  }

  /** Dividing every entry of the first argument divides the dot product. */
  lemma {:induction false} DotDivRow(a: seq<real>, d: real, v: seq<real>)
    requires |a| == |v| && d != 0.0
    ensures Dot(DivRow(a, d), v) == Dot(a, v) / d
    decreases |a|
  {
    if |a| > 0 {
      var m := |a| - 1;
      var c := DivRow(a, d);
      assert c[..m] == DivRow(a[..m], d);
      DotDivRow(a[..m], d, v[..m]);
      assert Dot(c, v) == Dot(a[..m], v[..m]) / d + (a[m] / d) * v[m];
      DivMul(a[m], d, v[m]);
      DivAdd(Dot(a[..m], v[..m]), a[m] * v[m], d);
    }
  }

  /** Against a constant vector, a dot product is the sum of the weights times the constant. */
  lemma {:induction false} DotConstant(ws: seq<real>, v: seq<real>, c: real)
    requires |ws| == |v| && forall i :: 0 <= i < |v| ==> v[i] == c
    ensures Dot(ws, v) == Sum(ws) * c
    decreases |ws|
  {
    if |ws| > 0 {
      DotConstant(ws[..|ws| - 1], v[..|v| - 1], c);
    }
  }

  /** All-zero weights give 0 whatever they weight. */
  lemma {:induction false} DotZeroWeights(ws: seq<real>, v: seq<real>)
    requires |ws| == |v| && forall i :: 0 <= i < |ws| ==> ws[i] == 0.0
    ensures Dot(ws, v) == 0.0
    decreases |ws|
  {
    if |ws| > 0 {
      DotZeroWeights(ws[..|ws| - 1], v[..|v| - 1]);
    }
  }

  /** Weights that sum to one reproduce a constant control polygon. */
  lemma {:induction false} CombineConstant(ws: seq<real>, ps: seq<Point>, c: Point)
    requires |ws| == |ps| && Sum(ws) == 1.0
    requires forall i :: 0 <= i < |ps| ==> ps[i] == c
    ensures Combine(ws, ps) == c
  {
    DotConstant(ws, Xs(ps), c.x);
    DotConstant(ws, Ys(ps), c.y);
  }

  // ---------------------------------------------------------------------------
  // Picking a control point (`find_point`, the same loop in every script)

  /** Every point lies in the box `[xlo, xhi] × [ylo, yhi]`. */
  ghost predicate InBox(ps: seq<Point>, xlo: real, xhi: real, ylo: real, yhi: real)
  {
    forall i :: 0 <= i < |ps| ==> xlo <= ps[i].x <= xhi && ylo <= ps[i].y <= yhi
  }

  /** The pick test `sqrt((px - x)² + (py - y)²) < 10`, squared. */
  predicate Near(p: Point, x: real, y: real)
  {
    SqDist(p, Point(x, y)) < 100.0
  }

  /** Linear search for the first control point within distance 10 of `(x, y)`;
      the index stands for the reference the program returns. */
  method FindPoint(points: seq<Point>, x: real, y: real) returns (r: Option<nat>)
    ensures r.Some? ==> r.value < |points| && Near(points[r.value], x, y)
    ensures r.Some? ==> forall j :: 0 <= j < r.value ==> !Near(points[j], x, y)
    ensures r.None? <==> forall j :: 0 <= j < |points| ==> !Near(points[j], x, y)
  {
    var i := 0;
    while i < |points|
      invariant 0 <= i <= |points|
      invariant forall j :: 0 <= j < i ==> !Near(points[j], x, y)
    {
      if Near(points[i], x, y) {
        return Some(i);
      }
      i := i + 1;
    }
    return None;
  }

  // ---------------------------------------------------------------------------
  // Keeping the control polygon ordered by x (`add_point`)

  ghost predicate SortedByX(s: seq<Point>)
  {
    forall i, j :: 0 <= i < j < |s| ==> s[i].x <= s[j].x
  }

  /** Insert `p` after every point whose x is at most `p.x`: the place a stable
      sort on x gives an element appended at the end. */
  function InsertByX(s: seq<Point>, p: Point): (r: seq<Point>)
    ensures |r| == |s| + 1
    ensures multiset(r) == multiset(s) + multiset{p}
    decreases |s|
  {
    if |s| == 0 then [p]
    else if s[|s| - 1].x <= p.x then s + [p]
    else
      var r := InsertByX(s[..|s| - 1], p) + [s[|s| - 1]];
      assert s == s[..|s| - 1] + [s[|s| - 1]];
      r
  }

  /** Every element of the insertion is `p` or an element of `s`. */
  lemma {:induction false} InsertByXElements(s: seq<Point>, p: Point, q: Point)
    requires q in InsertByX(s, p)
    ensures q == p || q in s
    decreases |s|
  {
    assert q in multiset(InsertByX(s, p));
  }

  /** Inserting into an x-ordered list keeps it x-ordered. */
  lemma {:induction false} InsertByXSorted(s: seq<Point>, p: Point)
    requires SortedByX(s)
    ensures SortedByX(InsertByX(s, p))
    decreases |s|
  {
    if |s| > 0 && s[|s| - 1].x > p.x {
      var m := |s| - 1;
      var t := InsertByX(s[..m], p);
      InsertByXSorted(s[..m], p);
      forall q | q in t ensures q.x <= s[m].x {
        InsertByXElements(s[..m], p, q);
      }
      var r := t + [s[m]];
      forall i, j | 0 <= i < j < |r| ensures r[i].x <= r[j].x {
        if j == |r| - 1 { assert r[i] in t; }
      }
    }
  }

  /** `list.sort(key=lambda p: p['x'])`: a stable sort by x, as insertion sort. */
  function SortByX(s: seq<Point>): seq<Point>
    decreases |s|
  {
    if |s| == 0 then [] else InsertByX(SortByX(s[..|s| - 1]), s[|s| - 1])
  }

  /** The sort returns the same points. */
  lemma {:induction false} SortByXPermutation(s: seq<Point>)
    ensures |SortByX(s)| == |s|
    ensures multiset(SortByX(s)) == multiset(s)
    decreases |s|
  {
    if |s| > 0 {
      var init, last := s[..|s| - 1], s[|s| - 1];
      assert s == init + [last];
      SortByXPermutation(init);
      assert SortByX(s) == InsertByX(SortByX(init), last);
    }
  }

  /** The sort orders the points by x. */
  lemma {:induction false} SortByXSorted(s: seq<Point>)
    ensures SortedByX(SortByX(s))
    decreases |s|
  {
    if |s| > 0 {
      var init, last := s[..|s| - 1], s[|s| - 1];
      SortByXSorted(init);
      InsertByXSorted(SortByX(init), last);
    }
  }

  /** The sort returns the same points, ordered by x. */
  lemma {:induction false} SortByXCorrect(s: seq<Point>)
    ensures |SortByX(s)| == |s|
    ensures multiset(SortByX(s)) == multiset(s)
    ensures SortedByX(SortByX(s))
  {
    SortByXPermutation(s);
    SortByXSorted(s);
  }

  /** A list already ordered by x is left as it is (the sort is stable). */
  lemma {:induction false} SortByXOfSorted(s: seq<Point>)
    requires SortedByX(s)
    ensures SortByX(s) == s
    decreases |s|
  {
    if |s| > 0 {
      var m := |s| - 1;
      var init, last := s[..m], s[m];
      assert s == init + [last];
      forall i, j | 0 <= i < j < m ensures init[i].x <= init[j].x {
        assert init[i] == s[i] && init[j] == s[j];
      }
      SortByXOfSorted(init);
      assert SortByX(s) == InsertByX(init, last);
      if m > 0 {
        assert init[m - 1].x <= last.x;
      }
    }
  }
}
