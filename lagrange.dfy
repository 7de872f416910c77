/** The Lagrange editor: the interpolating polynomial through the control
    points, placed at the uniform nodes `i / (n - 1)` of [0, 1]. */
module Lagrange {
  import opened Geometry
  import opened MatrixUtils

  /** Node i of n: `i / (n - 1)`. */
  function Node(i: nat, n: nat): real
    requires n >= 2
  {
    (i as real) / ((n - 1) as real)
  }

  /** Distinct nodes differ, so no denominator `i/(n-1) - j/(n-1)` is zero. */
  lemma {:induction false} NodesDistinct(i: nat, j: nat, n: nat)
    requires i < n && j < n && i != j
    ensures Node(i, n) != Node(j, n)
  {
    var d := (n - 1) as real;
    assert Node(i, n) * d == i as real;
    assert Node(j, n) * d == j as real;
  }

  /** One factor of the basis product: `(t - j/(n-1)) / (i/(n-1) - j/(n-1))`. */
  function Factor(t: real, i: nat, j: nat, n: nat): real
    requires i < n && j < n && i != j
  {
    NodesDistinct(i, j, n);
    (t - Node(j, n)) / (Node(i, n) - Node(j, n))
  }

  /** `term` after the inner loop has run over `j < m`: the product of the
      factors for every `j < m` other than i, taken left to right. */
  function Term(t: real, i: nat, n: nat, m: nat): real
    requires i < n && m <= n
    decreases m
  {
    if m == 0 then 1.0
    else if m - 1 == i then Term(t, i, n, m - 1)
    else Term(t, i, n, m - 1) * Factor(t, i, m - 1, n)
  }

  /** One more j: the product gains the factor for j unless j is i. */
  lemma {:induction false} TermStep(t: real, i: nat, n: nat, j: nat)
    requires i < n && j < n
    ensures i == j ==> Term(t, i, n, j + 1) == Term(t, i, n, j)
    ensures i != j ==> (Node(i, n) != Node(j, n) &&
      Term(t, i, n, j + 1) == Term(t, i, n, j) * ((t - Node(j, n)) / (Node(i, n) - Node(j, n))))
  {
    if i != j {
      NodesDistinct(i, j, n);
    }
  }

  /** The n Lagrange basis values at t. */
  function LagrangeWeights(t: real, n: nat): (ws: seq<real>)
    ensures |ws| == n
  {
    seq(n, i requires 0 <= i < n => Term(t, i, n, n))
  }

  /** The interpolating polynomial at t: `Σ_i term_i · points[i]`, per coordinate. */
  function Interpolate(ps: seq<Point>, t: real): Point
  {
    Combine(LagrangeWeights(t, |ps|), ps)
  }

  /** At node k, basis i is 1 when i = k and 0 once the factor for k has
      been multiplied in. */
  lemma {:induction false} TermAtNode(k: nat, i: nat, n: nat, m: nat)
    requires n >= 2 && i < n && k < n && m <= n
    ensures i == k ==> Term(Node(k, n), i, n, m) == 1.0
    ensures i != k && k < m ==> Term(Node(k, n), i, n, m) == 0.0
    decreases m
  {
    if m > 0 {
      var t, j := Node(k, n), m - 1;
      TermAtNode(k, i, n, j);
      TermStep(t, i, n, j);
      if j != i {
        var d := Node(i, n) - Node(j, n);
        if i == k {
          FactorAtOwnNode(Term(t, i, n, j), d);
        } else if j == k {
          FactorAtOtherNode(Term(t, i, n, j), d);
        }
      }
    }
  }

  /** At its own node a factor is `d / d = 1`. */
  lemma {:induction false} FactorAtOwnNode(prev: real, d: real)
    requires d != 0.0 && prev == 1.0
    ensures prev * (d / d) == 1.0
  {
    DivSelf(d);
  }

  /** At node j the factor for j is `0 / d = 0`. */
  lemma {:induction false} FactorAtOtherNode(prev: real, d: real)
    requires d != 0.0
    ensures prev * (0.0 / d) == 0.0
  {
  }

  /** At node k the basis values are the unit vector `e_k`. */
  lemma {:induction false} WeightsAtNode(k: nat, n: nat)
    requires n >= 2 && k < n
    ensures LagrangeWeights(Node(k, n), n) == UnitRow(n, k)
  {
    forall i | 0 <= i < n
      ensures LagrangeWeights(Node(k, n), n)[i] == UnitRow(n, k)[i]
    {
      TermAtNode(k, i, n, n);
    }
  }

  /** The curve passes through every control point: at node `k / (n - 1)`
      it is exactly point k. */
  lemma {:induction false} InterpolatesNodes(ps: seq<Point>, k: nat)
    requires |ps| >= 2 && k < |ps|
    ensures Interpolate(ps, Node(k, |ps|)) == ps[k]
  {
    var n := |ps|;
    WeightsAtNode(k, n);
    DotUnitRow(n, k, Xs(ps));
    DotUnitRow(n, k, Ys(ps));
  }

  /** With one control point the product is empty and the curve is that
      point for every t. */
  lemma {:induction false} SinglePointConstant(p: Point, t: real)
    ensures Interpolate([p], t) == p
  {
    assert LagrangeWeights(t, 1) == [1.0];
    assert Xs([p]) == [p.x] && Ys([p]) == [p.y];
    assert Dot([1.0], [p.x]) == Dot([], []) + 1.0 * p.x;
    assert Dot([1.0], [p.y]) == Dot([], []) + 1.0 * p.y;
  }

  /** `a·p + b·q`, point by point. */
  function Mix(a: real, ps: seq<Point>, b: real, qs: seq<Point>): (r: seq<Point>)
    requires |ps| == |qs|
    ensures |r| == |ps|
  {
    seq(|ps|, i requires 0 <= i < |ps| => Point(a * ps[i].x + b * qs[i].x, a * ps[i].y + b * qs[i].y))
  }

  /** `a·u + b·v`, entry by entry. */
  function MixCoords(a: real, u: seq<real>, b: real, v: seq<real>): (r: seq<real>)
    requires |u| == |v|
    ensures |r| == |u|
  {
    seq(|u|, i requires 0 <= i < |u| => a * u[i] + b * v[i])
  }

  /** `a·u`, entry by entry. */
  function ScaleCoords(a: real, u: seq<real>): (r: seq<real>)
    ensures |r| == |u|
  {
    seq(|u|, i requires 0 <= i < |u| => a * u[i])
  }

  /** `u + v`, entry by entry. */
  function AddCoords(u: seq<real>, v: seq<real>): (r: seq<real>)
    requires |u| == |v|
    ensures |r| == |u|
  {
    seq(|u|, i requires 0 <= i < |u| => u[i] + v[i])
  }

  /** A weighted sum of scaled coordinates is the scaled weighted sum. */
  lemma {:induction false} DotScale(w: seq<real>, u: seq<real>, a: real)
    requires |w| == |u|
    ensures Dot(w, ScaleCoords(a, u)) == a * Dot(w, u)
    decreases |w|
  {
    if |w| > 0 {
      var l := |w| - 1;
      var su := ScaleCoords(a, u);
      ScalePrefix(a, u, l);
      DotScale(w[..l], u[..l], a);
      DotLast(w, su, l);
      DotLast(w, u, l);
      ScaleStep(Dot(w[..l], su[..l]), Dot(w[..l], u[..l]), a, w[l], u[l], su[l], Dot(w, su), Dot(w, u));
    }
  }

  /** Scaling commutes with taking a prefix. */
  lemma {:induction false} ScalePrefix(a: real, u: seq<real>, l: nat)
    requires l <= |u|
    ensures ScaleCoords(a, u)[..l] == ScaleCoords(a, u[..l])
  {
    forall i | 0 <= i < l ensures ScaleCoords(a, u)[..l][i] == ScaleCoords(a, u[..l])[i] {
      assert u[..l][i] == u[i];
    }
  }

  /** The arithmetic of one step of `DotScale`, on plain numbers. */
  lemma {:induction false} ScaleStep(ds: real, du: real, a: real, c: real, x: real, z: real, s: real, t: real)
    requires ds == a * du && z == a * x && s == ds + c * z && t == du + c * x
    ensures s == a * t
  {
    assert c * (a * x) == a * (c * x);
  }

  /** A weighted sum of added coordinates is the sum of the weighted sums. */
  lemma {:induction false} DotAdd(w: seq<real>, u: seq<real>, v: seq<real>)
    requires |w| == |u| == |v|
    ensures Dot(w, AddCoords(u, v)) == Dot(w, u) + Dot(w, v)
    decreases |w|
  {
    if |w| > 0 {
      var l := |w| - 1;
      var uv := AddCoords(u, v);
      assert uv[..l] == AddCoords(u[..l], v[..l]);
      DotAdd(w[..l], u[..l], v[..l]);
      DotLast(w, uv, l);
      DotLast(w, u, l);
      DotLast(w, v, l);
      AddStep(Dot(w[..l], uv[..l]), Dot(w[..l], u[..l]), Dot(w[..l], v[..l]), w[l], u[l], v[l], uv[l],
              Dot(w, uv), Dot(w, u), Dot(w, v));
    }
  }

  /** The arithmetic of one step of `DotAdd`, on plain numbers. */
  lemma {:induction false} AddStep(dz: real, du: real, dv: real, c: real, x: real, y: real, z: real, s: real, su: real, sv: real)
    requires dz == du + dv && z == x + y && s == dz + c * z && su == du + c * x && sv == dv + c * y
    ensures s == su + sv
  {
  }

  /** `a·u + b·v` is the sum of the two scaled rows. */
  lemma {:induction false} MixAsSum(a: real, u: seq<real>, b: real, v: seq<real>, w: seq<real>)
    requires |u| == |v| == |w|
    ensures Dot(w, MixCoords(a, u, b, v)) == Dot(w, AddCoords(ScaleCoords(a, u), ScaleCoords(b, v)))
  {
    assert MixCoords(a, u, b, v) == AddCoords(ScaleCoords(a, u), ScaleCoords(b, v));
  }

  /** A weighted sum of mixed coordinates is the mix of the weighted sums. */
  lemma {:induction false} DotMix(w: seq<real>, u: seq<real>, v: seq<real>, a: real, b: real)
    requires |w| == |u| == |v|
    ensures Dot(w, MixCoords(a, u, b, v)) == a * Dot(w, u) + b * Dot(w, v)
  {
    MixAsSum(a, u, b, v, w);
    DotAdd(w, ScaleCoords(a, u), ScaleCoords(b, v));
    DotScale(w, u, a);
    DotScale(w, v, b);
  }

  /** Each coordinate of a weighted combination of `a·P + b·Q` is `a` times
      that of P plus `b` times that of Q. */
  lemma {:induction false} CombineMixX(w: seq<real>, ps: seq<Point>, qs: seq<Point>, a: real, b: real)
    requires |w| == |ps| == |qs|
    ensures Combine(w, Mix(a, ps, b, qs)).x == a * Combine(w, ps).x + b * Combine(w, qs).x
  {
    MixSplits(a, ps, b, qs);
    DotMix(w, Xs(ps), Xs(qs), a, b);
  }

  lemma {:induction false} CombineMixY(w: seq<real>, ps: seq<Point>, qs: seq<Point>, a: real, b: real)
    requires |w| == |ps| == |qs|
    ensures Combine(w, Mix(a, ps, b, qs)).y == a * Combine(w, ps).y + b * Combine(w, qs).y
  {
    MixSplits(a, ps, b, qs);
    DotMix(w, Ys(ps), Ys(qs), a, b);
  }

  /** x and y share the basis values, so the curve is linear in the control
      points: the curve of `a·P + b·Q` is `a·curve(P) + b·curve(Q)`. */
  lemma {:induction false} InterpolateLinear(ps: seq<Point>, qs: seq<Point>, a: real, b: real, t: real)
    requires |ps| == |qs|
    ensures var r := Interpolate(Mix(a, ps, b, qs), t);
      r.x == a * Interpolate(ps, t).x + b * Interpolate(qs, t).x
      && r.y == a * Interpolate(ps, t).y + b * Interpolate(qs, t).y
  {
    CombineMixX(LagrangeWeights(t, |ps|), ps, qs, a, b);
    CombineMixY(LagrangeWeights(t, |ps|), ps, qs, a, b);
  }

  /** Mixing polygons mixes their coordinate lists. */
  lemma {:induction false} MixSplits(a: real, ps: seq<Point>, b: real, qs: seq<Point>)
    requires |ps| == |qs|
    ensures Xs(Mix(a, ps, b, qs)) == MixCoords(a, Xs(ps), b, Xs(qs))
    ensures Ys(Mix(a, ps, b, qs)) == MixCoords(a, Ys(ps), b, Ys(qs))
  {
    var mixed := Mix(a, ps, b, qs);
    var mx, my := MixCoords(a, Xs(ps), b, Xs(qs)), MixCoords(a, Ys(ps), b, Ys(qs));
    forall i | 0 <= i < |ps| ensures Xs(mixed)[i] == mx[i] && Ys(mixed)[i] == my[i] {
      assert Xs(ps)[i] == ps[i].x && Xs(qs)[i] == qs[i].x;
      assert Ys(ps)[i] == ps[i].y && Ys(qs)[i] == qs[i].y;
    }
  }

  /** The parameters `draw` evaluates: `t / 100` for t = 0 … 100, running
      from 0 to 1 in increasing order. */
  function DrawGrid(): (g: seq<real>)
    ensures |g| == 101 && g[0] == 0.0 && g[100] == 1.0
    ensures forall i :: 0 <= i < 100 ==> g[i] < g[i + 1]
    ensures forall i :: 0 <= i < 101 ==> 0.0 <= g[i] <= 1.0
  {
    seq(101, t requires 0 <= t < 101 => (t as real) / 100.0)
  }

  /** The inner loop: `term *= (t - j/(n-1)) / (i/(n-1) - j/(n-1))` for every
      j ≠ i. */
  method BasisTerm(t: real, i: nat, n: nat) returns (term: real)
    requires i < n
    ensures term == LagrangeWeights(t, n)[i]
  {
    term := 1.0;
    for j := 0 to n
      invariant term == Term(t, i, n, j)
    {
      TermStep(t, i, n, j);
      if i != j {
        NodesDistinct(i, j, n);
        term := term * ((t - Node(j, n)) / (Node(i, n) - Node(j, n)));
      }
    }
    assert LagrangeWeights(t, n)[i] == Term(t, i, n, n);
  }

  /** The body of `lagrange_interpolation(t)`: for each i, multiply up
      `term` over every j ≠ i, then add `term · points[i]` to both
      coordinates. */
  method InterpolateLoop(ps: seq<Point>, t: real) returns (r: Point)
    ensures r == Interpolate(ps, t)
  {
    var n := |ps|;
    var x, y := 0.0, 0.0;
    for i := 0 to n
      invariant x == Dot(LagrangeWeights(t, n)[..i], Xs(ps)[..i])
      invariant y == Dot(LagrangeWeights(t, n)[..i], Ys(ps)[..i])
    {
      x, y := AddTerm(ps, t, i, x, y);
    }
    assert LagrangeWeights(t, n)[..n] == LagrangeWeights(t, n);
    assert Xs(ps)[..n] == Xs(ps) && Ys(ps)[..n] == Ys(ps);
    r := Point(x, y);
  }

  /** One pass of the outer loop of `lagrange_interpolation(t)`: compute
      `term` for point i and add `term · points[i]` to the accumulators,
      extending both weighted sums by one entry. */
  method AddTerm(ps: seq<Point>, t: real, i: nat, x: real, y: real) returns (x': real, y': real)
    requires i < |ps|
    requires x == Dot(LagrangeWeights(t, |ps|)[..i], Xs(ps)[..i])
    requires y == Dot(LagrangeWeights(t, |ps|)[..i], Ys(ps)[..i])
    ensures x' == Dot(LagrangeWeights(t, |ps|)[..i + 1], Xs(ps)[..i + 1])
    ensures y' == Dot(LagrangeWeights(t, |ps|)[..i + 1], Ys(ps)[..i + 1])
  {
    var term := BasisTerm(t, i, |ps|);
    CombineStep(ps, LagrangeWeights(t, |ps|), i, term, x, y);
    x' := x + term * ps[i].x;
    y' := y + term * ps[i].y;
  }

  class LagrangeInterpolation {
    var points: seq<Point>

    /** `__init__`: four points zig-zagging between heights 300 and 100. */
    constructor ()
      ensures points == [Point(100.0, 300.0), Point(300.0, 100.0), Point(500.0, 300.0), Point(700.0, 100.0)]
    {
      points := [Point(100.0, 300.0), Point(300.0, 100.0), Point(500.0, 300.0), Point(700.0, 100.0)];
    }

    /** `lagrange_interpolation(t)`: for each i, multiply up `term` over every
        j ≠ i, then add `term · points[i]` to both coordinates. */
    method LagrangeAt(t: real) returns (r: Point)
      ensures r == Interpolate(points, t)
    {
      r := InterpolateLoop(points, t);
    }

    /** `find_point(x, y)`: the first control point within distance 10 of
        `(x, y)`, if any. */
    method FindPoint(x: real, y: real) returns (r: Option<Point>)
      ensures r.Some? ==> exists i :: (0 <= i < |points| && points[i] == r.value
        && Near(points[i], x, y) && forall j :: 0 <= j < i ==> !Near(points[j], x, y))
      ensures r.None? <==> forall j :: 0 <= j < |points| ==> !Near(points[j], x, y)
    {
      var index := Geometry.FindPoint(points, x, y);
      if index.None? {
        return None;
      }
      return Some(points[index.value]);
    }
  }
}
