/** The dashboard's monotone cubic line: strokeSmoothLine in src/dashboard/assets/chart.js. */
module Spline {
  import opened Reals

  datatype Point = Point(x: real, y: real)

  /** One bezierCurveTo: start, two control points, end. */
  datatype Segment = Segment(start: Point, c1: Point, c2: Point, end: Point)

  datatype Path = Nothing | Line(from: Point, to: Point) | Curve(segments: seq<Segment>)

  /** The products and quotients of the drawing code. `threeOverRoot(s)` is 3 / sqrt(s). */
  datatype Arithmetic = Arithmetic(
    add: (real, real) -> real,
    mul: (real, real) -> real,
    div: (real, real) -> real,
    threeOverRoot: real -> real)

  /** No rounding: real arithmetic, and the scale t is the positive number with t * t * s = 9. */
  ghost predicate Exact(ar: Arithmetic) {
    && (forall x, y :: ar.add(x, y) == x + y)
    && (forall x, y :: ar.mul(x, y) == x * y)
    && (forall x, y :: y != 0.0 ==> ar.div(x, y) == x / y)
    && (forall s :: s > 9.0 ==> ThreeOverRoot(ar.threeOverRoot(s), s))
  }

  predicate ThreeOverRoot(t: real, s: real) { t > 0.0 && t * t * s == 9.0 }

  function Dx(ps: seq<Point>, i: nat): real
    requires i + 1 < |ps|
  {
    ps[i + 1].x - ps[i].x
  }

  function Delta(ps: seq<Point>, i: nat, ar: Arithmetic): real
    requires i + 1 < |ps|
  {
    if Dx(ps, i) != 0.0 then ar.div(ps[i + 1].y - ps[i].y, Dx(ps, i)) else 0.0
  }

  function Deltas(ps: seq<Point>, ar: Arithmetic): (d: seq<real>)
    requires |ps| >= 1
    ensures |d| == |ps| - 1 && forall i :: 0 <= i < |d| ==> d[i] == Delta(ps, i, ar)
  {
    seq(|ps| - 1, i requires 0 <= i < |ps| - 1 => Delta(ps, i, ar))
  }

  function InteriorTangent(before: real, after: real, ar: Arithmetic): real {
    if ar.mul(before, after) <= 0.0 then 0.0 else (before + after) / 2.0
  }

  /** Tangents before limiting, from the secant slopes d: secants at the ends, averages inside, flat at extrema. */
  function Initial(d: seq<real>, ar: Arithmetic): (m: seq<real>)
    requires |d| >= 1
    ensures |m| == |d| + 1
  {
    seq(|d| + 1, i requires 0 <= i < |d| + 1 =>
        if i == 0 then d[0] else if i == |d| then d[|d| - 1] else InteriorTangent(d[i - 1], d[i], ar))
  }

  /** The limiter on one segment. */
  function Limit(m0: real, m1: real, d: real, ar: Arithmetic): (real, real) {
    if d == 0.0 then (0.0, 0.0)
    else
      var a, b := ar.div(m0, d), ar.div(m1, d);
      var s := ar.add(ar.mul(a, a), ar.mul(b, b));
      if s > 9.0 then
        var t := ar.threeOverRoot(s);
        (ar.mul(ar.mul(t, a), d), ar.mul(ar.mul(t, b), d))
      else (m0, m1)
  }

  function SumSquares(a: real, b: real): real { a * a + b * b }

  function Rein(t: real, a: real, d: real): real { t * a * d }

  function LimitAt(m: seq<real>, i: nat, d: real, ar: Arithmetic): seq<real>
    requires i + 1 < |m|
  {
    var p := Limit(m[i], m[i + 1], d, ar);
    m[i := p.0][i + 1 := p.1]
  }

  /** The tangents after the limiter has passed the first k segments. */
  function Limited(start: seq<real>, d: seq<real>, ar: Arithmetic, k: nat): (m: seq<real>)
    requires |start| == |d| + 1 && k <= |d|
    ensures |m| == |d| + 1
  {
    if k == 0 then start else LimitAt(Limited(start, d, ar, k - 1), k - 1, d[k - 1], ar)
  }

  /** The tangents the curve is drawn with. */
  function Tangents(ps: seq<Point>, ar: Arithmetic): (m: seq<real>)
    requires |ps| >= 3
    ensures |m| == |ps|
  {
    var d := Deltas(ps, ar);
    Limited(Initial(d, ar), d, ar, |ps| - 1)
  }

  function Hermite(ps: seq<Point>, m: seq<real>, i: nat, ar: Arithmetic): Segment
    requires |m| == |ps| && i + 1 < |ps|
  {
    var dx := Dx(ps, i);
    Segment(ps[i],
            Point(ps[i].x + dx / 3.0, ps[i].y + ar.mul(m[i], dx) / 3.0),
            Point(ps[i + 1].x - dx / 3.0, ps[i + 1].y - ar.mul(m[i + 1], dx) / 3.0),
            ps[i + 1])
  }

  function Smooth(ps: seq<Point>, ar: Arithmetic): Path {
    if |ps| < 2 then Nothing
    else if |ps| == 2 then Line(ps[0], ps[1])
    else
      var m := Tangents(ps, ar);
      Curve(seq(|ps| - 1, i requires 0 <= i < |ps| - 1 => Hermite(ps, m, i, ar)))
  }

  /** Per-segment widths and secant slopes. */
  method Secants(ps: seq<Point>, ar: Arithmetic) returns (dx: array<real>, delta: array<real>)
    requires |ps| >= 3
    ensures dx.Length == delta.Length == |ps| - 1 && fresh(dx) && fresh(delta)
    ensures forall j :: 0 <= j < |ps| - 1 ==> dx[j] == Dx(ps, j)
    ensures delta[..] == Deltas(ps, ar)
  {
    var n := |ps|;
    dx, delta := new real[n - 1], new real[n - 1];
    for i := 0 to n - 1
      invariant forall j :: 0 <= j < i ==> dx[j] == Dx(ps, j) && delta[j] == Delta(ps, j, ar)
    {
      dx[i] := ps[i + 1].x - ps[i].x;
      delta[i] := if dx[i] != 0.0 then ar.div(ps[i + 1].y - ps[i].y, dx[i]) else 0.0;
    }
  }

  method InitialTangents(delta: array<real>, ar: Arithmetic) returns (m: array<real>)
    requires delta.Length >= 2
    ensures fresh(m) && m[..] == Initial(delta[..], ar)
  {
    var n := delta.Length + 1;
    m := new real[n];
    m[0] := delta[0];
    m[n - 1] := delta[n - 2];
    ghost var d := delta[..];
    for i := 1 to n - 1
      invariant m[0] == d[0] && m[n - 1] == d[n - 2]
      invariant forall j :: 1 <= j < i ==> m[j] == InteriorTangent(d[j - 1], d[j], ar)
    {
      m[i] := InteriorTangent(delta[i - 1], delta[i], ar);
    }
    InitialFrom(d, m[..], ar);
  }

  lemma InitialFrom(d: seq<real>, m: seq<real>, ar: Arithmetic)
    requires |d| >= 2 && |m| == |d| + 1 && m[0] == d[0] && m[|d|] == d[|d| - 1]
    requires forall j :: 1 <= j < |d| ==> m[j] == InteriorTangent(d[j - 1], d[j], ar)
    ensures m == Initial(d, ar)
  {
  }

  /** One limiter iteration, on the shared tangent array. */
  method LimitInPlace(m: array<real>, i: nat, d: real, ar: Arithmetic)
    requires i + 1 < m.Length
    modifies m
    ensures m[..] == LimitAt(old(m[..]), i, d, ar)
  {
    if d == 0.0 {
      m[i] := 0.0;
      m[i + 1] := 0.0;
    } else {
      var a, b := ar.div(m[i], d), ar.div(m[i + 1], d);
      var s := ar.add(ar.mul(a, a), ar.mul(b, b));
      if s > 9.0 {
        var t := ar.threeOverRoot(s);
        m[i] := ar.mul(ar.mul(t, a), d);
        m[i + 1] := ar.mul(ar.mul(t, b), d);
      } else {
        assert m[..] == old(m[..])[i := m[i]][i + 1 := m[i + 1]];
      }
    }
  }

  method LimitAll(delta: array<real>, m: array<real>, ar: Arithmetic)
    requires m.Length == delta.Length + 1 && m != delta
    modifies m
    ensures m[..] == Limited(old(m[..]), delta[..], ar, delta.Length)
  {
    ghost var start, d := m[..], delta[..];
    for i := 0 to delta.Length
      invariant m[..] == Limited(start, d, ar, i)
    {
      LimitInPlace(m, i, delta[i], ar);
    }
  }

  method FinalTangents(ps: seq<Point>, delta: array<real>, ar: Arithmetic) returns (m: array<real>)
    requires |ps| >= 3 && delta[..] == Deltas(ps, ar)
    ensures fresh(m) && m[..] == Tangents(ps, ar)
  {
    ghost var d := delta[..];
    m := InitialTangents(delta, ar);
    ghost var start := m[..];
    LimitAll(delta, m, ar);
    TangentsAre(ps, ar, d, start, m[..]);
  }

  lemma TangentsAre(ps: seq<Point>, ar: Arithmetic, d: seq<real>, start: seq<real>, m: seq<real>)
    requires |ps| >= 3 && d == Deltas(ps, ar) && start == Initial(d, ar) && m == Limited(start, d, ar, |d|)
    ensures m == Tangents(ps, ar)
  {
  }

  /** The drawing function, with its work arrays. */
  method StrokeSmoothLine(ps: seq<Point>, ar: Arithmetic) returns (path: Path)
    ensures path == Smooth(ps, ar)
  {
    var n := |ps|;
    if n < 2 { return Nothing; }
    if n == 2 { return Line(ps[0], ps[1]); }
    var dx, delta := Secants(ps, ar);
    var m := FinalTangents(ps, delta, ar);
    var segments := Beziers(ps, dx, m, ar);
    SmoothFrom(ps, ar, m[..], segments);
    return Curve(segments);
  }

  lemma SmoothFrom(ps: seq<Point>, ar: Arithmetic, m: seq<real>, segments: seq<Segment>)
    requires |ps| >= 3 && m == Tangents(ps, ar) && |segments| == |ps| - 1
    requires forall j :: 0 <= j < |ps| - 1 ==> segments[j] == Hermite(ps, m, j, ar)
    ensures Smooth(ps, ar) == Curve(segments)
  {
  }

  method Beziers(ps: seq<Point>, dx: array<real>, m: array<real>, ar: Arithmetic) returns (segments: seq<Segment>)
    requires |ps| >= 3 && dx.Length == |ps| - 1 && m.Length == |ps|
    requires forall j :: 0 <= j < |ps| - 1 ==> dx[j] == Dx(ps, j)
    ensures |segments| == |ps| - 1 && forall j :: 0 <= j < |ps| - 1 ==> segments[j] == Hermite(ps, m[..], j, ar)
  {
    segments := [];
    for i := 0 to |ps| - 1
      invariant |segments| == i && forall j :: 0 <= j < i ==> segments[j] == Hermite(ps, m[..], j, ar)
    {
      var c1 := Point(ps[i].x + dx[i] / 3.0, ps[i].y + ar.mul(m[i], dx[i]) / 3.0);
      var c2 := Point(ps[i + 1].x - dx[i] / 3.0, ps[i + 1].y - ar.mul(m[i + 1], dx[i]) / 3.0);
      segments := segments + [Segment(ps[i], c1, c2, ps[i + 1])];
    }
  }

  // Signs of products

  lemma SquareNonNegative(x: real)
    ensures x * x >= 0.0
  {
  }

  lemma FactorPositive(x: real, y: real)
    requires x * y > 0.0 && y > 0.0
    ensures x > 0.0
  {
  }

  /** The product is named, so that a square stays a term of its own. */
  lemma MulPositive(x: real, y: real, q: real)
    requires x > 0.0 && y > 0.0 && q == x * y
    ensures q > 0.0
  {
  }

  lemma NonZeroSquare(x: real, q: real)
    requires x != 0.0 && q == x * x
    ensures q > 0.0
  {
    if x > 0.0 { MulPositive(x, x, q); } else { MulPositive(0.0 - x, 0.0 - x, q); }
  }

  lemma ZeroFactor(x: real, y: real, q: real)
    requires x == 0.0 && q == x * y
    ensures q == 0.0
  {
  }

  lemma PositiveFactor(x: real, y: real, q: real)
    requires x >= 0.0 && q == x * y && q > 0.0
    ensures x > 0.0
  {
    if x == 0.0 { ZeroFactor(x, y, q); }
  }

  // Tangents stay tame

  /** The tangent does not point against the secant. */
  predicate Along(m: real, d: real) {
    (d > 0.0 ==> m >= 0.0) && (d < 0.0 ==> m <= 0.0)
  }

  /** Both tangents of a segment lie in the Fritsch-Carlson circle. */
  predicate Safe(m0: real, m1: real, d: real) {
    Along(m0, d) && Along(m1, d) && m0 * m0 + m1 * m1 <= 9.0 * d * d
  }

  /** m' is m, pulled towards zero. */
  predicate Shrunk(m': real, m: real) {
    (m >= 0.0 ==> 0.0 <= m' <= m) && (m <= 0.0 ==> m <= m' <= 0.0)
  }

  lemma InitialAlong(d: seq<real>, i: nat, ar: Arithmetic)
    requires i < |d| && Exact(ar)
    ensures Along(Initial(d, ar)[i], d[i]) && Along(Initial(d, ar)[i + 1], d[i])
  {
    if i > 0 { InteriorAlong(d[i - 1], d[i], ar, ar.mul(d[i - 1], d[i])); }
    if i + 1 < |d| { InteriorAlong(d[i], d[i + 1], ar, ar.mul(d[i], d[i + 1])); }
  }

  lemma InteriorAlong(d: real, e: real, ar: Arithmetic, q: real)
    requires q == ar.mul(d, e) && q == d * e
    ensures Along(InteriorTangent(d, e, ar), d) && Along(InteriorTangent(d, e, ar), e)
  {
    if q > 0.0 { SameSigns(d, e, q); }
  }

  lemma SameSigns(d: real, e: real, q: real)
    requires q == d * e && q > 0.0
    ensures (d > 0.0 && e > 0.0) || (d < 0.0 && e < 0.0)
  {
    if e > 0.0 { FactorPositive(d, e); } else { SameSide(d, e); }
  }

  lemma SameSide(d: real, e: real)
    requires d * e > 0.0 && e <= 0.0
    ensures d < 0.0 && e < 0.0
  {
  }

  lemma SquareShrinks(m': real, m: real)
    requires Shrunk(m', m)
    ensures m' * m' <= m * m
  {
    if m >= 0.0 { MulNonNegative(m - m', m + m'); } else { MulNonNegative(m' - m, 0.0 - m - m'); }
  }

  /** Limiting a later segment shrinks the shared tangent, which cannot unsettle the segment before. */
  lemma SafeAfterShrink(m0: real, m1: real, m1': real, d: real)
    requires Safe(m0, m1, d) && Shrunk(m1', m1)
    ensures Safe(m0, m1', d)
  {
    SquareShrinks(m1', m1);
  }

  lemma ScaleBelowOne(t: real, s: real)
    requires t > 0.0 && s > 9.0 && t * t * s == 9.0
    ensures t < 1.0
  {
    var q := t * t;
    assert q * s == 9.0;
    assert (1.0 - q) * s == s - q * s;
    FactorPositive(1.0 - q, s);
    assert (1.0 - t) * (1.0 + t) == 1.0 - q;
    FactorPositive(1.0 - t, 1.0 + t);
  }

  lemma ScaledShrinks(t: real, m: real, x: real)
    requires 0.0 < t < 1.0 && x == t * m
    ensures Shrunk(x, m)
  {
    if m >= 0.0 {
      MulNonNegative(t, m);
      MulNonNegative(1.0 - t, m);
    } else {
      MulNonNegative(t, 0.0 - m);
      MulNonNegative(1.0 - t, 0.0 - m);
    }
  }

  lemma CircleScaled(t: real, m0: real, m1: real, d: real, s: real, x: real, y: real)
    requires d != 0.0 && s == SumSquares(m0 / d, m1 / d) && t * t * s == 9.0 && x == t * m0 && y == t * m1
    ensures x * x + y * y == 9.0 * d * d
  {
    var a, b := m0 / d, m1 / d;
    assert a * d == m0 && b * d == m1;
    calc {
      x * x + y * y;
      (t * (a * d)) * (t * (a * d)) + (t * (b * d)) * (t * (b * d));
      (t * t * (a * a + b * b)) * (d * d);
      9.0 * (d * d);
    }
  }

  lemma InsideCircle(m0: real, m1: real, d: real, s: real)
    requires d != 0.0 && s == SumSquares(m0 / d, m1 / d) && s <= 9.0
    ensures m0 * m0 + m1 * m1 <= 9.0 * d * d
  {
    var a, b, q := m0 / d, m1 / d, d * d;
    assert a * d == m0 && b * d == m1;
    assert m0 * m0 + m1 * m1 == (a * a + b * b) * q;
    SquareNonNegative(d);
    MulNonNegative(9.0 - s, q);
  }

  lemma LimitScales(m0: real, m1: real, d: real, t: real, s: real)
    requires d != 0.0 && s == SumSquares(m0 / d, m1 / d) && s > 9.0
    requires t > 0.0 && t * t * s == 9.0 && Along(m0, d) && Along(m1, d)
    ensures var x, y := Rein(t, m0 / d, d), Rein(t, m1 / d, d);
            Safe(x, y, d) && Shrunk(x, m0) && Shrunk(y, m1)
  {
    var x, y := Rein(t, m0 / d, d), Rein(t, m1 / d, d);
    ReinRatio(t, m0, d, x);
    ReinRatio(t, m1, d, y);
    ScaleBelowOne(t, s);
    ScaledShrinks(t, m0, x);
    ScaledShrinks(t, m1, y);
    CircleScaled(t, m0, m1, d, s, x, y);
  }

  lemma ReinRatio(t: real, m: real, d: real, x: real)
    requires d != 0.0 && x == Rein(t, m / d, d)
    ensures x == t * m
  {
    var a := m / d;
    assert a * d == m;
    assert t * a * d == t * (a * d);
  }

  /** Without rounding the limiter is the formula it spells out. */
  lemma LimitExactly(m0: real, m1: real, d: real, ar: Arithmetic, s: real)
    requires Exact(ar) && d != 0.0 && s == SumSquares(m0 / d, m1 / d)
    ensures Limit(m0, m1, d, ar) ==
            if s > 9.0 then (Rein(ar.threeOverRoot(s), m0 / d, d), Rein(ar.threeOverRoot(s), m1 / d, d)) else (m0, m1)
  {
    var a, b := ar.div(m0, d), ar.div(m1, d);
    assert a == m0 / d && b == m1 / d;
    assert ar.mul(a, a) == a * a && ar.mul(b, b) == b * b;
    assert ar.add(ar.mul(a, a), ar.mul(b, b)) == s;
    var t := ar.threeOverRoot(s);
    assert ar.mul(t, a) == t * a && ar.mul(t, b) == t * b;
    assert ar.mul(ar.mul(t, a), d) == Rein(t, a, d) && ar.mul(ar.mul(t, b), d) == Rein(t, b, d);
  }

  /** The limiter shrinks both tangents and leaves the segment safe. */
  lemma LimitIsSafe(m0: real, m1: real, d: real, ar: Arithmetic)
    requires Exact(ar) && Along(m0, d) && Along(m1, d)
    ensures var p := Limit(m0, m1, d, ar);
            Safe(p.0, p.1, d) && Shrunk(p.0, m0) && Shrunk(p.1, m1)
  {
    if d != 0.0 {
      var s := SumSquares(m0 / d, m1 / d);
      LimitExactly(m0, m1, d, ar, s);
      if s > 9.0 {
        assert ThreeOverRoot(ar.threeOverRoot(s), s);
        LimitScales(m0, m1, d, ar.threeOverRoot(s), s);
      } else {
        InsideCircle(m0, m1, d, s);
      }
    }
  }

  ghost predicate AllAlong(m: seq<real>, d: seq<real>)
    requires |m| == |d| + 1
  {
    forall i :: 0 <= i < |d| ==> Along(m[i], d[i]) && Along(m[i + 1], d[i])
  }

  /** After k limiter steps the first k segments are safe and no tangent opposes a secant. */
  lemma {:induction false} LimitedIsSafe(start: seq<real>, d: seq<real>, ar: Arithmetic, k: nat, i: nat)
    requires |start| == |d| + 1 && AllAlong(start, d) && k <= |d| && i < |d| && Exact(ar)
    ensures Passed(Limited(start, d, ar, k), d, k, i)
    decreases k
  {
    if k > 0 {
      LimitedIsSafe(start, d, ar, k - 1, i);
      LimitedIsSafe(start, d, ar, k - 1, k - 1);
      LimitStepSafe(Limited(start, d, ar, k - 1), d, k - 1, i, ar);
    }
  }

  /** Segment i when the limiter has passed the first k: both tangents point along the secant, and if it has been
      passed it is safe. */
  predicate Passed(m: seq<real>, d: seq<real>, k: nat, i: nat)
    requires |m| == |d| + 1 && i < |d|
  {
    Along(m[i], d[i]) && Along(m[i + 1], d[i]) && (i < k ==> Safe(m[i], m[i + 1], d[i]))
  }

  /** One limiter step makes its segment safe and keeps what held of the others. */
  lemma LimitStepSafe(m: seq<real>, d: seq<real>, k: nat, i: nat, ar: Arithmetic)
    requires Exact(ar) && |m| == |d| + 1 && k < |d| && i < |d|
    requires Passed(m, d, k, k) && Passed(m, d, k, i)
    ensures Passed(LimitAt(m, k, d[k], ar), d, k + 1, i)
  {
    LimitIsSafe(m[k], m[k + 1], d[k], ar);
    var p := Limit(m[k], m[k + 1], d[k], ar);
    if i + 1 == k {
      SafeAfterShrink(m[i], m[i + 1], p.0, d[i]);
    } else if i == k + 1 {
      AlongAfterShrink(m[i], p.1, d[i]);
    }
  }

  lemma AlongAfterShrink(m: real, m': real, d: real)
    requires Along(m, d) && Shrunk(m', m)
    ensures Along(m', d)
  {
  }

  // From safe tangents to the drawn curve

  predicate Between(v: real, a: real, b: real) {
    a <= v <= b || b <= v <= a
  }

  /** A safe segment in normal form: tangents are a and b times the secant slope. */
  lemma SafeRatios(m0: real, m1: real, d: real, dx: real, rise: real) returns (a: real, b: real)
    requires Safe(m0, m1, d) && (if dx != 0.0 then d == rise / dx else d == 0.0)
    ensures 0.0 <= a && 0.0 <= b && a * a + b * b <= 9.0
    ensures m0 * dx == a * rise && m1 * dx == b * rise
  {
    if d == 0.0 {
      a, b := 0.0, 0.0;
      SquaresZero(m0, m1);
    } else {
      a, b := m0 / d, m1 / d;
      assert a * d == m0 && b * d == m1 && d * dx == rise;
      assert m0 * dx == a * (d * dx) && m1 * dx == b * (d * dx);
      RatioNonNegative(m0, d);
      RatioNonNegative(m1, d);
      RatioCircle(m0, m1, d);
    }
  }

  lemma RatioCircle(m0: real, m1: real, d: real)
    requires d != 0.0 && m0 * m0 + m1 * m1 <= 9.0 * d * d
    ensures m0 / d * (m0 / d) + m1 / d * (m1 / d) <= 9.0
  {
    var a, b, q := m0 / d, m1 / d, d * d;
    assert a * d == m0 && b * d == m1;
    NonZeroSquare(d, q);
    var s := a * a + b * b;
    assert s * q == m0 * m0 + m1 * m1;
    assert (9.0 - s) * q == 9.0 * d * d - s * q;
    FactorNonNegative(9.0 - s, q);
  }

  lemma SquaresZero(m0: real, m1: real)
    requires m0 * m0 + m1 * m1 <= 0.0
    ensures m0 == 0.0 && m1 == 0.0
  {
    var p, q := m0 * m0, m1 * m1;
    SquareNonNegative(m0);
    SquareNonNegative(m1);
    if m0 != 0.0 { NonZeroSquare(m0, p); }
    if m1 != 0.0 { NonZeroSquare(m1, q); }
  }

  lemma RatioNonNegative(m: real, d: real)
    requires d != 0.0 && Along(m, d)
    ensures m / d >= 0.0
  {
    var a := m / d;
    assert a * d == m;
    if d > 0.0 {
      FactorNonNegative(a, d);
    } else {
      assert a * (0.0 - d) == 0.0 - m;
      FactorNonNegative(a, 0.0 - d);
    }
  }

  lemma AtMostThree(a: real, b: real)
    requires 0.0 <= a && 0.0 <= b && a * a + b * b <= 9.0
    ensures a <= 3.0 && b <= 3.0
  {
    SquareNonNegative(a);
    SquareNonNegative(b);
    assert (3.0 - a) * (3.0 + a) == 9.0 - a * a;
    FactorNonNegative(3.0 - a, 3.0 + a);
    assert (3.0 - b) * (3.0 + b) == 9.0 - b * b;
    FactorNonNegative(3.0 - b, 3.0 + b);
  }

  lemma PartWay(y: real, rise: real, a: real)
    requires 0.0 <= a <= 3.0
    ensures Between(y + a * rise / 3.0, y, y + rise)
    ensures Between(y + rise - a * rise / 3.0, y, y + rise)
  {
    if rise >= 0.0 {
      MulNonNegative(a, rise);
      MulNonNegative(3.0 - a, rise);
    } else {
      MulNonNegative(a, 0.0 - rise);
      MulNonNegative(3.0 - a, 0.0 - rise);
    }
  }

  /** The point of the cubic with the given ordinates at parameter s. */
  function Bezier(p0: real, p1: real, p2: real, p3: real, s: real): real {
    var r := 1.0 - s;
    r * r * r * p0 + 3.0 * r * r * s * p1 + 3.0 * r * s * s * p2 + s * s * s * p3
  }

  function Lerp(a: real, b: real, s: real): real {
    (1.0 - s) * a + s * b
  }

  lemma LerpBetween(a: real, b: real, s: real, lo: real, hi: real)
    requires 0.0 <= s <= 1.0 && lo <= a <= hi && lo <= b <= hi
    ensures lo <= Lerp(a, b, s) <= hi
  {
    var r := 1.0 - s;
    MulNonNegative(r, a - lo);
    MulNonNegative(s, b - lo);
    MulNonNegative(r, hi - a);
    MulNonNegative(s, hi - b);
    assert Lerp(a, b, s) - lo == r * (a - lo) + s * (b - lo);
    assert hi - Lerp(a, b, s) == r * (hi - a) + s * (hi - b);
  }

  /** The quadratic with the given ordinates. */
  function Quadratic(p0: real, p1: real, p2: real, s: real): real {
    var r := 1.0 - s;
    r * r * p0 + 2.0 * (r * s) * p1 + s * s * p2
  }

  /** Two stages of interpolation give a quadratic ... */
  lemma TwoStages(p0: real, p1: real, p2: real, s: real)
    ensures Lerp(Lerp(p0, p1, s), Lerp(p1, p2, s), s) == Quadratic(p0, p1, p2, s)
  {
    var r := 1.0 - s;
    assert r * (r * p0 + s * p1) == r * r * p0 + r * s * p1;
    assert s * (r * p1 + s * p2) == r * s * p1 + s * s * p2;
  }

  /** ... and a third the cubic. */
  lemma ThirdStage(p0: real, p1: real, p2: real, p3: real, s: real, u: real, v: real)
    requires u == Quadratic(p0, p1, p2, s) && v == Quadratic(p1, p2, p3, s)
    ensures Lerp(u, v, s) == Bezier(p0, p1, p2, p3, s)
  {
    Combined(p0, p1, p2, p3, 1.0 - s, s, u, v);
  }

  lemma Combined(p0: real, p1: real, p2: real, p3: real, r: real, s: real, u: real, v: real)
    requires u == r * r * p0 + 2.0 * (r * s) * p1 + s * s * p2
    requires v == r * r * p1 + 2.0 * (r * s) * p2 + s * s * p3
    ensures r * u + s * v == r * r * r * p0 + 3.0 * r * r * s * p1 + 3.0 * r * s * s * p2 + s * s * s * p3
  {
    Scaled(r, r * r * p0, 2.0 * (r * s) * p1, s * s * p2, u);
    Scaled(s, r * r * p1, 2.0 * (r * s) * p2, s * s * p3, v);
  }

  lemma Scaled(t: real, x: real, y: real, z: real, sum: real)
    requires sum == x + y + z
    ensures t * sum == t * x + t * y + t * z
  {
  }

  /** One stage of interpolation after another, nothing leaves the interval. */
  lemma QuadraticInHull(p0: real, p1: real, p2: real, s: real, lo: real, hi: real)
    requires 0.0 <= s <= 1.0 && lo <= p0 <= hi && lo <= p1 <= hi && lo <= p2 <= hi
    ensures lo <= Quadratic(p0, p1, p2, s) <= hi
  {
    LerpBetween(p0, p1, s, lo, hi);
    LerpBetween(p1, p2, s, lo, hi);
    LerpBetween(Lerp(p0, p1, s), Lerp(p1, p2, s), s, lo, hi);
    TwoStages(p0, p1, p2, s);
  }

  lemma BezierInHull(p0: real, p1: real, p2: real, p3: real, s: real, lo: real, hi: real)
    requires 0.0 <= s <= 1.0
    requires lo <= p0 <= hi && lo <= p1 <= hi && lo <= p2 <= hi && lo <= p3 <= hi
    ensures lo <= Bezier(p0, p1, p2, p3, s) <= hi
  {
    var u, v := Quadratic(p0, p1, p2, s), Quadratic(p1, p2, p3, s);
    QuadraticInHull(p0, p1, p2, s, lo, hi);
    QuadraticInHull(p1, p2, p3, s, lo, hi);
    ThirdStage(p0, p1, p2, p3, s, u, v);
    LerpBetween(u, v, s, lo, hi);
  }

  function YAt(g: Segment, s: real): real {
    Bezier(g.start.y, g.c1.y, g.c2.y, g.end.y, s)
  }

  // Monotonicity of one segment

  /** Ratios in the quarter disc of radius 3. */
  predicate InDisc(a: real, b: real) { 0.0 <= a && 0.0 <= b && a * a + b * b <= 9.0 }

  /** The derivative of the normalised cubic. */
  function Slope(a: real, b: real, s: real): real {
    var r := 1.0 - s;
    a * (r * r) + 2.0 * (3.0 - a - b) * (r * s) + b * (s * s)
  }

  lemma CircleDiscriminant(a: real, b: real)
    requires InDisc(a, b) && a + b > 3.0
    ensures (a + b - 3.0) * (a + b - 3.0) <= a * b
  {
    AtMostThree(a, b);
    var u, p := a + b, a * b;
    assert u * u == a * a + b * b + 2.0 * p;
    MulNonNegative(u - 3.0, 9.0 - u);
    assert (u - 3.0) * (9.0 - u) == 12.0 * u - u * u - 27.0;
    assert (u - 3.0) * (u - 3.0) == u * u - 6.0 * u + 9.0;
  }

  lemma SlopeNonNegative(a: real, b: real, s: real)
    requires InDisc(a, b) && 0.0 <= s <= 1.0
    ensures Slope(a, b, s) >= 0.0
  {
    var r, e := 1.0 - s, 3.0 - a - b;
    if e >= 0.0 {
      PositiveForm(a, b, e, r, s);
    } else {
      CircleDiscriminant(a, b);
      QuadraticForm(a, b, 0.0 - e, r, s);
    }
  }

  lemma PositiveForm(a: real, b: real, e: real, r: real, s: real)
    requires a >= 0.0 && b >= 0.0 && e >= 0.0 && r >= 0.0 && s >= 0.0
    ensures a * (r * r) + 2.0 * e * (r * s) + b * (s * s) >= 0.0
  {
    MulNonNegative(r, r);
    MulNonNegative(r, s);
    MulNonNegative(s, s);
    MulNonNegative(a, r * r);
    MulNonNegative(e, r * s);
    MulNonNegative(b, s * s);
  }

  lemma QuadraticForm(a: real, b: real, c: real, r: real, s: real)
    requires 0.0 <= a && 0.0 <= b && c > 0.0 && c * c <= a * b
    ensures a * (r * r) - 2.0 * c * (r * s) + b * (s * s) >= 0.0
  {
    var cc, ab := c * c, a * b;
    NonZeroSquare(c, cc);
    PositiveFactor(a, b, ab);
    var form := a * (r * r) - 2.0 * c * (r * s) + b * (s * s);
    var h := a * r - c * s;
    assert a * form == h * h + (a * b - c * c) * (s * s);
    SquareNonNegative(h);
    SquareNonNegative(s);
    MulNonNegative(a * b - c * c, s * s);
    FactorNonNegative(form, a);
  }

  /** The normalised cubic rising from 0 to 1. */
  function Unit(a: real, b: real, s: real): real {
    a * s + (3.0 - 2.0 * a - b) * (s * s) + (a + b - 2.0) * (s * s * s)
  }

  lemma BezierIsUnit(y: real, rise: real, a: real, b: real, s: real, p1: real, p2: real, v: real, h: real)
    requires p1 == ControlFrom(y, rise, a) && p2 == ControlTo(y, rise, b)
    requires v == Bezier(y, p1, p2, y + rise, s) && h == Unit(a, b, s)
    ensures v == y + rise * h
  {
  }

  /** Simpson's rule over a step d, with the three slopes p, q and r. */
  predicate Simpson(h: real, k: real, d: real, p: real, q: real, r: real) {
    k - h == d * (p + 4.0 * q + r) / 6.0
  }

  /** It is exact on a cubic. */
  lemma UnitDifference(a: real, b: real, s: real, u: real, h: real, k: real, p: real, q: real, r: real)
    requires h == Unit(a, b, s) && k == Unit(a, b, u)
    requires p == Slope(a, b, s) && q == Slope(a, b, (s + u) / 2.0) && r == Slope(a, b, u)
    ensures Simpson(h, k, u - s, p, q, r)
  {
  }

  lemma SimpsonRises(h: real, k: real, d: real, p: real, q: real, r: real)
    requires Simpson(h, k, d, p, q, r) && d >= 0.0 && p >= 0.0 && q >= 0.0 && r >= 0.0
    ensures h <= k
  {
    MulNonNegative(d, p + 4.0 * q + r);
  }

  lemma UnitMonotone(a: real, b: real, s: real, u: real, h: real, k: real)
    requires InDisc(a, b) && 0.0 <= s <= u <= 1.0
    requires h == Unit(a, b, s) && k == Unit(a, b, u)
    ensures h <= k
  {
    var p, q, r := Slope(a, b, s), Slope(a, b, (s + u) / 2.0), Slope(a, b, u);
    SlopeNonNegative(a, b, s);
    SlopeNonNegative(a, b, (s + u) / 2.0);
    SlopeNonNegative(a, b, u);
    UnitDifference(a, b, s, u, h, k, p, q, r);
    SimpsonRises(h, k, u - s, p, q, r);
  }

  // The drawn curve

  lemma TangentsAreSafe(ps: seq<Point>, ar: Arithmetic, i: nat)
    requires |ps| >= 3 && i + 1 < |ps| && Exact(ar)
    ensures Safe(Tangents(ps, ar)[i], Tangents(ps, ar)[i + 1], Delta(ps, i, ar))
  {
    var d := Deltas(ps, ar);
    var start := Initial(d, ar);
    forall j | 0 <= j < |d| ensures Along(start[j], d[j]) && Along(start[j + 1], d[j]) { InitialAlong(d, j, ar); }
    LimitedIsSafe(start, d, ar, |d|, i);
  }

  lemma SmoothAt(ps: seq<Point>, ar: Arithmetic, i: nat)
    requires |ps| >= 3 && i + 1 < |ps|
    ensures Smooth(ps, ar).segments[i] == Hermite(ps, Tangents(ps, ar), i, ar)
  {
  }

  /** The segment in normal form: control ordinates at a/3 and b/3 of the rise. */
  predicate NormalForm(g: Segment, a: real, b: real) {
    && g.c1.y == ControlFrom(g.start.y, g.end.y - g.start.y, a)
    && g.c2.y == ControlTo(g.start.y, g.end.y - g.start.y, b)
  }

  lemma HermiteNormal(ps: seq<Point>, m: seq<real>, ar: Arithmetic, i: nat, g: Segment) returns (a: real, b: real)
    requires |m| == |ps| && i + 1 < |ps| && Exact(ar) && Safe(m[i], m[i + 1], Delta(ps, i, ar))
    requires g == Hermite(ps, m, i, ar)
    ensures InDisc(a, b) && NormalForm(g, a, b)
  {
    var dx := Dx(ps, i);
    a, b := HermiteShape(ps[i].y, ps[i + 1].y - ps[i].y, m[i], m[i + 1], Delta(ps, i, ar), dx, ar,
                         ar.mul(m[i], dx), ar.mul(m[i + 1], dx));
  }

  /** Every drawn segment joins its two points and has a normal form. */
  lemma SegmentShape(ps: seq<Point>, ar: Arithmetic, i: nat) returns (a: real, b: real)
    requires |ps| >= 3 && i + 1 < |ps| && Exact(ar)
    ensures var g := Smooth(ps, ar).segments[i];
            g.start == ps[i] && g.end == ps[i + 1] && InDisc(a, b) && NormalForm(g, a, b)
  {
    TangentsAreSafe(ps, ar, i);
    SmoothAt(ps, ar, i);
    a, b := HermiteNormal(ps, Tangents(ps, ar), ar, i, Smooth(ps, ar).segments[i]);
  }

  lemma HermiteShape(y: real, rise: real, m0: real, m1: real, d: real, dx: real, ar: Arithmetic, p: real, q: real)
      returns (a: real, b: real)
    requires Exact(ar) && Safe(m0, m1, d) && p == ar.mul(m0, dx) && q == ar.mul(m1, dx)
    requires if dx != 0.0 then d == ar.div(rise, dx) else d == 0.0
    ensures InDisc(a, b)
    ensures y + p / 3.0 == ControlFrom(y, rise, a) && y + rise - q / 3.0 == ControlTo(y, rise, b)
  {
    a, b := SafeRatios(m0, m1, d, dx, rise);
  }

  function ControlFrom(y: real, rise: real, a: real): real { y + a * rise / 3.0 }

  function ControlTo(y: real, rise: real, b: real): real { y + rise - b * rise / 3.0 }

  /** A segment in normal form stays between its end ordinates. */
  lemma NormalFormStaysBetween(y: real, rise: real, a: real, b: real, s: real, p1: real, p2: real)
    requires InDisc(a, b) && 0.0 <= s <= 1.0
    requires p1 == ControlFrom(y, rise, a) && p2 == ControlTo(y, rise, b)
    ensures Between(p1, y, y + rise) && Between(p2, y, y + rise)
    ensures Between(Bezier(y, p1, p2, y + rise, s), y, y + rise)
  {
    AtMostThree(a, b);
    PartWay(y, rise, a);
    PartWay(y, rise, b);
    if rise >= 0.0 {
      BezierInHull(y, p1, p2, y + rise, s, y, y + rise);
    } else {
      BezierInHull(y, p1, p2, y + rise, s, y + rise, y);
    }
  }

  /** ... and moves monotonically from one to the other. */
  lemma NormalFormIsMonotone(y: real, rise: real, a: real, b: real, s: real, u: real, p1: real, p2: real)
    requires InDisc(a, b) && 0.0 <= s <= u <= 1.0
    requires p1 == ControlFrom(y, rise, a) && p2 == ControlTo(y, rise, b)
    ensures var v, w := Bezier(y, p1, p2, y + rise, s), Bezier(y, p1, p2, y + rise, u);
            if rise >= 0.0 then v <= w else v >= w
  {
    var v, w := Bezier(y, p1, p2, y + rise, s), Bezier(y, p1, p2, y + rise, u);
    var h, k := Unit(a, b, s), Unit(a, b, u);
    BezierIsUnit(y, rise, a, b, s, p1, p2, v, h);
    BezierIsUnit(y, rise, a, b, u, p1, p2, w, k);
    UnitMonotone(a, b, s, u, h, k);
    ScaledOrder(y, rise, h, k, v, w);
  }

  lemma ScaledOrder(y: real, rise: real, h: real, k: real, v: real, w: real)
    requires h <= k && v == y + rise * h && w == y + rise * k
    ensures if rise >= 0.0 then v <= w else v >= w
  {
    if rise >= 0.0 { MulNonNegative(rise, k - h); } else { MulNonNegative(0.0 - rise, k - h); }
  }

  lemma NormalStaysBetween(g: Segment, a: real, b: real, s: real)
    requires InDisc(a, b) && NormalForm(g, a, b) && 0.0 <= s <= 1.0
    ensures Between(g.c1.y, g.start.y, g.end.y) && Between(g.c2.y, g.start.y, g.end.y)
    ensures Between(YAt(g, s), g.start.y, g.end.y)
  {
    var y, rise := g.start.y, g.end.y - g.start.y;
    assert y + rise == g.end.y;
    NormalFormStaysBetween(y, rise, a, b, s, g.c1.y, g.c2.y);
  }

  lemma NormalIsMonotone(g: Segment, a: real, b: real, s: real, u: real)
    requires InDisc(a, b) && NormalForm(g, a, b) && 0.0 <= s <= u <= 1.0
    ensures if g.start.y <= g.end.y then YAt(g, s) <= YAt(g, u) else YAt(g, s) >= YAt(g, u)
  {
    var y, rise := g.start.y, g.end.y - g.start.y;
    assert y + rise == g.end.y;
    NormalFormIsMonotone(y, rise, a, b, s, u, g.c1.y, g.c2.y);
  }

  /** The curve never overshoots: the control ordinates of every segment lie between its two end points,
      and so does the curve itself at every parameter. */
  lemma NeverOvershoots(ps: seq<Point>, ar: Arithmetic, i: nat, s: real)
    requires |ps| >= 3 && i + 1 < |ps| && Exact(ar) && 0.0 <= s <= 1.0
    ensures var g := Smooth(ps, ar).segments[i];
            && Between(g.c1.y, ps[i].y, ps[i + 1].y)
            && Between(g.c2.y, ps[i].y, ps[i + 1].y)
            && Between(YAt(g, s), ps[i].y, ps[i + 1].y)
  {
    var a, b := SegmentShape(ps, ar, i);
    NormalStaysBetween(Smooth(ps, ar).segments[i], a, b, s);
  }

  /** Within each segment the curve is monotone from one point to the next. */
  lemma SegmentIsMonotone(ps: seq<Point>, ar: Arithmetic, i: nat, s: real, u: real)
    requires |ps| >= 3 && i + 1 < |ps| && Exact(ar) && 0.0 <= s <= u <= 1.0
    ensures var g := Smooth(ps, ar).segments[i];
            if ps[i].y <= ps[i + 1].y then YAt(g, s) <= YAt(g, u) else YAt(g, s) >= YAt(g, u)
  {
    var a, b := SegmentShape(ps, ar, i);
    NormalIsMonotone(Smooth(ps, ar).segments[i], a, b, s, u);
  }

  /** The curve passes through every point. */
  lemma PassesThroughPoints(ps: seq<Point>, ar: Arithmetic, i: nat)
    requires |ps| >= 3 && i + 1 < |ps|
    ensures var g := Smooth(ps, ar).segments[i]; YAt(g, 0.0) == ps[i].y && YAt(g, 1.0) == ps[i + 1].y
  {
    var g := Smooth(ps, ar).segments[i];
    BezierEnds(g.start.y, g.c1.y, g.c2.y, g.end.y);
  }

  lemma BezierEnds(p0: real, p1: real, p2: real, p3: real)
    ensures Bezier(p0, p1, p2, p3, 0.0) == p0 && Bezier(p0, p1, p2, p3, 1.0) == p3
  {
  }

  /** Two tangent directions are parallel. */
  predicate Parallel(dx: real, dy: real, dx': real, dy': real) {
    dy * dx' == dy' * dx
  }

  /** h starts where g ends, in the same direction. */
  predicate JoinsSmoothly(g: Segment, h: Segment) {
    && g.end == h.start
    && Parallel(g.end.x - g.c2.x, g.end.y - g.c2.y, h.c1.x - h.start.x, h.c1.y - h.start.y)
  }

  /** Neighbouring segments leave and enter their common point in the same direction. */
  lemma SegmentsJoinSmoothly(ps: seq<Point>, ar: Arithmetic, i: nat)
    requires |ps| >= 3 && i + 2 < |ps| && Exact(ar)
    ensures JoinsSmoothly(Smooth(ps, ar).segments[i], Smooth(ps, ar).segments[i + 1])
  {
    SmoothAt(ps, ar, i);
    SmoothAt(ps, ar, i + 1);
    HermiteJoin(ps, Tangents(ps, ar), ar, i, Smooth(ps, ar).segments[i], Smooth(ps, ar).segments[i + 1]);
  }

  lemma HermiteJoin(ps: seq<Point>, m: seq<real>, ar: Arithmetic, i: nat, g: Segment, h: Segment)
    requires i + 2 < |ps| && |m| == |ps| && Exact(ar)
    requires g == Hermite(ps, m, i, ar) && h == Hermite(ps, m, i + 1, ar)
    ensures JoinsSmoothly(g, h)
  {
    var p, q := Dx(ps, i), Dx(ps, i + 1);
    var mp, mq := ar.mul(m[i + 1], p), ar.mul(m[i + 1], q);
    assert g.end.x - g.c2.x == p / 3.0 && g.end.y - g.c2.y == mp / 3.0;
    assert h.c1.x - h.start.x == q / 3.0 && h.c1.y - h.start.y == mq / 3.0;
    SlopesAgree(m[i + 1], p, q, mp, mq);
  }

  lemma SlopesAgree(m: real, p: real, q: real, mp: real, mq: real)
    requires mp == m * p && mq == m * q
    ensures Parallel(p / 3.0, mp / 3.0, q / 3.0, mq / 3.0)
  {
  }

  // Straight data

  lemma LimitKeepsStraight(d: real, ar: Arithmetic)
    requires Exact(ar)
    ensures Limit(d, d, d, ar) == (d, d)
  {
    if d != 0.0 {
      assert d / d == 1.0;
      LimitExactly(d, d, d, ar, SumSquares(1.0, 1.0));
    }
  }

  lemma InteriorStraight(d: real, ar: Arithmetic, q: real)
    requires q == ar.mul(d, d) && q == d * d
    ensures InteriorTangent(d, d, ar) == d
  {
    if d != 0.0 { NonZeroSquare(d, q); }
  }

  lemma {:induction false} LimitedStraight(start: seq<real>, d: seq<real>, ar: Arithmetic, k: nat, slope: real)
    requires |start| == |d| + 1 && k <= |d| && Exact(ar)
    requires (forall i :: 0 <= i < |d| ==> d[i] == slope) && forall i :: 0 <= i < |start| ==> start[i] == slope
    ensures forall i :: 0 <= i < |start| ==> Limited(start, d, ar, k)[i] == slope
  {
    if k > 0 {
      LimitedStraight(start, d, ar, k - 1, slope);
      LimitKeepsStraight(slope, ar);
    }
  }

  /** Points on a line are drawn as that line: nothing is limited that need not be. */
  lemma StraightStaysStraight(ps: seq<Point>, ar: Arithmetic, slope: real, i: nat)
    requires |ps| >= 3 && Exact(ar) && i < |ps|
    requires forall j :: 0 <= j < |ps| - 1 ==> Delta(ps, j, ar) == slope
    ensures Tangents(ps, ar)[i] == slope
  {
    var d := Deltas(ps, ar);
    var start := Initial(d, ar);
    InteriorStraight(slope, ar, ar.mul(slope, slope));
    assert forall j :: 0 <= j < |start| ==> start[j] == slope;
    LimitedStraight(start, d, ar, |d|, slope);
  }

  // Which curve it is

  function XAt(g: Segment, s: real): real {
    Bezier(g.start.x, g.c1.x, g.c2.x, g.end.x, s)
  }

  /** At parameter s the abscissa is that share of the way. */
  predicate MovesEvenly(g: Segment, s: real) {
    XAt(g, s) == g.start.x + s * (g.end.x - g.start.x)
  }

  /** The segment leaves and arrives with the given slopes. */
  predicate HasSlopes(g: Segment, m0: real, m1: real) {
    && g.c1.y - g.start.y == m0 * (g.c1.x - g.start.x)
    && g.end.y - g.c2.y == m1 * (g.end.x - g.c2.x)
  }

  /** The abscissa moves evenly from point to point: the curve is the graph of a cubic over each segment. */
  lemma CurveIsAGraph(ps: seq<Point>, ar: Arithmetic, i: nat, s: real)
    requires |ps| >= 3 && i + 1 < |ps|
    ensures var g := Smooth(ps, ar).segments[i]; g.start == ps[i] && g.end == ps[i + 1] && MovesEvenly(g, s)
  {
    SmoothAt(ps, ar, i);
    HermiteEven(ps, Tangents(ps, ar), ar, i, Smooth(ps, ar).segments[i], s);
  }

  lemma HermiteEven(ps: seq<Point>, m: seq<real>, ar: Arithmetic, i: nat, g: Segment, s: real)
    requires |m| == |ps| && i + 1 < |ps| && g == Hermite(ps, m, i, ar)
    ensures MovesEvenly(g, s)
  {
    EvenBezier(g.start.x, g.end.x - g.start.x, s, g.c1.x, g.c2.x, g.end.x);
  }

  lemma EvenBezier(x: real, d: real, s: real, p1: real, p2: real, p3: real)
    requires p1 == x + d / 3.0 && p2 == p3 - d / 3.0 && p3 == x + d
    ensures Bezier(x, p1, p2, p3, s) == x + s * d
  {
  }

  /** At both ends of a segment the curve has the slope of the tangent there. */
  lemma SlopesAreTangents(ps: seq<Point>, ar: Arithmetic, i: nat)
    requires |ps| >= 3 && i + 1 < |ps| && Exact(ar)
    ensures HasSlopes(Smooth(ps, ar).segments[i], Tangents(ps, ar)[i], Tangents(ps, ar)[i + 1])
  {
    SmoothAt(ps, ar, i);
    HermiteSlopes(ps, Tangents(ps, ar), ar, i, Smooth(ps, ar).segments[i]);
  }

  lemma HermiteSlopes(ps: seq<Point>, m: seq<real>, ar: Arithmetic, i: nat, g: Segment)
    requires |m| == |ps| && i + 1 < |ps| && g == Hermite(ps, m, i, ar) && Exact(ar)
    ensures HasSlopes(g, m[i], m[i + 1])
  {
    var dx := Dx(ps, i);
    assert g.c1.x - g.start.x == dx / 3.0 && g.end.x - g.c2.x == dx / 3.0;
    assert g.c1.y - g.start.y == ar.mul(m[i], dx) / 3.0 && g.end.y - g.c2.y == ar.mul(m[i + 1], dx) / 3.0;
    ThirdOfProduct(m[i], dx, ar.mul(m[i], dx));
    ThirdOfProduct(m[i + 1], dx, ar.mul(m[i + 1], dx));
  }

  lemma ThirdOfProduct(m: real, dx: real, p: real)
    requires p == m * dx
    ensures p / 3.0 == m * (dx / 3.0)
  {
  }

  /** The tangent the drawing starts from: the neighbouring secant at the ends, inside the average of the two secants,
      or flat where they do not both rise or both fall. */
  predicate StartsAs(d: seq<real>, i: nat, m: real)
    requires i <= |d| && d != []
  {
    if i == 0 then m == d[0]
    else if i == |d| then m == d[|d| - 1]
    else if (d[i - 1] > 0.0 && d[i] > 0.0) || (d[i - 1] < 0.0 && d[i] < 0.0) then m + m == d[i - 1] + d[i]
    else m == 0.0
  }

  lemma InitialMeans(d: seq<real>, ar: Arithmetic, i: nat)
    requires d != [] && i <= |d| && Exact(ar)
    ensures StartsAs(d, i, Initial(d, ar)[i])
  {
    if 0 < i < |d| { InteriorMeans(d[i - 1], d[i], ar, ar.mul(d[i - 1], d[i])); }
  }

  lemma InteriorMeans(a: real, b: real, ar: Arithmetic, q: real)
    requires q == ar.mul(a, b) && q == a * b
    ensures var m := InteriorTangent(a, b, ar);
            if (a > 0.0 && b > 0.0) || (a < 0.0 && b < 0.0) then m + m == a + b else m == 0.0
  {
    if q > 0.0 {
      SameSigns(a, b, q);
    } else if (a > 0.0 && b > 0.0) || (a < 0.0 && b < 0.0) {
      ProductOfSame(a, b, q);
    }
  }

  lemma ProductOfSame(a: real, b: real, q: real)
    requires q == a * b && ((a > 0.0 && b > 0.0) || (a < 0.0 && b < 0.0))
    ensures q > 0.0
  {
  }

  /** No segment needs reining in: its two tangents, over its secant, lie in the disc of radius 3. */
  ghost predicate NothingToLimit(m: seq<real>, d: seq<real>)
    requires |m| == |d| + 1
  {
    forall i :: 0 <= i < |d| ==> WithinReach(m[i], m[i + 1], d[i])
  }

  predicate WithinReach(m0: real, m1: real, d: real) { m0 * m0 + m1 * m1 <= 9.0 * (d * d) }

  lemma WithinDisc(m0: real, m1: real, d: real, a: real, b: real)
    requires d != 0.0 && a * d == m0 && b * d == m1 && WithinReach(m0, m1, d)
    ensures SumSquares(a, b) <= 9.0
  {
    var q := d * d;
    NonZeroSquare(d, q);
    assert m0 * m0 == (a * a) * q && m1 * m1 == (b * b) * q by { SquareOfProduct(a, d, m0); SquareOfProduct(b, d, m1); }
    assert (9.0 - SumSquares(a, b)) * q == 9.0 * q - m0 * m0 - m1 * m1;
    FactorNonNegative(9.0 - SumSquares(a, b), q);
  }

  lemma SquareOfProduct(a: real, d: real, m: real)
    requires m == a * d
    ensures m * m == (a * a) * (d * d)
  {
  }

  lemma LimitLeaves(m0: real, m1: real, d: real, ar: Arithmetic)
    requires Exact(ar) && WithinReach(m0, m1, d)
    ensures Limit(m0, m1, d, ar) == (m0, m1)
  {
    if d == 0.0 {
      SquareNonNegative(m0);
      SquareNonNegative(m1);
      SquaresZero(m0, m1);
    } else {
      var a, b := m0 / d, m1 / d;
      assert a * d == m0 && b * d == m1;
      WithinDisc(m0, m1, d, a, b);
      LimitExactly(m0, m1, d, ar, SumSquares(a, b));
    }
  }

  lemma {:induction false} LimitedLeaves(m: seq<real>, d: seq<real>, ar: Arithmetic, k: nat)
    requires |m| == |d| + 1 && k <= |d| && Exact(ar) && NothingToLimit(m, d)
    ensures Limited(m, d, ar, k) == m
  {
    if k > 0 {
      LimitedLeaves(m, d, ar, k - 1);
      LimitLeaves(m[k - 1], m[k], d[k - 1], ar);
    }
  }

  /** Where no segment needs the limiter, the curve has exactly the starting tangents: secants at the ends, averages
      inside, flat at extrema. */
  lemma UnlimitedTangents(ps: seq<Point>, ar: Arithmetic, i: nat)
    requires |ps| >= 3 && i < |ps| && Exact(ar) && NothingToLimit(Initial(Deltas(ps, ar), ar), Deltas(ps, ar))
    ensures StartsAs(Deltas(ps, ar), i, Tangents(ps, ar)[i])
  {
    var d := Deltas(ps, ar);
    LimitedLeaves(Initial(d, ar), d, ar, |d|);
    InitialMeans(d, ar, i);
  }

  /** Two tangents scaled down together onto the rim of the disc of radius 3 over the secant. */
  predicate OntoRim(m0: real, m1: real, d: real, t: real, p0: real, p1: real) {
    p0 * p0 + p1 * p1 == 9.0 * (d * d) && 0.0 < t && p0 == t * m0 && p1 == t * m1
  }

  lemma BeyondDisc(m0: real, m1: real, d: real, a: real, b: real)
    requires d != 0.0 && a * d == m0 && b * d == m1 && !WithinReach(m0, m1, d)
    ensures SumSquares(a, b) > 9.0
  {
    var q, s := d * d, SumSquares(a, b);
    NonZeroSquare(d, q);
    SquareOfProduct(a, d, m0);
    SquareOfProduct(b, d, m1);
    assert s * q == m0 * m0 + m1 * m1;
    assert (s - 9.0) * q == s * q - 9.0 * q;
    FactorPositive(s - 9.0, q);
  }

  lemma Rescaled(t: real, a: real, d: real, m: real)
    requires a * d == m
    ensures Rein(t, a, d) == t * m
  {
    assert t * a * d == t * (a * d);
  }

  lemma RimRadius(t: real, a: real, b: real, d: real, s: real, p0: real, p1: real)
    requires s == SumSquares(a, b) && t * t * s == 9.0 && p0 == Rein(t, a, d) && p1 == Rein(t, b, d)
    ensures p0 * p0 + p1 * p1 == 9.0 * (d * d)
  {
    SquareOfProduct(t * a, d, p0);
    SquareOfProduct(t * b, d, p1);
    SquareOfProduct(t, a, t * a);
    SquareOfProduct(t, b, t * b);
    var q, u := d * d, t * t;
    assert u * (a * a) + u * (b * b) == u * s;
    assert (u * (a * a)) * q + (u * (b * b)) * q == (u * s) * q;
  }

  /** Where a segment does need the limiter, it scales both its tangents by one factor, down to the rim. */
  lemma LimiterProjects(m0: real, m1: real, d: real, ar: Arithmetic) returns (t: real)
    requires Exact(ar) && d != 0.0 && !WithinReach(m0, m1, d)
    ensures OntoRim(m0, m1, d, t, Limit(m0, m1, d, ar).0, Limit(m0, m1, d, ar).1)
  {
    var a, b := m0 / d, m1 / d;
    var s := SumSquares(a, b);
    assert a * d == m0 && b * d == m1;
    BeyondDisc(m0, m1, d, a, b);
    LimitExactly(m0, m1, d, ar, s);
    t := ar.threeOverRoot(s);
    assert ThreeOverRoot(t, s);
    Rescaled(t, a, d, m0);
    Rescaled(t, b, d, m1);
    RimRadius(t, a, b, d, s, Rein(t, a, d), Rein(t, b, d));
  }
}
