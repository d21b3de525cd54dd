// The Recife–Olinda telemetry simulator (simulador_recife_olinda.py): the
// route it drives is the waypoint list with `points_per_segment` evenly
// spaced points on every leg, then the last waypoint. Coordinates are
// exact reals here.

module Simulator {
  import opened Common

  /** (lat, lon). */
  type Waypoint = (real, real)

  datatype SimError = IndexError

  /** The point at `step / n` of the way from `a` to `b`. */
  function Lerp(a: Waypoint, b: Waypoint, step: int, n: int): Waypoint
    requires n > 0
  {
    var t := step as real / n as real;
    (a.0 + (b.0 - a.0) * t, a.1 + (b.1 - a.1) * t)
  }

  /** The `n` points one leg contributes (none when `n` is not positive:
    * `range(n)` is then empty). */
  function Segment(a: Waypoint, b: Waypoint, n: int): (r: seq<Waypoint>)
    ensures |r| == if n > 0 then n else 0
  {
    if n <= 0 then [] else seq(n, s requires 0 <= s < n => Lerp(a, b, s, n))
  }

  /** The interpolated points of the first `k` legs. */
  function Interpolated(w: seq<Waypoint>, k: int, n: int): seq<Waypoint>
    requires 0 <= k && (k == 0 || k < |w|)
  {
    if k == 0 then [] else Interpolated(w, k - 1, n) + Segment(w[k - 1], w[k], n)
  }

  /** What `build_route_points` returns: IndexError for no waypoints
    * (`waypoints[-1]`), otherwise the legs' points and the last waypoint. */
  function RoutePoints(w: seq<Waypoint>, n: int): (r: Result<seq<Waypoint>, SimError>)
    ensures r.Err? <==> w == []
    ensures r.Ok? ==> r.value != [] && r.value[|r.value| - 1] == w[|w| - 1]
  {
    if w == [] then Err(IndexError) else Ok(Interpolated(w, |w| - 1, n) + [w[|w| - 1]])
  }

  /** `build_route_points`, with its two nested loops. */
  method BuildRoutePoints(w: seq<Waypoint>, n: int) returns (r: Result<seq<Waypoint>, SimError>)
    ensures r == RoutePoints(w, n)
  {
    var route: seq<Waypoint> := [];
    var i := 0;
    while i < |w| - 1
      invariant 0 <= i && (i == 0 || i < |w|)
      invariant route == Interpolated(w, i, n)
    {
      var step := 0;
      while step < n
        invariant 0 <= step <= (if n > 0 then n else 0)
        invariant route == Interpolated(w, i, n) + Segment(w[i], w[i + 1], n)[..step]
      {
        assert Segment(w[i], w[i + 1], n)[..step + 1] == Segment(w[i], w[i + 1], n)[..step] + [Lerp(w[i], w[i + 1], step, n)];
        route := route + [Lerp(w[i], w[i + 1], step, n)];
        step := step + 1;
      }
      assert Segment(w[i], w[i + 1], n)[..if n > 0 then n else 0] == Segment(w[i], w[i + 1], n);
      i := i + 1;
    }
    if w == [] {
      return Err(IndexError);
    }
    route := route + [w[|w| - 1]];
    r := Ok(route);
  }

  /** `k` legs make `k` times `n` points. */
  lemma {:induction false} InterpolatedLength(w: seq<Waypoint>, k: int, n: int)
    requires 0 <= k && (k == 0 || k < |w|)
    ensures |Interpolated(w, k, n)| == k * (if n > 0 then n else 0)
  {
    if k > 0 {
      InterpolatedLength(w, k - 1, n);
      assert (k - 1) * (if n > 0 then n else 0) + (if n > 0 then n else 0) == k * (if n > 0 then n else 0);
    }
  }

  /** The route has (len(waypoints) - 1) * points_per_segment + 1 points. */
  lemma RouteLength(w: seq<Waypoint>, n: int)
    requires w != [] && n > 0
    ensures |RoutePoints(w, n).value| == (|w| - 1) * n + 1
  {
    InterpolatedLength(w, |w| - 1, n);
  }

  /** Point `s` of leg `i` sits at index `i * n + s`. */
  lemma {:induction false} InterpolatedAt(w: seq<Waypoint>, k: int, n: int, i: int, s: int)
    requires 0 < k < |w| && n > 0
    requires 0 <= i < k && 0 <= s < n
    ensures i * n + s < |Interpolated(w, k, n)|
    ensures Interpolated(w, k, n)[i * n + s] == Lerp(w[i], w[i + 1], s, n)
  {
    InterpolatedLength(w, k - 1, n);
    InterpolatedLength(w, k, n);
    var prefix := Interpolated(w, k - 1, n);
    assert |prefix| == (k - 1) * n;
    if i < k - 1 {
      MulLeft(k - 2 - i, n);
      assert (k - 2) * n - i * n == (k - 2 - i) * n;
      InterpolatedAt(w, k - 1, n, i, s);
    } else {
      assert i * n == |prefix|;
    }
  }

  lemma MulLeft(a: int, n: int)
    requires a >= 0 && n > 0
    ensures a * n >= 0
  {
  }

  /** Every leg starts at its waypoint (t = 0). */
  lemma LegStartsAtWaypoint(w: seq<Waypoint>, n: int, i: int)
    requires n > 0 && 0 <= i < |w| - 1
    ensures i * n < |RoutePoints(w, n).value|
    ensures RoutePoints(w, n).value[i * n] == w[i]
  {
    InterpolatedAt(w, |w| - 1, n, i, 0);
  }

  /** `p` lies between `a` and `b` in each coordinate. */
  predicate Between(a: Waypoint, b: Waypoint, p: Waypoint)
  {
    && (a.0 <= b.0 ==> a.0 <= p.0 <= b.0) && (b.0 <= a.0 ==> b.0 <= p.0 <= a.0)
    && (a.1 <= b.1 ==> a.1 <= p.1 <= b.1) && (b.1 <= a.1 ==> b.1 <= p.1 <= a.1)
  }

  /** A point on the way from `a` to `b`, before `b`, lies between them in
    * each coordinate. */
  lemma LerpBetween(a: Waypoint, b: Waypoint, s: int, n: int)
    requires n > 0 && 0 <= s < n
    ensures Between(a, b, Lerp(a, b, s, n))
  {
    var t := s as real / n as real;
    FractionBelowOne(s, n);
    BetweenOnAxis(a.0, b.0, t);
    BetweenOnAxis(a.1, b.1, t);
  }

  lemma BetweenOnAxis(x: real, y: real, t: real)
    requires 0.0 <= t <= 1.0
    ensures x <= y ==> x <= x + (y - x) * t <= y
    ensures y <= x ==> y <= x + (y - x) * t <= x
  {
    var d := y - x;
    ScaleDown(d, t);
    var p := d * t;
    assert x + (y - x) * t == x + p;
    if x <= y {
      assert 0.0 <= p <= d;
    } else {
      assert d <= p <= 0.0;
    }
  }

  /** Scaling an amount by a factor in [0, 1] keeps it between 0 and the
    * amount. */
  lemma ScaleDown(d: real, t: real)
    requires 0.0 <= t <= 1.0
    ensures d >= 0.0 ==> 0.0 <= d * t <= d
    ensures d <= 0.0 ==> d <= d * t <= 0.0
  {
    assert d - d * t == d * (1.0 - t);
  }

  /** `step / float(points_per_segment)` is in [0, 1). */
  lemma FractionBelowOne(s: int, n: int)
    requires n > 0 && 0 <= s < n
    ensures 0.0 <= s as real / n as real < 1.0
  {
    var t := s as real / n as real;
    assert (1.0 - t) * n as real == (n - s) as real;
    PositiveFactor(1.0 - t, n as real);
  }

  lemma PositiveFactor(a: real, b: real)
    requires b > 0.0 && a * b > 0.0
    ensures a > 0.0
  {
  }

  /** Every interpolated point of the route lies between the waypoints of
    * its leg. */
  lemma RoutePointBetween(w: seq<Waypoint>, n: int, i: int, s: int)
    requires n > 0 && 0 <= i < |w| - 1 && 0 <= s < n
    ensures i * n + s < |RoutePoints(w, n).value|
    ensures Between(w[i], w[i + 1], RoutePoints(w, n).value[i * n + s])
  {
    InterpolatedAt(w, |w| - 1, n, i, s);
    LerpBetween(w[i], w[i + 1], s, n);
  }

  /** One point per leg drives exactly through the waypoints. */
  lemma {:induction false} OnePointPerLeg(w: seq<Waypoint>, k: int)
    requires 0 <= k && (k == 0 || k < |w|)
    ensures Interpolated(w, k, 1) == w[..k]
  {
    if k > 0 {
      OnePointPerLeg(w, k - 1);
      assert Lerp(w[k - 1], w[k], 0, 1) == w[k - 1];
      assert Segment(w[k - 1], w[k], 1) == [w[k - 1]];
      assert w[..k] == w[..k - 1] + [w[k - 1]];
    }
  }
}
