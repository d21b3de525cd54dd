// Event detection over recent telemetry (app.py:432-526): the points are
// split into runs of consecutive points of one vehicle; each run yields
// its overspeed points and one "stop" event per long enough stretch of
// slow points, placed at the middle of the stretch. Timestamps are strings
// read by a clock that may fail; `round(minutes, 1)` is not modelled.

module TelemetryEvents {
  import opened Common

  /** A row of `_fetch_points`. */
  datatype Point = Point(vehicleId: string, lat: real, lon: real, ts: string, speed: real)

  datatype Event =
    | Overspeed(vehicleId: string, lat: real, lon: real, ts: string, value: real)
    | StopEvent(vehicleId: string, lat: real, lon: real, ts: string, minutes: real)

  /** `datetime.fromisoformat` of a timestamp, as seconds; None when it
    * does not parse. */
  type Clock = string -> Option<int>

  // ---------------------------------------------------------------
  // Turn angle

  /** `_turn_delta`: the angle between two bearings, going the short way. */
  function TurnDelta(a: real, b: real): real
  {
    var d := if a >= b then a - b else b - a;
    if d <= 180.0 then d else 360.0 - d
  }

  /** The turn from a to b is the turn from b to a. */
  lemma TurnDeltaSymmetric(a: real, b: real)
    ensures TurnDelta(a, b) == TurnDelta(b, a)
  {
  }

  /** For bearings in [0, 360) the turn lies in [0, 180]; it is 0 only for
    * equal bearings. */
  lemma TurnDeltaRange(a: real, b: real)
    requires 0.0 <= a < 360.0 && 0.0 <= b < 360.0
    ensures 0.0 <= TurnDelta(a, b) <= 180.0
    ensures TurnDelta(a, b) == 0.0 <==> a == b
  {
  }

  /** Turning d degrees one way is the same turn as 360 - d the other way. */
  lemma TurnDeltaWraps(a: real, d: real)
    requires 0.0 <= d <= 180.0
    ensures TurnDelta(a, a + d) == d && TurnDelta(a, a + (360.0 - d)) == d
  {
  }

  // ---------------------------------------------------------------
  // Grouping by vehicle

  /** `itertools.groupby(points, key=vehicle_id)`: maximal runs of
    * consecutive points of the same vehicle. */
  function GroupByVehicle(points: seq<Point>): (gs: seq<seq<Point>>)
    ensures forall i :: 0 <= i < |gs| ==> gs[i] != []
    decreases |points|
  {
    if points == [] then []
    else
      var gs: seq<seq<Point>> := GroupByVehicle(points[..|points| - 1]);
      var p := points[|points| - 1];
      if gs != [] && gs[|gs| - 1][0].vehicleId == p.vehicleId then gs[..|gs| - 1] + [gs[|gs| - 1] + [p]]
      else gs + [[p]]
  }

  function Flatten(gs: seq<seq<Point>>): seq<Point>
    decreases |gs|
  {
    if gs == [] then [] else Flatten(gs[..|gs| - 1]) + gs[|gs| - 1]
  }

  predicate SameVehicle(g: seq<Point>)
  {
    forall k :: 0 <= k < |g| ==> g[k].vehicleId == g[0].vehicleId
  }

  /** The runs are non-empty, each of one vehicle, neighbours of different
    * vehicles, and together they are the points in their order. */
  predicate WellGrouped(gs: seq<seq<Point>>, points: seq<Point>)
  {
    && Flatten(gs) == points
    && (forall i :: 0 <= i < |gs| ==> gs[i] != [] && SameVehicle(gs[i]))
    && (forall i :: 0 < i < |gs| ==> gs[i - 1][0].vehicleId != gs[i][0].vehicleId)
  }

  lemma GroupByVehicleIsWellGrouped(points: seq<Point>)
    ensures WellGrouped(GroupByVehicle(points), points)
  {
    GroupsFlatten(points);
    GroupsAreRuns(points);
  }

  /** Read one after the other, the runs are the points. */
  lemma {:induction false} GroupsFlatten(points: seq<Point>)
    ensures Flatten(GroupByVehicle(points)) == points
    decreases |points|
  {
    if points != [] {
      var init := points[..|points| - 1];
      var p := points[|points| - 1];
      GroupsFlatten(init);
      var gs: seq<seq<Point>> := GroupByVehicle(init);
      assert points == init + [p];
      if gs != [] && gs[|gs| - 1][0].vehicleId == p.vehicleId {
        var pre, last := gs[..|gs| - 1], gs[|gs| - 1];
        assert gs == pre + [last];
        FlattenSnoc(pre, last);
        FlattenSnoc(pre, last + [p]);
      } else {
        FlattenSnoc(gs, [p]);
      }
    }
  }

  lemma FlattenSnoc(gs: seq<seq<Point>>, g: seq<Point>)
    ensures Flatten(gs + [g]) == Flatten(gs) + g
  {
    assert (gs + [g])[..|gs|] == gs;
  }

  /** Each run is of one vehicle, and neighbouring runs are of different
    * vehicles. */
  lemma {:induction false} GroupsAreRuns(points: seq<Point>)
    ensures forall i :: 0 <= i < |GroupByVehicle(points)| ==> SameVehicle(GroupByVehicle(points)[i])
    ensures forall i :: 0 < i < |GroupByVehicle(points)| ==>
      GroupByVehicle(points)[i - 1][0].vehicleId != GroupByVehicle(points)[i][0].vehicleId
    decreases |points|
  {
    if points != [] {
      var init := points[..|points| - 1];
      var p := points[|points| - 1];
      GroupsAreRuns(init);
      var gs: seq<seq<Point>> := GroupByVehicle(init);
      var r: seq<seq<Point>> := GroupByVehicle(points);
      if gs != [] && gs[|gs| - 1][0].vehicleId == p.vehicleId {
        var last := gs[|gs| - 1];
        forall i | 0 <= i < |r|
          ensures SameVehicle(r[i])
        {
          if i < |r| - 1 {
            assert r[i] == gs[i];
          } else {
            assert r[i] == last + [p];
          }
        }
        forall i | 0 < i < |r|
          ensures r[i - 1][0].vehicleId != r[i][0].vehicleId
        {
          assert r[i - 1] == gs[i - 1];
          assert r[i][0] == gs[i][0];
        }
      } else {
        forall i | 0 <= i < |r|
          ensures SameVehicle(r[i])
        {
          if i < |gs| {
            assert r[i] == gs[i];
          }
        }
        forall i | 0 < i < |r|
          ensures r[i - 1][0].vehicleId != r[i][0].vehicleId
        {
          assert r[i - 1] == gs[i - 1];
          if i < |gs| {
            assert r[i] == gs[i];
          }
        }
      }
    }
  }

  // ---------------------------------------------------------------
  // Overspeed

  /** The overspeed events of one run, in order. */
  function OverspeedEvents(g: seq<Point>, vid: string, limit: real): seq<Event>
    decreases |g|
  {
    if g == [] then []
    else
      var p := g[|g| - 1];
      OverspeedEvents(g[..|g| - 1], vid, limit)
      + (if p.speed > limit then [Overspeed(vid, p.lat, p.lon, p.ts, p.speed)] else [])
  }

  /** An overspeed event is reported exactly for each point above the
    * limit. */
  lemma {:induction false} OverspeedMembers(g: seq<Point>, vid: string, limit: real)
    ensures forall p :: p in g && p.speed > limit ==> Overspeed(vid, p.lat, p.lon, p.ts, p.speed) in OverspeedEvents(g, vid, limit)
    ensures forall e :: e in OverspeedEvents(g, vid, limit) ==>
      e.Overspeed? && e.vehicleId == vid && e.value > limit
      && exists p :: p in g && e == Overspeed(vid, p.lat, p.lon, p.ts, p.speed)
    decreases |g|
  {
    if g != [] {
      var init := g[..|g| - 1];
      OverspeedMembers(init, vid, limit);
      assert g == init + [g[|g| - 1]];
    }
  }

  /** The overspeed loop. */
  method DetectOverspeed(g: seq<Point>, vid: string, limit: real) returns (events: seq<Event>)
    ensures events == OverspeedEvents(g, vid, limit)
  {
    events := [];
    var i := 0;
    while i < |g|
      invariant 0 <= i <= |g|
      invariant events == OverspeedEvents(g[..i], vid, limit)
    {
      assert g[..i + 1][..i] == g[..i];
      if g[i].speed > limit {
        events := events + [Overspeed(vid, g[i].lat, g[i].lon, g[i].ts, g[i].speed)];
      }
      i := i + 1;
    }
    assert g[..|g|] == g;
  }

  // ---------------------------------------------------------------
  // Stops

  /** The minutes between two timestamps; 0 when either does not parse
    * (the `except` branch). */
  function Minutes(clock: Clock, st: string, en: string): real
  {
    match (clock(st), clock(en))
    case (Some(t0), Some(t1)) => (t1 - t0) as real / 60.0
    case _ => 0.0
  }

  predicate Slow(g: seq<Point>, k: int, stopSpeed: real)
    requires 0 <= k < |g|
  {
    g[k].speed < stopSpeed
  }

  /** A maximal stretch of slow points from s to e. */
  predicate SlowRun(g: seq<Point>, s: int, e: int, stopSpeed: real)
  {
    && 0 <= s <= e < |g|
    && (forall k :: s <= k <= e ==> Slow(g, k, stopSpeed))
    && (s == 0 || !Slow(g, s - 1, stopSpeed))
    && (e == |g| - 1 || !Slow(g, e + 1, stopSpeed))
  }

  /** The last point of the slow stretch starting at s. */
  function RunEnd(g: seq<Point>, s: int, stopSpeed: real): (e: int)
    requires 0 <= s < |g| && Slow(g, s, stopSpeed)
    ensures s <= e < |g| && (forall k :: s <= k <= e ==> Slow(g, k, stopSpeed))
    ensures e == |g| - 1 || !Slow(g, e + 1, stopSpeed)
    decreases |g| - s
  {
    if s + 1 < |g| && Slow(g, s + 1, stopSpeed) then RunEnd(g, s + 1, stopSpeed) else s
  }

  /** A stretch that is slow up to e and not beyond ends at e. */
  lemma {:induction false} RunEndAt(g: seq<Point>, s: int, e: int, stopSpeed: real)
    requires 0 <= s <= e < |g| && (forall k :: s <= k <= e ==> Slow(g, k, stopSpeed))
    requires e == |g| - 1 || !Slow(g, e + 1, stopSpeed)
    ensures RunEnd(g, s, stopSpeed) == e
    decreases e - s
  {
    if s < e {
      RunEndAt(g, s + 1, e, stopSpeed);
    }
  }

  /** The stop event of the stretch s..e: at its middle point, stamped with
    * its last timestamp. */
  function StopOf(g: seq<Point>, vid: string, s: int, e: int, clock: Clock): Event
    requires 0 <= s <= e < |g|
  {
    var mid := g[(s + e) / 2];
    StopEvent(vid, mid.lat, mid.lon, g[e].ts, Minutes(clock, g[s].ts, g[e].ts))
  }

  /** A stretch is reported when something faster ends it or, at the end of
    * the run, when it holds at least two points; and only when it lasts
    * at least `stopMin` minutes. */
  predicate Reported(g: seq<Point>, s: int, e: int, stopMin: real, clock: Clock)
    requires 0 <= s <= e < |g|
  {
    (e + 1 < |g| || |g| - s >= 2) && Minutes(clock, g[s].ts, g[e].ts) >= stopMin
  }

  /** The stop events of the stretches starting at or after i, stretch by
    * stretch. */
  function StopsFrom(g: seq<Point>, vid: string, i: int, stopSpeed: real, stopMin: real, clock: Clock): (r: seq<Event>)
    requires 0 <= i <= |g|
    ensures forall ev :: ev in r ==> ev.StopEvent? && ev.vehicleId == vid && ev.minutes >= stopMin
    decreases |g| - i
  {
    if i == |g| then []
    else if !Slow(g, i, stopSpeed) then StopsFrom(g, vid, i + 1, stopSpeed, stopMin, clock)
    else
      var e := RunEnd(g, i, stopSpeed);
      (if Reported(g, i, e, stopMin, clock) then [StopOf(g, vid, i, e, clock)] else [])
      + StopsFrom(g, vid, e + 1, stopSpeed, stopMin, clock)
  }

  /** Every stop event is that of a maximal slow stretch, reported. */
  lemma {:induction false} StopsComeFromRuns(g: seq<Point>, vid: string, i: int, stopSpeed: real, stopMin: real, clock: Clock)
    requires 0 <= i <= |g| && (i == 0 || i == |g| || !Slow(g, i - 1, stopSpeed) || !Slow(g, i, stopSpeed))
    ensures forall ev :: ev in StopsFrom(g, vid, i, stopSpeed, stopMin, clock) ==>
      exists s, e :: i <= s && SlowRun(g, s, e, stopSpeed) && Reported(g, s, e, stopMin, clock) && ev == StopOf(g, vid, s, e, clock)
    decreases |g| - i
  {
    if i < |g| {
      if !Slow(g, i, stopSpeed) {
        StopsComeFromRuns(g, vid, i + 1, stopSpeed, stopMin, clock);
      } else {
        var e := RunEnd(g, i, stopSpeed);
        assert SlowRun(g, i, e, stopSpeed);
        if e + 1 < |g| {
          StopsComeFromRuns(g, vid, e + 1, stopSpeed, stopMin, clock);
        }
      }
    }
  }

  /** Conversely, every maximal slow stretch that qualifies is reported. */
  lemma {:induction false} RunsAreReported(g: seq<Point>, vid: string, i: int, s: int, e: int,
                                           stopSpeed: real, stopMin: real, clock: Clock)
    requires 0 <= i <= s && SlowRun(g, s, e, stopSpeed) && Reported(g, s, e, stopMin, clock)
    requires i == 0 || i == |g| || !Slow(g, i - 1, stopSpeed) || !Slow(g, i, stopSpeed)
    ensures StopOf(g, vid, s, e, clock) in StopsFrom(g, vid, i, stopSpeed, stopMin, clock)
    decreases |g| - i
  {
    if i == s {
      RunEndAt(g, s, e, stopSpeed);
    } else if !Slow(g, i, stopSpeed) {
      RunsAreReported(g, vid, i + 1, s, e, stopSpeed, stopMin, clock);
    } else {
      var e' := RunEnd(g, i, stopSpeed);
      if s <= e' {
        assert false;
      }
      RunsAreReported(g, vid, e' + 1, s, e, stopSpeed, stopMin, clock);
    }
  }

  /** A vehicle that never drops below `stopSpeed` has no stop. */
  lemma {:induction false} MovingVehicleHasNoStops(g: seq<Point>, vid: string, i: int, stopSpeed: real, stopMin: real, clock: Clock)
    requires 0 <= i <= |g| && forall k :: i <= k < |g| ==> !Slow(g, k, stopSpeed)
    ensures StopsFrom(g, vid, i, stopSpeed, stopMin, clock) == []
    decreases |g| - i
  {
    if i < |g| {
      MovingVehicleHasNoStops(g, vid, i + 1, stopSpeed, stopMin, clock);
    }
  }

  /** A single slow point at the end of the run is never a stop. */
  lemma LoneTrailingSlowPointIgnored(g: seq<Point>, vid: string, stopSpeed: real, stopMin: real, clock: Clock)
    requires |g| >= 2 && Slow(g, |g| - 1, stopSpeed) && !Slow(g, |g| - 2, stopSpeed)
    ensures StopsFrom(g, vid, |g| - 1, stopSpeed, stopMin, clock) == []
  {
    assert RunEnd(g, |g| - 1, stopSpeed) == |g| - 1;
  }

  /** The stop loop of `_detect_events`: `start_idx` marks the first slow
    * point of the current stretch. */
  method DetectStops(g: seq<Point>, vid: string, stopSpeed: real, stopMin: real, clock: Clock) returns (events: seq<Event>)
    ensures events == StopsFrom(g, vid, 0, stopSpeed, stopMin, clock)
  {
    ghost var spec := StopsFrom(g, vid, 0, stopSpeed, stopMin, clock);
    events := [];
    var start: Option<int> := None;
    var i := 0;
    while i < |g|
      invariant 0 <= i <= |g|
      invariant Scanned(g, vid, stopSpeed, stopMin, clock, events, start, i, spec)
    {
      events, start := ScanPoint(g, vid, stopSpeed, stopMin, clock, events, start, i, spec);
      i := i + 1;
    }
    if start.Some? {
      var s := start.value;
      StopsFromRun(g, vid, s, |g| - 1, stopSpeed, stopMin, clock);
      assert StopsFrom(g, vid, |g|, stopSpeed, stopMin, clock) == [];
      if |g| - s >= 2 && Minutes(clock, g[s].ts, g[|g| - 1].ts) >= stopMin {
        events := events + [StopOf(g, vid, s, |g| - 1, clock)];
      }
    }
  }

  /** What the stop loop knows after the first i points: `start` marks the
    * first slow point of the current stretch, and the events found so far
    * followed by the stops from there on are all the stops. */
  ghost predicate Scanned(g: seq<Point>, vid: string, stopSpeed: real, stopMin: real, clock: Clock,
                          events: seq<Event>, start: Option<int>, i: int, spec: seq<Event>)
  {
    && 0 <= i <= |g|
    && (start.None? ==> (i == 0 || !Slow(g, i - 1, stopSpeed)) && events + StopsFrom(g, vid, i, stopSpeed, stopMin, clock) == spec)
    && (start.Some? ==>
        && 0 <= start.value < i
        && (forall k :: start.value <= k < i ==> Slow(g, k, stopSpeed))
        && (start.value == 0 || !Slow(g, start.value - 1, stopSpeed))
        && events + StopsFrom(g, vid, start.value, stopSpeed, stopMin, clock) == spec)
  }

  /** One point of the stop loop: a slow point opens a stretch or extends
    * it; a faster one closes the open stretch, reporting it when it lasted
    * `stopMin` minutes. */
  method ScanPoint(g: seq<Point>, vid: string, stopSpeed: real, stopMin: real, clock: Clock,
                   events: seq<Event>, start: Option<int>, i: int, ghost spec: seq<Event>)
    returns (events': seq<Event>, start': Option<int>)
    requires 0 <= i < |g| && Scanned(g, vid, stopSpeed, stopMin, clock, events, start, i, spec)
    ensures Scanned(g, vid, stopSpeed, stopMin, clock, events', start', i + 1, spec)
  {
    events', start' := events, start;
    if g[i].speed < stopSpeed {
      if start.None? {
        start' := Some(i);
      }
    } else if start.None? {
      assert StopsFrom(g, vid, i, stopSpeed, stopMin, clock) == StopsFrom(g, vid, i + 1, stopSpeed, stopMin, clock);
    } else {
      var s := start.value;
      StopsAfterRun(g, vid, s, i, stopSpeed, stopMin, clock);
      ghost var rest := StopsFrom(g, vid, i + 1, stopSpeed, stopMin, clock);
      var mins := Minutes(clock, g[s].ts, g[i - 1].ts);
      if mins >= stopMin {
        var ev := StopOf(g, vid, s, i - 1, clock);
        assert events + ([ev] + rest) == (events + [ev]) + rest;
        events' := events + [ev];
      } else {
        assert [] + rest == rest;
      }
      start' := None;
    }
  }

  /** The stops from the start of a slow stretch that a faster point `i`
    * ends: its own, if it lasts long enough, then those after `i`. */
  lemma StopsAfterRun(g: seq<Point>, vid: string, s: int, i: int, stopSpeed: real, stopMin: real, clock: Clock)
    requires 0 <= s < i < |g| && (forall k :: s <= k < i ==> Slow(g, k, stopSpeed)) && !Slow(g, i, stopSpeed)
    ensures StopsFrom(g, vid, s, stopSpeed, stopMin, clock)
      == (if Minutes(clock, g[s].ts, g[i - 1].ts) >= stopMin then [StopOf(g, vid, s, i - 1, clock)] else [])
         + StopsFrom(g, vid, i + 1, stopSpeed, stopMin, clock)
  {
    StopsFromRun(g, vid, s, i - 1, stopSpeed, stopMin, clock);
    assert StopsFrom(g, vid, i, stopSpeed, stopMin, clock) == StopsFrom(g, vid, i + 1, stopSpeed, stopMin, clock);
  }

  /** The stops from the start of a maximal slow stretch: its own, if it is
    * reported, then those after it. */
  lemma StopsFromRun(g: seq<Point>, vid: string, s: int, e: int, stopSpeed: real, stopMin: real, clock: Clock)
    requires 0 <= s <= e < |g| && (forall k :: s <= k <= e ==> Slow(g, k, stopSpeed))
    requires e == |g| - 1 || !Slow(g, e + 1, stopSpeed)
    ensures StopsFrom(g, vid, s, stopSpeed, stopMin, clock)
      == (if Reported(g, s, e, stopMin, clock) then [StopOf(g, vid, s, e, clock)] else [])
         + StopsFrom(g, vid, e + 1, stopSpeed, stopMin, clock)
  {
    RunEndAt(g, s, e, stopSpeed);
  }

  // ---------------------------------------------------------------
  // _detect_events

  /** The events of the runs, run by run: overspeed, then stops. */
  function EventsOf(gs: seq<seq<Point>>, limit: real, stopSpeed: real, stopMin: real, clock: Clock): seq<Event>
    requires forall i :: 0 <= i < |gs| ==> gs[i] != []
    decreases |gs|
  {
    if gs == [] then []
    else
      var g := gs[|gs| - 1];
      EventsOf(gs[..|gs| - 1], limit, stopSpeed, stopMin, clock)
      + OverspeedEvents(g, g[0].vehicleId, limit) + StopsFrom(g, g[0].vehicleId, 0, stopSpeed, stopMin, clock)
  }

  /** `_detect_events` without the harsh-turn pass. */
  method DetectEvents(points: seq<Point>, limit: real, stopSpeed: real, stopMin: real, clock: Clock) returns (events: seq<Event>)
    ensures events == EventsOf(GroupByVehicle(points), limit, stopSpeed, stopMin, clock)
  {
    GroupByVehicleIsWellGrouped(points);
    var gs := GroupByVehicle(points);
    events := [];
    var i := 0;
    while i < |gs|
      invariant 0 <= i <= |gs|
      invariant events == EventsOf(gs[..i], limit, stopSpeed, stopMin, clock)
    {
      assert gs[..i + 1][..i] == gs[..i];
      var g := gs[i];
      var over := DetectOverspeed(g, g[0].vehicleId, limit);
      var stops := DetectStops(g, g[0].vehicleId, stopSpeed, stopMin, clock);
      events := events + over + stops;
      i := i + 1;
    }
    assert gs[..|gs|] == gs;
  }

  /** Every event names the vehicle of the point it was drawn from. */
  lemma {:induction false} EventsNameTheirVehicle(gs: seq<seq<Point>>, limit: real, stopSpeed: real, stopMin: real, clock: Clock)
    requires forall i :: 0 <= i < |gs| ==> gs[i] != []
    ensures forall ev :: ev in EventsOf(gs, limit, stopSpeed, stopMin, clock) ==>
      exists i :: 0 <= i < |gs| && ev.vehicleId == gs[i][0].vehicleId
    decreases |gs|
  {
    if gs != [] {
      var n := |gs| - 1;
      EventsNameTheirVehicle(gs[..n], limit, stopSpeed, stopMin, clock);
      OverspeedMembers(gs[n], gs[n][0].vehicleId, limit);
      forall ev | ev in EventsOf(gs, limit, stopSpeed, stopMin, clock)
        ensures exists i :: 0 <= i < |gs| && ev.vehicleId == gs[i][0].vehicleId
      {
        if ev in EventsOf(gs[..n], limit, stopSpeed, stopMin, clock) {
          var i :| 0 <= i < n && ev.vehicleId == gs[..n][i][0].vehicleId;
          assert gs[..n][i] == gs[i];
        } else {
          assert ev.vehicleId == gs[n][0].vehicleId;
        }
      }
    }
  }
}
