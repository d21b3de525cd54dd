// The alternative routing provider (maps.py), built on the googlemaps
// client with a great-circle fallback. The client's replies are inputs; the
// great-circle distance between two points (haversine_km) is a parameter
// `dist`, since the model does not compute trigonometry.

module FallbackMaps {
  import opened Common
  import MapRender
  import opened ProviderMaps

  /** The settings the provider reads (config.py). */
  datatype Config = Config(apiKey: string, allowGeocodeOff: bool, avgKmh: real)

  /** FALLBACK_AVG_KMH when the environment does not set it. */
  const DefaultAvgKmh: real := 35.0

  /** Whether a googlemaps client was created. */
  datatype ClientProvider = ClientProvider(hasClient: bool)

  datatype InitError = MissingApiKey

  /** `RoutingProvider()`: refuses to start without a key unless running
    * without geocoding is allowed; a client exists when there is a key and
    * the googlemaps package could be imported. */
  function NewClientProvider(cfg: Config, libraryAvailable: bool): (r: Result<ClientProvider, InitError>)
    ensures r.Err? <==> cfg.apiKey == "" && !cfg.allowGeocodeOff
    ensures r.Ok? ==> (r.value.hasClient <==> cfg.apiKey != "" && libraryAvailable)
  {
    if cfg.apiKey == "" && !cfg.allowGeocodeOff then Err(MissingApiKey)
    else Ok(ClientProvider(cfg.apiKey != "" && libraryAvailable))
  }

  // ---------------------------------------------------------------
  // geocode

  datatype ClientGeocode = GeocodeRaises | GeocodeResults(locations: seq<(real, real)>)

  /** An exception of the client that `geocode` lets through. */
  datatype Raised = Raised

  /** `geocode`: None for an empty address or without a client; the first
    * result otherwise; the client's exceptions propagate. */
  function ClientGeocodeAddress(p: ClientProvider, address: string, reply: ClientGeocode): (r: Result<Option<(real, real)>, Raised>)
    ensures (address == "" || !p.hasClient) ==> r == Ok(None)
    ensures r.Ok? && r.value.Some? ==>
      reply.GeocodeResults? && reply.locations != [] && r.value.value == reply.locations[0]
    ensures r.Err? <==> address != "" && p.hasClient && reply.GeocodeRaises?
  {
    if address == "" || !p.hasClient then Ok(None)
    else match reply
      case GeocodeRaises => Err(Raised)
      case GeocodeResults(locs) => if locs == [] then Ok(None) else Ok(Some(locs[0]))
  }

  // ---------------------------------------------------------------
  // _fallback_matrix

  function MaxReal(a: real, b: real): real
  {
    if a >= b then a else b
  }

  /** The fallback cell between two points `km` apart. */
  function FallbackCellAt(km: real, avgKmh: real): Cell
  {
    Cell(km, (km / MaxReal(avgKmh, 0.000001)) * 60.0)
  }

  function FallbackMatrixSpec(n: nat, dist: (int, int) -> real, avgKmh: real): map<(int, int), Cell>
  {
    map a, b | 0 <= a < n && 0 <= b < n :: (a, b) := FallbackCellAt(dist(a, b), avgKmh)
  }

  /** `_fallback_matrix`: the nested loops over all ordered pairs. */
  method FallbackMatrix(n: nat, dist: (int, int) -> real, avgKmh: real) returns (out: map<(int, int), Cell>)
    ensures out == FallbackMatrixSpec(n, dist, avgKmh)
  {
    out := map[];
    var i := 0;
    while i < n
      invariant 0 <= i <= n
      invariant forall k :: k in out <==> Before(k, i, 0, n)
      invariant forall k :: k in out ==> out[k] == FallbackCellAt(dist(k.0, k.1), avgKmh)
    {
      var j := 0;
      while j < n
        invariant 0 <= j <= n
        invariant forall k :: k in out <==> Before(k, i, j, n)
        invariant forall k :: k in out ==> out[k] == FallbackCellAt(dist(k.0, k.1), avgKmh)
      {
        var km := dist(i, j);
        var minutes := (km / MaxReal(avgKmh, 0.000001)) * 60.0;
        out := out[(i, j) := Cell(km, minutes)];
        j := j + 1;
      }
      assert forall k :: Before(k, i + 1, 0, n) <==> Before(k, i, n, n);
      i := i + 1;
    }
    var g := FallbackMatrixSpec(n, dist, avgKmh);
    forall k | k in out ensures k in g && out[k] == g[k] {
      assert k == (k.0, k.1);
    }
  }

  /** Fallback travel times follow the average speed: at a positive speed
    * `v` a distance of `km` takes `km / v` hours, and a point is zero
    * minutes from itself when the distance function says so. */
  lemma FallbackFollowsAverageSpeed(n: nat, dist: (int, int) -> real, avgKmh: real, a: int, b: int)
    requires 0 <= a < n && 0 <= b < n
    requires avgKmh >= 0.000001
    ensures FallbackMatrixSpec(n, dist, avgKmh)[(a, b)].km == dist(a, b)
    ensures FallbackMatrixSpec(n, dist, avgKmh)[(a, b)].minutes * avgKmh == dist(a, b) * 60.0
    ensures dist(a, b) == 0.0 ==> FallbackMatrixSpec(n, dist, avgKmh)[(a, b)].minutes == 0.0
  {
    var c := FallbackMatrixSpec(n, dist, avgKmh)[(a, b)];
    assert c == FallbackCellAt(dist(a, b), avgKmh);
    assert MaxReal(avgKmh, 0.000001) == avgKmh;
  }

  // ---------------------------------------------------------------
  // travel_matrix

  /** One cell of the client's reply; an empty cell is falsy. Durations are
    * seconds, distances metres; None is a value the cell lacks. */
  datatype MatrixCell =
    | EmptyCell
    | CellData(status: string, inTrafficS: Option<real>, durationS: Option<real>, distanceM: Option<real>)

  datatype ClientMatrix = MatrixRaises | MatrixRows(rows: seq<seq<MatrixCell>>)

  /** The merged value of one cell given its fallback (None: the fallback
    * is consulted for a pair outside the points, a KeyError). */
  function MergedCell(cell: MatrixCell, fb: Option<Cell>): (r: Option<Cell>)
    ensures (cell.EmptyCell? || cell.status != "OK") ==> r == fb
    ensures cell.CellData? && cell.status == "OK" && cell.inTrafficS.Some?
            && cell.distanceM.Some? && cell.distanceM.value != 0.0 ==>
      r == Some(Cell(cell.distanceM.value / 1000.0, cell.inTrafficS.value / 60.0))
    ensures fb.Some? ==> r.Some?
    // An OK cell: minutes from the traffic duration, else the plain
    // duration, else the fallback; km from the distance unless that is
    // missing or zero, else the fallback; nothing when a needed fallback is.
    ensures cell.CellData? && cell.status == "OK" ==>
      var km0 := if cell.distanceM.Some? then cell.distanceM.value / 1000.0 else 0.0;
      && (r.None? <==> fb.None? && ((cell.inTrafficS.None? && cell.durationS.None?) || km0 == 0.0))
      && (r.Some? && cell.inTrafficS.Some? ==> r.value.minutes == cell.inTrafficS.value / 60.0)
      && (r.Some? && cell.inTrafficS.None? && cell.durationS.Some? ==> r.value.minutes == cell.durationS.value / 60.0)
      && (r.Some? && cell.inTrafficS.None? && cell.durationS.None? ==> r.value.minutes == fb.value.minutes)
      && (r.Some? && km0 != 0.0 ==> r.value.km == km0)
      && (r.Some? && km0 == 0.0 ==> r.value.km == fb.value.km)
  {
    if cell.EmptyCell? || cell.status != "OK" then fb
    else
      var dur := if cell.inTrafficS.Some? then cell.inTrafficS else cell.durationS;
      var minutes := if dur.Some? then Some(dur.value / 60.0) else if fb.Some? then Some(fb.value.minutes) else None;
      var km0 := (if cell.distanceM.Some? then cell.distanceM.value else 0.0) / 1000.0;
      var km := if km0 != 0.0 then Some(km0) else if fb.Some? then Some(fb.value.km) else None;
      if minutes.Some? && km.Some? then Some(Cell(km.value, minutes.value)) else None
  }

  function FallbackAt(n: nat, dist: (int, int) -> real, avgKmh: real, i: int, j: int): (r: Option<Cell>)
    ensures r.Some? <==> 0 <= i < n && 0 <= j < n
  {
    if 0 <= i < n && 0 <= j < n then Some(FallbackCellAt(dist(i, j), avgKmh)) else None
  }

  ghost predicate Present(rows: seq<seq<MatrixCell>>, k: (int, int))
  {
    0 <= k.0 < |rows| && 0 <= k.1 < |rows[k.0]|
  }

  /** Every cell of the reply can be merged. */
  predicate Mergeable(rows: seq<seq<MatrixCell>>, n: nat, dist: (int, int) -> real, avgKmh: real)
  {
    forall a, b :: 0 <= a < |rows| && 0 <= b < |rows[a]| ==>
      MergedCell(rows[a][b], FallbackAt(n, dist, avgKmh, a, b)).Some?
  }

  /** The cells of the rows before `i` and of row `i` before column `j`. */
  ghost predicate Visited(k: (int, int), i: int, j: int)
  {
    k.0 < i || (k.0 == i && k.1 < j)
  }

  datatype MatrixError = KeyError

  /** What `travel_matrix` returns: the whole fallback without a client or
    * when the request raises; otherwise one merged entry per cell present
    * in the reply, or KeyError. */
  function ClientTravelMatrixSpec(p: ClientProvider, n: nat, dist: (int, int) -> real, avgKmh: real,
                                        reply: ClientMatrix): Result<map<(int, int), Cell>, MatrixError>
  {
    if !p.hasClient || reply.MatrixRaises? then Ok(FallbackMatrixSpec(n, dist, avgKmh))
    else if !Mergeable(reply.rows, n, dist, avgKmh) then Err(KeyError)
    else Ok(MergedGrid(reply.rows, n, dist, avgKmh))
  }

  /** One merged entry per cell of the reply. */
  function MergedGrid(rows: seq<seq<MatrixCell>>, n: nat, dist: (int, int) -> real, avgKmh: real): map<(int, int), Cell>
    requires Mergeable(rows, n, dist, avgKmh)
  {
    map a, b | 0 <= a < |rows| && 0 <= b < |rows[a]| :: (a, b) :=
      MergedCell(rows[a][b], FallbackAt(n, dist, avgKmh, a, b)).value
  }

  ghost predicate MergedPrefix(out: map<(int, int), Cell>, rows: seq<seq<MatrixCell>>, i: int, j: int,
                               n: nat, dist: (int, int) -> real, avgKmh: real)
  {
    (forall k :: k in out <==> Present(rows, k) && Visited(k, i, j))
    && (forall k :: k in out ==> MergedCell(rows[k.0][k.1], FallbackAt(n, dist, avgKmh, k.0, k.1)) == Some(out[k]))
  }

  /** The loops over the rows and cells of a reply. */
  method MergeReply(rows: seq<seq<MatrixCell>>, n: nat, dist: (int, int) -> real, avgKmh: real)
    returns (r: Result<map<(int, int), Cell>, MatrixError>)
    ensures r.Err? <==> !Mergeable(rows, n, dist, avgKmh)
    ensures r.Err? ==> r == Err(KeyError)
    ensures r.Ok? ==> forall k :: k in r.value <==> Present(rows, k)
    ensures r.Ok? ==> forall k :: k in r.value ==>
      Present(rows, k) && Some(r.value[k]) == MergedCell(rows[k.0][k.1], FallbackAt(n, dist, avgKmh, k.0, k.1))
  {
    var out: map<(int, int), Cell> := map[];
    var i := 0;
    while i < |rows|
      invariant 0 <= i <= |rows|
      invariant MergedPrefix(out, rows, i, 0, n, dist, avgKmh)
    {
      var j := 0;
      while j < |rows[i]|
        invariant 0 <= j <= |rows[i]|
        invariant MergedPrefix(out, rows, i, j, n, dist, avgKmh)
      {
        var c := MergedCell(rows[i][j], FallbackAt(n, dist, avgKmh, i, j));
        if c.None? {
          assert MergedCell(rows[i][j], FallbackAt(n, dist, avgKmh, i, j)).None?;
          return Err(KeyError);
        }
        out := out[(i, j) := c.value];
        j := j + 1;
      }
      assert forall k :: Present(rows, k) ==> (Visited(k, i + 1, 0) <==> Visited(k, i, |rows[i]|));
      i := i + 1;
    }
    assert forall k :: Present(rows, k) ==> Visited(k, |rows|, 0);
    forall a, b | 0 <= a < |rows| && 0 <= b < |rows[a]|
      ensures MergedCell(rows[a][b], FallbackAt(n, dist, avgKmh, a, b)).Some?
    {
      assert Present(rows, (a, b));
      assert (a, b) in out;
    }
    r := Ok(out);
  }

  /** `travel_matrix`. */
  method ClientTravelMatrix(p: ClientProvider, n: nat, dist: (int, int) -> real, avgKmh: real, reply: ClientMatrix)
    returns (r: Result<map<(int, int), Cell>, MatrixError>)
    ensures r == ClientTravelMatrixSpec(p, n, dist, avgKmh, reply)
  {
    if !p.hasClient || reply.MatrixRaises? {
      var fb := FallbackMatrix(n, dist, avgKmh);
      return Ok(fb);
    }
    r := MergeReply(reply.rows, n, dist, avgKmh);
    if r.Ok? {
      var rows := reply.rows;
      var g := MergedGrid(rows, n, dist, avgKmh);
      forall k | k in r.value ensures k in g && r.value[k] == g[k] {
        assert k == (k.0, k.1);
      }
      forall k | k in g ensures k in r.value {
        assert Present(rows, k);
      }
      assert r.value == g;
    }
  }

  /** A reply that answers every pair of the `n` points gives an entry for
    * every pair and nothing else; a reply with missing rows or cells leaves
    * those pairs out of the matrix. */
  lemma ClientMatrixKeys(p: ClientProvider, n: nat, dist: (int, int) -> real, avgKmh: real, reply: ClientMatrix)
    requires ClientTravelMatrixSpec(p, n, dist, avgKmh, reply).Ok?
    requires reply.MatrixRows? ==> |reply.rows| == n && forall a :: 0 <= a < n ==> |reply.rows[a]| == n
    ensures IsGrid(ClientTravelMatrixSpec(p, n, dist, avgKmh, reply).value, n)
  {
    var m := ClientTravelMatrixSpec(p, n, dist, avgKmh, reply).value;
    forall k: (int, int) | 0 <= k.0 < n && 0 <= k.1 < n ensures k in m {
      assert k == (k.0, k.1);
    }
  }

  /** A reply whose cells are all present and "OK" needs no fallback value,
    * so it never raises KeyError, whatever the number of points. */
  lemma OkReplyNeverRaises(p: ClientProvider, n: nat, dist: (int, int) -> real, avgKmh: real, rows: seq<seq<MatrixCell>>)
    requires p.hasClient
    requires forall a, b :: 0 <= a < |rows| && 0 <= b < |rows[a]| ==>
      rows[a][b].CellData? && rows[a][b].status == "OK"
      && (rows[a][b].inTrafficS.Some? || rows[a][b].durationS.Some?)
      && rows[a][b].distanceM.Some? && rows[a][b].distanceM.value != 0.0
    ensures ClientTravelMatrixSpec(p, n, dist, avgKmh, MatrixRows(rows)).Ok?
  {
    forall k | Present(rows, k)
      ensures MergedCell(rows[k.0][k.1], FallbackAt(n, dist, avgKmh, k.0, k.1)).Some?
    {
      var c := rows[k.0][k.1];
      assert c.CellData? && c.status == "OK";
    }
  }

  // ---------------------------------------------------------------
  // leg_polyline and route_cost_with_tolls

  datatype ClientDirections = DirectionsRaises | DirectionsRoutes(overviews: seq<Option<string>>)

  /** `leg_polyline`: the decoded overview of the first route; an empty
    * list without a client, when the client raises, when there is no route
    * or no overview, or when the overview cannot be decoded. */
  function ClientLegPolyline(p: ClientProvider, reply: ClientDirections): (r: seq<MapRender.Coord>)
    ensures !p.hasClient || reply.DirectionsRaises? ==> r == []
    ensures r != [] ==>
      (reply.DirectionsRoutes? && reply.overviews != [] && reply.overviews[0].Some?
       && MapRender.Decoded(reply.overviews[0].value).Some?
       && r == MapRender.ScaleAll(MapRender.Decoded(reply.overviews[0].value).value))
  {
    if !p.hasClient then []
    else match reply
      case DirectionsRaises => []
      case DirectionsRoutes(overviews) =>
        if overviews == [] || overviews[0].None? || overviews[0].value == "" then []
        else match MapRender.Decoded(overviews[0].value)
          case None => []
          case Some(points) => MapRender.ScaleAll(points)
  }

  /** The first route's "fare" entry: absent, or its "value". */
  datatype ClientFare = FareRaises | FareRoutes(fares: seq<Option<Value>>)

  /** `route_cost_with_tolls`: the fare's value when it is a number
    * (`isinstance(val, (int, float))`, which admits booleans), 0.0 in every
    * other case. */
  function RouteCostWithTolls(p: ClientProvider, reply: ClientFare): (r: real)
    ensures !p.hasClient ==> r == 0.0
    ensures r != 0.0 ==> reply.FareRoutes? && reply.fares != [] && reply.fares[0].Some?
    ensures p.hasClient && reply.FareRoutes? && reply.fares != [] && reply.fares[0].Some? && reply.fares[0].value.Float? ==>
      r == reply.fares[0].value.f
  {
    if !p.hasClient then 0.0
    else match reply
      case FareRaises => 0.0
      case FareRoutes(fares) =>
        if fares == [] || fares[0].None? then 0.0
        else match fares[0].value
          case Int(i) => i as real
          case Float(f) => f
          case Bool(b) => if b then 1.0 else 0.0
          case _ => 0.0
  }

  /** A numeric fare is reported as it is; anything else costs nothing. */
  lemma FareIsReported(p: ClientProvider, v: Value)
    requires p.hasClient
    ensures v.Float? ==> RouteCostWithTolls(p, FareRoutes([Some(v)])) == v.f
    ensures v.Int? ==> RouteCostWithTolls(p, FareRoutes([Some(v)])) == v.i as real
    ensures v.Str? || v.Null? || v.Other? ==> RouteCostWithTolls(p, FareRoutes([Some(v)])) == 0.0
  {
  }
}
