// `parse_request` (app.py:702-753): the JSON body of POST /optimize read
// into an optimisation request, with the documented defaults, optional
// time windows and geocoding of points given only by address. Every
// exception it raises (a missing key, an unreadable number or clock time,
// an address the geocoder cannot place) becomes 400 "bad_request".

module RequestParsing {
  import opened Common
  import opened Models

  /** The body: the depot object, the vehicle and stop lists (None when the
    * key is missing), the "telemetry" field and the remaining top-level
    * fields. */
  datatype Payload = Payload(
    depot: Option<map<string, Value>>,
    vehicles: Option<seq<map<string, Value>>>,
    stops: Option<seq<map<string, Value>>>,
    telemetry: TelemetryField,
    fields: map<string, Value>)

  /** The body's "telemetry" field: missing, an object from vehicle ids to
    * readings, or a value that is not an object (null, a boolean, a number,
    * text or a list). */
  datatype TelemetryField = NoTelemetry | TelemetryObject(readings: map<string, Reading>) | TelemetryOther(v: Value)

  /** One vehicle's entry in the telemetry object: an object, or a value
    * that is not one. */
  datatype Reading = ReadingObject(fields: map<string, Value>) | ReadingOther(v: Value)

  /** The geocoder of the routing provider: None for an address it cannot
    * place. */
  type Geocoder = Value -> Option<(real, real)>

  datatype ParseError = BadRequest

  /** `d.get(k, default)`: a key present with None keeps None. */
  function GetOr(d: map<string, Value>, k: string, default: Value): (v: Value)
    ensures k !in d ==> v == default
    ensures k in d ==> v == d[k]
  {
    if k in d then d[k] else default
  }

  /** `hhmm_to_minutes(x)` for a dynamic value: only text has `split`. */
  function ClockMinutes(v: Value): (r: Option<int>)
    ensures !v.Str? ==> r.None?
    ensures v.Str? ==> r == HhmmToMinutes(v.s)
  {
    match v
    case Str(s) => HhmmToMinutes(s)
    case _ => None
  }

  /** The location of a depot or stop: geocoded when lat or lon is None and
    * an address is given, otherwise `float(lat), float(lon)`. */
  function Position(p: map<string, Value>, geocode: Geocoder): (r: Result<Location, ParseError>)
    ensures (Get(p, "lat").Null? || Get(p, "lon").Null?) && Truthy(Get(p, "address")) ==>
      (r.Ok? <==> geocode(p["address"]).Some?)
      && (r.Ok? ==> r.value == Location(geocode(p["address"]).value.0, geocode(p["address"]).value.1))
    ensures !((Get(p, "lat").Null? || Get(p, "lon").Null?) && Truthy(Get(p, "address"))) ==>
      (r.Ok? <==> FloatOf(Get(p, "lat")).Some? && FloatOf(Get(p, "lon")).Some?)
      && (r.Ok? ==> r.value == Location(FloatOf(p["lat"]).value, FloatOf(p["lon"]).value))
  {
    var lat, lon := Get(p, "lat"), Get(p, "lon");
    if (lat.Null? || lon.Null?) && Truthy(Get(p, "address")) then
      match geocode(p["address"])
      case None => Err(BadRequest)
      case Some(g) => Ok(Location(g.0, g.1))
    else
      match (FloatOf(lat), FloatOf(lon))
      case (Some(a), Some(b)) => Ok(Location(a, b))
      case _ => Err(BadRequest)
  }

  /** A point given by coordinates is never geocoded. */
  lemma CoordinatesAreNotGeocoded(lat: real, lon: real, address: Value, geocode: Geocoder)
    ensures Position(map["lat" := Float(lat), "lon" := Float(lon), "address" := address], geocode)
      == Ok(Location(lat, lon))
  {
  }

  /** The depot: its position and its mandatory opening window. */
  function ParseDepot(d: map<string, Value>, geocode: Geocoder): (r: Result<Depot, ParseError>)
    ensures r.Ok? <==> (Position(d, geocode).Ok? && "start_window" in d && "end_window" in d
      && ClockMinutes(d["start_window"]).Some? && ClockMinutes(d["end_window"]).Some?)
    ensures r.Ok? ==> r.value.window == TimeWindow(ClockMinutes(d["start_window"]).value, ClockMinutes(d["end_window"]).value)
  {
    match Position(d, geocode)
    case Err(e) => Err(e)
    case Ok(loc) =>
      if "start_window" !in d || "end_window" !in d then Err(BadRequest)
      else match (ClockMinutes(d["start_window"]), ClockMinutes(d["end_window"]))
        case (Some(a), Some(b)) => Ok(Depot(loc, TimeWindow(a, b)))
        case _ => Err(BadRequest)
  }

  /** One vehicle: `id` is mandatory; capacity 999999, shift "00:00" to
    * "23:59" and speed factor 1.0 when the keys are absent. */
  function ParseVehicle(v: map<string, Value>): (r: Result<Vehicle, ParseError>)
    ensures r.Ok? <==> ("id" in v && IntOf(GetOr(v, "capacity", Int(999999))).Some?
      && ClockMinutes(GetOr(v, "start_time", Str("00:00"))).Some?
      && ClockMinutes(GetOr(v, "end_time", Str("23:59"))).Some?
      && FloatOf(GetOr(v, "speed_factor", Float(1.0))).Some?)
    ensures r.Ok? ==> (r.value.id == v["id"]
      && r.value.capacity == IntOf(GetOr(v, "capacity", Int(999999))).value
      && r.value.startMin == ClockMinutes(GetOr(v, "start_time", Str("00:00"))).value
      && r.value.endMin == ClockMinutes(GetOr(v, "end_time", Str("23:59"))).value
      && r.value.speedFactor == FloatOf(GetOr(v, "speed_factor", Float(1.0))).value)
  {
    if "id" !in v then Err(BadRequest)
    else match (IntOf(GetOr(v, "capacity", Int(999999))),
                ClockMinutes(GetOr(v, "start_time", Str("00:00"))),
                ClockMinutes(GetOr(v, "end_time", Str("23:59"))),
                FloatOf(GetOr(v, "speed_factor", Float(1.0))))
      case (Some(c), Some(a), Some(b), Some(f)) => Ok(Vehicle(v["id"], c, a, b, f))
      case _ => Err(BadRequest)
  }

  /** A vehicle given only by its id gets the documented defaults: capacity
    * 999999, the whole day from 0 to 1439 minutes, speed factor 1.0. */
  lemma VehicleDefaults(id: Value)
    ensures ParseVehicle(map["id" := id]) == Ok(Vehicle(id, 999999, 0, 1439, DefaultSpeedFactor))
  {
    var v := map["id" := id];
    assert GetOr(v, "capacity", Int(999999)) == Int(999999);
    assert GetOr(v, "start_time", Str("00:00")) == Str("00:00");
    assert GetOr(v, "end_time", Str("23:59")) == Str("23:59");
    assert GetOr(v, "speed_factor", Float(1.0)) == Float(1.0);
    DefaultShiftIsWholeDay();
  }

  /** The optional window of a stop: only when both ends are truthy. */
  function StopWindow(s: map<string, Value>): (r: Result<Option<TimeWindow>, ParseError>)
    ensures !(Truthy(Get(s, "tw_start")) && Truthy(Get(s, "tw_end"))) ==> r == Ok(None)
    ensures Truthy(Get(s, "tw_start")) && Truthy(Get(s, "tw_end")) ==>
      (r.Ok? <==> ClockMinutes(s["tw_start"]).Some? && ClockMinutes(s["tw_end"]).Some?)
      && (r.Ok? ==> r.value == Some(TimeWindow(ClockMinutes(s["tw_start"]).value, ClockMinutes(s["tw_end"]).value)))
  {
    if Truthy(Get(s, "tw_start")) && Truthy(Get(s, "tw_end")) then
      match (ClockMinutes(s["tw_start"]), ClockMinutes(s["tw_end"]))
      case (Some(a), Some(b)) => Ok(Some(TimeWindow(a, b)))
      case _ => Err(BadRequest)
    else Ok(None)
  }

  /** One stop: position, optional window, mandatory id, demand and service
    * time 0 when absent. */
  function ParseStop(s: map<string, Value>, geocode: Geocoder): (r: Result<Stop, ParseError>)
    ensures r.Ok? <==> (Position(s, geocode).Ok? && StopWindow(s).Ok? && "id" in s
      && IntOf(GetOr(s, "demand", Int(0))).Some? && IntOf(GetOr(s, "service_min", Int(0))).Some?)
    ensures r.Ok? ==> r.value == Stop(s["id"], Position(s, geocode).value, IntOf(GetOr(s, "demand", Int(0))).value,
                                      IntOf(GetOr(s, "service_min", Int(0))).value, StopWindow(s).value)
  {
    match (Position(s, geocode), StopWindow(s))
    case (Ok(loc), Ok(tw)) =>
      if "id" !in s then Err(BadRequest)
      else (match (IntOf(GetOr(s, "demand", Int(0))), IntOf(GetOr(s, "service_min", Int(0))))
        case (Some(d), Some(m)) => Ok(Stop(s["id"], loc, d, m, tw))
        case _ => Err(BadRequest))
    case _ => Err(BadRequest)
  }

  /** A stop with coordinates and an id only: no demand, no service time,
    * no window; a window with one end missing is dropped. */
  lemma StopDefaults(id: Value, lat: real, lon: real, start: Value, geocode: Geocoder)
    ensures ParseStop(map["id" := id, "lat" := Float(lat), "lon" := Float(lon), "tw_start" := start], geocode)
      == Ok(Stop(id, Location(lat, lon), 0, 0, None))
  {
  }

  /** An address the geocoder cannot place fails the whole request. */
  lemma GeocodeMissFails(s: map<string, Value>, geocode: Geocoder)
    requires "lat" !in s && Truthy(Get(s, "address")) && geocode(s["address"]).None?
    ensures ParseStop(s, geocode).Err?
  {
  }

  /** The values of the results, in order, or the first error: what a loop
    * appending one parsed element at a time gives when an element may
    * raise. */
  function AllOk<T, E>(rs: seq<Result<T, E>>): (r: Result<seq<T>, E>)
    ensures r.Ok? <==> forall i :: 0 <= i < |rs| ==> rs[i].Ok?
    ensures r.Ok? ==> |r.value| == |rs| && forall i :: 0 <= i < |rs| ==> r.value[i] == rs[i].value
    decreases |rs|
  {
    if rs == [] then Ok([])
    else match rs[0]
      case Err(e) => Err(e)
      case Ok(x) =>
        var rest := AllOk(rs[1..]);
        assert forall i :: 1 <= i < |rs| ==> rs[i] == rs[1..][i - 1];
        match rest
        case Ok(xs) => Ok([x] + xs)
        case Err(e) => Err(e)
  }

  /** Each vehicle of the list parsed on its own. */
  function EachVehicle(vs: seq<map<string, Value>>): (rs: seq<Result<Vehicle, ParseError>>)
    ensures |rs| == |vs| && forall i :: 0 <= i < |vs| ==> rs[i] == ParseVehicle(vs[i])
  {
    seq(|vs|, i requires 0 <= i < |vs| => ParseVehicle(vs[i]))
  }

  /** The vehicles of the list, in order, or the first failure. */
  function ParseVehicles(vs: seq<map<string, Value>>): (r: Result<seq<Vehicle>, ParseError>)
    ensures r.Ok? <==> forall i :: 0 <= i < |vs| ==> ParseVehicle(vs[i]).Ok?
    ensures r.Ok? ==> |r.value| == |vs| && forall i :: 0 <= i < |vs| ==> r.value[i] == ParseVehicle(vs[i]).value
  {
    AllOk(EachVehicle(vs))
  }

  /** Each stop of the list parsed on its own. */
  function EachStop(ss: seq<map<string, Value>>, geocode: Geocoder): (rs: seq<Result<Stop, ParseError>>)
    ensures |rs| == |ss| && forall i :: 0 <= i < |ss| ==> rs[i] == ParseStop(ss[i], geocode)
  {
    seq(|ss|, i requires 0 <= i < |ss| => ParseStop(ss[i], geocode))
  }

  /** The stops of the list, in order, or the first failure. */
  function ParseStops(ss: seq<map<string, Value>>, geocode: Geocoder): (r: Result<seq<Stop>, ParseError>)
    ensures r.Ok? <==> forall i :: 0 <= i < |ss| ==> ParseStop(ss[i], geocode).Ok?
    ensures r.Ok? ==> |r.value| == |ss| && forall i :: 0 <= i < |ss| ==> r.value[i] == ParseStop(ss[i], geocode).value
  {
    AllOk(EachStop(ss, geocode))
  }

  /** `parse_request`. */
  function ParseRequest(p: Payload, geocode: Geocoder): (r: Result<OptimizeRequest, ParseError>)
    ensures r.Ok? <==> (p.depot.Some? && p.vehicles.Some? && p.stops.Some?
      && ParseDepot(p.depot.value, geocode).Ok? && ParseVehicles(p.vehicles.value).Ok?
      && ParseStops(p.stops.value, geocode).Ok?)
    ensures r.Ok? ==> (r.value.depot == ParseDepot(p.depot.value, geocode).value
      && r.value.vehicles == ParseVehicles(p.vehicles.value).value
      && r.value.stops == ParseStops(p.stops.value, geocode).value
      && r.value.objective == GetOr(p.fields, "objective", DefaultObjective)
      && r.value.includeTolls == Truthy(GetOr(p.fields, "include_tolls", Bool(DefaultIncludeTolls))))
  {
    if p.depot.None? || p.vehicles.None? || p.stops.None? then Err(BadRequest)
    else match (ParseDepot(p.depot.value, geocode), ParseVehicles(p.vehicles.value), ParseStops(p.stops.value, geocode))
      case (Ok(d), Ok(vs), Ok(ss)) =>
        Ok(OptimizeRequest(d, vs, ss, GetOr(p.fields, "objective", DefaultObjective),
                           Truthy(GetOr(p.fields, "include_tolls", Bool(DefaultIncludeTolls)))))
      case _ => Err(BadRequest)
  }

  /** Without "objective" and "include_tolls" the request minimises cost
    * and counts tolls. */
  lemma RequestDefaults(p: Payload, geocode: Geocoder)
    requires ParseRequest(p, geocode).Ok?
    requires "objective" !in p.fields && "include_tolls" !in p.fields
    ensures ParseRequest(p, geocode).value.objective == Str("min_cost")
    ensures ParseRequest(p, geocode).value.includeTolls
  {
  }
}
