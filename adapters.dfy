// Telemetry payload adapters (core/telemetry/adapters.py): vendor payloads
// arrive as dictionaries with vendor-specific key names, and every adapter
// maps one onto the same eight-field telemetry record.

module Adapters {
  import opened Common

  /** `pick(*keys, src=src, default=default)`: the value of the first key,
    * in the order given, that is present with a value other than None. */
  function Pick(keys: seq<string>, src: map<string, Value>, default: Value): (r: Value)
    ensures (forall i :: 0 <= i < |keys| ==> Get(src, keys[i]).Null?) ==> r == default
    ensures forall i ::
      (0 <= i < |keys| && !Get(src, keys[i]).Null? && (forall j :: 0 <= j < i ==> Get(src, keys[j]).Null?))
      ==> r == src[keys[i]]
    ensures (exists i :: 0 <= i < |keys| && !Get(src, keys[i]).Null?) ==> !r.Null?
  {
    if keys == [] then default
    else if keys[0] in src && !src[keys[0]].Null? then src[keys[0]]
    else
      var r := Pick(keys[1..], src, default);
      assert forall i :: 1 <= i < |keys| ==> keys[i] == keys[1..][i - 1];
      assert (exists i :: 0 <= i < |keys| && !Get(src, keys[i]).Null?) ==>
        exists i :: 0 <= i < |keys[1..]| && !Get(src, keys[1..][i]).Null?;
      r
  }

  /** The value `Pick` chooses is either the default or some key's non-None
    * value. */
  lemma {:induction false} PickChoosesAKey(keys: seq<string>, src: map<string, Value>, default: Value)
    ensures Pick(keys, src, default) == default
      || exists i :: 0 <= i < |keys| && keys[i] in src && Pick(keys, src, default) == src[keys[i]]
  {
    if keys != [] && !(keys[0] in src && !src[keys[0]].Null?) {
      PickChoosesAKey(keys[1..], src, default);
      var r := Pick(keys[1..], src, default);
      if r != default {
        var i :| 0 <= i < |keys[1..]| && keys[1..][i] in src && r == src[keys[1..][i]];
        assert keys[i + 1] == keys[1..][i];
      }
    }
  }

  /** `to_float(x, default)`: `float(x)`, or the default when that raises. */
  function ToFloat(x: Value, default: real): (r: real)
    ensures FloatOf(x).Some? ==> r == FloatOf(x).value
    ensures FloatOf(x).None? ==> r == default
  {
    match FloatOf(x)
    case Some(f) => f
    case None => default
  }

  /** The normalised telemetry record. `tracker` is the picked tracker
    * value; its `str()` is the tracker id (None: no tracker key). */
  datatype Telemetry = Telemetry(
    tracker: Option<Value>,
    lat: real, lon: real, speedKmh: real, fuelPct: real,
    engineTemp: real, odometerKm: real, obdAlerts: int)

  const TrackerKeys: seq<string> := ["deviceId", "device_id", "imei", "trackerId"]
  const LatKeys: seq<string> := ["lat", "latitude", "Lat"]
  const LonKeys: seq<string> := ["lon", "lng", "longitude", "Lon"]
  const SpeedKeys: seq<string> := ["speed", "speedKmh", "speed_kmh", "velocity"]
  const FuelKeys: seq<string> := ["fuel", "fuel_pct"]
  const EngineTempKeys: seq<string> := ["engine_temp", "temp", "engineTemp"]
  const OdometerKeys: seq<string> := ["odometer", "odo", "odometer_km"]
  const ObdKeys: seq<string> := ["obd_alerts", "alerts", "dtc", "obd"]

  /** `int(pick(...) or 0)`: a falsy value counts as 0; None when `int()`
    * raises. */
  function ObdAlerts(p: map<string, Value>): (r: Option<int>)
    ensures !Truthy(Pick(ObdKeys, p, Int(0))) ==> r == Some(0)
    ensures Truthy(Pick(ObdKeys, p, Int(0))) ==> r == IntOf(Pick(ObdKeys, p, Int(0)))
  {
    var v := Pick(ObdKeys, p, Int(0));
    if Truthy(v) then IntOf(v) else Some(0)
  }

  datatype AdapterError = ObdNotAnInteger

  /** `normalize_generic`: fails only when the OBD alert count cannot be
    * read as an integer. */
  function NormalizeGeneric(p: map<string, Value>): (r: Result<Telemetry, AdapterError>)
    ensures r.Err? <==> ObdAlerts(p).None?
    ensures r.Ok? ==> r.value.obdAlerts == ObdAlerts(p).value
    ensures r.Ok? ==> (r.value.tracker.None? <==> forall i :: 0 <= i < |TrackerKeys| ==> Get(p, TrackerKeys[i]).Null?)
    ensures r.Ok? ==> r.value.lat == ToFloat(Pick(LatKeys, p, Null), 0.0)
    ensures r.Ok? ==> r.value.lon == ToFloat(Pick(LonKeys, p, Null), 0.0)
    ensures r.Ok? ==> r.value.speedKmh == ToFloat(Pick(SpeedKeys, p, Null), 0.0)
    ensures r.Ok? ==> r.value.fuelPct == ToFloat(Pick(FuelKeys, p, Null), 0.0)
    ensures r.Ok? ==> r.value.engineTemp == ToFloat(Pick(EngineTempKeys, p, Null), 0.0)
    ensures r.Ok? ==> r.value.odometerKm == ToFloat(Pick(OdometerKeys, p, Null), 0.0)
    ensures r.Ok? && !Pick(TrackerKeys, p, Null).Null? ==> r.value.tracker == Some(Pick(TrackerKeys, p, Null))
  {
    var tracker := Pick(TrackerKeys, p, Null);
    match ObdAlerts(p)
    case None => Err(ObdNotAnInteger)
    case Some(obd) =>
      Ok(Telemetry(
        if tracker.Null? then None else Some(tracker),
        ToFloat(Pick(LatKeys, p, Null), 0.0),
        ToFloat(Pick(LonKeys, p, Null), 0.0),
        ToFloat(Pick(SpeedKeys, p, Null), 0.0),
        ToFloat(Pick(FuelKeys, p, Null), 0.0),
        ToFloat(Pick(EngineTempKeys, p, Null), 0.0),
        ToFloat(Pick(OdometerKeys, p, Null), 0.0),
        obd))
  }

  /** A payload with none of the measurement keys reads as zeros, with no
    * tracker and no alerts. */
  lemma EmptyPayload()
    ensures NormalizeGeneric(map[]) == Ok(Telemetry(None, 0.0, 0.0, 0.0, 0.0, 0.0, 0.0, 0))
  {
  }

  /** The registered adapters. */
  datatype Adapter = Generic | Gt06Gateway | Sascar | Cobli

  function AdapterFor(name: string): (r: Option<Adapter>)
    ensures r.Some? <==> name == "generic" || name == "gt06" || name == "sascar" || name == "cobli"
    ensures r == Some(Generic) <==> name == "generic"
  {
    if name == "generic" then Some(Generic)
    else if name == "gt06" then Some(Gt06Gateway)
    else if name == "sascar" then Some(Sascar)
    else if name == "cobli" then Some(Cobli)
    else None
  }

  /** What each adapter makes of a payload. */
  function Apply(a: Adapter, p: map<string, Value>): (r: Result<Telemetry, AdapterError>)
    ensures r == NormalizeGeneric(p)
  {
    match a
    case Generic => NormalizeGeneric(p)
    case Gt06Gateway => NormalizeGeneric(p)
    case Sascar => NormalizeGeneric(p)
    case Cobli => NormalizeGeneric(p)
  }

  /** `ADAPTERS.get(provider, normalize_generic)`: an unknown provider name
    * is served by the generic adapter. */
  function SelectAdapter(provider: string): (a: Adapter)
    ensures AdapterFor(provider).None? ==> a == Generic
    ensures AdapterFor(provider).Some? ==> a == AdapterFor(provider).value
  {
    match AdapterFor(provider)
    case Some(a) => a
    case None => Generic
  }

  /** Every registered adapter, and so every provider name, gives the
    * generic result. */
  lemma AdaptersAgree(provider: string, p: map<string, Value>)
    ensures Apply(SelectAdapter(provider), p) == NormalizeGeneric(p)
  {
  }
}
