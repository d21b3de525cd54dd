// Tracker telemetry over HTTP: the `ingest` endpoint and the id list of
// `api_last_many` in routes/telemetry_routes.py, and the `link_tracker`
// endpoints of both telemetry blueprints. The ingest code of
// telemetry_routes.py is the same as that of routes/telemetry_routes.py.
// The clock, `datetime.fromisoformat` and `str()` of values the model does
// not render are parameters.

module TelemetryRoutes {
  import opened Common
  import Db

  /** `str(data.get(key, "")).strip()`: a JSON null reads as "None". */
  function TextField(data: map<string, Value>, key: string, str: Value -> string): string
  {
    Strip(Db.StrOf(if key in data then data[key] else Str(""), str))
  }

  /** `(request.headers.get("X-Tracker-Token") or "").strip()`. */
  function Token(header: Option<string>): string
  {
    Strip(if header.Some? then header.value else "")
  }

  /** `float(data["lat"])` and `float(data["lon"])`, when both keys are
    * there and both convert. */
  function Coordinates(data: map<string, Value>): (r: Option<(real, real)>)
    ensures r.Some? <==> "lat" in data && "lon" in data && FloatOf(data["lat"]).Some? && FloatOf(data["lon"]).Some?
    ensures r.Some? ==> r.value == (FloatOf(data["lat"]).value, FloatOf(data["lon"]).value)
  {
    if "lat" !in data || "lon" !in data then None
    else match (FloatOf(data["lat"]), FloatOf(data["lon"]))
      case (Some(lat), Some(lon)) => Some((lat, lon))
      case _ => None
  }

  /** `float(data.get("speed", 0.0))` and the same for fuel; None where
    * `float` raises, which the handler does not catch. */
  function Reading(data: map<string, Value>): (r: Option<(real, real)>)
    ensures "speed" !in data && "fuel" !in data ==> r == Some((0.0, 0.0))
  {
    match (FloatOf(if "speed" in data then data["speed"] else Float(0.0)),
           FloatOf(if "fuel" in data then data["fuel"] else Float(0.0)))
    case (Some(speed), Some(fuel)) => Some((speed, fuel))
    case _ => None
  }

  /** The vehicle a reading is filed under: the payload's, else the one
    * the tracker is bound to, else "UNKNOWN". */
  function VehicleIdFor(data: map<string, Value>, bound: Option<string>, str: Value -> string): (v: string)
    ensures v != ""
    ensures TextField(data, "vehicle_id", str) != "" ==> v == TextField(data, "vehicle_id", str)
    ensures TextField(data, "vehicle_id", str) == "" && bound.Some? && bound.value != "" ==> v == bound.value
    ensures TextField(data, "vehicle_id", str) == "" && (bound.None? || bound.value == "") ==> v == "UNKNOWN"
  {
    var fromPayload := TextField(data, "vehicle_id", str);
    if fromPayload != "" then fromPayload
    else if bound.Some? && bound.value != "" then bound.value
    else "UNKNOWN"
  }

  /** The reading's time: an ISO text with "Z" read as "+00:00"; now when
    * it is absent, empty, not text, or does not parse. */
  function Timestamp(data: map<string, Value>, now: int, fromIso: string -> Option<Db.Instant>): (t: Db.Instant)
    ensures !Truthy(Get(data, "timestamp")) ==> t == Db.Instant(now, true)
    ensures (Get(data, "timestamp").Str? && Truthy(Get(data, "timestamp"))
             && fromIso(Replace(Get(data, "timestamp").s, "Z", "+00:00")).Some?) ==>
      t == fromIso(Replace(Get(data, "timestamp").s, "Z", "+00:00")).value
  {
    var ts := Get(data, "timestamp");
    if !Truthy(ts) || !ts.Str? then Db.Instant(now, true)
    else match fromIso(Replace(ts.s, "Z", "+00:00"))
      case Some(t) => t
      case None => Db.Instant(now, true)
  }

  /** Every request is stamped: a reading without a usable time gets the
    * clock's. */
  lemma UnreadableTimeIsNow(data: map<string, Value>, now: int, fromIso: string -> Option<Db.Instant>)
    requires Get(data, "timestamp").Str?
    requires fromIso(Replace(Get(data, "timestamp").s, "Z", "+00:00")).None?
    ensures Timestamp(data, now, fromIso) == Db.Instant(now, true)
  {
  }

  /** The row an accepted reading becomes. */
  function RowFor(data: map<string, Value>, client: int, bound: Option<string>, now: int,
                  fromIso: string -> Option<Db.Instant>, str: Value -> string): (row: Db.TelemetryRow)
    requires Coordinates(data).Some? && Reading(data).Some?
    ensures row.clientId == client && row.vehicleId == VehicleIdFor(data, bound, str)
    ensures (row.lat, row.lon) == Coordinates(data).value && (row.speed, row.fuel) == Reading(data).value
    ensures row.timestamp == Timestamp(data, now, fromIso)
  {
    Db.TelemetryRow(client, VehicleIdFor(data, bound, str), Timestamp(data, now, fromIso),
                    Coordinates(data).value.0, Coordinates(data).value.1, Reading(data).value.0, Reading(data).value.1)
  }

  /** Whether some active tracker has this id and token. */
  predicate Known(trackers: Db.TrackerTable, imei: string, token: string)
  {
    exists k :: k in trackers && Db.OwnerMatch(trackers, k, imei, token)
  }

  /** `ingest`, in the order of its checks: a body that is not JSON 400; a
    * truthy JSON value that is not an object raises AttributeError at
    * `data.get`, outside the `try`, so 500; a falsy one reads as `{}`; then
    * missing imei or token 400, unknown tracker 403, missing or unreadable
    * lat/lon 400; a speed or fuel `float` cannot read escapes as 500. An
    * accepted reading adds exactly one row, for the tracker's client. */
  method Ingest(db: Db.Store, tokenHeader: Option<string>, body: JsonBody, now: int,
                fromIso: string -> Option<Db.Instant>, str: Value -> string) returns (status: int)
    modifies db`telemetry
    ensures status != 200 ==> db.telemetry == old(db.telemetry)
    ensures body.NotJson? ==> status == 400
    ensures body.JsonOther? && Truthy(body.v) ==> status == 500
    ensures FieldsOrEmpty(body).Some? ==>
      var data := FieldsOrEmpty(body).value;
      && ((TextField(data, "imei", str) == "" || Token(tokenHeader) == "") ==> status == 400)
      && ((TextField(data, "imei", str) != "" && Token(tokenHeader) != ""
           && !Known(db.trackers, TextField(data, "imei", str), Token(tokenHeader))) ==> status == 403)
      && ((TextField(data, "imei", str) != "" && Token(tokenHeader) != ""
           && Known(db.trackers, TextField(data, "imei", str), Token(tokenHeader))) ==>
          && (Coordinates(data).None? ==> status == 400)
          && (Coordinates(data).Some? && Reading(data).None? ==> status == 500)
          && (Coordinates(data).Some? && Reading(data).Some? ==> status == 200))
    ensures status == 200 ==>
      && FieldsOrEmpty(body).Some?
      && var data := FieldsOrEmpty(body).value;
      && Coordinates(data).Some? && Reading(data).Some?
      && (exists k :: Db.OwnerMatch(db.trackers, k, TextField(data, "imei", str), Token(tokenHeader))
            && db.telemetry == old(db.telemetry) + [RowFor(data, k.0, db.trackers[k].vehicleId, now, fromIso, str)])
  {
    if body.NotJson? {
      return 400;
    }
    var fields := FieldsOrEmpty(body);
    if fields.None? {
      return 500;
    }
    var data := fields.value;
    var token := Token(tokenHeader);
    var imei := TextField(data, "imei", str);
    if imei == "" || token == "" {
      return 400;
    }
    var owner := db.GetTrackerOwner(imei, token);
    if owner.None? {
      return 403;
    }
    var coords := Coordinates(data);
    if coords.None? {
      return 400;
    }
    var reading := Reading(data);
    if reading.None? {
      return 500;
    }
    var (client, bound) := owner.value;
    db.InsertTelemetry(RowFor(data, client, bound, now, fromIso, str));
    status := 200;
  }

  /** The pieces of `ids` whose stripped text is all digits, as numbers,
    * in order. */
  function KeptIds(pieces: seq<string>): (ids: seq<nat>)
    ensures |ids| <= |pieces|
  {
    if pieces == [] then []
    else
      var p := Strip(pieces[0]);
      var rest := KeptIds(pieces[1..]);
      if p != "" && AllDigits(p) then [DigitsValue(p)] + rest else rest
  }

  /** One piece is kept, as its number, exactly when its stripped text is
    * non-empty and all digits. */
  lemma KeptIdsOfOne(p: string)
    ensures KeptIds([p]) == if Strip(p) != "" && AllDigits(Strip(p)) then [DigitsValue(Strip(p))] else []
  {
    assert [p][1..] == [];
  }

  lemma KeptIdsCons(p: string, rest: seq<string>)
    ensures KeptIds([p] + rest) == KeptIds([p]) + KeptIds(rest)
  {
    assert ([p] + rest)[1..] == rest;
    assert [p][1..] == [];
  }

  /** Pieces are kept independently of each other and in their order. */
  lemma {:induction false} KeptIdsAppend(a: seq<string>, b: seq<string>)
    ensures KeptIds(a + b) == KeptIds(a) + KeptIds(b)
  {
    if a != [] {
      var t := a[1..];
      assert a == [a[0]] + t;
      assert a + b == [a[0]] + (t + b);
      calc {
        KeptIds(a + b);
        KeptIds([a[0]] + (t + b));
        { KeptIdsCons(a[0], t + b); }
        KeptIds([a[0]]) + KeptIds(t + b);
        { KeptIdsAppend(t, b); }
        KeptIds([a[0]]) + (KeptIds(t) + KeptIds(b));
        (KeptIds([a[0]]) + KeptIds(t)) + KeptIds(b);
        { KeptIdsCons(a[0], t); }
        KeptIds(a) + KeptIds(b);
      }
    } else {
      assert a + b == b;
    }
  }

  /** `api_last_many`'s reading of `?ids=`: comma-separated, blanks and
    * non-numbers dropped. An empty result answers [] without a query. */
  function ParseIds(raw: Option<string>): (ids: seq<nat>)
    ensures raw.None? || raw == Some("") ==> ids == []
    ensures raw.Some? ==> ids == KeptIds(Split(raw.value, ','))
  {
    KeptIds(Split(if raw.Some? then raw.value else "", ','))
  }

  /** The decimal rendering of each number. */
  function Rendered(ids: seq<nat>): (parts: seq<string>)
    ensures |parts| == |ids|
    ensures forall i :: 0 <= i < |ids| ==> parts[i] == NatToString(ids[i])
  {
    if ids == [] then [] else [NatToString(ids[0])] + Rendered(ids[1..])
  }

  lemma {:induction false} KeptRendered(ids: seq<nat>)
    ensures KeptIds(Rendered(ids)) == ids
  {
    if ids != [] {
      KeptRendered(ids[1..]);
      var s := NatToString(ids[0]);
      DigitsNoEdges(s);
      DigitsValueOfNatToString(ids[0]);
      assert Rendered(ids)[1..] == Rendered(ids[1..]);
    }
  }

  /** A comma-joined list of ids is read back as that list; an empty one
    * reads as no ids. */
  lemma ParseIdsOfJoin(ids: seq<nat>)
    ensures ParseIds(Some(Join(Rendered(ids), ','))) == ids
  {
    if ids == [] {
      assert Split("", ',') == [""];
    } else {
      var parts := Rendered(ids);
      forall k | 0 <= k < |parts|
        ensures ',' !in parts[k]
      {
        assert AllDigits(parts[k]);
      }
      SplitJoin(parts, ',');
      KeptRendered(ids);
    }
  }

  datatype LinkError = MissingFields | TypeError | NameError

  /** `link_tracker`: 400 without an imei or a secret token; otherwise
    * `tracker_get_or_create` is called with keyword arguments it does not
    * accept (`imei=`, `secret_token=`), which raises TypeError before any
    * change. */
  function LinkTracker(data: map<string, Value>, str: Value -> string): (r: Result<(), LinkError>)
    ensures r == Err(MissingFields) <==> TextField(data, "imei", str) == "" || TextField(data, "secret_token", str) == ""
    ensures r.Err?
  {
    if TextField(data, "imei", str) == "" || TextField(data, "secret_token", str) == "" then Err(MissingFields)
    else Err(TypeError)
  }
}

module LegacyTelemetry {
  import opened Common
  import TelemetryRoutes

  /** `link_tracker` of telemetry_routes.py: 400 without an imei or a
    * secret token; otherwise it calls `upsert_tracker`, a name the module
    * never imports, and raises NameError. */
  function LinkTracker(data: map<string, Value>, str: Value -> string): (r: Result<(), TelemetryRoutes.LinkError>)
    ensures r == Err(TelemetryRoutes.MissingFields) <==>
      TelemetryRoutes.TextField(data, "imei", str) == "" || TelemetryRoutes.TextField(data, "secret_token", str) == ""
    ensures r.Err?
  {
    if TelemetryRoutes.TextField(data, "imei", str) == "" || TelemetryRoutes.TextField(data, "secret_token", str) == "" then
      Err(TelemetryRoutes.MissingFields)
    else Err(TelemetryRoutes.NameError)
  }
}
