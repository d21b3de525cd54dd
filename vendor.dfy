// The two vendor-ingest blueprints. vendor_ingest_routes.py writes vendor
// vehicles and bulk telemetry straight into DuckDB, statement by statement
// (each statement commits on its own); routes/vendor_ingest_routes.py
// receives provider webhooks, normalises them with an adapter and saves
// them through one ORM session that is committed or rolled back as a whole.

module VendorIngest {
  import opened Common
  import Db

  /** The imei and name columns of a vendor vehicle row. */
  datatype VendorVehicle = VendorVehicle(imei: Option<string>, name: Option<string>)

  /** A row of the telemetry table as `ingest_telemetry_bulk` writes it. */
  datatype Point = Point(
    clientId: Value, vehicleId: string, timestamp: int,
    lat: real, lon: real, speed: real, fuel: real)

  /** The two tables the blueprint writes: vendor vehicles keyed by
    * (client_id, vehicle_id), and the append-only telemetry table. */
  class VendorTables {
    var vehicles: map<(string, string), VendorVehicle>
    var telemetry: seq<Point>

    constructor ()
      ensures vehicles == map[] && telemetry == []
    {
      vehicles := map[];
      telemetry := [];
    }
  }

  /** `x or default`. */
  function Or(x: Value, default: Value): Value
  {
    if Truthy(x) then x else default
  }

  /** `str(it.get(key) or "").strip()`. */
  function TextOf(item: map<string, Value>, key: string, str: Value -> string): string
  {
    Strip(Db.StrOf(Or(Get(item, key), Str("")), str))
  }

  /** `... or None`: a blank text becomes NULL. */
  function OrNone(s: string): (r: Option<string>)
    ensures r.None? <==> s == ""
  {
    if s == "" then None else Some(s)
  }

  function VehicleOf(item: map<string, Value>, str: Value -> string): VendorVehicle
  {
    VendorVehicle(OrNone(TextOf(item, "imei", str)), OrNone(TextOf(item, "name", str)))
  }

  /** An element of a JSON list: an object, or any other JSON value
    * (number, text, list, true/false or null), on which `.get` raises
    * AttributeError. */
  datatype Item = Object(fields: map<string, Value>) | NotObject

  /** The position of the first item that is not an object; `|items|` when
    * every item is one. */
  function FirstNonObject(items: seq<Item>): (n: nat)
    ensures n <= |items|
    ensures forall i :: 0 <= i < n ==> items[i].Object?
    ensures n < |items| ==> items[n].NotObject?
  {
    if items == [] || items[0].NotObject? then 0
    else
      assert forall i :: 1 <= i < |items| ==> items[i] == items[1..][i - 1];
      1 + FirstNonObject(items[1..])
  }

  /** The objects of a list of objects. */
  function Objects(items: seq<Item>): (r: seq<map<string, Value>>)
    requires forall i :: 0 <= i < |items| ==> items[i].Object?
    ensures |r| == |items| && forall i :: 0 <= i < |items| ==> r[i] == items[i].fields
  {
    seq(|items|, i requires 0 <= i < |items| => items[i].fields)
  }

  /** What one item of `upsert_vehicles` asks for: its stripped vehicle_id
    * and the row it would write. */
  function Request(item: map<string, Value>, str: Value -> string): (string, VendorVehicle)
  {
    (TextOf(item, "vehicle_id", str), VehicleOf(item, str))
  }

  /** The requests of the items, in order. */
  function Requests(items: seq<map<string, Value>>, str: Value -> string): (r: seq<(string, VendorVehicle)>)
    ensures |r| == |items| && forall i :: 0 <= i < |items| ==> r[i] == Request(items[i], str)
  {
    seq(|items|, i requires 0 <= i < |items| => Request(items[i], str))
  }

  /** One item of `upsert_vehicles`: skipped when its vehicle_id is blank,
    * otherwise its row is deleted and inserted again. */
  function UpsertRow(t: map<(string, string), VendorVehicle>, client: string, vid: string,
                     row: VendorVehicle): (r: map<(string, string), VendorVehicle>)
    ensures vid == "" ==> r == t
    ensures vid != "" ==> r.Keys == t.Keys + {(client, vid)} && r[(client, vid)] == row
    ensures forall k :: k in t && k != (client, vid) ==> r[k] == t[k]
  {
    if vid == "" then t else t[(client, vid) := row]
  }

  /** The vendor vehicle table after the requests, in order. */
  function Applied(t: map<(string, string), VendorVehicle>, client: string,
                   reqs: seq<(string, VendorVehicle)>): map<(string, string), VendorVehicle>
    decreases |reqs|
  {
    if reqs == [] then t
    else
      var last := reqs[|reqs| - 1];
      UpsertRow(Applied(t, client, reqs[..|reqs| - 1]), client, last.0, last.1)
  }

  /** The vendor vehicle table after the items. */
  function Upserted(t: map<(string, string), VendorVehicle>, client: string, items: seq<map<string, Value>>,
                    str: Value -> string): map<(string, string), VendorVehicle>
  {
    Applied(t, client, Requests(items, str))
  }

  /** A DELETE followed by an INSERT of the same key replaces its row. */
  lemma ReinsertIsUpdate(t: map<(string, string), VendorVehicle>, k: (string, string), v: VendorVehicle)
    ensures (t - {k})[k := v] == t[k := v]
  {
  }

  /** One more request is one more `UpsertRow`. */
  lemma AppliedStep(t: map<(string, string), VendorVehicle>, client: string, reqs: seq<(string, VendorVehicle)>, i: int)
    requires 0 <= i < |reqs|
    ensures Applied(t, client, reqs[..i + 1]) == UpsertRow(Applied(t, client, reqs[..i]), client, reqs[i].0, reqs[i].1)
  {
    var pre := reqs[..i + 1];
    assert pre[..i] == reqs[..i];
    assert pre[i] == reqs[i];
  }

  /** Some request, with a non-blank vehicle_id, names the key `k` of the
    * client. */
  predicate Named(reqs: seq<(string, VendorVehicle)>, client: string, k: (string, string))
  {
    exists i :: 0 <= i < |reqs| && reqs[i].0 != "" && k == (client, reqs[i].0)
  }

  lemma NamedStep(reqs: seq<(string, VendorVehicle)>, client: string, k: (string, string))
    requires reqs != []
    ensures Named(reqs, client, k) <==>
      Named(reqs[..|reqs| - 1], client, k) || (reqs[|reqs| - 1].0 != "" && k == (client, reqs[|reqs| - 1].0))
  {
    var init := reqs[..|reqs| - 1];
    if Named(reqs, client, k) {
      var i :| 0 <= i < |reqs| && reqs[i].0 != "" && k == (client, reqs[i].0);
      if i < |init| {
        assert init[i] == reqs[i];
      }
    }
    if Named(init, client, k) {
      var i :| 0 <= i < |init| && init[i].0 != "" && k == (client, init[i].0);
      assert init[i] == reqs[i];
    }
  }

  /** The rows after an upsert are the rows before and one row per
    * non-blank vehicle_id of the client. */
  lemma {:induction false} UpsertedKeys(t: map<(string, string), VendorVehicle>, client: string,
                                        reqs: seq<(string, VendorVehicle)>)
    ensures forall k :: k in Applied(t, client, reqs) <==> k in t || Named(reqs, client, k)
    decreases |reqs|
  {
    if reqs != [] {
      UpsertedKeys(t, client, reqs[..|reqs| - 1]);
      forall k ensures k in Applied(t, client, reqs) <==> k in t || Named(reqs, client, k) {
        NamedStep(reqs, client, k);
      }
    }
  }

  /** The last request naming a vehicle decides its row. */
  lemma {:induction false} LastItemWins(t: map<(string, string), VendorVehicle>, client: string,
                                        reqs: seq<(string, VendorVehicle)>, i: int)
    requires 0 <= i < |reqs| && reqs[i].0 != ""
    requires forall j :: i < j < |reqs| ==> reqs[j].0 != reqs[i].0
    ensures (client, reqs[i].0) in Applied(t, client, reqs)
    ensures Applied(t, client, reqs)[(client, reqs[i].0)] == reqs[i].1
    decreases |reqs|
  {
    var init := reqs[..|reqs| - 1];
    if i < |reqs| - 1 {
      assert init[i] == reqs[i];
      assert forall j :: i < j < |init| ==> init[j] == reqs[j];
      LastItemWins(t, client, init, i);
    }
  }

  /** Rows of other clients, and rows no request names, are left as they
    * were. */
  lemma {:induction false} UntouchedRowsKept(t: map<(string, string), VendorVehicle>, client: string,
                                             reqs: seq<(string, VendorVehicle)>, k: (string, string))
    requires k in t
    requires k.0 != client || forall i :: 0 <= i < |reqs| ==> reqs[i].0 != k.1
    ensures k in Applied(t, client, reqs) && Applied(t, client, reqs)[k] == t[k]
    decreases |reqs|
  {
    if reqs != [] {
      var init := reqs[..|reqs| - 1];
      assert forall i :: 0 <= i < |init| ==> init[i] == reqs[i];
      UntouchedRowsKept(t, client, init, k);
    }
  }

  /** `upsert_vehicles`: `body` is the JSON body when it is a list (None
    * otherwise). 400 for anything else, text that is not JSON included (the
    * BadRequest of `get_json(force=True)`), or an empty list. Otherwise the
    * items are applied in order, each statement committing on its own,
    * until an item that is not an object makes `.get` raise (500, the
    * earlier items stay written); when there is none the answer is 200
    * and the count is the number of items, skipped ones included. */
  method UpsertVehicles(db: VendorTables, user: int, body: Option<seq<Item>>, str: Value -> string)
    returns (status: int, count: int)
    modifies db`vehicles
    ensures (body.None? || body.value == []) ==> status == 400 && db.vehicles == old(db.vehicles)
    ensures (body.Some? && body.value != []) ==>
      var n := FirstNonObject(body.value);
      && db.vehicles == Upserted(old(db.vehicles), IntToString(user), Objects(body.value[..n]), str)
      && (status == 500 <==> n < |body.value|)
      && (n == |body.value| ==> status == 200 && count == |body.value|)
  {
    if body.None? || body.value == [] {
      return 400, 0;
    }
    var items := body.value;
    var client := IntToString(user);
    ghost var n := FirstNonObject(items);
    ghost var objects := Objects(items[..n]);
    ghost var reqs := Requests(objects, str);
    var i := 0;
    while i < |items|
      invariant 0 <= i <= n
      invariant db.vehicles == Applied(old(db.vehicles), client, reqs[..i])
    {
      if items[i].NotObject? {
        assert reqs[..i] == reqs;
        return 500, 0;
      }
      var it := items[i].fields;
      var vid := TextOf(it, "vehicle_id", str);
      var row := VehicleOf(it, str);
      assert items[..n][i] == items[i];
      assert reqs[i] == (vid, row);
      AppliedStep(old(db.vehicles), client, reqs, i);
      ghost var before := db.vehicles;
      if vid != "" {
        ReinsertIsUpdate(db.vehicles, (client, vid), row);
        db.vehicles := db.vehicles - {(client, vid)};
        db.vehicles := db.vehicles[(client, vid) := row];
      }
      assert db.vehicles == UpsertRow(before, client, vid, row);
      i := i + 1;
    }
    assert reqs[..i] == reqs;
    status, count := 200, |items|;
  }

  /** The client a bulk upload is for: the body's truthy client_id, else the
    * logged-in user's id as text, else none (400). */
  function ClientFor(bodyClient: Value, login: Option<int>): (r: Option<Value>)
    ensures Truthy(bodyClient) ==> r == Some(bodyClient)
    ensures !Truthy(bodyClient) && login.Some? ==> r == Some(Str(IntToString(login.value)))
    ensures r.None? <==> !Truthy(bodyClient) && login.None?
    ensures r.Some? ==> Truthy(r.value)
  {
    if Truthy(bodyClient) then Some(bodyClient)
    else if login.Some? then Some(Str(IntToString(login.value)))
    else None
  }

  /** What one point does: it is written, skipped, or it raises. */
  datatype Step = Skip | Write(row: Point) | Raise

  /** DuckDB's `CAST(text AS TIMESTAMP)`; None when the cast fails. */
  type TimestampCast = string -> Option<int>

  /** One point of `ingest_telemetry_bulk`. speed and fuel are converted
    * with `float(x or 0.0)` before the skip test, so an unreadable speed
    * raises even on a point that would be skipped; a truthy timestamp goes
    * through the cast, a missing one reads as `now()`. */
  function PointStep(p: map<string, Value>, client: Value, now: int, cast: TimestampCast,
                     str: Value -> string): (s: Step)
    ensures FloatOf(Or(Get(p, "speed"), Float(0.0))).None? ==> s == Raise
    ensures FloatOf(Or(Get(p, "fuel"), Float(0.0))).None? ==> s == Raise
    ensures s == Skip <==>
      (FloatOf(Or(Get(p, "speed"), Float(0.0))).Some? && FloatOf(Or(Get(p, "fuel"), Float(0.0))).Some?
       && (Get(p, "vehicle_id").Null? || Get(p, "lat").Null? || Get(p, "lon").Null?))
    ensures s.Write? ==> (s.row.clientId == client && s.row.vehicleId == Db.StrOf(p["vehicle_id"], str)
      && Some(s.row.lat) == FloatOf(p["lat"]) && Some(s.row.lon) == FloatOf(p["lon"])
      && Some(s.row.speed) == FloatOf(Or(Get(p, "speed"), Float(0.0)))
      && Some(s.row.fuel) == FloatOf(Or(Get(p, "fuel"), Float(0.0))))
    ensures s.Write? && !Truthy(Get(p, "timestamp")) ==> s.row.timestamp == now
    ensures s.Write? && Truthy(Get(p, "timestamp")) ==> Some(s.row.timestamp) == cast(Db.StrOf(p["timestamp"], str))
  {
    var speed := FloatOf(Or(Get(p, "speed"), Float(0.0)));
    var fuel := FloatOf(Or(Get(p, "fuel"), Float(0.0)));
    var vid := Get(p, "vehicle_id");
    var lat := Get(p, "lat");
    var lon := Get(p, "lon");
    if speed.None? || fuel.None? then Raise
    else if vid.Null? || lat.Null? || lon.Null? then Skip
    else
      var ts := Get(p, "timestamp");
      var t := if Truthy(ts) then cast(Db.StrOf(ts, str)) else Some(now);
      if t.None? || FloatOf(lat).None? || FloatOf(lon).None? then Raise
      else Write(Point(client, Db.StrOf(vid, str), t.value, FloatOf(lat).value, FloatOf(lon).value,
                       speed.value, fuel.value))
  }

  /** The rows written so far, and whether a point raised (which ends the
    * request with 500; rows written before it stay, as each statement
    * commits on its own). */
  datatype Batch = Batch(rows: seq<Point>, failed: bool)

  /** The batch after one more point: nothing changes once a point has
    * raised. */
  function Next(b: Batch, s: Step): (r: Batch)
    ensures b.failed ==> r == b
    ensures |r.rows| <= |b.rows| + 1
  {
    if b.failed then b
    else match s
      case Skip => b
      case Write(row) => Batch(b.rows + [row], false)
      case Raise => Batch(b.rows, true)
  }

  /** One element of the points list: an element that is not an object
    * raises at its first `.get`. */
  function ItemStep(item: Item, client: Value, now: int, cast: TimestampCast, str: Value -> string): (s: Step)
    ensures item.NotObject? ==> s == Raise
    ensures item.Object? ==> s == PointStep(item.fields, client, now, cast, str)
  {
    match item
    case Object(p) => PointStep(p, client, now, cast, str)
    case NotObject => Raise
  }

  /** What each element of the points list does, in order. */
  function Steps(points: seq<Item>, client: Value, now: int, cast: TimestampCast,
                 str: Value -> string): (r: seq<Step>)
    ensures |r| == |points| && forall i :: 0 <= i < |points| ==> r[i] == ItemStep(points[i], client, now, cast, str)
  {
    seq(|points|, i requires 0 <= i < |points| => ItemStep(points[i], client, now, cast, str))
  }

  /** The batch after the steps, in order. */
  function Outcome(steps: seq<Step>): (b: Batch)
    ensures |b.rows| <= |steps|
    decreases |steps|
  {
    if steps == [] then Batch([], false) else Next(Outcome(steps[..|steps| - 1]), steps[|steps| - 1])
  }

  /** What the loop of `ingest_telemetry_bulk` writes, and whether a point
    * raised. */
  function Written(points: seq<Item>, client: Value, now: int, cast: TimestampCast,
                   str: Value -> string): (b: Batch)
    ensures |b.rows| <= |points|
  {
    Outcome(Steps(points, client, now, cast, str))
  }

  /** One more step is one more `Next`. */
  lemma OutcomeStep(steps: seq<Step>, i: int)
    requires 0 <= i < |steps|
    ensures Outcome(steps[..i + 1]) == Next(Outcome(steps[..i]), steps[i])
  {
    var pre := steps[..i + 1];
    assert pre[..i] == steps[..i];
    assert pre[i] == steps[i];
  }

  /** Once a point has raised, the later points change nothing. */
  lemma {:induction false} FailureIsFinal(steps: seq<Step>, k: int)
    requires 0 <= k <= |steps|
    requires Outcome(steps[..k]).failed
    ensures Outcome(steps) == Outcome(steps[..k])
    decreases |steps| - k
  {
    if k < |steps| {
      var init := steps[..|steps| - 1];
      assert init[..k] == steps[..k];
      FailureIsFinal(init, k);
    } else {
      assert steps[..k] == steps;
    }
  }

  lemma {:induction false} RowsComeFromSteps(steps: seq<Step>)
    ensures forall r :: r in Outcome(steps).rows ==> exists i :: 0 <= i < |steps| && steps[i] == Write(r)
    decreases |steps|
  {
    if steps != [] {
      var init := steps[..|steps| - 1];
      RowsComeFromSteps(init);
      assert forall i :: 0 <= i < |init| ==> init[i] == steps[i];
    }
  }

  /** Every row written comes from one of the points, for the request's
    * client. */
  lemma RowsComeFromPoints(points: seq<Item>, client: Value, now: int,
                           cast: TimestampCast, str: Value -> string)
    ensures forall r :: r in Written(points, client, now, cast, str).rows ==>
      r.clientId == client && exists i :: (0 <= i < |points| && points[i].Object? &&
                                 PointStep(points[i].fields, client, now, cast, str) == Write(r))
  {
    var steps := Steps(points, client, now, cast, str);
    RowsComeFromSteps(steps);
    forall r | r in Outcome(steps).rows
      ensures r.clientId == client && exists i :: (0 <= i < |points| && points[i].Object? &&
                                 PointStep(points[i].fields, client, now, cast, str) == Write(r))
    {
      var i :| 0 <= i < |steps| && steps[i] == Write(r);
      assert points[i].Object? && PointStep(points[i].fields, client, now, cast, str) == Write(r);
    }
  }

  /** A point without a speed or fuel reading is written with 0.0 for both,
    * and without a timestamp at the request's time. */
  lemma MissingReadingsDefault(vid: string, lat: real, lon: real, client: Value, now: int,
                               cast: TimestampCast, str: Value -> string)
    ensures PointStep(map["vehicle_id" := Str(vid), "lat" := Float(lat), "lon" := Float(lon)], client, now, cast, str)
      == Write(Point(client, vid, now, lat, lon, 0.0, 0.0))
  {
  }

  /** The speed is read before the skip test: a point without a vehicle_id
    * but with an unreadable speed fails the request instead of being
    * skipped. */
  lemma UnreadableSpeedRaisesBeforeSkip(client: Value, now: int, cast: TimestampCast, str: Value -> string)
    ensures PointStep(map["speed" := Str("fast")], client, now, cast, str) == Raise
  {
    var p := map["speed" := Str("fast")];
    assert Get(p, "speed") == Str("fast");
    ParseFloatOfWord("fast");
    assert FloatOf(Or(Get(p, "speed"), Float(0.0))).None?;
  }

  /** An element that raises after a point that was written (a point the
    * conversions reject, or an element that is not an object): the request
    * fails, and the earlier row stays in the table. */
  lemma EarlierRowsSurviveFailure(ok: map<string, Value>, bad: Item, client: Value, now: int,
                                  cast: TimestampCast, str: Value -> string)
    requires PointStep(ok, client, now, cast, str).Write?
    requires ItemStep(bad, client, now, cast, str) == Raise
    ensures Written([Object(ok), bad], client, now, cast, str)
      == Batch([PointStep(ok, client, now, cast, str).row], true)
  {
    var steps := Steps([Object(ok), bad], client, now, cast, str);
    assert steps == [PointStep(ok, client, now, cast, str), Raise];
    assert steps[..1] == [steps[0]] && steps[..1][..0] == [];
    assert Outcome(steps[..1]) == Batch([PointStep(ok, client, now, cast, str).row], false);
  }

  /** The body of a bulk upload: text that is not JSON, on which
    * `get_json(force=True)` answers 400; an object, with its client_id and
    * its points value when that is a list (None otherwise); or any other
    * JSON value, null included, on which `data.get` raises. */
  datatype BulkBody = BulkNotJson | BulkObject(clientId: Value, points: Option<seq<Item>>) | BulkNotObject

  /** `ingest_telemetry_bulk`. Returns the status and, on success,
    * `inserted`. */
  method IngestTelemetryBulk(db: VendorTables, body: BulkBody, login: Option<int>,
                             now: int, cast: TimestampCast,
                             str: Value -> string) returns (status: int, inserted: int)
    modifies db`telemetry
    ensures body.BulkNotJson? ==> status == 400 && db.telemetry == old(db.telemetry)
    ensures body.BulkNotObject? ==> status == 500 && db.telemetry == old(db.telemetry)
    ensures body.BulkObject? && ClientFor(body.clientId, login).None? ==>
      status == 400 && db.telemetry == old(db.telemetry)
    ensures (body.BulkObject? && ClientFor(body.clientId, login).Some? &&
             (body.points.None? || body.points.value == [])) ==>
      status == 400 && db.telemetry == old(db.telemetry)
    ensures (body.BulkObject? && ClientFor(body.clientId, login).Some? &&
             body.points.Some? && body.points.value != []) ==>
      var b := Written(body.points.value, ClientFor(body.clientId, login).value, now, cast, str);
      && db.telemetry == old(db.telemetry) + b.rows
      && (status == 500 <==> b.failed)
      && (!b.failed ==> status == 200 && inserted == |b.rows|)
  {
    if body.BulkNotJson? {
      return 400, 0;
    }
    if body.BulkNotObject? {
      return 500, 0;
    }
    var points := body.points;
    var client := ClientFor(body.clientId, login);
    if client.None? {
      return 400, 0;
    }
    if points.None? || points.value == [] {
      return 400, 0;
    }
    var failed;
    failed, inserted := WritePoints(db, Steps(points.value, client.value, now, cast, str));
    status := if failed then 500 else 200;
  }

  /** The statements for the points, in order, until one raises: `steps`
    * is what each point does. */
  method WritePoints(db: VendorTables, steps: seq<Step>) returns (failed: bool, inserted: int)
    modifies db`telemetry
    ensures db.telemetry == old(db.telemetry) + Outcome(steps).rows
    ensures failed == Outcome(steps).failed
    ensures !failed ==> inserted == |Outcome(steps).rows|
  {
    var i := 0;
    inserted := 0;
    while i < |steps|
      invariant 0 <= i <= |steps|
      invariant !Outcome(steps[..i]).failed
      invariant db.telemetry == old(db.telemetry) + Outcome(steps[..i]).rows
      invariant inserted == |Outcome(steps[..i]).rows|
    {
      OutcomeStep(steps, i);
      match steps[i] {
        case Raise =>
          FailureIsFinal(steps, i + 1);
          return true, inserted;
        case Skip =>
        case Write(row) =>
          db.telemetry := db.telemetry + [row];
          inserted := inserted + 1;
      }
      i := i + 1;
    }
    assert steps[..|steps|] == steps;
    failed := false;
  }
}

module RoutesVendorIngest {
  import opened Common
  import Db
  import Adapters

  /** `_auth_ok`: the Authorization header is "Bearer " followed by the
    * configured token, or the token is set and the `token` query value
    * equals it. */
  predicate AuthOk(authorization: string, token: Option<string>, secret: string)
  {
    authorization == "Bearer " + secret || (secret != "" && token == Some(secret))
  }

  /** With no token configured, the query is never enough, and a bare
    * "Bearer " header is. */
  lemma UnsetTokenAcceptsBareBearer(authorization: string, token: Option<string>)
    ensures AuthOk(authorization, token, "") <==> authorization == "Bearer "
  {
  }

  /** With a token configured, either credential alone suffices and nothing
    * else does. */
  lemma SetTokenRule(authorization: string, token: Option<string>, secret: string)
    requires secret != ""
    ensures AuthOk(authorization, token, secret) <==> authorization == "Bearer " + secret || token == Some(secret)
    ensures !AuthOk("Bearer ", None, secret)
  {
    assert |"Bearer "| < |"Bearer " + secret|;
  }

  /** The parsed JSON body: a list of positions or a single object. */
  datatype Payload = Many(items: seq<map<string, Value>>) | One(item: map<string, Value>)

  /** `payload if isinstance(payload, list) else [payload]`. */
  function Items(p: Payload): (r: seq<map<string, Value>>)
    ensures p.One? ==> r == [p.item]
  {
    match p
    case Many(items) => items
    case One(item) => [item]
  }

  /** A saved Telemetry object. */
  datatype Row = Row(
    vehicleId: int, lat: real, lon: real, speedKmh: real, fuelPct: real,
    engineTemp: real, odometerKm: real, obdAlerts: int)

  /** `(norm.get("tracker_id") or "").strip()`. */
  function TrackerIdOf(t: Adapters.Telemetry, str: Value -> string): string
  {
    match t.tracker
    case None => ""
    case Some(v) => Strip(Db.StrOf(v, str))
  }

  /** One item: the adapter's error propagates; a blank tracker id or a
    * tracker no vehicle carries is skipped; otherwise a row for the first
    * vehicle with that tracker id. `bound` maps a tracker id to that
    * vehicle's id. */
  function ItemStep(a: Adapters.Adapter, item: map<string, Value>, bound: map<string, int>,
                    str: Value -> string): (r: Result<Option<Row>, Adapters.AdapterError>)
    ensures r.Err? <==> Adapters.Apply(a, item).Err?
    ensures r.Ok? && r.value.Some? ==> (TrackerIdOf(Adapters.Apply(a, item).value, str) != ""
      && TrackerIdOf(Adapters.Apply(a, item).value, str) in bound
      && r.value.value.vehicleId == bound[TrackerIdOf(Adapters.Apply(a, item).value, str)])
    ensures r.Ok? && r.value.None? ==> (TrackerIdOf(Adapters.Apply(a, item).value, str) !in bound
      || TrackerIdOf(Adapters.Apply(a, item).value, str) == "")
  {
    match Adapters.Apply(a, item)
    case Err(e) => Err(e)
    case Ok(norm) =>
      var tid := TrackerIdOf(norm, str);
      if tid == "" || tid !in bound then Ok(None)
      else Ok(Some(Row(bound[tid], norm.lat, norm.lon, norm.speedKmh, norm.fuelPct,
                       norm.engineTemp, norm.odometerKm, norm.obdAlerts)))
  }

  /** What each item does, in order. */
  function Results(a: Adapters.Adapter, items: seq<map<string, Value>>, bound: map<string, int>,
                   str: Value -> string): (r: seq<Result<Option<Row>, Adapters.AdapterError>>)
    ensures |r| == |items| && forall i :: 0 <= i < |items| ==> r[i] == ItemStep(a, items[i], bound, str)
  {
    seq(|items|, i requires 0 <= i < |items| => ItemStep(a, items[i], bound, str))
  }

  /** The rows added to the session after the results, in order, or the
    * first error. */
  function Collected(results: seq<Result<Option<Row>, Adapters.AdapterError>>): (r: Result<seq<Row>, Adapters.AdapterError>)
    ensures r.Ok? ==> |r.value| <= |results|
    decreases |results|
  {
    if results == [] then Ok([])
    else match Collected(results[..|results| - 1])
      case Err(e) => Err(e)
      case Ok(rows) =>
        match results[|results| - 1]
        case Err(e) => Err(e)
        case Ok(None) => Ok(rows)
        case Ok(Some(row)) => Ok(rows + [row])
  }

  /** The rows the session holds after the items, or the error that makes
    * it roll back. */
  function Saved(a: Adapters.Adapter, items: seq<map<string, Value>>, bound: map<string, int>,
                 str: Value -> string): (r: Result<seq<Row>, Adapters.AdapterError>)
    ensures r.Ok? ==> |r.value| <= |items|
  {
    Collected(Results(a, items, bound, str))
  }

  lemma CollectedStep(results: seq<Result<Option<Row>, Adapters.AdapterError>>, i: int)
    requires 0 <= i < |results|
    ensures Collected(results[..i + 1]) ==
      match Collected(results[..i])
      case Err(e) => Err(e)
      case Ok(rows) =>
        match results[i]
        case Err(e) => Err(e)
        case Ok(None) => Ok(rows)
        case Ok(Some(row)) => Ok(rows + [row])
  {
    var pre := results[..i + 1];
    assert pre[..i] == results[..i];
    assert pre[i] == results[i];
  }

  /** An error stays an error whatever follows. */
  lemma {:induction false} ErrorIsFinal(results: seq<Result<Option<Row>, Adapters.AdapterError>>, k: int)
    requires 0 <= k <= |results|
    requires Collected(results[..k]).Err?
    ensures Collected(results).Err?
    decreases |results| - k
  {
    if k < |results| {
      var init := results[..|results| - 1];
      assert init[..k] == results[..k];
      ErrorIsFinal(init, k);
    } else {
      assert results[..k] == results;
    }
  }

  /** One item the adapter cannot read, wherever it is, loses the whole
    * batch. */
  lemma OneBadItemLosesBatch(a: Adapters.Adapter, items: seq<map<string, Value>>, bound: map<string, int>,
                             str: Value -> string, i: int)
    requires 0 <= i < |items| && Adapters.Apply(a, items[i]).Err?
    ensures Saved(a, items, bound, str).Err?
  {
    var results := Results(a, items, bound, str);
    assert results[i].Err?;
    CollectedStep(results, i);
    ErrorIsFinal(results, i + 1);
  }

  lemma {:induction false} RowsComeFromResults(results: seq<Result<Option<Row>, Adapters.AdapterError>>)
    requires Collected(results).Ok?
    ensures forall r :: r in Collected(results).value ==> exists i :: 0 <= i < |results| && results[i] == Ok(Some(r))
    decreases |results|
  {
    if results != [] {
      var init := results[..|results| - 1];
      RowsComeFromResults(init);
      assert forall i :: 0 <= i < |init| ==> init[i] == results[i];
    }
  }

  /** Every saved row belongs to a vehicle some tracker is bound to. */
  lemma SavedRowsAreBound(a: Adapters.Adapter, items: seq<map<string, Value>>,
                          bound: map<string, int>, str: Value -> string)
    requires Saved(a, items, bound, str).Ok?
    ensures forall r :: r in Saved(a, items, bound, str).value ==> r.vehicleId in bound.Values
  {
    var results := Results(a, items, bound, str);
    RowsComeFromResults(results);
    forall r | r in Collected(results).value ensures r.vehicleId in bound.Values {
      var i :| 0 <= i < |results| && results[i] == Ok(Some(r));
      var tid := TrackerIdOf(Adapters.Apply(a, items[i]).value, str);
      assert tid in bound && r.vehicleId == bound[tid];
    }
  }

  /** The provider in the URL changes nothing: every adapter saves what the
    * generic one saves. */
  lemma ProviderIsIrrelevant(provider: string, items: seq<map<string, Value>>,
                             bound: map<string, int>, str: Value -> string)
    ensures Saved(Adapters.SelectAdapter(provider), items, bound, str) == Saved(Adapters.Generic, items, bound, str)
  {
    forall i | 0 <= i < |items|
      ensures ItemStep(Adapters.SelectAdapter(provider), items[i], bound, str) == ItemStep(Adapters.Generic, items[i], bound, str)
    {
      Adapters.AdaptersAgree(provider, items[i]);
    }
    assert Results(Adapters.SelectAdapter(provider), items, bound, str) == Results(Adapters.Generic, items, bound, str);
  }

  /** The ORM session: the tracker bindings of the fleet vehicles, read
    * only, and the committed telemetry rows. */
  class Session {
    const bound: map<string, int>
    var telemetry: seq<Row>

    constructor (bound: map<string, int>)
      ensures this.bound == bound && telemetry == []
    {
      this.bound := bound;
      telemetry := [];
    }
  }

  /** `vendor_ingest`: 401 without credentials, 400 for a body that is not
    * JSON; otherwise the items are normalised and added to the session,
    * which commits all of them (200, `saved` rows) or, on any error,
    * rolls back all of them (500). */
  method VendorIngest(s: Session, provider: string, authorization: string, token: Option<string>, secret: string,
                      body: Option<Payload>, str: Value -> string) returns (status: int, saved: int)
    modifies s`telemetry
    ensures !AuthOk(authorization, token, secret) ==> status == 401 && s.telemetry == old(s.telemetry)
    ensures AuthOk(authorization, token, secret) && body.None? ==> status == 400 && s.telemetry == old(s.telemetry)
    ensures AuthOk(authorization, token, secret) && body.Some? ==>
      var r := Saved(Adapters.SelectAdapter(provider), Items(body.value), s.bound, str);
      && (r.Err? ==> status == 500 && s.telemetry == old(s.telemetry))
      && (r.Ok? ==> status == 200 && saved == |r.value| && s.telemetry == old(s.telemetry) + r.value)
  {
    if !AuthOk(authorization, token, secret) {
      return 401, 0;
    }
    if body.None? {
      return 400, 0;
    }
    var a := Adapters.SelectAdapter(provider);
    var pending := AddAll(Results(a, Items(body.value), s.bound, str));
    if pending.Err? {
      return 500, 0;
    }
    s.telemetry := s.telemetry + pending.value;
    status, saved := 200, |pending.value|;
  }

  /** The loop adding the items to the session: `results` is what each
    * item does; the first error stops it. */
  method AddAll(results: seq<Result<Option<Row>, Adapters.AdapterError>>) returns (r: Result<seq<Row>, Adapters.AdapterError>)
    ensures r == Collected(results)
  {
    var pending: seq<Row> := [];
    var i := 0;
    while i < |results|
      invariant 0 <= i <= |results|
      invariant Collected(results[..i]) == Ok(pending)
    {
      CollectedStep(results, i);
      match results[i] {
        case Err(e) =>
          ErrorIsFinal(results, i + 1);
          assert Collected(results[..i + 1]) == Err(e);
          return Collected(results);
        case Ok(None) =>
        case Ok(Some(row)) =>
          pending := pending + [row];
      }
      i := i + 1;
    }
    assert results[..|results|] == results;
    return Ok(pending);
  }
}
