// The vehicle API of routes/fleet_routes.py: IMEI validation, the partial
// update filter, the per-plan vehicle limit and the create and delete
// handlers, over the tables of Db. HTTP answers are their status codes.

module FleetRoutes {
  import opened Common
  import Db
  import Limits

  /** `_validate_imei`: fifteen decimal digits. */
  predicate ValidImei(imei: string)
  {
    AllDigits(imei) && |imei| == 15
  }

  lemma ImeiRule(imei: string)
    ensures ValidImei(imei) <==> |imei| == 15 && forall i :: 0 <= i < |imei| ==> '0' <= imei[i] <= '9'
  {
  }

  // ---------------------------------------------------------------
  // `_sanitize_vehicle_update`

  const AllowedFields: set<string> := {
    "name", "plate", "driver", "capacity", "status", "tags", "obd_id", "notes",
    "last_service_km", "last_service_date", "next_service_km"}

  const NumericFields: set<string> := {"capacity", "last_service_km", "next_service_km"}

  /** What the filter keeps of one key and value, if anything. */
  function Cleaned(k: string, v: Value, str: Value -> string): (r: Option<Value>)
    ensures r.Some? ==> k in AllowedFields
    ensures k in AllowedFields && k !in NumericFields && k != "last_service_date" ==> r == Some(v)
    ensures k in NumericFields ==> (r.Some? <==> v.Null? || IntOf(v).Some?)
    ensures k in NumericFields && r.Some? ==> r.value == (if v.Null? then Null else Int(IntOf(v).value))
    ensures k == "last_service_date" ==> (r.Some? <==> Truthy(v))
    ensures k == "last_service_date" && r.Some? ==> r.value.Str? && (v.Str? ==> r.value == v)
  {
    if k !in AllowedFields then None
    else if k in NumericFields then
      (if v.Null? then Some(Null) else match IntOf(v) { case Some(n) => Some(Int(n)) case None => None })
    else if k == "last_service_date" then
      (if !Truthy(v) then None else if v.Str? then Some(v) else Some(Str(Db.StrOf(v, str))))
    else Some(v)
  }

  /** The filtered update: the kept keys of `data`, with their cleaned
    * values. */
  function Sanitized(data: map<string, Value>, str: Value -> string): (out: map<string, Value>)
    ensures out.Keys <= AllowedFields && out.Keys <= data.Keys
  {
    map k | k in data && Cleaned(k, data[k], str).Some? :: Cleaned(k, data[k], str).value
  }

  /** Filtering twice is filtering once. */
  lemma SanitizeIdempotent(data: map<string, Value>, str: Value -> string)
    requires forall x :: str(x) != ""
    ensures Sanitized(Sanitized(data, str), str) == Sanitized(data, str)
  {
    var once := Sanitized(data, str);
    forall k | k in once
      ensures Cleaned(k, once[k], str) == Some(once[k])
    {
      var v := data[k];
      if k in NumericFields && !v.Null? {
        assert once[k] == Int(IntOf(v).value);
      }
    }
  }

  /** `_sanitize_vehicle_update`: one pass over the payload's keys. */
  method SanitizeVehicleUpdate(data: map<string, Value>, str: Value -> string) returns (out: map<string, Value>)
    ensures out == Sanitized(data, str)
  {
    var todo := data.Keys;
    out := map[];
    while todo != {}
      invariant todo <= data.Keys
      invariant out == map k | k in data.Keys - todo && Cleaned(k, data[k], str).Some? :: Cleaned(k, data[k], str).value
      decreases |todo|
    {
      var k :| k in todo;
      var c := Cleaned(k, data[k], str);
      if c.Some? {
        out := out[k := c.value];
      }
      todo := todo - {k};
    }
  }

  // ---------------------------------------------------------------
  // The vehicle limit

  /** `_extract_plan` on a tuple row: its first column, which for the rows
    * of `get_active_trial` and `get_active_subscription` is the id. */
  function ExtractPlan(row: Option<int>): (r: Value)
    ensures row.None? ==> r == Null
    ensures row.Some? ==> r == Int(row.value)
  {
    match row
    case None => Null
    case Some(id) => Int(id)
  }

  /** `_get_plan_name_for_client`: the trial's value, else the
    * subscription's. */
  function PlanNameForClient(subs: map<int, Db.Subscription>, trials: map<int, Db.Trial>, client: int): (r: Value)
    ensures r.Null? || r.Int?
  {
    var fromTrial := ExtractPlan(Db.ActiveTrial(trials, client));
    if Truthy(fromTrial) then fromTrial else ExtractPlan(Db.ActiveSubscription(subs, client))
  }

  /** `PLAN_LIMITS.get(plan_name, PLAN_LIMITS["start"])` for any value:
    * only a string can be one of the table's keys. */
  function LimitOf(name: Value): (r: int)
    ensures !name.Str? ==> r == 5
    ensures name.Str? ==> r == Limits.PlanLimit(name.s)
  {
    if name.Str? then Limits.PlanLimit(name.s) else 5
  }

  /** `get_vehicle_limit_for_client` as written: whatever the client's
    * trial or subscription, the Start limit. */
  function VehicleLimitForClient(subs: map<int, Db.Subscription>, trials: map<int, Db.Trial>, client: int): (r: int)
    ensures r == 5
  {
    LimitOf(PlanNameForClient(subs, trials, client))
  }

  /** The evident intent: the plan column of the active trial, else of the
    * active subscription. */
  function IntendedVehicleLimitForClient(subs: map<int, Db.Subscription>, trials: map<int, Db.Trial>, client: int): (r: int)
    ensures r == 5 || r == 50 || r == 9999999
    ensures Db.ActiveTrial(trials, client).None? && Db.ActiveSubscription(subs, client).Some? ==>
      r == Limits.PlanLimit(subs[Db.ActiveSubscription(subs, client).value].plan)
  {
    var fromTrial := match Db.ActiveTrial(trials, client)
      case Some(id) => trials[id].plan
      case None => "";
    var name := if fromTrial != "" then fromTrial
      else match Db.ActiveSubscription(subs, client)
        case Some(id) => subs[id].plan
        case None => "";
    Limits.PlanLimit(name)
  }

  /** A client on the Pro plan is held to five vehicles, not fifty. */
  lemma ProClientHeldToStart(client: int, started: Db.Instant, end: Db.Instant)
    ensures var subs := map[7 := Db.Subscription(client, "pro", "monthly", 50, "active", started, Some(end), "mock", "mock-pro")];
      VehicleLimitForClient(subs, map[], client) == 5
      && IntendedVehicleLimitForClient(subs, map[], client) == 50
  {
    var subs := map[7 := Db.Subscription(client, "pro", "monthly", 50, "active", started, Some(end), "mock", "mock-pro")];
    assert subs[7].userId == client && subs[7].status == "active";
    var r := Db.ActiveSubscription(subs, client);
    assert r.Some? && r.value in subs.Keys;
    assert subs.Keys == {7};
  }

  // ---------------------------------------------------------------
  // The handlers

  /** `SELECT COUNT(*) FROM vehicles WHERE client_id = ?`. */
  function CountFor(vehicles: map<(int, Value), Db.VehicleRow>, client: int): nat
  {
    |set k | k in vehicles && k.0 == client|
  }

  /** `data.get(k, default)`. */
  function Field(data: map<string, Value>, k: string, default: Value): Value
  {
    if k in data then data[k] else default
  }

  /** The payload the create handler upserts. */
  function Payload(data: map<string, Value>, vid: string): (v: map<string, Value>)
    ensures v.Keys == {"id", "name", "plate", "driver", "capacity", "status", "tags", "obd_id", "notes"}
    ensures v["id"] == Str(vid) && Db.Merged(v, "id") == Str(vid)
  {
    map["id" := Str(vid),
        "name" := Field(data, "name", Str("")),
        "plate" := Field(data, "plate", Str("")),
        "driver" := Field(data, "driver", Str("")),
        "capacity" := Field(data, "capacity", Int(0)),
        "status" := Field(data, "status", Str("offline")),
        "tags" := Field(data, "tags", Str("")),
        "obd_id" := Field(data, "obd_id", Str("")),
        "notes" := Field(data, "notes", Str(""))]
  }

  /** The stripped vehicle id of a create request, or None for 400. */
  function RequestedId(data: map<string, Value>, str: Value -> string): (r: Option<string>)
    ensures r.Some? ==> r.value != "" && Truthy(Get(data, "id"))
  {
    if !Truthy(Get(data, "id")) then None
    else
      var vid := Strip(Db.StrOf(data["id"], str));
      if vid == "" then None else Some(vid)
  }

  /** `(data.get("imei") or "").strip()`; None where a non-text value makes
    * `strip` raise. */
  function ImeiOf(data: map<string, Value>): Option<string>
  {
    var v := Get(data, "imei");
    if !Truthy(v) then Some("") else if v.Str? then Some(Strip(v.s)) else None
  }

  /** The checks of `api_create_vehicle` before the upsert, for a client
    * whose vehicle limit is `limit`: 400 without an id; 403 for a new
    * vehicle when the client's count has reached the limit; otherwise the
    * stripped id. Existing vehicles always pass. */
  function Admit(vehicles: map<(int, Value), Db.VehicleRow>, limit: int,
                 client: int, data: map<string, Value>, str: Value -> string): (r: Result<string, int>)
    ensures r == Err(400) <==> RequestedId(data, str).None?
    ensures r == Err(403) <==>
      (&& RequestedId(data, str).Some?
       && (client, Str(RequestedId(data, str).value)) !in vehicles
       && CountFor(vehicles, client) >= limit)
    ensures r.Ok? ==> r.value == RequestedId(data, str).value && Truthy(Str(r.value))
    ensures r.Ok? || r == Err(400) || r == Err(403)
  {
    match RequestedId(data, str)
    case None => Err(400)
    case Some(vid) =>
      if (client, Str(vid)) !in vehicles && CountFor(vehicles, client) >= limit
      then Err(403)
      else Ok(vid)
  }

  /** As written, the create handler refuses a sixth vehicle to a client on
    * the Pro plan, which the intended limit admits. */
  lemma ProClientRefusedSixthVehicle(vehicles: map<(int, Value), Db.VehicleRow>, client: int,
                                     data: map<string, Value>, str: Value -> string,
                                     started: Db.Instant, end: Db.Instant)
    requires CountFor(vehicles, client) == 5
    requires RequestedId(data, str).Some? && (client, Str(RequestedId(data, str).value)) !in vehicles
    ensures var subs := map[7 := Db.Subscription(client, "pro", "monthly", 50, "active", started, Some(end), "mock", "mock-pro")];
      && Admit(vehicles, VehicleLimitForClient(subs, map[], client), client, data, str) == Err(403)
      && Admit(vehicles, IntendedVehicleLimitForClient(subs, map[], client), client, data, str).Ok?
  {
    ProClientHeldToStart(client, started, end);
  }

  /** What the create handler does with the IMEI once the vehicle is
    * saved: the answer and the new tracker table. A non-text IMEI makes
    * `strip` raise (500), an empty one binds nothing, an invalid one is
    * refused, and a valid one is bound with force. */
  function AfterSave(trackers: Db.TrackerTable, client: int, imei: Option<string>, vid: string, token: string)
    : (r: (int, Db.TrackerTable))
    ensures imei.None? ==> r == (500, trackers)
    ensures imei == Some("") ==> r == (200, trackers)
    ensures imei.Some? && imei.value != "" && !ValidImei(imei.value) ==> r == (400, trackers)
    ensures imei.Some? && ValidImei(imei.value) ==>
      r.0 == 200 && r.1 == Db.Bind(trackers, client, imei.value, vid, true, token).0
      && r.1[(client, imei.value)].vehicleId == Some(vid)
  {
    match imei
    case None => (500, trackers)
    case Some(t) =>
      if t == "" then (200, trackers)
      else if !ValidImei(t) then (400, trackers)
      else
        var (table, ok) := Db.Bind(trackers, client, t, vid, true, token);
        (if ok then 200 else 400, table)
  }

  /** `api_create_vehicle`: a body that is not JSON, or a truthy JSON value
    * that is not an object, fails inside the `try` and gives 500; a request
    * the checks refuse changes nothing; otherwise the vehicle is upserted
    * and then the IMEI, if any, is checked and bound. `limitFor` is the rule
    * that gives a client's vehicle limit: `VehicleLimitForClient` as the
    * code is written, `IntendedVehicleLimitForClient` as it is evidently
    * meant. */
  method CreateVehicle(db: Db.Store, client: int, body: JsonBody, str: Value -> string, token: string,
                       limitFor: (map<int, Db.Subscription>, map<int, Db.Trial>, int) -> int)
    returns (status: int)
    modifies db`vehicles, db`trackers
    ensures FieldsOrEmpty(body).None? ==>
      status == 500 && db.vehicles == old(db.vehicles) && db.trackers == old(db.trackers)
    ensures FieldsOrEmpty(body).Some? ==>
      var data := FieldsOrEmpty(body).value;
      var a := Admit(old(db.vehicles), limitFor(old(db.subscriptions), old(db.trials), client), client, data, str);
      && (a.Err? ==> status == a.error && db.vehicles == old(db.vehicles) && db.trackers == old(db.trackers))
      && (a.Ok? ==> db.vehicles == Db.Upserted(old(db.vehicles), client, Payload(data, a.value)).value)
      && (a.Ok? ==> (status, db.trackers) == AfterSave(old(db.trackers), client, ImeiOf(data), a.value, token))
  {
    var fields := FieldsOrEmpty(body);
    if fields.None? {
      return 500;
    }
    var data := fields.value;
    var a := Admit(db.vehicles, limitFor(db.subscriptions, db.trials, client), client, data, str);
    if a.Err? {
      return a.error;
    }
    var r := db.UpsertVehicle(client, Payload(data, a.value));
    status := BindImei(db, client, ImeiOf(data), a.value, token);
  }

  /** The IMEI part of `api_create_vehicle`. */
  method BindImei(db: Db.Store, client: int, imei: Option<string>, vid: string, token: string) returns (status: int)
    modifies db`trackers
    ensures (status, db.trackers) == AfterSave(old(db.trackers), client, imei, vid, token)
  {
    if imei.None? {
      return 500;
    }
    if imei.value != "" {
      if !ValidImei(imei.value) {
        return 400;
      }
      var ok := db.TrackerBindVehicle(client, imei.value, vid, true, token);
      status := if ok then 200 else 400;
    } else {
      status := 200;
    }
  }

  /** The payload names its own id, and leaves out the telemetry and
    * service columns. */
  lemma PayloadColumns(data: map<string, Value>, vid: string)
    ensures Db.Merged(Payload(data, vid), "id") == Str(vid)
    ensures "last_lat" !in Payload(data, vid) && "last_ts" !in Payload(data, vid) && "last_service_km" !in Payload(data, vid)
    ensures Payload(data, vid)["name"] == Field(data, "name", Str(""))
  {
  }

  /** A request with a bad IMEI is refused only after the vehicle has been
    * saved. */
  lemma BadImeiStillSaves(vehicles: map<(int, Value), Db.VehicleRow>, client: int, data: map<string, Value>, str: Value -> string)
    requires RequestedId(data, str).Some?
    ensures var vid := RequestedId(data, str).value;
      var after := Db.Upserted(vehicles, client, Payload(data, vid));
      after.Ok? && (client, Str(vid)) in after.value && after.value[(client, Str(vid))]["name"] == Field(data, "name", Str(""))
  {
    var vid := RequestedId(data, str).value;
    var v := Payload(data, vid);
    PayloadColumns(data, vid);
    var row := Db.RowOf(v);
    assert "name" in Db.VehicleColumns;
    assert row["name"] == Db.Merged(v, "name");
  }

  /** Saving an existing vehicle through the create handler resets the
    * columns its payload does not carry: the last position and the service
    * counters go back to their defaults. */
  lemma ResaveResetsTelemetry(vehicles: map<(int, Value), Db.VehicleRow>, client: int, data: map<string, Value>, str: Value -> string)
    requires RequestedId(data, str).Some?
    ensures var vid := RequestedId(data, str).value;
      var row := Db.Upserted(vehicles, client, Payload(data, vid)).value[(client, Str(vid))];
      row["last_lat"] == Null && row["last_ts"] == Null && row["last_service_km"] == Int(0)
  {
    var vid := RequestedId(data, str).value;
    var v := Payload(data, vid);
    PayloadColumns(data, vid);
    var row := Db.RowOf(v);
    assert "last_lat" in Db.VehicleColumns && "last_ts" in Db.VehicleColumns && "last_service_km" in Db.VehicleColumns;
    assert row["last_lat"] == Db.Merged(v, "last_lat");
  }

  /** `api_delete_vehicle`: 400 for a blank id; otherwise the row is
    * deleted, and since `delete_vehicle` returns None the answer is 404. */
  method DeleteVehicle(db: Db.Store, client: int, vid: string) returns (status: int)
    modifies db`vehicles
    ensures Strip(vid) == "" ==> status == 400 && db.vehicles == old(db.vehicles)
    ensures Strip(vid) != "" ==> status == 404 && db.vehicles == old(db.vehicles) - {(client, Str(Strip(vid)))}
    ensures status != 200
  {
    var id := Strip(vid);
    if id == "" {
      return 400;
    }
    db.DeleteVehicle(client, id);
    status := 404;
  }
}
