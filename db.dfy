// The data layer (core/db.py) as in-memory tables. Each table is a map from
// its key to its row; every operation is specified by a function on the
// old tables, and the `Store` class holds the tables and applies those
// functions. Token generation and the clock are parameters.

module Db {
  import opened Common

  /** A `datetime`: seconds since the epoch, and whether it carries a time
    * zone (aware) or not (naive). */
  datatype Instant = Instant(t: int, aware: bool)

  /** A value of a `TIMESTAMP` column (core/db.py:94, :109), which has no
    * time zone: DuckDB keeps the moment and gives it back as a naive
    * `datetime`, whatever the zone of the value written. */
  function Column(d: Instant): (r: Instant)
    ensures r.t == d.t && !r.aware
  {
    Instant(d.t, false)
  }

  // ---------------------------------------------------------------
  // `_next_id`

  /** Every non-empty finite set of integers has a greatest element. */
  lemma {:induction false} MaxExists(s: set<int>)
    requires exists x :: x in s
    ensures exists m :: m in s && forall i :: i in s ==> i <= m
    decreases |s|
  {
    var x :| x in s;
    if exists y :: y in s - {x} {
      MaxExists(s - {x});
      var m :| m in s - {x} && forall i :: i in s - {x} ==> i <= m;
      var top := if x > m then x else m;
      forall i | i in s
        ensures i <= top
      {
        if i != x {
          assert i in s - {x};
        }
      }
    } else {
      assert forall i :: i in s ==> i == x || i in s - {x};
    }
  }

  /** `MAX(id)`. */
  function MaxOf(s: set<int>): (m: int)
    requires exists x :: x in s
    ensures m in s && forall i :: i in s ==> i <= m
  {
    MaxExists(s);
    var m :| m in s && forall i :: i in s ==> i <= m;
    m
  }

  /** `_next_id`: `COALESCE(MAX(id), 0) + 1`. */
  function NextId(ids: set<int>): (r: int)
    ensures r !in ids
    ensures forall i :: i in ids ==> i < r
    ensures ids == {} ==> r == 1
    ensures ids != {} ==> r - 1 in ids
  {
    if exists i :: i in ids then MaxOf(ids) + 1
    else
      assert ids == {};
      1
  }

  // ---------------------------------------------------------------
  // Vehicles: primary key (client_id, id)

  /** The non-key columns of `vehicles`. */
  const VehicleColumns: set<string> := {
    "name", "plate", "driver", "capacity", "tags", "obd_id", "status",
    "last_lat", "last_lon", "last_speed", "last_ts",
    "last_service_km", "last_service_date", "next_service_km", "notes"}

  /** The defaults `upsert_vehicle` merges under the caller's keys. */
  function VehicleDefault(column: string): Value
  {
    if column == "status" then Str("offline")
    else if column == "last_service_km" || column == "next_service_km" then Int(0)
    else Null
  }

  /** `{**defaults, **v}[column]`. */
  function Merged(v: map<string, Value>, column: string): (r: Value)
    ensures column in v ==> r == v[column]
    ensures column !in v ==> r == VehicleDefault(column)
  {
    if column in v then v[column] else VehicleDefault(column)
  }

  type VehicleRow = map<string, Value>

  /** The row the upsert writes: every column, from the merged payload. */
  function RowOf(v: map<string, Value>): (row: VehicleRow)
    ensures row.Keys == VehicleColumns
    ensures forall c :: c in VehicleColumns ==> row[c] == Merged(v, c)
  {
    map c | c in VehicleColumns :: Merged(v, c)
  }

  datatype DbError = IdRequired

  /** `upsert_vehicle`: a falsy id raises ValueError; otherwise the row of
    * (client_id, id) is inserted or has every other column replaced. */
  function Upserted(vehicles: map<(int, Value), VehicleRow>, client: int, v: map<string, Value>)
    : (r: Result<map<(int, Value), VehicleRow>, DbError>)
    ensures r.Err? <==> !Truthy(Merged(v, "id"))
    ensures r.Err? ==> r == Err(IdRequired)
    ensures r.Ok? ==> r.value.Keys == vehicles.Keys + {(client, Merged(v, "id"))}
    ensures r.Ok? ==> r.value[(client, Merged(v, "id"))] == RowOf(v)
    ensures r.Ok? ==> forall k :: k in vehicles && k != (client, Merged(v, "id")) ==> r.value[k] == vehicles[k]
  {
    var id := Merged(v, "id");
    if !Truthy(id) then Err(IdRequired) else Ok(vehicles[(client, id) := RowOf(v)])
  }

  /** Upserting the same payload twice is upserting it once. */
  lemma UpsertVehicleIdempotent(vehicles: map<(int, Value), VehicleRow>, client: int, v: map<string, Value>)
    requires Upserted(vehicles, client, v).Ok?
    ensures Upserted(Upserted(vehicles, client, v).value, client, v) == Upserted(vehicles, client, v)
  {
    var once := Upserted(vehicles, client, v).value;
    assert once[(client, Merged(v, "id")) := RowOf(v)] == once;
  }

  /** `str(x)`, with the renderings the model does not compute (floats
    * that are not whole, lists, dictionaries) supplied by `str`. */
  function StrOf(x: Value, str: Value -> string): string
  {
    match Text(x)
    case Some(s) => s
    case None => str(x)
  }

  /** The id `import_vehicles_bulk` upserts a row under: `str(id).strip()`,
    * or None when the row has no id or a blank one (it is skipped). */
  function ImportedId(row: map<string, Value>, str: Value -> string): (r: Option<Value>)
    ensures r.Some? ==> r.value.Str? && r.value.s != [] && Truthy(r.value)
    ensures "id" !in row ==> r.None?
  {
    if "id" !in row then None
    else
      var s := Strip(StrOf(row["id"], str));
      if s == [] then None else Some(Str(s))
  }

  /** `import_vehicles_bulk` on the table: the rows in order, each kept one
    * upserted with its stripped id. */
  function ImportVehicles(vehicles: map<(int, Value), VehicleRow>, client: int, rows: seq<map<string, Value>>, str: Value -> string)
    : (r: map<(int, Value), VehicleRow>)
    decreases |rows|
  {
    if rows == [] then vehicles
    else ImportVehicles(ImportRow(vehicles, client, rows[0], str), client, rows[1..], str)
  }

  /** One row of the import: skipped without a usable id, otherwise
    * upserted under its stripped id. */
  function ImportRow(vehicles: map<(int, Value), VehicleRow>, client: int, row: map<string, Value>, str: Value -> string)
    : (r: map<(int, Value), VehicleRow>)
    ensures ImportedId(row, str).None? ==> r == vehicles
    ensures ImportedId(row, str).Some? ==>
      (r.Keys == vehicles.Keys + {(client, ImportedId(row, str).value)}
       && r[(client, ImportedId(row, str).value)] == RowOf(row["id" := ImportedId(row, str).value]))
    ensures ImportedId(row, str).Some? ==>
      forall k :: k in vehicles && k != (client, ImportedId(row, str).value) ==> r[k] == vehicles[k]
  {
    var id := ImportedId(row, str);
    if id.None? then vehicles
    else
      assert Merged(row["id" := id.value], "id") == id.value;
      Upserted(vehicles, client, row["id" := id.value]).value
  }

  /** Some row of the import has a usable id naming the key `k` of the
    * client. */
  predicate Imports(rows: seq<map<string, Value>>, client: int, str: Value -> string, k: (int, Value))
  {
    exists i :: 0 <= i < |rows| && ImportedId(rows[i], str).Some? && k == (client, ImportedId(rows[i], str).value)
  }

  lemma ImportsStep(rows: seq<map<string, Value>>, client: int, str: Value -> string, k: (int, Value))
    requires rows != []
    ensures Imports(rows, client, str, k) <==>
      (ImportedId(rows[0], str).Some? && k == (client, ImportedId(rows[0], str).value)) || Imports(rows[1..], client, str, k)
  {
    if Imports(rows[1..], client, str, k) {
      var i :| 0 <= i < |rows[1..]| && ImportedId(rows[1..][i], str).Some? && k == (client, ImportedId(rows[1..][i], str).value);
      assert rows[1..][i] == rows[i + 1];
    }
    if Imports(rows, client, str, k) {
      var i :| 0 <= i < |rows| && ImportedId(rows[i], str).Some? && k == (client, ImportedId(rows[i], str).value);
      if i > 0 {
        assert rows[1..][i - 1] == rows[i];
      }
    }
  }

  /** After an import the table holds exactly the old keys and one key per
    * row with a usable id. */
  lemma {:induction false} ImportVehiclesKeys(vehicles: map<(int, Value), VehicleRow>, client: int, rows: seq<map<string, Value>>, str: Value -> string)
    ensures forall k :: k in ImportVehicles(vehicles, client, rows, str) <==> k in vehicles || Imports(rows, client, str, k)
    decreases |rows|
  {
    if rows != [] {
      var next := ImportRow(vehicles, client, rows[0], str);
      ImportVehiclesKeys(next, client, rows[1..], str);
      forall k ensures k in ImportVehicles(vehicles, client, rows, str) <==> k in vehicles || Imports(rows, client, str, k) {
        ImportsStep(rows, client, str, k);
      }
    }
  }

  // ---------------------------------------------------------------
  // Trackers, looked up by (client_id, tracker_id)

  datatype Tracker = Tracker(secretToken: string, vehicleId: Option<string>, imei: Option<string>, status: string)

  type TrackerTable = map<(int, string), Tracker>

  /** `tracker_get_or_create`: an existing row is kept as it is; otherwise a
    * row with the fresh `token`, no vehicle and status 'active' is added. */
  function GetOrCreate(trackers: TrackerTable, client: int, trackerId: string, token: string): (r: TrackerTable)
    ensures (client, trackerId) in r
    ensures (client, trackerId) in trackers ==> r == trackers
    ensures (client, trackerId) !in trackers ==> r[(client, trackerId)] == Tracker(token, None, None, "active")
    ensures forall k :: k in trackers ==> k in r && r[k] == trackers[k]
    ensures r.Keys == trackers.Keys + {(client, trackerId)}
  {
    if (client, trackerId) in trackers then trackers
    else trackers[(client, trackerId) := Tracker(token, None, None, "active")]
  }

  /** A second call finds the row the first one made: whatever token it
    * would have used, nothing changes. */
  lemma GetOrCreateIdempotent(trackers: TrackerTable, client: int, trackerId: string, token: string, token2: string)
    ensures GetOrCreate(GetOrCreate(trackers, client, trackerId, token), client, trackerId, token2)
      == GetOrCreate(trackers, client, trackerId, token)
  {
  }

  /** `current and current != vehicle_id`: bound to another vehicle. */
  predicate BoundElsewhere(t: Tracker, vehicleId: string)
  {
    t.vehicleId.Some? && t.vehicleId.value != [] && t.vehicleId.value != vehicleId
  }

  /** `tracker_bind_vehicle`: the new table and the answer. */
  function Bind(trackers: TrackerTable, client: int, trackerId: string, vehicleId: string, force: bool, token: string)
    : (r: (TrackerTable, bool))
    ensures r.1 <==> (client, trackerId) !in trackers || force || !BoundElsewhere(trackers[(client, trackerId)], vehicleId)
    ensures !r.1 ==> r.0 == trackers
    ensures r.1 ==> (client, trackerId) in r.0 && r.0[(client, trackerId)].vehicleId == Some(vehicleId)
    ensures r.1 && (client, trackerId) in trackers ==>
      r.0[(client, trackerId)] == trackers[(client, trackerId)].(vehicleId := Some(vehicleId))
    ensures r.1 && (client, trackerId) !in trackers ==>
      r.0[(client, trackerId)] == Tracker(token, Some(vehicleId), None, "active")
    ensures r.0.Keys == trackers.Keys + {(client, trackerId)}
    ensures forall k :: k in trackers && k != (client, trackerId) ==> r.0[k] == trackers[k]
  {
    var key := (client, trackerId);
    if key !in trackers then (trackers[key := Tracker(token, Some(vehicleId), None, "active")], true)
    else if BoundElsewhere(trackers[key], vehicleId) && !force then (trackers, false)
    else (trackers[key := trackers[key].(vehicleId := Some(vehicleId))], true)
  }

  /** `tracker_unbind_vehicle`: the client's trackers bound to the vehicle
    * lose their vehicle. */
  function Unbind(trackers: TrackerTable, client: int, vehicleId: string): (r: TrackerTable)
    ensures r.Keys == trackers.Keys
    ensures forall k :: k in r && k.0 == client ==> r[k].vehicleId != Some(vehicleId)
    ensures forall k :: k in trackers && (k.0 != client || trackers[k].vehicleId != Some(vehicleId)) ==> r[k] == trackers[k]
    ensures forall k :: k in trackers && k.0 == client && trackers[k].vehicleId == Some(vehicleId) ==>
      r[k] == trackers[k].(vehicleId := None)
  {
    map k | k in trackers :: if k.0 == client && trackers[k].vehicleId == Some(vehicleId) then trackers[k].(vehicleId := None) else trackers[k]
  }

  /** Binding a tracker and then unbinding its vehicle leaves it unbound,
    * and a second bind to another vehicle then succeeds without force. */
  lemma BindThenUnbind(trackers: TrackerTable, client: int, trackerId: string, vehicleId: string, other: string, force: bool, token: string)
    requires Bind(trackers, client, trackerId, vehicleId, force, token).1
    ensures var after := Unbind(Bind(trackers, client, trackerId, vehicleId, force, token).0, client, vehicleId);
      && after[(client, trackerId)].vehicleId.None?
      && Bind(after, client, trackerId, other, false, token).1
  {
  }

  /** `get_tracker_owner`'s filter: the tracker id and token match and the
    * tracker is active, for any client. */
  predicate OwnerMatch(trackers: TrackerTable, k: (int, string), trackerId: string, token: string)
  {
    k in trackers && k.1 == trackerId && trackers[k].secretToken == token && trackers[k].status == "active"
  }

  /** A tracker made by `tracker_get_or_create` authenticates with the
    * token it was given. */
  lemma CreatedTrackerAuthenticates(trackers: TrackerTable, client: int, trackerId: string, token: string)
    requires (client, trackerId) !in trackers
    ensures OwnerMatch(GetOrCreate(trackers, client, trackerId, token), (client, trackerId), trackerId, token)
  {
  }

  /** `_status_from_dates`. */
  function StatusFromDates(end: int, now: int, converted: bool): (r: string)
    ensures converted ==> r == "convertido"
    ensures !converted ==> (r == "ativo" <==> now <= end)
    ensures r in {"convertido", "ativo", "expirado"}
  {
    if converted then "convertido" else if now <= end then "ativo" else "expirado"
  }

  // ---------------------------------------------------------------
  // Subscriptions, trials and telemetry

  datatype Subscription = Subscription(
    userId: int, plan: string, billing: string, vehicles: int, status: string,
    startedAt: Instant, periodEnd: Option<Instant>, provider: string, providerRef: string)

  /** A subscription as the table gives it back: both of its `TIMESTAMP`
    * columns naive, the moments and every other column as written. */
  function Stored(s: Subscription): (r: Subscription)
    ensures r.startedAt.t == s.startedAt.t && !r.startedAt.aware
    ensures r.periodEnd.Some? <==> s.periodEnd.Some?
    ensures r.periodEnd.Some? ==> r.periodEnd.value.t == s.periodEnd.value.t && !r.periodEnd.value.aware
    ensures r.(startedAt := s.startedAt, periodEnd := s.periodEnd) == s
  {
    s.(startedAt := Column(s.startedAt), periodEnd := if s.periodEnd.Some? then Some(Column(s.periodEnd.value)) else None)
  }

  /** `mark_subscription_status`: the status, and the period end when one is
    * given, stored naive; an unknown id updates nothing. */
  function MarkStatus(subs: map<int, Subscription>, id: int, status: string, periodEnd: Option<Instant>)
    : (r: map<int, Subscription>)
    ensures r.Keys == subs.Keys
    ensures forall i :: i in subs && i != id ==> r[i] == subs[i]
    ensures id in subs ==> r[id].status == status
    ensures id in subs && periodEnd.Some? ==> r[id] == subs[id].(status := status, periodEnd := Some(Column(periodEnd.value)))
    ensures id in subs && periodEnd.None? ==> r[id] == subs[id].(status := status)
  {
    if id !in subs then subs
    else if periodEnd.None? then subs[id := subs[id].(status := status)]
    else subs[id := subs[id].(status := status, periodEnd := Some(Column(periodEnd.value)))]
  }

  /** A subscription with provider 'asaas' and the given reference. */
  predicate AsaasRef(s: Subscription, ref: string)
  {
    s.provider == "asaas" && s.providerRef == ref
  }

  function MatchingIds(subs: map<int, Subscription>, ref: string): (ids: set<int>)
    ensures forall i :: i in ids <==> i in subs && AsaasRef(subs[i], ref)
  {
    set i | i in subs && AsaasRef(subs[i], ref)
  }

  /** `get_subscription_by_provider_ref`: the highest id among the 'asaas'
    * subscriptions with that reference. */
  function ByProviderRef(subs: map<int, Subscription>, ref: string): (r: Option<int>)
    ensures r.Some? ==> r.value in subs && AsaasRef(subs[r.value], ref)
    ensures r.Some? ==> forall i :: i in subs && AsaasRef(subs[i], ref) ==> i <= r.value
    ensures r.None? <==> forall i :: i in subs ==> !AsaasRef(subs[i], ref)
  {
    var ids := MatchingIds(subs, ref);
    if exists i :: i in ids then Some(MaxOf(ids)) else None
  }

  datatype Trial = Trial(userId: int, plan: string, vehicles: int, startedAt: Instant, trialEnd: Instant, status: string)

  /** The ids of the rows `keep` selects. */
  function Selected<T>(table: map<int, T>, keep: T -> bool): (ids: set<int>)
    ensures forall i :: i in ids <==> i in table && keep(table[i])
  {
    set i | i in table && keep(table[i])
  }

  /** The keys of the rows with the given ids. */
  function KeysOf<T>(table: map<int, T>, ids: set<int>, key: T -> int): (keys: set<int>)
    requires ids <= table.Keys
    ensures forall i :: i in ids ==> key(table[i]) in keys
    ensures forall k :: k in keys ==> exists i :: i in ids && key(table[i]) == k
  {
    set i | i in ids :: key(table[i])
  }

  /** The ids, among the given ones, of the rows with key `k`. */
  function WithKey<T>(table: map<int, T>, ids: set<int>, key: T -> int, k: int): (r: set<int>)
    requires ids <= table.Keys
    ensures forall i :: i in r <==> i in ids && key(table[i]) == k
  {
    set i | i in ids && key(table[i]) == k
  }

  /** `ORDER BY key DESC LIMIT 1` over the rows `keep` selects. Rows with
    * equal keys come back in no particular order; the model takes the
    * highest id among them. */
  function LatestBy<T>(table: map<int, T>, keep: T -> bool, key: T -> int): (r: Option<int>)
    ensures r.None? <==> forall i :: i in table ==> !keep(table[i])
    ensures r.Some? ==> r.value in table && keep(table[r.value])
    ensures r.Some? ==> forall i :: i in table && keep(table[i]) ==> key(table[i]) <= key(table[r.value])
    ensures r.Some? ==> forall i :: i in table && keep(table[i]) && key(table[i]) == key(table[r.value]) ==> i <= r.value
  {
    var ids := Selected(table, keep);
    if exists i :: i in ids then
      var keys := KeysOf(table, ids, key);
      var i0 :| i0 in ids;
      assert key(table[i0]) in keys;
      var top := MaxOf(keys);
      var best := WithKey(table, ids, key, top);
      var b0 :| b0 in ids && key(table[b0]) == top;
      assert b0 in best;
      Some(MaxOf(best))
    else
      None
  }

  /** `get_latest_subscription_for_user`: the user's subscription started
    * last, whatever its status. */
  function LatestSubscriptionFor(subs: map<int, Subscription>, user: int): (r: Option<int>)
    ensures r.None? <==> forall i :: i in subs ==> subs[i].userId != user
    ensures r.Some? ==> r.value in subs && subs[r.value].userId == user
    ensures r.Some? ==> forall i :: i in subs && subs[i].userId == user ==> subs[i].startedAt.t <= subs[r.value].startedAt.t
  {
    LatestBy(subs, (s: Subscription) => s.userId == user, (s: Subscription) => s.startedAt.t)
  }

  /** `get_active_subscription`: among the user's 'active' subscriptions,
    * the one whose period ends last; a missing period end sorts last. */
  function ActiveSubscription(subs: map<int, Subscription>, user: int): (r: Option<int>)
    ensures r.None? <==> forall i :: i in subs ==> !(subs[i].userId == user && subs[i].status == "active")
    ensures r.Some? ==> r.value in subs && subs[r.value].userId == user && subs[r.value].status == "active"
    ensures r.Some? && (exists i :: i in subs && subs[i].userId == user && subs[i].status == "active" && subs[i].periodEnd.Some?) ==>
      subs[r.value].periodEnd.Some?
      && forall i :: i in subs && subs[i].userId == user && subs[i].status == "active" && subs[i].periodEnd.Some? ==>
           subs[i].periodEnd.value.t <= subs[r.value].periodEnd.value.t
  {
    var dated := LatestBy(subs, (s: Subscription) => s.userId == user && s.status == "active" && s.periodEnd.Some?,
                          (s: Subscription) => if s.periodEnd.Some? then s.periodEnd.value.t else 0);
    if dated.Some? then dated
    else LatestBy(subs, (s: Subscription) => s.userId == user && s.status == "active", (s: Subscription) => 0)
  }

  /** `get_active_trial`: among the user's 'active' trials, the one that
    * ends last. */
  function ActiveTrial(trials: map<int, Trial>, user: int): (r: Option<int>)
    ensures r.None? <==> forall i :: i in trials ==> !(trials[i].userId == user && trials[i].status == "active")
    ensures r.Some? ==> r.value in trials && trials[r.value].userId == user && trials[r.value].status == "active"
    ensures r.Some? ==> forall i :: i in trials && trials[i].userId == user && trials[i].status == "active" ==>
      trials[i].trialEnd.t <= trials[r.value].trialEnd.t
  {
    LatestBy(trials, (t: Trial) => t.userId == user && t.status == "active", (t: Trial) => t.trialEnd.t)
  }

  datatype TelemetryRow = TelemetryRow(
    clientId: int, vehicleId: string, timestamp: Instant, lat: real, lon: real, speed: real, fuel: real)

  /** The database. */
  class Store {
    var vehicles: map<(int, Value), VehicleRow>
    var trackers: TrackerTable
    var subscriptions: map<int, Subscription>
    var trials: map<int, Trial>
    var telemetry: seq<TelemetryRow>

    constructor ()
      ensures vehicles == map[] && trackers == map[] && subscriptions == map[] && trials == map[] && telemetry == []
    {
      vehicles := map[];
      trackers := map[];
      subscriptions := map[];
      trials := map[];
      telemetry := [];
    }

    method UpsertVehicle(client: int, v: map<string, Value>) returns (r: Result<(), DbError>)
      modifies this`vehicles
      ensures r.Err? <==> Upserted(old(vehicles), client, v).Err?
      ensures r.Err? ==> vehicles == old(vehicles)
      ensures r.Ok? ==> vehicles == Upserted(old(vehicles), client, v).value
    {
      var next := Upserted(vehicles, client, v);
      if next.Err? {
        return Err(IdRequired);
      }
      vehicles := next.value;
      r := Ok(());
    }

    /** `delete_vehicle`: the row goes; the function answers nothing. */
    method DeleteVehicle(client: int, vehicleId: string)
      modifies this`vehicles
      ensures vehicles == old(vehicles) - {(client, Str(vehicleId))}
    {
      vehicles := vehicles - {(client, Str(vehicleId))};
    }

    /** The loop of `import_vehicles_bulk`. */
    method ImportVehiclesBulk(client: int, rows: seq<map<string, Value>>, str: Value -> string)
      modifies this`vehicles
      ensures vehicles == ImportVehicles(old(vehicles), client, rows, str)
    {
      var i := 0;
      while i < |rows|
        invariant 0 <= i <= |rows|
        invariant ImportVehicles(vehicles, client, rows[i..], str) == ImportVehicles(old(vehicles), client, rows, str)
      {
        assert rows[i..][1..] == rows[i + 1..];
        var id := ImportedId(rows[i], str);
        if id.Some? {
          var r := UpsertVehicle(client, rows[i]["id" := id.value]);
        }
        i := i + 1;
      }
    }

    function TrackerGet(client: int, trackerId: string): (r: Option<Tracker>)
      reads this
      ensures r.Some? <==> (client, trackerId) in trackers
      ensures r.Some? ==> r.value == trackers[(client, trackerId)]
    {
      if (client, trackerId) in trackers then Some(trackers[(client, trackerId)]) else None
    }

    method TrackerGetOrCreate(client: int, trackerId: string, token: string) returns (row: Tracker)
      modifies this`trackers
      ensures trackers == GetOrCreate(old(trackers), client, trackerId, token)
      ensures row == trackers[(client, trackerId)]
    {
      var existing := TrackerGet(client, trackerId);
      if existing.Some? {
        return existing.value;
      }
      trackers := trackers[(client, trackerId) := Tracker(token, None, None, "active")];
      row := trackers[(client, trackerId)];
    }

    method TrackerBindVehicle(client: int, trackerId: string, vehicleId: string, force: bool, token: string) returns (ok: bool)
      modifies this`trackers
      ensures (trackers, ok) == Bind(old(trackers), client, trackerId, vehicleId, force, token)
    {
      var key := (client, trackerId);
      if key !in trackers {
        trackers := trackers[key := Tracker(token, Some(vehicleId), None, "active")];
        return true;
      }
      if BoundElsewhere(trackers[key], vehicleId) && !force {
        return false;
      }
      trackers := trackers[key := trackers[key].(vehicleId := Some(vehicleId))];
      ok := true;
    }

    method TrackerUnbindVehicle(client: int, vehicleId: string)
      modifies this`trackers
      ensures trackers == Unbind(old(trackers), client, vehicleId)
    {
      trackers := Unbind(trackers, client, vehicleId);
    }

    /** `get_tracker_owner`: (client_id, vehicle_id) of some matching
      * tracker, whichever client it belongs to. */
    method GetTrackerOwner(trackerId: string, token: string) returns (r: Option<(int, Option<string>)>)
      ensures r.None? <==> forall k :: k in trackers ==> !OwnerMatch(trackers, k, trackerId, token)
      ensures r.Some? ==> exists k :: OwnerMatch(trackers, k, trackerId, token) && r.value == (k.0, trackers[k].vehicleId)
    {
      if exists k :: k in trackers && OwnerMatch(trackers, k, trackerId, token) {
        var k :| k in trackers && OwnerMatch(trackers, k, trackerId, token);
        r := Some((k.0, trackers[k].vehicleId));
      } else {
        r := None;
      }
    }

    /** `create_subscription`: a new row under the next id, with its
      * `TIMESTAMP` columns naive. */
    method CreateSubscription(s: Subscription) returns (id: int)
      modifies this`subscriptions
      ensures id == NextId(old(subscriptions).Keys)
      ensures id !in old(subscriptions)
      ensures subscriptions == old(subscriptions)[id := Stored(s)]
    {
      id := NextId(subscriptions.Keys);
      subscriptions := subscriptions[id := Stored(s)];
    }

    method MarkSubscriptionStatus(id: int, status: string, periodEnd: Option<Instant>)
      modifies this`subscriptions
      ensures subscriptions == MarkStatus(old(subscriptions), id, status, periodEnd)
    {
      subscriptions := MarkStatus(subscriptions, id, status, periodEnd);
    }

    method GetSubscriptionByProviderRef(ref: string) returns (r: Option<int>)
      ensures r == ByProviderRef(subscriptions, ref)
    {
      r := ByProviderRef(subscriptions, ref);
    }

    /** `insert_telemetry`: one row more. */
    method InsertTelemetry(row: TelemetryRow)
      modifies this`telemetry
      ensures telemetry == old(telemetry) + [row]
    {
      telemetry := telemetry + [row];
    }
  }
}
