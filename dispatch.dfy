// The dispatch layer of POST /optimize (app.py:755-890): the provider's
// travel matrix is copied into two square grids, the stops are split among
// the vehicles (by their explicit "vehicle" tags when any stop has one,
// round-robin otherwise), each vehicle's stops are solved on a slice of the
// grids, and the solver's local node numbers are mapped back to positions
// in the request; then each vehicle's telemetry entry goes to the failure
// predictor, which may raise. The VRPTW solver and the routing provider
// are inputs.

module Dispatch {
  import opened Common
  import opened Models
  import RequestParsing
  import ProviderMaps

  // ---------------------------------------------------------------
  // The full travel grids

  /** Every cell of an n-by-n grid is present. */
  predicate Complete(m: map<(int, int), ProviderMaps.Cell>, n: nat)
  {
    forall i, j :: 0 <= i < n && 0 <= j < n ==> (i, j) in m
  }

  predicate Square(g: seq<seq<real>>, n: nat)
  {
    |g| == n && forall i :: 0 <= i < n ==> |g[i]| == n
  }

  /** `time_m_all` and `dist_m_all`: the minutes and kilometres of the
    * provider's cells, row by row. */
  function TimeGrid(m: map<(int, int), ProviderMaps.Cell>, n: nat): (g: seq<seq<real>>)
    requires Complete(m, n)
    ensures Square(g, n) && forall i, j :: 0 <= i < n && 0 <= j < n ==> g[i][j] == m[(i, j)].minutes
  {
    seq(n, i requires 0 <= i < n => seq(n, j requires 0 <= j < n => m[(i, j)].minutes))
  }

  function DistGrid(m: map<(int, int), ProviderMaps.Cell>, n: nat): (g: seq<seq<real>>)
    requires Complete(m, n)
    ensures Square(g, n) && forall i, j :: 0 <= i < n && 0 <= j < n ==> g[i][j] == m[(i, j)].km
  {
    seq(n, i requires 0 <= i < n => seq(n, j requires 0 <= j < n => m[(i, j)].km))
  }

  /** The double loop that copies the provider's cells into the grids. */
  method Grids(m: map<(int, int), ProviderMaps.Cell>, n: nat) returns (time: seq<seq<real>>, dist: seq<seq<real>>)
    requires Complete(m, n)
    ensures time == TimeGrid(m, n) && dist == DistGrid(m, n)
  {
    ghost var T, D := TimeGrid(m, n), DistGrid(m, n);
    time, dist := [], [];
    var i := 0;
    while i < n
      invariant 0 <= i <= n
      invariant time == T[..i] && dist == D[..i]
    {
      var trow, drow := [], [];
      var j := 0;
      while j < n
        invariant 0 <= j <= n
        invariant trow == T[i][..j] && drow == D[i][..j]
      {
        assert T[i][..j + 1] == T[i][..j] + [T[i][j]] && D[i][..j + 1] == D[i][..j] + [D[i][j]];
        trow := trow + [m[(i, j)].minutes];
        drow := drow + [m[(i, j)].km];
        j := j + 1;
      }
      assert T[i][..n] == T[i] && D[i][..n] == D[i];
      assert T[..i + 1] == T[..i] + [T[i]] && D[..i + 1] == D[..i] + [D[i]];
      time := time + [trow];
      dist := dist + [drow];
      i := i + 1;
    }
    assert T[..n] == T && D[..n] == D;
  }

  // ---------------------------------------------------------------
  // Explicit assignment by tag

  /** `{rs.get("id"): rs.get("vehicle") for rs in raw_stops if rs.get("id")}`:
    * later stops with the same id win. */
  function IdToVehicle(raw: seq<map<string, Value>>): map<Value, Value>
    decreases |raw|
  {
    if raw == [] then map[]
    else
      var m := IdToVehicle(raw[..|raw| - 1]);
      var rs := raw[|raw| - 1];
      if Truthy(Get(rs, "id")) then m[rs["id"] := Get(rs, "vehicle")] else m
  }

  /** The tag of a raw stop is the "vehicle" of the last raw stop sharing
    * its id. */
  lemma {:induction false} LastTagWins(raw: seq<map<string, Value>>, i: int)
    requires 0 <= i < |raw| && Truthy(Get(raw[i], "id"))
    requires forall j :: i < j < |raw| ==> Get(raw[j], "id") != raw[i]["id"]
    ensures raw[i]["id"] in IdToVehicle(raw) && IdToVehicle(raw)[raw[i]["id"]] == Get(raw[i], "vehicle")
    decreases |raw|
  {
    var init := raw[..|raw| - 1];
    if i < |raw| - 1 {
      assert init[i] == raw[i];
      LastTagWins(init, i);
    }
  }

  /** A stop without a truthy id has no tag. */
  lemma {:induction false} TagsHaveIds(raw: seq<map<string, Value>>)
    ensures forall k :: k in IdToVehicle(raw) ==> Truthy(k)
    decreases |raw|
  {
    if raw != [] {
      TagsHaveIds(raw[..|raw| - 1]);
    }
  }

  /** `id_to_vehicle.get(s.id)`. */
  function TagOf(tags: map<Value, Value>, s: Stop): Value
  {
    if s.id in tags then tags[s.id] else Null
  }

  /** The stops tagged `v`, in request order. */
  function Tagged(stops: seq<Stop>, tags: map<Value, Value>, v: Value): seq<Stop>
    decreases |stops|
  {
    if stops == [] then []
    else Tagged(stops[..|stops| - 1], tags, v)
         + (if TagOf(tags, stops[|stops| - 1]) == v then [stops[|stops| - 1]] else [])
  }

  /** A group holds exactly the stops carrying its tag. */
  lemma {:induction false} TaggedMembers(stops: seq<Stop>, tags: map<Value, Value>, v: Value)
    ensures forall x :: x in Tagged(stops, tags, v) <==> x in stops && TagOf(tags, x) == v
    decreases |stops|
  {
    if stops != [] {
      var init := stops[..|stops| - 1];
      TaggedMembers(init, tags, v);
      assert stops == init + [stops[|stops| - 1]];
    }
  }

  /** The truthy tags the stops carry. */
  function TagValues(stops: seq<Stop>, tags: map<Value, Value>): set<Value>
    decreases |stops|
  {
    if stops == [] then {}
    else
      var t := TagOf(tags, stops[|stops| - 1]);
      TagValues(stops[..|stops| - 1], tags) + (if Truthy(t) then {t} else {})
  }

  /** A tag has a group exactly when it is truthy and some stop carries it. */
  lemma {:induction false} TagValuesMembers(stops: seq<Stop>, tags: map<Value, Value>)
    ensures forall v :: v in TagValues(stops, tags) <==> Truthy(v) && exists x :: x in stops && TagOf(tags, x) == v
    decreases |stops|
  {
    if stops != [] {
      var init := stops[..|stops| - 1];
      TagValuesMembers(init, tags);
      assert stops == init + [stops[|stops| - 1]];
    }
  }

  /** `stops_by_vehicle` after the explicit-assignment loop. */
  function Groups(stops: seq<Stop>, tags: map<Value, Value>): map<Value, seq<Stop>>
  {
    map v | v in TagValues(stops, tags) :: Tagged(stops, tags, v)
  }

  /** One more stop: its tag's group grows by it. */
  lemma GroupStep(stops: seq<Stop>, tags: map<Value, Value>, i: int)
    requires 0 <= i < |stops|
    ensures var t := TagOf(tags, stops[i]);
      && TagValues(stops[..i + 1], tags) == TagValues(stops[..i], tags) + (if Truthy(t) then {t} else {})
      && forall v :: (Tagged(stops[..i + 1], tags, v) == Tagged(stops[..i], tags, v) + (if t == v then [stops[i]] else []))
  {
    assert stops[..i + 1][..i] == stops[..i];
  }

  /** The state of the explicit-assignment loop after the first `i`
    * stops: a group per truthy tag seen so far, holding its stops. */
  ghost predicate GroupedUpTo(stops: seq<Stop>, tags: map<Value, Value>, i: int, groups: map<Value, seq<Stop>>, hasAssignment: bool)
  {
    && 0 <= i <= |stops|
    && groups.Keys == TagValues(stops[..i], tags)
    && (hasAssignment <==> groups != map[])
    && (forall v :: v in groups ==> Truthy(v))
    && (forall v :: v in groups ==> groups[v] == Tagged(stops[..i], tags, v))
    && (forall v :: v !in groups && Truthy(v) ==> Tagged(stops[..i], tags, v) == [])
  }

  /** Python can hash the value: lists and dictionaries cannot be
    * dictionary keys, and looking one up raises TypeError. */
  predicate Hashable(v: Value)
  {
    !v.Other?
  }

  /** The stop's keys in the explicit-assignment loop hash: its id in
    * `id_to_vehicle.get(s.id)` and, when truthy, its tag in `setdefault`. */
  predicate KeysHashable(tags: map<Value, Value>, s: Stop)
  {
    Hashable(s.id) && (Truthy(TagOf(tags, s)) ==> Hashable(TagOf(tags, s)))
  }

  predicate StopKeysHashable(stops: seq<Stop>, tags: map<Value, Value>)
  {
    forall i :: 0 <= i < |stops| ==> KeysHashable(tags, stops[i])
  }

  /** The explicit-assignment loop: every stop with a truthy tag is
    * appended to its tag's group; `has_assignment` is whether any was.
    * It raises TypeError (`ok` false) at the first stop whose id or truthy
    * tag is a list or a dictionary. */
  method GroupByTag(stops: seq<Stop>, tags: map<Value, Value>)
    returns (ok: bool, groups: map<Value, seq<Stop>>, hasAssignment: bool)
    ensures ok <==> StopKeysHashable(stops, tags)
    ensures ok ==> (hasAssignment <==> TagValues(stops, tags) != {})
    ensures ok ==> groups == Groups(stops, tags)
  {
    groups := map[];
    hasAssignment := false;
    var i := 0;
    while i < |stops|
      invariant GroupedUpTo(stops, tags, i, groups, hasAssignment)
      invariant forall j :: 0 <= j < i ==> KeysHashable(tags, stops[j])
    {
      if !KeysHashable(tags, stops[i]) {
        return false, groups, hasAssignment;
      }
      groups, hasAssignment := AddStop(stops, tags, i, groups, hasAssignment);
      i := i + 1;
    }
    assert stops[..|stops|] == stops;
    ok := true;
  }

  /** One round of the explicit-assignment loop. */
  method AddStop(stops: seq<Stop>, tags: map<Value, Value>, i: int, groups: map<Value, seq<Stop>>, hasAssignment: bool)
    returns (groups': map<Value, seq<Stop>>, hasAssignment': bool)
    requires 0 <= i < |stops| && GroupedUpTo(stops, tags, i, groups, hasAssignment)
    ensures GroupedUpTo(stops, tags, i + 1, groups', hasAssignment')
  {
    groups', hasAssignment' := groups, hasAssignment;
    var vcode := TagOf(tags, stops[i]);
    if Truthy(vcode) {
      hasAssignment' := true;
      groups' := groups[vcode := (if vcode in groups then groups[vcode] else []) + [stops[i]]];
      TakeStop(stops, tags, i, groups, hasAssignment);
    } else {
      SkipStop(stops, tags, i, groups, hasAssignment);
    }
  }

  lemma SkipStop(stops: seq<Stop>, tags: map<Value, Value>, i: int, groups: map<Value, seq<Stop>>, hasAssignment: bool)
    requires 0 <= i < |stops| && GroupedUpTo(stops, tags, i, groups, hasAssignment)
    requires !Truthy(TagOf(tags, stops[i]))
    ensures GroupedUpTo(stops, tags, i + 1, groups, hasAssignment)
  {
    GroupStep(stops, tags, i);
  }

  lemma TakeStop(stops: seq<Stop>, tags: map<Value, Value>, i: int, groups: map<Value, seq<Stop>>, hasAssignment: bool)
    requires 0 <= i < |stops| && GroupedUpTo(stops, tags, i, groups, hasAssignment)
    requires Truthy(TagOf(tags, stops[i]))
    ensures var t := TagOf(tags, stops[i]);
      GroupedUpTo(stops, tags, i + 1, groups[t := (if t in groups then groups[t] else []) + [stops[i]]], true)
  {
    GroupStep(stops, tags, i);
    var t := TagOf(tags, stops[i]);
    assert t !in groups ==> Tagged(stops[..i], tags, t) == [];
  }

  // ---------------------------------------------------------------
  // Round-robin partition

  /** The stops `rr_partition` puts in the bucket of `v`: stop i goes to
    * `vids[i % len(vids)]`. */
  function Bucket(stops: seq<Stop>, vids: seq<Value>, v: Value): seq<Stop>
    requires vids != []
    decreases |stops|
  {
    if stops == [] then []
    else Bucket(stops[..|stops| - 1], vids, v)
         + (if vids[(|stops| - 1) % |vids|] == v then [stops[|stops| - 1]] else [])
  }

  /** `rr_partition`'s result: one bucket per vehicle id, empty when there
    * are no stops. */
  function Buckets(stops: seq<Stop>, vids: seq<Value>): map<Value, seq<Stop>>
    requires vids != [] || stops == []
  {
    map v | v in vids :: if stops == [] then [] else Bucket(stops, vids, v)
  }

  /** What the grouping raises: `rr_partition`'s modulo by an empty fleet,
    * or a list or dictionary used as a dictionary key. */
  datatype PartitionError = ZeroDivisionError | TypeError

  /** `rr_partition`. With stops and no vehicle, `i % len(vid_list)` raises. */
  method RrPartition(stops: seq<Stop>, vids: seq<Value>) returns (r: Result<map<Value, seq<Stop>>, PartitionError>)
    ensures r.Err? <==> stops != [] && vids == []
    ensures r.Ok? ==> r.value == Buckets(stops, vids)
  {
    var buckets: map<Value, seq<Stop>> := map v | v in vids :: [];
    if stops == [] {
      return Ok(buckets);
    }
    if vids == [] {
      return Err(ZeroDivisionError);
    }
    var i := 0;
    while i < |stops|
      invariant 0 <= i <= |stops|
      invariant forall v :: v in buckets <==> v in vids
      invariant forall v :: v in buckets ==> buckets[v] == Bucket(stops[..i], vids, v)
    {
      BucketStep(stops, vids, i);
      var vid := vids[i % |vids|];
      buckets := buckets[vid := buckets[vid] + [stops[i]]];
      i := i + 1;
    }
    assert stops[..|stops|] == stops;
    return Ok(buckets);
  }

  /** One more stop lands in one bucket. */
  lemma BucketStep(stops: seq<Stop>, vids: seq<Value>, i: int)
    requires vids != [] && 0 <= i < |stops|
    ensures forall v :: (Bucket(stops[..i + 1], vids, v)
      == Bucket(stops[..i], vids, v) + (if vids[i % |vids|] == v then [stops[i]] else []))
  {
    assert stops[..i + 1][..i] == stops[..i];
  }

  predicate Distinct(vids: seq<Value>)
  {
    forall a, b :: 0 <= a < |vids| && 0 <= b < |vids| && vids[a] == vids[b] ==> a == b
  }

  /** A positive multiple of a positive number is at least that number. */
  lemma MulAtLeast(a: int, k: int)
    requires a >= 1 && k > 0
    ensures a * k >= k
  {
    assert a * k == (a - 1) * k + k;
    MulNonNegative(a - 1, k);
  }

  lemma MulNonNegative(a: int, k: int)
    requires a >= 0 && k > 0
    ensures a * k >= 0
  {
  }

  /** Quotient and remainder determine each other. */
  lemma DivModUnique(x: int, k: int, q: int, r: int)
    requires k > 0 && 0 <= r < k && x == q * k + r
    ensures x / k == q && x % k == r
  {
    var q', r' := x / k, x % k;
    assert x == q' * k + r';
    assert (q - q') * k == q * k - q' * k;
    if q > q' {
      MulAtLeast(q - q', k);
    } else if q < q' {
      assert (q' - q) * k == q' * k - q * k;
      MulAtLeast(q' - q, k);
    }
  }

  /** From `n` to `n + 1`: the remainder grows by one, or wraps to zero and
    * the quotient grows. */
  lemma DivModStep(n: nat, k: int)
    requires k > 0
    ensures n % k == k - 1 ==> (n + 1) / k == n / k + 1 && (n + 1) % k == 0
    ensures n % k != k - 1 ==> (n + 1) / k == n / k && (n + 1) % k == n % k + 1
  {
    var q, r := n / k, n % k;
    assert n == q * k + r;
    if r == k - 1 {
      assert n + 1 == (q + 1) * k + 0;
      DivModUnique(n + 1, k, q + 1, 0);
    } else {
      DivModUnique(n + 1, k, q, r + 1);
    }
  }

  /** With distinct ids, bucket j holds n / k stops, plus one when j is
    * below n % k: sizes differ by at most one. */
  lemma {:induction false} BucketSize(stops: seq<Stop>, vids: seq<Value>, j: int)
    requires vids != [] && Distinct(vids) && 0 <= j < |vids|
    ensures |Bucket(stops, vids, vids[j])| == |stops| / |vids| + (if j < |stops| % |vids| then 1 else 0)
    decreases |stops|
  {
    var k := |vids|;
    if stops == [] {
      DivModUnique(0, k, 0, 0);
    } else {
      var n := |stops| - 1;
      BucketSize(stops[..n], vids, j);
      DivModStep(n, k);
      var q, r := n / k, n % k;
      assert vids[r] == vids[j] <==> r == j;
      assert |Bucket(stops, vids, vids[j])| == |Bucket(stops[..n], vids, vids[j])| + (if r == j then 1 else 0);
    }
  }

  /** Stop i sits at position i / k of the bucket of `vids[i % k]`: the
    * buckets together hold every stop, each once, in request order. */
  lemma {:induction false} StopPlacement(stops: seq<Stop>, vids: seq<Value>, i: int)
    requires vids != [] && Distinct(vids) && 0 <= i < |stops|
    ensures i / |vids| < |Bucket(stops, vids, vids[i % |vids|])|
    ensures Bucket(stops, vids, vids[i % |vids|])[i / |vids|] == stops[i]
    decreases |stops|
  {
    var k, n := |vids|, |stops| - 1;
    var init := stops[..n];
    var v := vids[i % k];
    assert Bucket(stops, vids, v) == Bucket(init, vids, v) + (if vids[n % k] == v then [stops[n]] else []);
    if i < n {
      StopPlacement(init, vids, i);
    } else {
      BucketSize(init, vids, i % k);
      assert |Bucket(init, vids, v)| == i / k;
    }
  }

  /** A bucket only holds stops of the request. */
  lemma {:induction false} BucketMembers(stops: seq<Stop>, vids: seq<Value>, v: Value)
    requires vids != []
    ensures forall x :: x in Bucket(stops, vids, v) ==> x in stops
    decreases |stops|
  {
    if stops != [] {
      var init := stops[..|stops| - 1];
      BucketMembers(init, vids, v);
      assert forall x :: x in init ==> x in stops;
    }
  }

  // ---------------------------------------------------------------
  // slice_and_solve

  /** `req.stops.index(s)`: the first stop equal to `s`. */
  function IndexOf(stops: seq<Stop>, s: Stop): (i: int)
    requires s in stops
    ensures 0 <= i < |stops| && stops[i] == s
    ensures forall j :: 0 <= j < i ==> stops[j] != s
  {
    if stops[0] == s then 0
    else
      var i := IndexOf(stops[1..], s);
      assert forall j :: 1 <= j <= i ==> stops[j] == stops[1..][j - 1];
      1 + i
  }

  predicate Within(subset: seq<Stop>, stops: seq<Stop>)
  {
    forall x :: x in subset ==> x in stops
  }

  /** `idx_map`: local node a of the slice is global node `idx[a]`: the
    * depot stays 0, and a stop goes to 1 + its position in the request. */
  function IdxMap(stops: seq<Stop>, subset: seq<Stop>): (idx: seq<int>)
    requires Within(subset, stops)
    ensures |idx| == |subset| + 1 && idx[0] == 0
    ensures forall a :: 1 <= a <= |subset| ==> 1 <= idx[a] <= |stops| && stops[idx[a] - 1] == subset[a - 1]
  {
    [0] + seq(|subset|, i requires 0 <= i < |subset| => 1 + IndexOf(stops, subset[i]))
  }

  /** The vehicle record handed to the solver. */
  datatype VehicleDef = VehicleDef(id: Value, capacity: int, startMin: int, endMin: int)

  function DefOf(v: Vehicle): VehicleDef
  {
    VehicleDef(v.id, v.capacity, v.startMin, v.endMin)
  }

  /** The arguments of `solve_vrptw`. */
  datatype SolverInput = SolverInput(
    time: seq<seq<real>>, dist: seq<seq<real>>, depotIndex: int,
    serviceTimes: seq<int>, demands: seq<int>, windows: seq<TimeWindow>,
    vehicles: seq<VehicleDef>, objective: Value)

  /** The window of a stop on the slice: its own, or the depot's. */
  function WindowOf(s: Stop, depot: TimeWindow): TimeWindow
  {
    if s.window.Some? then s.window.value else depot
  }

  /** The rows and columns `idx` of a square grid of side `m`, in the order
    * of `idx`. */
  function SubGrid(g: seq<seq<real>>, m: nat, idx: seq<int>): (r: seq<seq<real>>)
    requires Square(g, m) && forall a :: 0 <= a < |idx| ==> 0 <= idx[a] < m
    ensures Square(r, |idx|)
    ensures forall a, b :: 0 <= a < |idx| && 0 <= b < |idx| ==> r[a][b] == g[idx[a]][idx[b]]
  {
    seq(|idx|, a requires 0 <= a < |idx| => seq(|idx|, b requires 0 <= b < |idx| => g[idx[a]][idx[b]]))
  }

  /** `time_windows` of the slice: the depot's, then each stop's own or the
    * depot's. */
  function SliceWindows(subset: seq<Stop>, depot: TimeWindow): (w: seq<TimeWindow>)
    ensures |w| == |subset| + 1 && w[0] == depot
    ensures forall a :: 1 <= a <= |subset| ==> w[a] == WindowOf(subset[a - 1], depot)
  {
    [depot] + seq(|subset|, i requires 0 <= i < |subset| => WindowOf(subset[i], depot))
  }

  /** `service_times` and `demands` of the slice: 0 for the depot, then the
    * stops' own. */
  function ServiceTimes(subset: seq<Stop>): (r: seq<int>)
    ensures |r| == |subset| + 1 && r[0] == 0
    ensures forall a :: 1 <= a <= |subset| ==> r[a] == subset[a - 1].serviceMin
  {
    [0] + seq(|subset|, i requires 0 <= i < |subset| => subset[i].serviceMin)
  }

  function Demands(subset: seq<Stop>): (r: seq<int>)
    ensures |r| == |subset| + 1 && r[0] == 0
    ensures forall a :: 1 <= a <= |subset| ==> r[a] == subset[a - 1].demand
  {
    [0] + seq(|subset|, i requires 0 <= i < |subset| => subset[i].demand)
  }

  /** What `slice_and_solve` hands the solver. */
  function SliceInput(req: OptimizeRequest, time: seq<seq<real>>, dist: seq<seq<real>>,
                      subset: seq<Stop>, vehicles: seq<VehicleDef>): (input: SolverInput)
    requires Within(subset, req.stops)
    requires Square(time, |req.stops| + 1) && Square(dist, |req.stops| + 1)
    ensures var idx := IdxMap(req.stops, subset);
      && Square(input.time, |subset| + 1) && Square(input.dist, |subset| + 1)
      && (forall a, b :: 0 <= a <= |subset| && 0 <= b <= |subset| ==>
            input.time[a][b] == time[idx[a]][idx[b]] && input.dist[a][b] == dist[idx[a]][idx[b]])
    ensures input.depotIndex == 0 && input.vehicles == vehicles && input.objective == req.objective
    ensures |input.serviceTimes| == |input.demands| == |input.windows| == |subset| + 1
    ensures input.serviceTimes[0] == 0 && input.demands[0] == 0 && input.windows[0] == req.depot.window
    ensures forall a :: 1 <= a <= |subset| ==>
      input.serviceTimes[a] == subset[a - 1].serviceMin && input.demands[a] == subset[a - 1].demand
      && input.windows[a] == WindowOf(subset[a - 1], req.depot.window)
  {
    var idx := IdxMap(req.stops, subset);
    var m := |req.stops| + 1;
    SolverInput(
      SubGrid(time, m, idx), SubGrid(dist, m, idx), 0, ServiceTimes(subset), Demands(subset),
      SliceWindows(subset, req.depot.window),
      vehicles, req.objective)
  }

  /** `slice_and_solve` up to the solver call: the sub-grids are filled in
    * a double loop and the windows appended one stop at a time. */
  method Slice(req: OptimizeRequest, time: seq<seq<real>>, dist: seq<seq<real>>,
               subset: seq<Stop>, vehicles: seq<VehicleDef>) returns (input: SolverInput)
    requires Within(subset, req.stops)
    requires Square(time, |req.stops| + 1) && Square(dist, |req.stops| + 1)
    ensures input == SliceInput(req, time, dist, subset, vehicles)
  {
    var idx := IdxMap(req.stops, subset);
    var tmat, dmat := SubGrids(time, dist, |req.stops| + 1, idx);
    var windows := Windows(subset, req.depot.window);
    input := SolverInput(tmat, dmat, 0, ServiceTimes(subset), Demands(subset), windows, vehicles, req.objective);
  }

  /** The double loop of `slice_and_solve` over `idx_map`. */
  method SubGrids(time: seq<seq<real>>, dist: seq<seq<real>>, m: nat, idx: seq<int>)
    returns (tmat: seq<seq<real>>, dmat: seq<seq<real>>)
    requires Square(time, m) && Square(dist, m) && forall a :: 0 <= a < |idx| ==> 0 <= idx[a] < m
    ensures tmat == SubGrid(time, m, idx) && dmat == SubGrid(dist, m, idx)
  {
    ghost var T, D := SubGrid(time, m, idx), SubGrid(dist, m, idx);
    var n := |idx|;
    tmat, dmat := [], [];
    var a := 0;
    while a < n
      invariant 0 <= a <= n
      invariant tmat == T[..a] && dmat == D[..a]
    {
      var trow, drow := [], [];
      var b := 0;
      while b < n
        invariant 0 <= b <= n
        invariant trow == T[a][..b] && drow == D[a][..b]
      {
        assert T[a][..b + 1] == T[a][..b] + [T[a][b]] && D[a][..b + 1] == D[a][..b] + [D[a][b]];
        trow := trow + [time[idx[a]][idx[b]]];
        drow := drow + [dist[idx[a]][idx[b]]];
        b := b + 1;
      }
      assert T[a][..n] == T[a] && D[a][..n] == D[a];
      assert T[..a + 1] == T[..a] + [T[a]] && D[..a + 1] == D[..a] + [D[a]];
      tmat := tmat + [trow];
      dmat := dmat + [drow];
      a := a + 1;
    }
    assert T[..n] == T && D[..n] == D;
  }

  /** The loop of `slice_and_solve` that appends one window per stop. */
  method Windows(subset: seq<Stop>, depot: TimeWindow) returns (windows: seq<TimeWindow>)
    ensures windows == SliceWindows(subset, depot)
  {
    ghost var W := SliceWindows(subset, depot);
    windows := [depot];
    var i := 0;
    while i < |subset|
      invariant 0 <= i <= |subset|
      invariant windows == W[..i + 1]
    {
      assert W[..i + 2] == W[..i + 1] + [W[i + 1]];
      if subset[i].window.Some? {
        windows := windows + [subset[i].window.value];
      } else {
        windows := windows + [depot];
      }
      i := i + 1;
    }
    assert W[..|subset| + 1] == W;
  }

  // ---------------------------------------------------------------
  // Solving each vehicle and remapping its nodes

  /** A route as the solver reports it, over the slice's local nodes. */
  datatype RawRoute = RawRoute(nodes: seq<int>, timeMin: real, distKm: real)

  /** The solver's reply: `ok` is `status == "ok"`. */
  datatype SolveResult = SolveResult(ok: bool, routes: seq<RawRoute>)

  type Solver = SolverInput -> SolveResult

  /** The solver numbers the nodes of the slice it was given. */
  predicate NodesInRange(r: SolveResult, last: int)
  {
    forall i, j :: 0 <= i < |r.routes| && 0 <= j < |r.routes[i].nodes| ==> 0 <= r.routes[i].nodes[j] <= last
  }

  ghost predicate SolverNumbersSlice(solve: Solver)
  {
    forall input :: NodesInRange(solve(input), |input.windows| - 1)
  }

  /** A route of the response, over the request's nodes. */
  datatype Route = Route(vehicleId: Value, nodes: seq<int>, timeMin: real, distKm: real)

  /** The absolute node of local node `n`. */
  function Remap(n: int, subset: seq<Stop>, stops: seq<Stop>): (r: int)
    requires Within(subset, stops) && 0 <= n <= |subset|
    ensures n == 0 ==> r == 0
    ensures n > 0 ==> 1 <= r <= |stops| && stops[r - 1] == subset[n - 1]
  {
    if n == 0 then 0 else 1 + IndexOf(stops, subset[n - 1])
  }

  /** A remapped node reads the same row of the full grids as the local
    * node did on the slice. */
  lemma RemapAgreesWithSlice(n: int, subset: seq<Stop>, stops: seq<Stop>)
    requires Within(subset, stops) && 0 <= n <= |subset|
    ensures Remap(n, subset, stops) == IdxMap(stops, subset)[n]
  {
  }

  /** The loop that builds `nodes_abs`. */
  method RemapNodes(nodes: seq<int>, subset: seq<Stop>, stops: seq<Stop>) returns (abs: seq<int>)
    requires Within(subset, stops)
    requires forall j :: 0 <= j < |nodes| ==> 0 <= nodes[j] <= |subset|
    ensures |abs| == |nodes| && forall j :: 0 <= j < |nodes| ==> abs[j] == Remap(nodes[j], subset, stops)
  {
    abs := [];
    var j := 0;
    while j < |nodes|
      invariant 0 <= j <= |nodes|
      invariant |abs| == j && forall t :: 0 <= t < j ==> abs[t] == Remap(nodes[t], subset, stops)
    {
      if nodes[j] == 0 {
        abs := abs + [0];
      } else {
        abs := abs + [1 + IndexOf(stops, subset[nodes[j] - 1])];
      }
      j := j + 1;
    }
  }

  function RemapRoute(r: RawRoute, id: Value, subset: seq<Stop>, stops: seq<Stop>): Route
    requires Within(subset, stops)
    requires forall j :: 0 <= j < |r.nodes| ==> 0 <= r.nodes[j] <= |subset|
  {
    Route(id, seq(|r.nodes|, j requires 0 <= j < |r.nodes| => Remap(r.nodes[j], subset, stops)), r.timeMin, r.distKm)
  }

  function RemapRoutes(rs: seq<RawRoute>, id: Value, subset: seq<Stop>, stops: seq<Stop>): (out: seq<Route>)
    requires Within(subset, stops)
    requires forall i, j :: 0 <= i < |rs| && 0 <= j < |rs[i].nodes| ==> 0 <= rs[i].nodes[j] <= |subset|
    ensures |out| == |rs|
    ensures forall i :: 0 <= i < |rs| ==> out[i] == RemapRoute(rs[i], id, subset, stops)
  {
    seq(|rs|, i requires 0 <= i < |rs| => RemapRoute(rs[i], id, subset, stops))
  }

  /** The entry of a vehicle without stops. */
  function EmptyRoute(id: Value): Route
  {
    Route(id, [0, 0], 0.0, 0.0)
  }

  function SumTime(rs: seq<RawRoute>): real
  {
    if rs == [] then 0.0 else SumTime(rs[..|rs| - 1]) + rs[|rs| - 1].timeMin
  }

  function SumDist(rs: seq<RawRoute>): real
  {
    if rs == [] then 0.0 else SumDist(rs[..|rs| - 1]) + rs[|rs| - 1].distKm
  }

  /** The position of the entry for `id`, or -1. */
  function PosOf(e: seq<Vehicle>, id: Value): (p: int)
    ensures -1 <= p < |e|
    ensures p >= 0 ==> e[p].id == id
    ensures p < 0 ==> forall q :: 0 <= q < |e| ==> e[q].id != id
    decreases |e|
  {
    if e == [] then -1
    else if e[|e| - 1].id == id then |e| - 1
    else PosOf(e[..|e| - 1], id)
  }

  /** `veh_by_id` in iteration order: a Python dict keeps the position of
    * a key's first insertion and the value of its last. */
  function VehById(vs: seq<Vehicle>): seq<Vehicle>
    decreases |vs|
  {
    if vs == [] then []
    else
      var e := VehById(vs[..|vs| - 1]);
      var v := vs[|vs| - 1];
      var p := PosOf(e, v.id);
      if p >= 0 then e[p := v] else e + [v]
  }

  /** No two entries share an id. */
  predicate DistinctIds(e: seq<Vehicle>)
  {
    forall a, b :: 0 <= a < b < |e| ==> e[a].id != e[b].id
  }

  /** One entry per id, each one of the request's vehicles. */
  lemma {:induction false} VehByIdEntries(vs: seq<Vehicle>)
    ensures var e := VehById(vs);
      && DistinctIds(e)
      && (forall p :: 0 <= p < |e| ==> e[p] in vs)
    decreases |vs|
  {
    if vs != [] {
      var init := vs[..|vs| - 1];
      VehByIdEntries(init);
      assert forall x :: x in init ==> x in vs;
      var e := VehById(init);
      assert forall q :: 0 <= q < |VehById(init)| ==> VehById(init)[q] in init;
      var v := vs[|vs| - 1];
      DistinctIdsStep(e, v);
      var p := PosOf(e, v.id);
      var e' := VehById(vs);
      assert e' == if p >= 0 then e[p := v] else e + [v];
      forall q | 0 <= q < |e'|
        ensures e'[q] in vs
      {
        if q == p || q == |e| {
          assert e'[q] == v;
          assert v in vs;
        } else {
          assert e'[q] == e[q];
          assert e[q] in init;
        }
      }
    }
  }

  /** Putting a vehicle in `veh_by_id` keeps one entry per id. */
  lemma DistinctIdsStep(e: seq<Vehicle>, v: Vehicle)
    requires DistinctIds(e)
    ensures var p := PosOf(e, v.id);
      var e' := if p >= 0 then e[p := v] else e + [v];
      DistinctIds(e')
  {
    var p := PosOf(e, v.id);
    var e' := if p >= 0 then e[p := v] else e + [v];
    if p >= 0 {
      assert forall a :: 0 <= a < |e'| ==> e'[a].id == e[a].id;
    } else {
      assert forall a :: 0 <= a < |e| ==> e'[a] == e[a];
    }
  }

  /** The last vehicle with a given id is the one dispatched under it. */
  lemma {:induction false} VehByIdLastWins(vs: seq<Vehicle>, i: int)
    requires 0 <= i < |vs| && forall j :: i < j < |vs| ==> vs[j].id != vs[i].id
    ensures vs[i] in VehById(vs)
    decreases |vs|
  {
    var init := vs[..|vs| - 1];
    var e := VehById(init);
    var v := vs[|vs| - 1];
    if i < |vs| - 1 {
      assert init[i] == vs[i];
      VehByIdLastWins(init, i);
      var q :| 0 <= q < |e| && e[q] == vs[i];
      var p := PosOf(e, v.id);
      if p >= 0 {
        assert e[p := v][q] == vs[i];
      } else {
        assert (e + [v])[q] == vs[i];
      }
    } else {
      var p := PosOf(e, v.id);
      if p >= 0 {
        assert e[p := v][p] == v;
      } else {
        assert (e + [v])[|e|] == v;
      }
    }
  }

  /** What the dispatch has produced so far: the routes and the running
    * totals, or the first reply that was not ok (400). */
  datatype Dispatched = Dispatched(routes: seq<Route>, totalTime: real, totalDist: real) | Rejected(result: SolveResult)

  /** Each group is drawn from the request's stops. */
  predicate GroupsWithin(groups: map<Value, seq<Stop>>, stops: seq<Stop>)
  {
    forall v :: v in groups ==> Within(groups[v], stops)
  }

  function SubsetOf(groups: map<Value, seq<Stop>>, id: Value): seq<Stop>
  {
    if id in groups then groups[id] else []
  }

  /** The well-formed inputs of the per-vehicle loop. */
  ghost predicate Setting(req: OptimizeRequest, time: seq<seq<real>>, dist: seq<seq<real>>,
                          groups: map<Value, seq<Stop>>, solve: Solver)
  {
    GroupsWithin(groups, req.stops) && SolverNumbersSlice(solve)
    && Square(time, |req.stops| + 1) && Square(dist, |req.stops| + 1)
  }

  /** One vehicle of the loop: nothing to solve without stops, otherwise its
    * slice is solved and the reply's routes remapped and added up. */
  function Step(req: OptimizeRequest, time: seq<seq<real>>, dist: seq<seq<real>>,
                groups: map<Value, seq<Stop>>, solve: Solver, prev: Dispatched, v: Vehicle): Dispatched
    requires Setting(req, time, dist, groups, solve)
  {
    match prev
    case Rejected(_) => prev
    case Dispatched(rs, t, d) =>
      var subset := SubsetOf(groups, v.id);
      if subset == [] then Dispatched(rs + [EmptyRoute(v.id)], t, d)
      else
        var input := SliceInput(req, time, dist, subset, [DefOf(v)]);
        var r := solve(input);
        assert NodesInRange(r, |input.windows| - 1);
        if !r.ok then Rejected(r)
        else Dispatched(rs + RemapRoutes(r.routes, v.id, subset, req.stops), t + SumTime(r.routes), d + SumDist(r.routes))
  }

  /** The per-vehicle loop over the first entries. */
  function DispatchAll(req: OptimizeRequest, time: seq<seq<real>>, dist: seq<seq<real>>,
                       groups: map<Value, seq<Stop>>, solve: Solver, entries: seq<Vehicle>): Dispatched
    requires Setting(req, time, dist, groups, solve)
    decreases |entries|
  {
    if entries == [] then Dispatched([], 0.0, 0.0)
    else Step(req, time, dist, groups, solve, DispatchAll(req, time, dist, groups, solve, entries[..|entries| - 1]), entries[|entries| - 1])
  }

  function TotalTime(rs: seq<Route>): real
    decreases |rs|
  {
    if rs == [] then 0.0 else TotalTime(rs[..|rs| - 1]) + rs[|rs| - 1].timeMin
  }

  function TotalDist(rs: seq<Route>): real
    decreases |rs|
  {
    if rs == [] then 0.0 else TotalDist(rs[..|rs| - 1]) + rs[|rs| - 1].distKm
  }

  lemma {:induction false} TotalsAppend(a: seq<Route>, b: seq<Route>)
    ensures TotalTime(a + b) == TotalTime(a) + TotalTime(b)
    ensures TotalDist(a + b) == TotalDist(a) + TotalDist(b)
    decreases |b|
  {
    if b == [] {
      assert a + b == a;
    } else {
      var b' := b[..|b| - 1];
      TotalsAppend(a, b');
      assert (a + b)[..|a + b| - 1] == a + b';
      assert (a + b)[|a + b| - 1] == b[|b| - 1];
    }
  }

  lemma {:induction false} RemappedTotals(rs: seq<RawRoute>, id: Value, subset: seq<Stop>, stops: seq<Stop>)
    requires Within(subset, stops)
    requires forall i, j :: 0 <= i < |rs| && 0 <= j < |rs[i].nodes| ==> 0 <= rs[i].nodes[j] <= |subset|
    ensures TotalTime(RemapRoutes(rs, id, subset, stops)) == SumTime(rs)
    ensures TotalDist(RemapRoutes(rs, id, subset, stops)) == SumDist(rs)
    decreases |rs|
  {
    if rs != [] {
      var init := rs[..|rs| - 1];
      RemappedTotals(init, id, subset, stops);
      assert RemapRoutes(rs, id, subset, stops)[..|rs| - 1] == RemapRoutes(init, id, subset, stops);
    }
  }

  /** `total_time_min` and `total_dist_km` are the sums over the routes of
    * the response, the empty routes counting 0. */
  lemma {:induction false} TotalsAreSums(req: OptimizeRequest, time: seq<seq<real>>, dist: seq<seq<real>>,
                                         groups: map<Value, seq<Stop>>, solve: Solver, entries: seq<Vehicle>)
    requires Setting(req, time, dist, groups, solve)
    requires DispatchAll(req, time, dist, groups, solve, entries).Dispatched?
    ensures var d := DispatchAll(req, time, dist, groups, solve, entries);
      d.totalTime == TotalTime(d.routes) && d.totalDist == TotalDist(d.routes)
    decreases |entries|
  {
    if entries != [] {
      var init := entries[..|entries| - 1];
      var prev := DispatchAll(req, time, dist, groups, solve, init);
      var v := entries[|entries| - 1];
      assert prev.Dispatched?;
      TotalsAreSums(req, time, dist, groups, solve, init);
      var subset := SubsetOf(groups, v.id);
      if subset == [] {
        TotalsAppend(prev.routes, [EmptyRoute(v.id)]);
      } else {
        var input := SliceInput(req, time, dist, subset, [DefOf(v)]);
        var r := solve(input);
        assert NodesInRange(r, |input.windows| - 1);
        TotalsAppend(prev.routes, RemapRoutes(r.routes, v.id, subset, req.stops));
        RemappedTotals(r.routes, v.id, subset, req.stops);
      }
    }
  }

  /** Every node of every route is the depot or one of the stops grouped
    * under that route's vehicle. */
  predicate VisitsOwnStops(rs: seq<Route>, stops: seq<Stop>, groups: map<Value, seq<Stop>>)
  {
    forall i, j :: 0 <= i < |rs| && 0 <= j < |rs[i].nodes| ==>
      (rs[i].nodes[j] == 0
       || (1 <= rs[i].nodes[j] <= |stops| && stops[rs[i].nodes[j] - 1] in SubsetOf(groups, rs[i].vehicleId)))
  }

  /** A route of a vehicle only visits the depot and that vehicle's stops. */
  lemma {:induction false} RoutesVisitOwnStops(req: OptimizeRequest, time: seq<seq<real>>, dist: seq<seq<real>>,
                                               groups: map<Value, seq<Stop>>, solve: Solver, entries: seq<Vehicle>)
    requires Setting(req, time, dist, groups, solve)
    requires DispatchAll(req, time, dist, groups, solve, entries).Dispatched?
    ensures VisitsOwnStops(DispatchAll(req, time, dist, groups, solve, entries).routes, req.stops, groups)
    decreases |entries|
  {
    if entries != [] {
      var init := entries[..|entries| - 1];
      var prev := DispatchAll(req, time, dist, groups, solve, init);
      assert prev.Dispatched?;
      RoutesVisitOwnStops(req, time, dist, groups, solve, init);
      var v := entries[|entries| - 1];
      var subset := SubsetOf(groups, v.id);
      if subset == [] {
        OwnStopsAppend(prev.routes, [EmptyRoute(v.id)], req.stops, groups);
      } else {
        var input := SliceInput(req, time, dist, subset, [DefOf(v)]);
        var r := solve(input);
        assert NodesInRange(r, |input.windows| - 1);
        RemappedOwnStops(r.routes, v.id, req.stops, groups);
        OwnStopsAppend(prev.routes, RemapRoutes(r.routes, v.id, subset, req.stops), req.stops, groups);
      }
    }
  }

  lemma OwnStopsAppend(a: seq<Route>, b: seq<Route>, stops: seq<Stop>, groups: map<Value, seq<Stop>>)
    requires VisitsOwnStops(a, stops, groups) && VisitsOwnStops(b, stops, groups)
    ensures VisitsOwnStops(a + b, stops, groups)
  {
    var c := a + b;
    forall i | |a| <= i < |c|
      ensures c[i] == b[i - |a|]
    {
    }
  }

  lemma RemappedOwnStops(rs: seq<RawRoute>, id: Value, stops: seq<Stop>, groups: map<Value, seq<Stop>>)
    requires Within(SubsetOf(groups, id), stops)
    requires forall i, j :: 0 <= i < |rs| && 0 <= j < |rs[i].nodes| ==> 0 <= rs[i].nodes[j] <= |SubsetOf(groups, id)|
    ensures VisitsOwnStops(RemapRoutes(rs, id, SubsetOf(groups, id), stops), stops, groups)
  {
    var subset := SubsetOf(groups, id);
    var out := RemapRoutes(rs, id, subset, stops);
    forall i, j | 0 <= i < |out| && 0 <= j < |out[i].nodes|
      ensures out[i].nodes[j] == 0 || (1 <= out[i].nodes[j] <= |stops| && stops[out[i].nodes[j] - 1] in SubsetOf(groups, out[i].vehicleId))
    {
      assert out[i] == RemapRoute(rs[i], id, subset, stops);
      var n := rs[i].nodes[j];
      assert out[i].nodes[j] == Remap(n, subset, stops);
      if n > 0 {
        assert subset[n - 1] in subset;
      }
    }
  }

  /** When the solver answers every single-vehicle slice with one route,
    * the response has exactly one route per entry, in the entries' order. */
  lemma {:induction false} OneRoutePerVehicle(req: OptimizeRequest, time: seq<seq<real>>, dist: seq<seq<real>>,
                                              groups: map<Value, seq<Stop>>, solve: Solver, entries: seq<Vehicle>)
    requires Setting(req, time, dist, groups, solve)
    requires forall input :: solve(input).ok ==> |solve(input).routes| == 1
    requires DispatchAll(req, time, dist, groups, solve, entries).Dispatched?
    ensures RoutePerEntry(DispatchAll(req, time, dist, groups, solve, entries).routes, entries)
    decreases |entries|
  {
    if entries != [] {
      var init := entries[..|entries| - 1];
      var prev := DispatchAll(req, time, dist, groups, solve, init);
      assert prev.Dispatched?;
      OneRoutePerVehicle(req, time, dist, groups, solve, init);
      var v := entries[|entries| - 1];
      StepAddsOneRoute(req, time, dist, groups, solve, prev, init, v);
      assert init + [v] == entries;
    }
  }

  /** One step of the loop adds the route of its entry. */
  lemma StepAddsOneRoute(req: OptimizeRequest, time: seq<seq<real>>, dist: seq<seq<real>>,
                         groups: map<Value, seq<Stop>>, solve: Solver, prev: Dispatched, vs: seq<Vehicle>, v: Vehicle)
    requires Setting(req, time, dist, groups, solve)
    requires forall input :: solve(input).ok ==> |solve(input).routes| == 1
    requires prev.Dispatched? && RoutePerEntry(prev.routes, vs)
    requires Step(req, time, dist, groups, solve, prev, v).Dispatched?
    ensures RoutePerEntry(Step(req, time, dist, groups, solve, prev, v).routes, vs + [v])
  {
    var subset := SubsetOf(groups, v.id);
    if subset == [] {
      OneMoreRoute(prev.routes, vs, EmptyRoute(v.id), v);
    } else {
      var input := SliceInput(req, time, dist, subset, [DefOf(v)]);
      var r := solve(input);
      assert NodesInRange(r, |input.windows| - 1);
      var added := RemapRoutes(r.routes, v.id, subset, req.stops);
      assert added == [added[0]];
      OneMoreRoute(prev.routes, vs, added[0], v);
    }
  }

  /** The i-th route belongs to the i-th entry, and there are as many of each. */
  predicate RoutePerEntry(rs: seq<Route>, vs: seq<Vehicle>)
  {
    |rs| == |vs| && forall i :: 0 <= i < |rs| ==> rs[i].vehicleId == vs[i].id
  }

  lemma OneMoreRoute(rs: seq<Route>, vs: seq<Vehicle>, r: Route, v: Vehicle)
    requires RoutePerEntry(rs, vs) && r.vehicleId == v.id
    ensures RoutePerEntry(rs + [r], vs + [v])
  {
  }

  /** One more entry is one more `Step`. */
  lemma DispatchAllStep(req: OptimizeRequest, time: seq<seq<real>>, dist: seq<seq<real>>,
                        groups: map<Value, seq<Stop>>, solve: Solver, entries: seq<Vehicle>, i: int)
    requires Setting(req, time, dist, groups, solve)
    requires 0 <= i < |entries|
    ensures DispatchAll(req, time, dist, groups, solve, entries[..i + 1])
      == Step(req, time, dist, groups, solve, DispatchAll(req, time, dist, groups, solve, entries[..i]), entries[i])
  {
    var pre := entries[..i + 1];
    assert pre[..i] == entries[..i];
    assert pre[i] == entries[i];
  }

  /** A rejection is final: the later entries are not solved. */
  lemma {:induction false} RejectionIsFinal(req: OptimizeRequest, time: seq<seq<real>>, dist: seq<seq<real>>,
                                            groups: map<Value, seq<Stop>>, solve: Solver, entries: seq<Vehicle>, k: int)
    requires Setting(req, time, dist, groups, solve)
    requires 0 <= k <= |entries| && DispatchAll(req, time, dist, groups, solve, entries[..k]).Rejected?
    ensures DispatchAll(req, time, dist, groups, solve, entries) == DispatchAll(req, time, dist, groups, solve, entries[..k])
    decreases |entries| - k
  {
    if k < |entries| {
      var init := entries[..|entries| - 1];
      assert init[..k] == entries[..k];
      RejectionIsFinal(req, time, dist, groups, solve, init, k);
    } else {
      assert entries[..k] == entries;
    }
  }

  /** A vehicle without stops is not solved: it gets the route that leaves
    * the depot and comes back, costing nothing. Without stops at all, every
    * vehicle gets one and the totals are 0. */
  lemma {:induction false} NoStopsGiveEmptyRoutes(req: OptimizeRequest, time: seq<seq<real>>, dist: seq<seq<real>>,
                                                  groups: map<Value, seq<Stop>>, solve: Solver, entries: seq<Vehicle>)
    requires Setting(req, time, dist, groups, solve) && req.stops == []
    ensures var out := DispatchAll(req, time, dist, groups, solve, entries);
      && out.Dispatched? && out.totalTime == 0.0 && out.totalDist == 0.0 && |out.routes| == |entries|
      && forall i :: 0 <= i < |entries| ==> out.routes[i] == Route(entries[i].id, [0, 0], 0.0, 0.0)
    decreases |entries|
  {
    if entries != [] {
      var init := entries[..|entries| - 1];
      NoStopsGiveEmptyRoutes(req, time, dist, groups, solve, init);
      var v := entries[|entries| - 1];
      NothingWithinNoStops(SubsetOf(groups, v.id), req.stops);
    }
  }

  lemma NothingWithinNoStops(subset: seq<Stop>, stops: seq<Stop>)
    requires Within(subset, stops) && stops == []
    ensures subset == []
  {
    forall x: Stop ensures multiset(subset)[x] == 0 {
      assert x !in subset;
    }
    assert multiset(subset) == multiset{};
    assert |subset| == |multiset(subset)| == 0;
  }

  /** One vehicle of the loop: the slice built by `Slice`, the nodes of each
    * route remapped by `RemapNodes`. */
  method SolveVehicle(req: OptimizeRequest, time: seq<seq<real>>, dist: seq<seq<real>>,
                      groups: map<Value, seq<Stop>>, solve: Solver, rs: seq<Route>, t: real, d: real, v: Vehicle)
    returns (next: Dispatched)
    requires Setting(req, time, dist, groups, solve)
    ensures next == Step(req, time, dist, groups, solve, Dispatched(rs, t, d), v)
  {
    var subset := SubsetOf(groups, v.id);
    if subset == [] {
      return Dispatched(rs + [EmptyRoute(v.id)], t, d);
    }
    var input := Slice(req, time, dist, subset, [DefOf(v)]);
    var r := solve(input);
    assert NodesInRange(r, |input.windows| - 1);
    if !r.ok {
      return Rejected(r);
    }
    ghost var spec := RemapRoutes(r.routes, v.id, subset, req.stops);
    var added: seq<Route> := [];
    var k := 0;
    while k < |r.routes|
      invariant 0 <= k <= |r.routes|
      invariant added == spec[..k]
    {
      var abs := RemapNodes(r.routes[k].nodes, subset, req.stops);
      assert abs == spec[k].nodes;
      assert spec[..k + 1] == spec[..k] + [spec[k]];
      added := added + [Route(v.id, abs, r.routes[k].timeMin, r.routes[k].distKm)];
      k := k + 1;
    }
    assert spec[..|r.routes|] == spec;
    next := Dispatched(rs + added, t + SumTime(r.routes), d + SumDist(r.routes));
  }

  /** The FORCE_PER_VEHICLE result loop over the entries of `veh_by_id`; a
    * reply that is not ok ends it. */
  method SolveEach(req: OptimizeRequest, time: seq<seq<real>>, dist: seq<seq<real>>,
                   groups: map<Value, seq<Stop>>, solve: Solver) returns (out: Dispatched)
    requires Setting(req, time, dist, groups, solve)
    ensures out == DispatchAll(req, time, dist, groups, solve, VehById(req.vehicles))
  {
    var entries := VehById(req.vehicles);
    out := Dispatched([], 0.0, 0.0);
    var i := 0;
    while i < |entries|
      invariant 0 <= i <= |entries|
      invariant out == DispatchAll(req, time, dist, groups, solve, entries[..i])
    {
      DispatchAllStep(req, time, dist, groups, solve, entries, i);
      match out {
        case Rejected(_) =>
          RejectionIsFinal(req, time, dist, groups, solve, entries, i);
          return;
        case Dispatched(rs, t, d) =>
          out := SolveVehicle(req, time, dist, groups, solve, rs, t, d, entries[i]);
      }
      i := i + 1;
    }
    assert entries[..|entries|] == entries;
  }

  // ---------------------------------------------------------------
  // The groups the per-vehicle loop solves

  /** `[v.id for v in req.vehicles]`. */
  function VehicleIds(vs: seq<Vehicle>): seq<Value>
  {
    seq(|vs|, i requires 0 <= i < |vs| => vs[i].id)
  }

  /** `veh_by_id = {v.id: v for v in req.vehicles}` hashes every vehicle id. */
  predicate VehicleIdsHashable(vs: seq<Vehicle>)
  {
    forall i :: 0 <= i < |vs| ==> Hashable(vs[i].id)
  }

  /** The groups the per-vehicle loop solves: the explicit ones when any
    * stop is tagged, the round-robin buckets otherwise. TypeError when a
    * stop id, a truthy tag or a vehicle id is a list or a dictionary (a
    * truthy one among the raw stop ids already fails building
    * `id_to_vehicle`, the others at app.py:784, 788 and 793), and
    * ZeroDivisionError for untagged stops and no vehicle. */
  function Assignment(req: OptimizeRequest, tags: map<Value, Value>): (r: Result<map<Value, seq<Stop>>, PartitionError>)
    ensures r == Err(TypeError) <==> !StopKeysHashable(req.stops, tags) || !VehicleIdsHashable(req.vehicles)
    ensures r == Err(ZeroDivisionError) <==>
      StopKeysHashable(req.stops, tags) && TagValues(req.stops, tags) == {} && req.stops != [] && req.vehicles == []
    ensures r.Ok? ==> GroupsWithin(r.value, req.stops)
  {
    if !StopKeysHashable(req.stops, tags) || !VehicleIdsHashable(req.vehicles) then Err(TypeError)
    else if TagValues(req.stops, tags) != {} then
      GroupsWithinStops(req.stops, tags);
      Ok(Groups(req.stops, tags))
    else if req.stops != [] && req.vehicles == [] then Err(ZeroDivisionError)
    else if req.stops == [] then Ok(Buckets(req.stops, VehicleIds(req.vehicles)))
    else
      BucketsWithin(req.stops, VehicleIds(req.vehicles));
      Ok(Buckets(req.stops, VehicleIds(req.vehicles)))
  }

  lemma GroupsWithinStops(stops: seq<Stop>, tags: map<Value, Value>)
    ensures GroupsWithin(Groups(stops, tags), stops)
  {
    forall v | v in TagValues(stops, tags) {
      TaggedMembers(stops, tags, v);
    }
  }

  lemma BucketsWithin(stops: seq<Stop>, vids: seq<Value>)
    requires vids != []
    ensures GroupsWithin(Buckets(stops, vids), stops)
  {
    forall v | v in vids {
      BucketMembers(stops, vids, v);
    }
  }

  /** Once any stop is tagged, a stop without a truthy tag is in no group:
    * it is left out of every route. */
  lemma UntaggedStopsDropped(req: OptimizeRequest, tags: map<Value, Value>, x: Stop)
    requires StopKeysHashable(req.stops, tags) && VehicleIdsHashable(req.vehicles)
    requires TagValues(req.stops, tags) != {} && !Truthy(TagOf(tags, x))
    ensures forall v :: v in Assignment(req, tags).value ==> x !in Assignment(req, tags).value[v]
  {
    TagValuesMembers(req.stops, tags);
    forall v | v in TagValues(req.stops, tags)
      ensures x !in Tagged(req.stops, tags, v)
    {
      TaggedMembers(req.stops, tags, v);
    }
  }

  // ---------------------------------------------------------------
  // Maintenance predictions

  /** The entry `predict_failure_risk` is given when the vehicle has none. */
  const DefaultReading := RequestParsing.ReadingObject(map["km_rodados" := Int(20000),
    "dias_desde_ultima_manutencao" := Int(60), "alertas_obd" := Int(0)])

  datatype MaintenanceError = AttributeError

  /** `telemetry_all.get(v.id, default)` with `telemetry_all =
    * raw.get("telemetry", {})`: a missing field is `{}`; an object's keys
    * are text, so only a text id can find an entry; any other value has no
    * `get` and raises AttributeError. */
  function EntryFor(t: RequestParsing.TelemetryField, id: Value): (r: Result<RequestParsing.Reading, MaintenanceError>)
    ensures r.Err? <==> t.TelemetryOther?
    ensures t.NoTelemetry? ==> r == Ok(DefaultReading)
    ensures t.TelemetryObject? ==> r == Ok(if id.Str? && id.s in t.readings then t.readings[id.s] else DefaultReading)
  {
    match t
    case NoTelemetry => Ok(DefaultReading)
    case TelemetryObject(readings) =>
      if id.Str? && id.s in readings then Ok(readings[id.s]) else Ok(DefaultReading)
    case TelemetryOther(_) => Err(AttributeError)
  }

  /** `predict_failure_risk(tel)` returns rather than raises: `tel` has
    * `get`, and `float()` reads its three fields, each 0 when missing. The
    * risk score it computes from them is not part of this model. */
  predicate Predicts(tel: RequestParsing.Reading)
  {
    match tel
    case ReadingObject(f) =>
      && FloatOf(RequestParsing.GetOr(f, "km_rodados", Int(0))).Some?
      && FloatOf(RequestParsing.GetOr(f, "dias_desde_ultima_manutencao", Int(0))).Some?
      && FloatOf(RequestParsing.GetOr(f, "alertas_obd", Int(0))).Some?
    case ReadingOther(_) => false
  }

  predicate PredictsFor(t: RequestParsing.TelemetryField, v: Vehicle)
  {
    EntryFor(t, v.id).Ok? && Predicts(EntryFor(t, v.id).value)
  }

  /** The maintenance loop (app.py:886-890) reaches its end. */
  predicate MaintenanceReads(t: RequestParsing.TelemetryField, vs: seq<Vehicle>)
  {
    forall i :: 0 <= i < |vs| ==> PredictsFor(t, vs[i])
  }

  /** The maintenance loop: one prediction per vehicle, in order; `ok` is
    * false where a lookup or a prediction raises. */
  method Maintenance(t: RequestParsing.TelemetryField, vs: seq<Vehicle>) returns (ok: bool)
    ensures ok <==> MaintenanceReads(t, vs)
  {
    var i := 0;
    while i < |vs|
      invariant 0 <= i <= |vs|
      invariant forall j :: 0 <= j < i ==> PredictsFor(t, vs[j])
    {
      if !PredictsFor(t, vs[i]) {
        return false;
      }
      i := i + 1;
    }
    return true;
  }

  /** The default entry always predicts: a request without "telemetry"
    * never fails here. */
  lemma {:induction false} MissingTelemetryPredicts(vs: seq<Vehicle>)
    ensures MaintenanceReads(RequestParsing.NoTelemetry, vs)
  {
    assert Predicts(DefaultReading) by {
      assert RequestParsing.GetOr(DefaultReading.fields, "km_rodados", Int(0)) == Int(20000);
      assert RequestParsing.GetOr(DefaultReading.fields, "dias_desde_ultima_manutencao", Int(0)) == Int(60);
      assert RequestParsing.GetOr(DefaultReading.fields, "alertas_obd", Int(0)) == Int(0);
    }
  }

  /** A "telemetry" field that is not an object (null, a number, text, a
    * list) fails as soon as there is a vehicle. */
  lemma NonObjectTelemetryFails(v: Value, vs: seq<Vehicle>)
    requires vs != []
    ensures !MaintenanceReads(RequestParsing.TelemetryOther(v), vs)
  {
    assert !PredictsFor(RequestParsing.TelemetryOther(v), vs[0]);
  }

  /** An entry whose "km_rodados" `float()` cannot read, such as "abc",
    * fails the loop. */
  lemma UnreadableMileageFails(readings: map<string, RequestParsing.Reading>, vs: seq<Vehicle>, i: int)
    requires 0 <= i < |vs| && vs[i].id.Str? && vs[i].id.s in readings
    requires readings[vs[i].id.s] == RequestParsing.ReadingObject(map["km_rodados" := Str("abc")])
    ensures !MaintenanceReads(RequestParsing.TelemetryObject(readings), vs)
  {
    ParseFloatOfWord("abc");
    assert !PredictsFor(RequestParsing.TelemetryObject(readings), vs[i]);
  }

  // ---------------------------------------------------------------
  // POST /optimize

  /** POST /optimize: 400 for a request that does not parse, 500 when the
    * routing provider fails or leaves a cell of the matrix out (KeyError),
    * when a list or dictionary is used as a key (TypeError), when stops
    * without tags meet an empty fleet (ZeroDivisionError) and when the
    * maintenance loop raises, 400 with the solver's reply when a slice is
    * not solved, 200 with the routes and totals otherwise. */
  method Optimize(p: RequestParsing.Payload, geocode: RequestParsing.Geocoder,
                  matrix: Option<map<(int, int), ProviderMaps.Cell>>, solve: Solver)
    returns (status: int, out: Dispatched)
    requires SolverNumbersSlice(solve)
    ensures RequestParsing.ParseRequest(p, geocode).Err? ==> status == 400
    ensures RequestParsing.ParseRequest(p, geocode).Ok? ==>
      var req := RequestParsing.ParseRequest(p, geocode).value;
      var n := |req.stops| + 1;
      && (matrix.None? || !Complete(matrix.value, n) ==> status == 500)
      && (matrix.Some? && Complete(matrix.value, n) ==>
            var a := Assignment(req, IdToVehicle(p.stops.value));
            && (a.Err? ==> status == 500)
            && (a.Ok? ==>
                  && out == DispatchAll(req, TimeGrid(matrix.value, n), DistGrid(matrix.value, n), a.value, solve, VehById(req.vehicles))
                  && status == (if out.Rejected? then 400
                                else if MaintenanceReads(p.telemetry, req.vehicles) then 200 else 500)))
  {
    out := Dispatched([], 0.0, 0.0);
    var parsed := RequestParsing.ParseRequest(p, geocode);
    if parsed.Err? {
      return 400, out;
    }
    var req := parsed.value;
    var n := |req.stops| + 1;
    if matrix.None? || !Complete(matrix.value, n) {
      return 500, out;
    }
    status, out := RouteStops(req, matrix.value, IdToVehicle(p.stops.value), solve);
    if status == 200 {
      var ok := Maintenance(p.telemetry, req.vehicles);
      if !ok {
        status := 500;
      }
    }
  }

  /** The part of POST /optimize after the matrix arrived: grids, groups,
    * and the per-vehicle loop. */
  method RouteStops(req: OptimizeRequest, m: map<(int, int), ProviderMaps.Cell>, tags: map<Value, Value>, solve: Solver)
    returns (status: int, out: Dispatched)
    requires SolverNumbersSlice(solve) && Complete(m, |req.stops| + 1)
    ensures var a := Assignment(req, tags);
      var n := |req.stops| + 1;
      && (a.Err? ==> status == 500)
      && (a.Ok? ==>
            && out == DispatchAll(req, TimeGrid(m, n), DistGrid(m, n), a.value, solve, VehById(req.vehicles))
            && status == (if out.Rejected? then 400 else 200))
  {
    out := Dispatched([], 0.0, 0.0);
    var time, dist := Grids(m, |req.stops| + 1);
    var ok, groups, hasAssignment := GroupByTag(req.stops, tags);
    if !ok || !VehicleIdsHashable(req.vehicles) {
      return 500, out;
    }
    if !hasAssignment {
      var part := RrPartition(req.stops, VehicleIds(req.vehicles));
      if part.Err? {
        return 500, out;
      }
      groups := part.value;
    }
    assert Assignment(req, tags) == Ok(groups);
    out := SolveEach(req, time, dist, groups, solve);
    status := if out.Rejected? then 400 else 200;
  }
}
