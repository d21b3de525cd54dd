// The Google Maps routing provider the optimiser uses
// (core/providers/maps.py). The HTTP calls are not modelled: each reply of
// the remote service is an input, and a request that raises is the reply
// `Failed`. What is modelled is what the provider makes of each reply.

module ProviderMaps {
  import opened Common

  /** A travel matrix entry: kilometres and minutes. */
  datatype Cell = Cell(km: real, minutes: real)

  /** The provider holds the API key read from the environment, stripped. */
  datatype Provider = Provider(mapsKey: string)

  /** `RoutingProvider()`: an absent variable reads as "". */
  function NewProvider(env: Option<string>): (p: Provider)
    ensures env.None? ==> p.mapsKey == ""
    ensures p.mapsKey != [] ==> !IsSpace(p.mapsKey[0])
  {
    Provider(Strip(if env.Some? then env.value else ""))
  }

  predicate HasKey(p: Provider)
  {
    p.mapsKey != ""
  }

  // ---------------------------------------------------------------
  // geocode

  datatype GeocodeReply = GeocodeFailed | GeocodeReply(status: string, results: seq<(real, real)>)

  /** `geocode`: the first result's location when the service answers "OK"
    * with at least one result; None without a key, on any other status, on
    * an empty result list, or when the request raises. */
  function Geocode(p: Provider, reply: GeocodeReply): (r: Option<(real, real)>)
    ensures r.Some? <==> HasKey(p) && reply.GeocodeReply? && reply.status == "OK" && reply.results != []
    ensures r.Some? ==> r.value == reply.results[0]
  {
    if !HasKey(p) then None
    else match reply
      case GeocodeFailed => None
      case GeocodeReply(status, results) =>
        if status == "OK" && results != [] then Some(results[0]) else None
  }

  // ---------------------------------------------------------------
  // travel_matrix

  /** One element of a Distance Matrix reply. A value the reply lacks is
    * None (reading it raises KeyError). Distances are metres, durations
    * seconds. */
  datatype MatrixElement = MatrixElement(status: string, distanceM: Option<real>, durationS: Option<real>)

  datatype MatrixReply = MatrixFailed | MatrixReply(status: string, rows: seq<seq<MatrixElement>>)

  /** Kilometres and minutes reported for a pair the service cannot route. */
  const NoRoute: real := 9999.0

  /** What the provider makes of one element (None: KeyError). */
  function ElementCell(e: MatrixElement): (r: Option<Cell>)
    ensures e.status != "OK" ==> r == Some(Cell(NoRoute, NoRoute))
    ensures e.status == "OK" && e.distanceM.Some? && e.durationS.Some? ==>
      r == Some(Cell(e.distanceM.value / 1000.0, e.durationS.value / 60.0))
    ensures r.None? <==> e.status == "OK" && (e.distanceM.None? || e.durationS.None?)
  {
    if e.status != "OK" then Some(Cell(NoRoute, NoRoute))
    else if e.distanceM.Some? && e.durationS.Some? then
      Some(Cell(e.distanceM.value / 1000.0, e.durationS.value / 60.0))
    else None
  }

  /** The reply covers every pair of the `n` points, and every element the
    * loop reads can be read. */
  predicate Usable(rows: seq<seq<MatrixElement>>, n: nat)
  {
    |rows| >= n
    && (forall i :: 0 <= i < n ==> |rows[i]| >= n)
    && (forall i, j :: 0 <= i < n && 0 <= j < n ==> ElementCell(rows[i][j]).Some?)
  }

  /** The placeholder matrix used without a key or when the service fails:
    * 0 km / 0 min on the diagonal, 5 km / 10 min elsewhere. */
  function FallbackGrid(n: nat): map<(int, int), Cell>
  {
    map a, b | 0 <= a < n && 0 <= b < n :: (a, b) := if a == b then Cell(0.0, 0.0) else Cell(5.0, 10.0)
  }

  function ServiceGrid(rows: seq<seq<MatrixElement>>, n: nat): map<(int, int), Cell>
    requires Usable(rows, n)
  {
    map a, b | 0 <= a < n && 0 <= b < n :: (a, b) := ElementCell(rows[a][b]).value
  }

  /** The matrix `travel_matrix` returns for `n` points. */
  function TravelMatrixSpec(p: Provider, n: nat, reply: MatrixReply): map<(int, int), Cell>
  {
    if HasKey(p) && reply.MatrixReply? && reply.status == "OK" && Usable(reply.rows, n)
    then ServiceGrid(reply.rows, n)
    else FallbackGrid(n)
  }

  ghost predicate IsGrid(m: map<(int, int), Cell>, n: nat)
  {
    forall k :: k in m <==> 0 <= k.0 < n && 0 <= k.1 < n
  }

  /** The cells of row `i` before column `j`, and of all rows before `i`. */
  ghost predicate Before(k: (int, int), i: int, j: int, n: nat)
  {
    (0 <= k.0 < i && 0 <= k.1 < n) || (k.0 == i && 0 <= k.1 < j)
  }

  /** The part of the service's grid read so far. */
  ghost predicate ServicePrefix(m: map<(int, int), Cell>, rows: seq<seq<MatrixElement>>, i: int, j: int, n: nat)
  {
    (forall k :: k in m <==> Before(k, i, j, n))
    && (forall k :: Before(k, i, j, n) ==>
          0 <= k.0 < |rows| && 0 <= k.1 < |rows[k.0]| && ElementCell(rows[k.0][k.1]).Some?
          && m[k] == ElementCell(rows[k.0][k.1]).value)
  }

  /** The inner loop of the service branch over row `i`; `ok` is false when
    * reading an element raises. */
  method ReadRow(rows: seq<seq<MatrixElement>>, n: nat, i: nat, start: map<(int, int), Cell>)
    returns (ok: bool, result: map<(int, int), Cell>)
    requires i < |rows| && i < n
    requires ServicePrefix(start, rows, i, 0, n)
    ensures forall k :: k in result ==> InGrid(k, n)
    ensures ok ==> ServicePrefix(result, rows, i + 1, 0, n)
    ensures !ok ==> !Usable(rows, n)
  {
    result := start;
    var j := 0;
    while j < n
      invariant 0 <= j <= n
      invariant ServicePrefix(result, rows, i, j, n)
    {
      if j >= |rows[i]| { return false, result; }
      var cell := ElementCell(rows[i][j]);
      if cell.None? { return false, result; }
      result := result[(i, j) := cell.value];
      j := j + 1;
    }
    ok := true;
    assert forall k :: Before(k, i, n, n) <==> Before(k, i + 1, 0, n);
  }

  function FallbackCell(k: (int, int)): Cell
  {
    if k.0 == k.1 then Cell(0.0, 0.0) else Cell(5.0, 10.0)
  }

  ghost predicate InGrid(k: (int, int), n: nat)
  {
    0 <= k.0 < n && 0 <= k.1 < n
  }

  /** The fallback loops, overwriting every cell of the grid. */
  method FillFallback(n: nat, start: map<(int, int), Cell>) returns (result: map<(int, int), Cell>)
    requires forall k :: k in start ==> InGrid(k, n)
    ensures result == FallbackGrid(n)
  {
    result := start;
    var i := 0;
    while i < n
      invariant 0 <= i <= n
      invariant forall k :: k in result ==> InGrid(k, n)
      invariant forall k :: Before(k, i, 0, n) ==> k in result && result[k] == FallbackCell(k)
    {
      var j := 0;
      while j < n
        invariant 0 <= j <= n
        invariant forall k :: k in result ==> InGrid(k, n)
        invariant forall k :: Before(k, i, j, n) ==> k in result && result[k] == FallbackCell(k)
      {
        result := result[(i, j) := FallbackCell((i, j))];
        j := j + 1;
      }
      assert forall k :: Before(k, i + 1, 0, n) ==> Before(k, i, n, n);
      i := i + 1;
    }
    forall k | k in result ensures k in FallbackGrid(n) && result[k] == FallbackGrid(n)[k] {
      assert Before(k, n, 0, n);
      assert k == (k.0, k.1);
    }
    forall k | k in FallbackGrid(n) ensures k in result {
      assert Before(k, n, 0, n);
    }
  }

  /** The service branch's loop over the rows; `ok` is false when reading
    * the reply raises. */
  method ReadService(rows: seq<seq<MatrixElement>>, n: nat) returns (ok: bool, result: map<(int, int), Cell>)
    ensures forall k :: k in result ==> InGrid(k, n)
    ensures ok <==> Usable(rows, n)
    ensures ok ==> result == ServiceGrid(rows, n)
  {
    result := map[];
    var i := 0;
    while i < n
      invariant 0 <= i <= n
      invariant ServicePrefix(result, rows, i, 0, n)
    {
      if i >= |rows| { return false, result; }
      ok, result := ReadRow(rows, n, i, result);
      if !ok { return; }
      i := i + 1;
    }
    ok := true;
    ServicePrefixComplete(result, rows, n);
  }

  lemma ServicePrefixComplete(m: map<(int, int), Cell>, rows: seq<seq<MatrixElement>>, n: nat)
    requires ServicePrefix(m, rows, n, 0, n)
    ensures Usable(rows, n) && m == ServiceGrid(rows, n)
  {
    ServicePrefixUsable(m, rows, n);
    ServicePrefixKeys(m, rows, n);
    ServicePrefixValues(m, rows, n);
  }

  lemma ServicePrefixKeys(m: map<(int, int), Cell>, rows: seq<seq<MatrixElement>>, n: nat)
    requires ServicePrefix(m, rows, n, 0, n) && Usable(rows, n)
    ensures m.Keys == ServiceGrid(rows, n).Keys
  {
    assert forall k :: k in m <==> Before(k, n, 0, n);
    GridKeys(rows, n);
  }

  /** The keys of the service's grid are the pairs read before row n. */
  lemma GridKeys(rows: seq<seq<MatrixElement>>, n: nat)
    requires Usable(rows, n)
    ensures forall k :: k in ServiceGrid(rows, n) <==> Before(k, n, 0, n)
  {
    var g := ServiceGrid(rows, n);
    forall k | Before(k, n, 0, n) ensures k in g {
      assert (k.0, k.1) in g;
    }
    forall k | k in g ensures Before(k, n, 0, n) {
      var a, b :| 0 <= a < n && 0 <= b < n && k == (a, b);
    }
  }

  lemma ServicePrefixValues(m: map<(int, int), Cell>, rows: seq<seq<MatrixElement>>, n: nat)
    requires ServicePrefix(m, rows, n, 0, n) && Usable(rows, n) && m.Keys == ServiceGrid(rows, n).Keys
    ensures forall k :: k in m ==> m[k] == ServiceGrid(rows, n)[k]
  {
    forall k | k in m ensures m[k] == ServiceGrid(rows, n)[k] {
      assert Before(k, n, 0, n);
    }
  }

  lemma ServicePrefixUsable(m: map<(int, int), Cell>, rows: seq<seq<MatrixElement>>, n: nat)
    requires ServicePrefix(m, rows, n, 0, n)
    ensures Usable(rows, n)
  {
    if n > 0 { assert Before((n - 1, 0), n, 0, n); }
    forall a | 0 <= a < n ensures |rows[a]| >= n {
      assert Before((a, n - 1), n, 0, n);
    }
    forall a, b | 0 <= a < n && 0 <= b < n ensures ElementCell(rows[a][b]).Some? {
      assert Before((a, b), n, 0, n);
    }
  }

  /** `travel_matrix`: the service's reply when there is a key, it answers
    * "OK" and reading it does not raise; otherwise the fallback loops, which
    * overwrite every cell read so far. */
  method TravelMatrix(p: Provider, n: nat, reply: MatrixReply) returns (result: map<(int, int), Cell>)
    ensures result == TravelMatrixSpec(p, n, reply)
  {
    result := map[];
    if HasKey(p) && reply.MatrixReply? && reply.status == "OK" {
      var ok;
      ok, result := ReadService(reply.rows, n);
      if ok { return; }
    }
    result := FillFallback(n, result);
  }

  /** Whatever the reply, the matrix has an entry for every ordered pair of
    * the `n` points and for nothing else, and the fallback puts zero on the
    * diagonal. */
  lemma TravelMatrixIsComplete(p: Provider, n: nat, reply: MatrixReply)
    ensures IsGrid(TravelMatrixSpec(p, n, reply), n)
    ensures !HasKey(p) ==> forall a :: 0 <= a < n ==> TravelMatrixSpec(p, n, reply)[(a, a)] == Cell(0.0, 0.0)
  {
    var m := TravelMatrixSpec(p, n, reply);
    forall k | k in m ensures 0 <= k.0 < n && 0 <= k.1 < n { }
    forall k: (int, int) | 0 <= k.0 < n && 0 <= k.1 < n ensures k in m {
      assert k == (k.0, k.1);
    }
  }

  // ---------------------------------------------------------------
  // leg_polyline

  datatype DirectionsReply = DirectionsFailed | DirectionsReply(status: string, overviews: seq<string>)

  /** `leg_polyline`: the first route's encoded overview when the service
    * answers "OK" (an answer with no route raises IndexError and reads as
    * None); None without a key or on any other status. */
  function LegPolyline(p: Provider, reply: DirectionsReply): (r: Option<string>)
    ensures r.Some? <==> HasKey(p) && reply.DirectionsReply? && reply.status == "OK" && reply.overviews != []
    ensures r.Some? ==> r.value == reply.overviews[0]
  {
    if !HasKey(p) then None
    else match reply
      case DirectionsFailed => None
      case DirectionsReply(status, overviews) =>
        if status == "OK" && overviews != [] then Some(overviews[0]) else None
  }
}
