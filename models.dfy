// The request vocabulary of the route optimiser (core/models.py): plain
// records for locations, time windows, the depot, vehicles and stops, and
// the "HH:MM" clock-time parser.

module Models {
  import opened Common

  datatype Location = Location(lat: real, lon: real)

  /** Minutes after midnight. */
  datatype TimeWindow = TimeWindow(startMin: int, endMin: int)

  datatype Depot = Depot(loc: Location, window: TimeWindow)

  datatype Vehicle = Vehicle(id: Value, capacity: int, startMin: int, endMin: int, speedFactor: real)

  datatype Stop = Stop(id: Value, loc: Location, demand: int, serviceMin: int, window: Option<TimeWindow>)

  datatype OptimizeRequest = OptimizeRequest(
    depot: Depot,
    vehicles: seq<Vehicle>,
    stops: seq<Stop>,
    objective: Value,
    includeTolls: bool)

  /** Vehicle speed factor when none is given. */
  const DefaultSpeedFactor: real := 1.0

  /** Objective and toll flag when none are given. */
  const DefaultObjective: Value := Str("min_cost")
  const DefaultIncludeTolls: bool := true

  /** `hhmm_to_minutes`: split on ':' into exactly two pieces and read each
    * with `int()`; any other shape or a non-integer piece raises ValueError,
    * which is None here. */
  function HhmmToMinutes(hhmm: string): Option<int>
  {
    var parts := Split(hhmm, ':');
    if |parts| != 2 then None
    else
      match (ParseInt(parts[0]), ParseInt(parts[1]))
      case (Some(h), Some(m)) => Some(h * 60 + m)
      case _ => None
  }

  /** "HH:MM" text of a clock time. */
  function FormatHhmm(h: nat, m: nat): (s: string)
    requires h < 100 && m < 100
    ensures |s| == 5 && s[2] == ':'
  {
    Pad2(h) + ":" + Pad2(m)
  }

  /** Reading back a formatted clock time gives its minutes after midnight. */
  lemma HhmmRoundTrip(h: nat, m: nat)
    requires h < 100 && m < 100
    ensures HhmmToMinutes(FormatHhmm(h, m)) == Some(h * 60 + m)
  {
    var a, b := Pad2(h), Pad2(m);
    SplitPrefix(a, b, ':');
    SplitPrefix(b, "", ':');
    assert FormatHhmm(h, m) == a + [':'] + b;
    DigitsNoEdges(a);
    DigitsNoEdges(b);
    assert a[0] != '-' && a[0] != '+' && b[0] != '-' && b[0] != '+';
  }

  /** The default vehicle shift, "00:00" to "23:59", is the whole day. */
  lemma DefaultShiftIsWholeDay()
    ensures HhmmToMinutes("00:00") == Some(0)
    ensures HhmmToMinutes("23:59") == Some(1439)
  {
    HhmmRoundTrip(0, 0);
    HhmmRoundTrip(23, 59);
    FormatDefaults();
  }

  lemma FormatDefaults()
    ensures FormatHhmm(0, 0) == "00:00" && FormatHhmm(23, 59) == "23:59"
  {
    assert Pad2(0) == "00";
    assert NatToString(2) == "2" && NatToString(3) == "3";
    assert NatToString(5) == "5" && NatToString(9) == "9";
    assert Pad2(23) == "23" && Pad2(59) == "59";
  }

  /** Text with exactly one colon reads as 60 times the `int()` of the piece
    * before it plus the `int()` of the piece after it, and fails when
    * either piece is not an integer. */
  lemma HhmmReadsBothPieces(h: string, m: string)
    requires ':' !in h && ':' !in m
    ensures ParseInt(h).Some? && ParseInt(m).Some? ==>
      HhmmToMinutes(h + ":" + m) == Some(ParseInt(h).value * 60 + ParseInt(m).value)
    ensures ParseInt(h).None? || ParseInt(m).None? ==> HhmmToMinutes(h + ":" + m) == None
  {
    SplitAtOneColon(h, m);
    var parts := Split(h + ":" + m, ':');
    assert |parts| == 2 && parts[0] == h && parts[1] == m;
  }

  lemma SplitAtOneColon(h: string, m: string)
    requires ':' !in h && ':' !in m
    ensures Split(h + ":" + m, ':') == [h, m]
  {
    assert h + ":" + m == h + [':'] + m;
    SplitPrefix(h, m, ':');
    SplitPrefix(m, "", ':');
  }

  /** A string without a colon is rejected, and so is one with two. */
  lemma HhmmNeedsOneColon(hhmm: string, a: string, b: string, c: string)
    requires ':' !in a && ':' !in b
    ensures ':' !in hhmm ==> HhmmToMinutes(hhmm) == None
    ensures HhmmToMinutes(a + ":" + b + ":" + c) == None
  {
    if ':' !in hhmm {
      SplitPrefix(hhmm, "", ':');
    }
    SplitPrefix(b, c, ':');
    SplitPrefix(a, b + ":" + c, ':');
    assert a + ":" + b + ":" + c == a + [':'] + (b + [':'] + c);
  }
}
