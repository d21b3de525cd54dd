// Route drawing (core/visual/map_render.py): the encoded-polyline decoder,
// the coercion of whatever a path fetcher returns into a list of
// coordinates, and the assembly of each route's line from its legs. The
// HTML rendering itself (markers, colours on screen, the saved file) is not
// part of the model; what is kept is which line is drawn for which route.

module MapRender {
  import opened Common

  /** A point as drawn: latitude and longitude in degrees. */
  datatype Coord = Coord(lat: real, lon: real)

  /** A point of an encoded polyline, in units of 1e-5 degrees. */
  datatype E5 = E5(lat: int, lng: int)

  function Pow2(n: nat): (p: nat)
    ensures p >= 1
  {
    if n == 0 then 1 else 2 * Pow2(n - 1)
  }

  lemma Pow2Plus5(n: nat)
    ensures Pow2(n + 5) == 32 * Pow2(n)
  {
    assert Pow2(n + 5) == 2 * Pow2(n + 4);
    assert Pow2(n + 4) == 2 * Pow2(n + 3);
    assert Pow2(n + 3) == 2 * Pow2(n + 2);
    assert Pow2(n + 2) == 2 * Pow2(n + 1);
  }

  // ---------------------------------------------------------------
  // Decoding, as the source writes it

  /** One varint read the way `_decode_polyline` reads it: the accumulator
    * starts at 1, every character contributes `(ord(c) - 64) << shift`,
    * and reading stops after the first character whose `ord(c) - 64` is
    * below 31. Running off the end of the text is an IndexError (None).
    * The result is the accumulator and the index after the last character. */
  function ReadValue(s: string, i: nat, result: int, shift: nat): (r: Option<(int, nat)>)
    ensures r.Some? ==> i < r.value.1 <= |s|
    decreases |s| - i
  {
    if i >= |s| then None
    else
      var b := s[i] as int - 64;
      var acc := result + b * Pow2(shift);
      if b < 31 then Some((acc, i + 1)) else ReadValue(s, i + 1, acc, shift + 5)
  }

  /** Zig-zag decoding: `~(r >> 1)` for odd `r`, `r >> 1` for even `r`. */
  function ZigZag(r: int): int
  {
    if r % 2 == 1 then -(r / 2) - 1 else r / 2
  }

  /** The points decoded from position `i` on, each a running sum of the
    * decoded deltas starting from (`lat`, `lng`). */
  function DecodeFrom(s: string, i: nat, lat: int, lng: int): (r: Option<seq<E5>>)
    decreases |s| - i
  {
    if i >= |s| then Some([])
    else
      match ReadValue(s, i, 1, 0)
      case None => None
      case Some((rl, j)) =>
        match ReadValue(s, j, 1, 0)
        case None => None
        case Some((rn, k)) =>
          var p := E5(lat + ZigZag(rl), lng + ZigZag(rn));
          match DecodeFrom(s, k, p.lat, p.lng)
          case None => None
          case Some(rest) => Some([p] + rest)
  }

  /** The points of an encoded polyline (None when the text is cut short). */
  function Decoded(s: string): (r: Option<seq<E5>>)
    ensures s == "" ==> r == Some([])
  {
    DecodeFrom(s, 0, 0, 0)
  }

  /** Every decoded point takes at least two characters, one per
    * coordinate. */
  lemma {:induction false} DecodedLength(s: string, i: nat, lat: int, lng: int)
    requires i <= |s|
    requires DecodeFrom(s, i, lat, lng).Some?
    ensures 2 * |DecodeFrom(s, i, lat, lng).value| <= |s| - i
    decreases |s| - i
  {
    if i < |s| {
      var (rl, j) := ReadValue(s, i, 1, 0).value;
      var (rn, k) := ReadValue(s, j, 1, 0).value;
      DecodedLength(s, k, lat + ZigZag(rl), lng + ZigZag(rn));
    }
  }

  function Scale(p: E5): Coord
  {
    Coord(p.lat as real * 0.00001, p.lng as real * 0.00001)
  }

  function ScaleAll(ps: seq<E5>): (r: seq<Coord>)
    ensures |r| == |ps|
    ensures forall k :: 0 <= k < |ps| ==> r[k] == Scale(ps[k])
  {
    if ps == [] then [] else [Scale(ps[0])] + ScaleAll(ps[1..])
  }

  lemma ScaleAllSnoc(ps: seq<E5>, p: E5)
    ensures ScaleAll(ps + [p]) == ScaleAll(ps) + [Scale(p)]
  {
    assert forall k :: 0 <= k < |ps| ==> (ps + [p])[k] == ps[k];
  }

  function Prepend(done: seq<E5>, rest: Option<seq<E5>>): Option<seq<E5>>
  {
    match rest
    case None => None
    case Some(r) => Some(done + r)
  }

  /** One of the two inner `while True` loops of `_decode_polyline`: reads
    * a varint from `index` on; `ok` is false where the source raises
    * IndexError. */
  method ReadVarint(encoded: string, index: nat) returns (ok: bool, result: int, next: nat)
    requires index <= |encoded|
    ensures ok <==> ReadValue(encoded, index, 1, 0).Some?
    ensures ok ==> ReadValue(encoded, index, 1, 0) == Some((result, next))
  {
    next := index;
    result := 1;
    var shift := 0;
    while true
      invariant index <= next <= |encoded|
      invariant ReadValue(encoded, index, 1, 0) == ReadValue(encoded, next, result, shift)
      decreases |encoded| - next
    {
      if next >= |encoded| { return false, result, next; }
      var b := encoded[next] as int - 63 - 1;
      next := next + 1;
      result := result + b * Pow2(shift);
      shift := shift + 5;
      if b < 0x1f { break; }
    }
    ok := true;
  }

  /** Decoding from `i` produces the point made of the two values read
    * there, then whatever follows. */
  lemma DecodeUnfold(s: string, i: nat, j: nat, k: nat, a: int, b: int, lat: int, lng: int, p: E5)
    requires i < |s|
    requires ReadValue(s, i, 1, 0) == Some((a, j))
    requires ReadValue(s, j, 1, 0) == Some((b, k))
    requires p == E5(lat + ZigZag(a), lng + ZigZag(b))
    ensures DecodeFrom(s, i, lat, lng) == Prepend([p], DecodeFrom(s, k, p.lat, p.lng))
  {
  }

  /** `_decode_polyline`: the outer loop of the source around its two
    * varint reads. The result is the decoded polyline scaled to degrees, or
    * None where the source raises IndexError on a truncated text. */
  method DecodePolyline(encoded: string) returns (r: Option<seq<Coord>>)
    ensures Decoded(encoded).None? <==> r.None?
    ensures Decoded(encoded).Some? ==> r == Some(ScaleAll(Decoded(encoded).value))
    ensures r == DecodedCoords(encoded)
  {
    var coords: seq<Coord> := [];
    ghost var points: seq<E5> := [];
    var index, lat, lng := 0, 0, 0;
    var length := |encoded|;
    ghost var whole := Decoded(encoded);
    if whole.Some? {
      assert [] + whole.value == whole.value;
    }
    while index < length
      invariant 0 <= index <= length
      invariant coords == ScaleAll(points)
      invariant whole == Prepend(points, DecodeFrom(encoded, index, lat, lng))
      decreases length - index
    {
      var ok1, rlat, j := ReadVarint(encoded, index);
      if !ok1 { return None; }
      var ok2, rlng, k := ReadVarint(encoded, j);
      if !ok2 { return None; }
      var dlat := if rlat % 2 == 1 then -(rlat / 2) - 1 else rlat / 2;
      var dlng := if rlng % 2 == 1 then -(rlng / 2) - 1 else rlng / 2;
      assert dlat == ZigZag(rlat) && dlng == ZigZag(rlng);
      var p := E5(lat + dlat, lng + dlng);
      DecodeStep(encoded, index, j, k, rlat, rlng, lat, lng, p, points, whole);
      index, lat, lng := k, lat + dlat, lng + dlng;
      ScaleAllSnoc(points, p);
      points := points + [p];
      coords := coords + [Scale(p)];
    }
    assert DecodeFrom(encoded, index, lat, lng) == Some([]);
    assert points + [] == points;
    r := Some(coords);
  }

  /** One turn of the outer decoding loop keeps the decoded whole as the
    * points so far followed by what decodes from the new position. */
  lemma DecodeStep(s: string, i: nat, j: nat, k: nat, a: int, b: int, lat: int, lng: int, p: E5, points: seq<E5>,
                   whole: Option<seq<E5>>)
    requires i < |s|
    requires ReadValue(s, i, 1, 0) == Some((a, j))
    requires ReadValue(s, j, 1, 0) == Some((b, k))
    requires p == E5(lat + ZigZag(a), lng + ZigZag(b))
    requires whole == Prepend(points, DecodeFrom(s, i, lat, lng))
    ensures whole == Prepend(points + [p], DecodeFrom(s, k, p.lat, p.lng))
  {
    DecodeUnfold(s, i, j, k, a, b, lat, lng, p);
    PrependAssoc(points, p, DecodeFrom(s, k, p.lat, p.lng));
  }

  lemma PrependAssoc(points: seq<E5>, p: E5, rest: Option<seq<E5>>)
    ensures Prepend(points, Prepend([p], rest)) == Prepend(points + [p], rest)
  {
    if rest.Some? {
      assert points + ([p] + rest.value) == (points + [p]) + rest.value;
    }
  }

  // ---------------------------------------------------------------
  // Encoding, and the round trip

  /** The standard encoding of a non-negative number: five-bit chunks, least
    * significant first, every chunk but the last marked with 0x20, each
    * chunk offset by 63. */
  function EncodeUnsigned(u: nat): (s: string)
    ensures |s| >= 1
    decreases u
  {
    if u < 32 then [(u + 63) as char]
    else [((u % 32) + 32 + 63) as char] + EncodeUnsigned(u / 32)
  }

  function ZigZagEncode(v: int): nat
  {
    if v < 0 then -2 * v - 1 else 2 * v
  }

  function EncodeValue(v: int): string
  {
    EncodeUnsigned(ZigZagEncode(v))
  }

  /** The encoded polyline of `points`, as deltas from (`lat`, `lng`). */
  function Encode(points: seq<E5>, lat: int, lng: int): string
  {
    if points == [] then ""
    else
      var p := points[0];
      EncodeValue(p.lat - lat) + EncodeValue(p.lng - lng) + Encode(points[1..], p.lat, p.lng)
  }

  lemma ZigZagRoundTrip(v: int)
    ensures ZigZag(ZigZagEncode(v)) == v
  {
  }

  /** Reading the standard encoding of `u` with the source's accumulator
    * adds `u - 1` chunks' worth at the current shift: starting from 1 at
    * shift 0 it yields exactly `u`, and consumes exactly the encoding. */
  lemma {:induction false} ReadEncodedUnsigned(s: string, i: nat, u: nat, result: int, shift: nat)
    requires i + |EncodeUnsigned(u)| <= |s|
    requires s[i..i + |EncodeUnsigned(u)|] == EncodeUnsigned(u)
    ensures ReadValue(s, i, result, shift)
      == Some((result + u * Pow2(shift) - Pow2(shift), i + |EncodeUnsigned(u)|))
    decreases u
  {
    var e := EncodeUnsigned(u);
    var p := Pow2(shift);
    assert s[i] == e[0] by { assert s[i..i + |e|][0] == s[i]; }
    if u < 32 {
      LastChunk(s, i, u, result, shift);
    } else {
      var tail := EncodeUnsigned(u / 32);
      var acc := result + (u % 32 + 31) * p;
      FirstChunk(s, i, u, result, shift);
      ReadEncodedUnsigned(s, i + 1, u / 32, acc, shift + 5);
      Pow2Plus5(shift);
      ChunkArithmetic(u, result, p);
    }
  }

  /** The last chunk of an encoding ends the read. */
  lemma LastChunk(s: string, i: nat, u: nat, result: int, shift: nat)
    requires u < 32 && i < |s| && s[i] == EncodeUnsigned(u)[0]
    ensures ReadValue(s, i, result, shift) == Some((result + u * Pow2(shift) - Pow2(shift), i + 1))
  {
    var p := Pow2(shift);
    assert s[i] as int - 64 == u - 1;
    assert (u - 1) * p == u * p - p;
  }

  /** A chunk with the continuation bit adds its five bits and moves on to
    * the rest of the encoding. */
  lemma FirstChunk(s: string, i: nat, u: nat, result: int, shift: nat)
    requires u >= 32 && i + |EncodeUnsigned(u)| <= |s|
    requires s[i..i + |EncodeUnsigned(u)|] == EncodeUnsigned(u)
    ensures var tail := EncodeUnsigned(u / 32);
      && |EncodeUnsigned(u)| == 1 + |tail|
      && s[i + 1..i + 1 + |tail|] == tail
      && ReadValue(s, i, result, shift) == ReadValue(s, i + 1, result + (u % 32 + 31) * Pow2(shift), shift + 5)
  {
    var e := EncodeUnsigned(u);
    var tail := EncodeUnsigned(u / 32);
    assert e == [e[0]] + tail;
    assert s[i] == e[0] by { assert s[i..i + |e|][0] == s[i]; }
    assert s[i] as int - 64 == u % 32 + 31;
    assert s[i + 1..i + 1 + |tail|] == s[i..i + |e|][1..];
  }

  /** The source's reader, started as it is (result 1, shift 0), reads
    * back an encoded number. */
  lemma ReadEncoded(s: string, i: nat, u: nat)
    requires i + |EncodeUnsigned(u)| <= |s|
    requires s[i..i + |EncodeUnsigned(u)|] == EncodeUnsigned(u)
    ensures ReadValue(s, i, 1, 0) == Some((u, i + |EncodeUnsigned(u)|))
  {
    ReadEncodedUnsigned(s, i, u, 1, 0);
    assert Pow2(0) == 1;
  }

  lemma ChunkArithmetic(u: nat, result: int, p: int)
    ensures result + (u % 32 + 31) * p + (u / 32) * (32 * p) - 32 * p == result + u * p - p
  {
    var q, m := u / 32, u % 32;
    assert u == 32 * q + m;
    assert (m + 31) * p == m * p + 31 * p;
    assert q * (32 * p) == (32 * q) * p;
    assert (32 * q + m) * p == (32 * q) * p + m * p;
  }

  /** Decoding the encoding of a polyline gives the polyline back. */
  lemma {:induction false} DecodeEncodeFrom(s: string, i: nat, points: seq<E5>, lat: int, lng: int)
    requires i + |Encode(points, lat, lng)| == |s|
    requires s[i..] == Encode(points, lat, lng)
    ensures DecodeFrom(s, i, lat, lng) == Some(points)
    decreases points
  {
    if points != [] {
      var j, k := HeadSlices(s, i, points, lat, lng);
      DecodePoint(s, i, j, k, points[0], lat, lng);
      DecodeEncodeFrom(s, k, points[1..], points[0].lat, points[0].lng);
      assert [points[0]] + points[1..] == points;
    }
  }

  /** Reading the encodings of a point's two deltas at `i` yields that
    * point, and decoding goes on at `k`. */
  lemma DecodePoint(s: string, i: nat, j: nat, k: nat, p: E5, lat: int, lng: int)
    requires j == i + |EncodeValue(p.lat - lat)| && j <= |s| && s[i..j] == EncodeValue(p.lat - lat)
    requires k == j + |EncodeValue(p.lng - lng)| && k <= |s| && s[j..k] == EncodeValue(p.lng - lng)
    ensures DecodeFrom(s, i, lat, lng) == Prepend([p], DecodeFrom(s, k, p.lat, p.lng))
  {
    var ua, ub := ZigZagEncode(p.lat - lat), ZigZagEncode(p.lng - lng);
    ReadEncoded(s, i, ua);
    ReadEncoded(s, j, ub);
    ZigZagRoundTrip(p.lat - lat);
    ZigZagRoundTrip(p.lng - lng);
    DecodeUnfold(s, i, j, k, ua, ub, lat, lng, p);
  }

  /** Where the encodings of the first point's two values and of the rest
    * of the polyline lie. */
  lemma HeadSlices(s: string, i: nat, points: seq<E5>, lat: int, lng: int) returns (j: nat, k: nat)
    requires points != []
    requires i + |Encode(points, lat, lng)| == |s|
    requires s[i..] == Encode(points, lat, lng)
    ensures var ea := EncodeValue(points[0].lat - lat);
      j == i + |ea| && j <= |s| && s[i..j] == ea
    ensures var eb := EncodeValue(points[0].lng - lng);
      k == j + |eb| && k <= |s| && s[j..k] == eb
    ensures k + |Encode(points[1..], points[0].lat, points[0].lng)| == |s|
    ensures s[k..] == Encode(points[1..], points[0].lat, points[0].lng)
  {
    var p := points[0];
    var ea, eb := EncodeValue(p.lat - lat), EncodeValue(p.lng - lng);
    var rest := Encode(points[1..], p.lat, p.lng);
    assert Encode(points, lat, lng) == ea + eb + rest;
    j := i + |ea|;
    k := j + |eb|;
    SliceParts(s, i, ea, eb, rest);
  }

  lemma SliceParts(s: string, i: nat, a: string, b: string, c: string)
    requires i <= |s| && s[i..] == a + b + c
    ensures i + |a| + |b| + |c| == |s|
    ensures s[i..i + |a|] == a
    ensures s[i + |a|..i + |a| + |b|] == b
    ensures s[i + |a| + |b|..] == c
  {
    assert s[i..i + |a|] == s[i..][..|a|];
    assert s[i + |a|..i + |a| + |b|] == s[i..][|a|..|a| + |b|];
    assert s[i + |a| + |b|..] == s[i..][|a| + |b|..];
  }

  /** Round trip: `_decode_polyline` inverts the standard polyline encoding. */
  lemma PolylineRoundTrip(points: seq<E5>)
    ensures Decoded(Encode(points, 0, 0)) == Some(points)
  {
    var s := Encode(points, 0, 0);
    assert s[0..] == s;
    DecodeEncodeFrom(s, 0, points, 0, 0);
  }

  /** The textbook reading of a varint: chunk `c = ord(ch) - 63`, value bits
    * `c & 0x1f`, continue while `c >= 0x20`; the accumulator starts at 0. */
  function StandardRead(s: string, i: nat, acc: int, shift: nat): (r: Option<(int, nat)>)
    decreases |s| - i
  {
    if i >= |s| then None
    else
      var c := s[i] as int - 63;
      if c < 32 then Some((acc + c * Pow2(shift), i + 1))
      else StandardRead(s, i + 1, acc + (c - 32) * Pow2(shift), shift + 5)
  }

  /** On well-formed text (every character between '?' and '~') the
    * source's unusual accumulator, which starts at 1 and adds
    * `ord(ch) - 64` per chunk, agrees with the textbook reading. */
  lemma {:induction false} ReadValueIsStandard(s: string, i: nat, acc: int, shift: nat)
    requires forall k :: i <= k < |s| ==> '?' <= s[k] <= '~'
    ensures ReadValue(s, i, acc + Pow2(shift), shift) == StandardRead(s, i, acc, shift)
    decreases |s| - i
  {
    if i < |s| {
      var c := s[i] as int - 63;
      if c >= 32 {
        Pow2Plus5(shift);
        assert acc + Pow2(shift) + (c - 1) * Pow2(shift)
            == acc + (c - 32) * Pow2(shift) + Pow2(shift + 5);
        ReadValueIsStandard(s, i + 1, acc + (c - 32) * Pow2(shift), shift + 5);
      }
    }
  }

  // ---------------------------------------------------------------
  // Paths returned by a path fetcher

  /** The shapes of path the model recognises, in the order they are
    * tried: nothing; one encoded polyline; a list of encoded polylines; a
    * list of [lat, lon] pairs; a list of point dictionaries; a dictionary
    * holding a polyline; anything else (a number, an empty list, ...). */
  datatype Path =
    | NoPath
    | Encoded(text: string)
    | EncodedList(parts: seq<string>)
    | Pairs(items: seq<seq<Value>>)
    | PointDicts(dicts: seq<PointDict>)
    | DictPath(overview: Option<string>, keyed: seq<KeyEntry>)
    | Unrecognised

  /** A point dictionary: its values under "lat", "lng", "lon", "latitude"
    * and "longitude", None where the key is absent. */
  datatype PointDict = PointDict(lat: Option<Value>, lng: Option<Value>, lon: Option<Value>,
                                 latitude: Option<Value>, longitude: Option<Value>)

  /** What a dictionary path holds under one of "polyline", "points" and
    * "path" (`keyed` lists the three in that order): text, a list (itself a
    * path), or nothing usable (the key is absent, or holds another type).
    * `overview` is the text at `routes[0].overview_polyline.points` when
    * that lookup succeeds, None when it raises or finds nothing. */
  datatype KeyEntry = Text(s: string) | ListValue(inner: Path) | Unusable

  /** Appends `part` to `line`, dropping the first point of `part` when it
    * repeats the last point of `line`. */
  function Stitch(line: seq<Coord>, part: seq<Coord>): (r: seq<Coord>)
    ensures |line| <= |r| && r[..|line|] == line
    ensures line != [] && part != [] && line[|line| - 1] == part[0] ==> r == line + part[1..]
    ensures !(line != [] && part != [] && line[|line| - 1] == part[0]) ==> r == line + part
  {
    if line != [] && part != [] && line[|line| - 1] == part[0] then line + part[1..]
    else line + part
  }

  /** `_decode_polyline` of one text, in degrees (None: IndexError). */
  function DecodedCoords(text: string): Option<seq<Coord>>
  {
    match Decoded(text)
    case None => None
    case Some(p) => Some(ScaleAll(p))
  }

  /** Decoding the listed polylines one after the other and stitching them
    * onto `line`; None when one of them is cut short. */
  function StitchDecoded(line: seq<Coord>, parts: seq<string>): Option<seq<Coord>>
    decreases |parts|
  {
    if parts == [] then Some(line)
    else
      match DecodedCoords(parts[0])
      case None => None
      case Some(p) => StitchDecoded(Stitch(line, p), parts[1..])
  }

  /** `[float(p[0]), float(p[1])]` for one item of a pair list; None where
    * that raises: an item shorter than two, or a value `float()` refuses. */
  function PairCoord(p: seq<Value>): (r: Option<Coord>)
    ensures r.Some? <==> |p| >= 2 && FloatOf(p[0]).Some? && FloatOf(p[1]).Some?
    ensures r.Some? ==> r.value == Coord(FloatOf(p[0]).value, FloatOf(p[1]).value)
  {
    if |p| < 2 then None
    else
      match (FloatOf(p[0]), FloatOf(p[1]))
      case (Some(a), Some(b)) => Some(Coord(a, b))
      case _ => None
  }

  /** The comprehension over a pair list: one point per item, in order, or
    * None as soon as one item raises. */
  function PairCoords(items: seq<seq<Value>>): (r: Option<seq<Coord>>)
    ensures r.Some? <==> forall i :: 0 <= i < |items| ==> PairCoord(items[i]).Some?
    ensures r.Some? ==> |r.value| == |items|
    ensures r.Some? ==> forall i :: 0 <= i < |items| ==> r.value[i] == PairCoord(items[i]).value
  {
    if items == [] then Some([])
    else
      var rest := PairCoords(items[1..]);
      assert forall i :: 1 <= i < |items| ==> items[i] == items[1..][i - 1];
      match PairCoord(items[0])
      case None => None
      case Some(c) => if rest.Some? then Some([c] + rest.value) else None
  }

  /** What one point dictionary contributes. */
  datatype DictItem = Skipped | Raises | At(c: Coord)

  /** `[float(a), float(b)]`, or Raises when `float()` refuses either. */
  function ReadPoint(a: Value, b: Value): (r: DictItem)
    ensures r.At? <==> FloatOf(a).Some? && FloatOf(b).Some?
    ensures r.At? ==> r.c == Coord(FloatOf(a).value, FloatOf(b).value)
  {
    match (FloatOf(a), FloatOf(b))
    case (Some(x), Some(y)) => At(Coord(x, y))
    case _ => Raises
  }

  /** One point dictionary: "lat" with "lng" (or, lacking "lng", "lon")
    * comes first, then "latitude" with "longitude"; a dictionary holding
    * neither pair is skipped. */
  function DictItemOf(p: PointDict): (r: DictItem)
    ensures p.lat.Some? && p.lng.Some? ==> r == ReadPoint(p.lat.value, p.lng.value)
    ensures p.lat.Some? && p.lng.None? && p.lon.Some? ==> r == ReadPoint(p.lat.value, p.lon.value)
    ensures !(p.lat.Some? && (p.lng.Some? || p.lon.Some?)) && p.latitude.Some? && p.longitude.Some? ==>
      r == ReadPoint(p.latitude.value, p.longitude.value)
    ensures r.Skipped? <==> !(p.lat.Some? && (p.lng.Some? || p.lon.Some?)) && !(p.latitude.Some? && p.longitude.Some?)
  {
    if p.lat.Some? && (p.lng.Some? || p.lon.Some?) then
      ReadPoint(p.lat.value, if p.lng.Some? then p.lng.value else p.lon.value)
    else if p.latitude.Some? && p.longitude.Some? then
      ReadPoint(p.latitude.value, p.longitude.value)
    else Skipped
  }

  /** The points of a list of point dictionaries, skipped ones left out;
    * None when one of them raises. */
  function DictCoords(dicts: seq<PointDict>): (r: Option<seq<Coord>>)
    ensures r.None? <==> exists i :: 0 <= i < |dicts| && DictItemOf(dicts[i]).Raises?
    ensures r.Some? ==> |r.value| <= |dicts|
  {
    if dicts == [] then Some([])
    else
      var rest := DictCoords(dicts[1..]);
      assert forall i :: 1 <= i < |dicts| ==> dicts[i] == dicts[1..][i - 1];
      match DictItemOf(dicts[0])
      case Raises => None
      case Skipped => rest
      case At(c) => if rest.Some? then Some([c] + rest.value) else None
  }

  /** One dictionary gives its own point, nothing, or the raise. */
  lemma DictCoordsOfOne(p: PointDict)
    ensures DictItemOf(p).Raises? ==> DictCoords([p]) == None
    ensures DictItemOf(p).Skipped? ==> DictCoords([p]) == Some([])
    ensures DictItemOf(p).At? ==> DictCoords([p]) == Some([DictItemOf(p).c])
  {
    assert [p][1..] == [];
    assert DictCoords([p][1..]) == Some([]);
    if DictItemOf(p).At? {
      assert [DictItemOf(p).c] + [] == [DictItemOf(p).c];
    }
  }

  /** The dictionaries are read independently and in order. */
  lemma {:induction false} DictCoordsAppend(a: seq<PointDict>, b: seq<PointDict>)
    ensures DictCoords(a + b) ==
      if DictCoords(a).Some? && DictCoords(b).Some? then Some(DictCoords(a).value + DictCoords(b).value) else None
  {
    if a == [] {
      assert a + b == b;
      if DictCoords(b).Some? {
        assert [] + DictCoords(b).value == DictCoords(b).value;
      }
    } else {
      DictCoordsAppend(a[1..], b);
      assert (a + b)[1..] == a[1..] + b;
      assert (a + b)[0] == a[0];
      match DictItemOf(a[0])
      case Raises =>
      case Skipped =>
      case At(c) =>
        if DictCoords(a).Some? && DictCoords(b).Some? {
          assert [c] + (DictCoords(a[1..]).value + DictCoords(b).value)
              == ([c] + DictCoords(a[1..]).value) + DictCoords(b).value;
        }
    }
  }

  /** The position of the first entry holding text or a list; `|keyed|`
    * when there is none. */
  function FirstUsable(keyed: seq<KeyEntry>): (i: nat)
    ensures i <= |keyed|
    ensures i < |keyed| ==> !keyed[i].Unusable?
    ensures forall j :: 0 <= j < i ==> keyed[j].Unusable?
  {
    if keyed == [] || !keyed[0].Unusable? then 0
    else
      assert forall j :: 1 <= j < |keyed| ==> keyed[j] == keyed[1..][j - 1];
      1 + FirstUsable(keyed[1..])
  }

  /** What `_coerce_path_to_coords` makes of a path (None: it raises). */
  function CoercedPath(path: Path): (r: Option<seq<Coord>>)
    ensures path.NoPath? || path.Unrecognised? ==> r == Some([])
    ensures path.Encoded? ==> r == DecodedCoords(path.text)
    ensures path.Pairs? ==> r.Some?
    ensures path.Pairs? && PairCoords(path.items).None? ==> r == Some([])
    ensures path.DictPath? && path.overview.Some? && Decoded(path.overview.value).Some? ==>
      r == DecodedCoords(path.overview.value)
  {
    match path
    case NoPath => Some([])
    case Encoded(text) => DecodedCoords(text)
    case EncodedList(parts) => StitchDecoded([], parts)
    case Pairs(items) => if PairCoords(items).Some? then PairCoords(items) else Some([])
    case PointDicts(dicts) => DictCoords(dicts)
    case DictPath(overview, keyed) =>
      if overview.Some? && Decoded(overview.value).Some? then DecodedCoords(overview.value)
      else
        var i := FirstUsable(keyed);
        if i == |keyed| then Some([])
        else if keyed[i].Text? then DecodedCoords(keyed[i].s)
        else CoercedPath(keyed[i].inner)
    case Unrecognised => Some([])
  }

  /** An overview polyline that is cut short is passed over (its IndexError
    * is caught), and the keys decide. */
  lemma BrokenOverviewIgnored(overview: string, keyed: seq<KeyEntry>)
    requires Decoded(overview).None?
    ensures CoercedPath(DictPath(Some(overview), keyed)) == CoercedPath(DictPath(None, keyed))
  {
  }

  /** The keys are tried in order: an unusable entry is passed over, text
    * is decoded whatever follows, and a list is coerced whatever follows. */
  lemma KeysInOrder(e: KeyEntry, keyed: seq<KeyEntry>)
    ensures e.Unusable? ==> CoercedPath(DictPath(None, [e] + keyed)) == CoercedPath(DictPath(None, keyed))
    ensures e.Text? ==> CoercedPath(DictPath(None, [e] + keyed)) == DecodedCoords(e.s)
    ensures e.ListValue? ==> CoercedPath(DictPath(None, [e] + keyed)) == CoercedPath(e.inner)
  {
    var all := [e] + keyed;
    assert all[1..] == keyed;
    if e.Unusable? {
      var i := FirstUsable(keyed);
      assert FirstUsable(all) == 1 + i;
      if i < |keyed| {
        assert all[1 + i] == keyed[i];
      }
    }
  }

  /** `_coerce_path_to_coords`. */
  method CoercePathToCoords(path: Path) returns (r: Option<seq<Coord>>)
    ensures r == CoercedPath(path)
    decreases path, 1
  {
    match path {
      case NoPath => r := Some([]);
      case Encoded(text) => r := DecodePolyline(text);
      case EncodedList(parts) => r := StitchPolylines(parts);
      case Pairs(items) =>
        var pairs := PairCoords(items);
        r := if pairs.Some? then pairs else Some([]);
      case PointDicts(dicts) => r := ReadPointDicts(dicts);
      case DictPath(_, _) => r := DictPathCoords(path);
      case Unrecognised => r := Some([]);
    }
  }

  /** The loop over a list of polylines: each is decoded and stitched on. */
  method StitchPolylines(parts: seq<string>) returns (r: Option<seq<Coord>>)
    ensures r == StitchDecoded([], parts)
  {
    var coords: seq<Coord> := [];
    var k := 0;
    while k < |parts|
      invariant 0 <= k <= |parts|
      invariant StitchDecoded([], parts) == StitchDecoded(coords, parts[k..])
    {
      assert parts[k..][1..] == parts[k + 1..];
      var part := DecodePolyline(parts[k]);
      if part.None? { return None; }
      if coords != [] && part.value != [] && coords[|coords| - 1] == part.value[0] {
        coords := coords + part.value[1..];
      } else {
        coords := coords + part.value;
      }
      k := k + 1;
    }
    r := Some(coords);
  }

  /** The loop over a list of point dictionaries. */
  method ReadPointDicts(dicts: seq<PointDict>) returns (r: Option<seq<Coord>>)
    ensures r == DictCoords(dicts)
  {
    var coords: seq<Coord> := [];
    var k := 0;
    while k < |dicts|
      invariant 0 <= k <= |dicts|
      invariant DictCoords(dicts[..k]) == Some(coords)
    {
      var p := dicts[k];
      DictCoordsAppend(dicts[..k], [p]);
      DictCoordsOfOne(p);
      assert dicts[..k + 1] == dicts[..k] + [p];
      if p.lat.Some? && (p.lng.Some? || p.lon.Some?) {
        var lon := if p.lng.Some? then p.lng.value else p.lon.value;
        var a, b := FloatOf(p.lat.value), FloatOf(lon);
        if a.None? || b.None? {
          assert DictItemOf(dicts[k]).Raises?;
          return None;
        }
        assert DictItemOf(p) == At(Coord(a.value, b.value));
        coords := coords + [Coord(a.value, b.value)];
      } else if p.latitude.Some? && p.longitude.Some? {
        var a, b := FloatOf(p.latitude.value), FloatOf(p.longitude.value);
        if a.None? || b.None? {
          assert DictItemOf(dicts[k]).Raises?;
          return None;
        }
        assert DictItemOf(p) == At(Coord(a.value, b.value));
        coords := coords + [Coord(a.value, b.value)];
      } else {
        assert DictItemOf(p).Skipped?;
        assert coords + [] == coords;
      }
      k := k + 1;
    }
    assert dicts[..k] == dicts;
    r := Some(coords);
  }

  /** A dictionary path: the overview polyline when it decodes, else the
    * loop over the three keys. */
  method DictPathCoords(path: Path) returns (r: Option<seq<Coord>>)
    requires path.DictPath?
    ensures r == CoercedPath(path)
    decreases path, 0
  {
    var overview, keyed := path.overview, path.keyed;
    if overview.Some? {
      var ov := DecodePolyline(overview.value);
      if ov.Some? { return ov; }
    }
    var k := 0;
    while k < |keyed|
      invariant 0 <= k <= FirstUsable(keyed)
    {
      match keyed[k] {
        case Text(text) =>
          KeyedPath(path, k);
          r := DecodePolyline(text);
          return;
        case ListValue(inner) =>
          KeyedPath(path, k);
          r := CoercePathToCoords(inner);
          return;
        case Unusable =>
      }
      k := k + 1;
    }
    KeyedPath(path, k);
    r := Some([]);
  }

  /** A dictionary path whose overview does not decode is decided by its
    * first usable key. */
  lemma KeyedPath(path: Path, k: nat)
    requires path.DictPath? && k <= |path.keyed|
    requires path.overview.None? || Decoded(path.overview.value).None?
    requires k == FirstUsable(path.keyed)
    ensures k == |path.keyed| ==> CoercedPath(path) == Some([])
    ensures k < |path.keyed| && path.keyed[k].Text? ==> CoercedPath(path) == DecodedCoords(path.keyed[k].s)
    ensures k < |path.keyed| && path.keyed[k].ListValue? ==> CoercedPath(path) == CoercedPath(path.keyed[k].inner)
  {
  }

  // ---------------------------------------------------------------
  // build_map

  /** What a path fetcher does for one leg: raise, or return a path. */
  datatype Fetched = Raised | Returned(path: Path)

  /** A route as handed to the renderer: `nodes_abs` and `nodes`. */
  datatype RouteNodes = RouteNodes(nodesAbs: seq<int>, nodes: seq<int>)

  /** One drawn route line: palette slot and coordinates. */
  datatype Drawn = Drawn(color: nat, coords: seq<Coord>)

  datatype MapError = NoPoints | IndexOutOfRange

  const PaletteSize: nat := 8

  /** Python's `points[k]`, negative indices counting from the end. */
  function PyIndex<T>(s: seq<T>, k: int): (r: Option<T>)
    ensures r.Some? <==> -|s| <= k < |s|
    ensures 0 <= k < |s| ==> r == Some(s[k])
  {
    if 0 <= k < |s| then Some(s[k])
    else if -|s| <= k < 0 then Some(s[|s| + k])
    else None
  }

  /** The nodes a route is drawn through: `nodes_abs or nodes or []`. */
  function RouteNodeList(route: RouteNodes): seq<int>
  {
    if route.nodesAbs != [] then route.nodesAbs else route.nodes
  }

  /** One leg's coordinates: whatever the fetcher's path coerces to (a
    * raised exception counting as nothing), and the straight segment from
    * origin to destination when that is empty. */
  function LegCoords(o: Coord, d: Coord, fetch: Option<(Coord, Coord) -> Fetched>): (r: seq<Coord>)
    ensures r != []
  {
    var got :=
      if fetch.None? then []
      else match fetch.value(o, d)
        case Raised => []
        case Returned(path) =>
          match CoercedPath(path)
          case None => []
          case Some(c) => c;
    if got == [] then [o, d] else got
  }

  /** The line of a route whose legs from position `k` on are stitched onto
    * `line`; None when a node is not a valid index of `points`. */
  function RouteLine(points: seq<Coord>, nodes: seq<int>, k: nat, line: seq<Coord>,
                     fetch: Option<(Coord, Coord) -> Fetched>): Option<seq<Coord>>
    decreases |nodes| - k
  {
    if k + 1 >= |nodes| then Some(line)
    else
      match (PyIndex(points, nodes[k]), PyIndex(points, nodes[k + 1]))
      case (Some(o), Some(d)) => RouteLine(points, nodes, k + 1, Stitch(line, LegCoords(o, d, fetch)), fetch)
      case _ => None
  }

  /** The lines drawn for routes from position `r` on, appended to `drawn`. */
  function DrawnFrom(points: seq<Coord>, routes: seq<RouteNodes>, r: nat, drawn: seq<Drawn>,
                     fetch: Option<(Coord, Coord) -> Fetched>): (res: Result<seq<Drawn>, MapError>)
    ensures res.Err? ==> res.error == IndexOutOfRange
    decreases |routes| - r
  {
    if r >= |routes| then Ok(drawn)
    else
      var nodes := RouteNodeList(routes[r]);
      if |nodes| < 2 then DrawnFrom(points, routes, r + 1, drawn, fetch)
      else
        match RouteLine(points, nodes, 0, [], fetch)
        case None => Err(IndexOutOfRange)
        case Some(line) =>
          var next := if line == [] then drawn else drawn + [Drawn(r % PaletteSize, line)];
          DrawnFrom(points, routes, r + 1, next, fetch)
  }

  /** What `build_map` draws: an error without points, otherwise one line
    * per route with at least two nodes. */
  function BuildMapSpec(points: seq<Coord>, routes: seq<RouteNodes>,
                        fetch: Option<(Coord, Coord) -> Fetched>): (r: Result<seq<Drawn>, MapError>)
    ensures r == Err(NoPoints) <==> points == []
    ensures r.Err? && points != [] ==> r.error == IndexOutOfRange
  {
    if points == [] then Err(NoPoints) else DrawnFrom(points, routes, 0, [], fetch)
  }

  /** The inner loop of `build_map` over one route's legs (None: a node is
    * not a valid index of `points`, an IndexError in the source). */
  method TraceRoute(points: seq<Coord>, nodes: seq<int>,
                    fetch: Option<(Coord, Coord) -> Fetched>) returns (line: Option<seq<Coord>>)
    ensures line == RouteLine(points, nodes, 0, [], fetch)
  {
    var full: seq<Coord> := [];
    var k := 0;
    while k + 1 < |nodes|
      invariant 0 <= k
      invariant RouteLine(points, nodes, 0, [], fetch) == RouteLine(points, nodes, k, full, fetch)
      decreases |nodes| - k
    {
      var o := PyIndex(points, nodes[k]);
      var d := PyIndex(points, nodes[k + 1]);
      if o.None? || d.None? { return None; }
      var leg := LegCoords(o.value, d.value, fetch);
      full := Stitch(full, leg);
      k := k + 1;
    }
    line := Some(full);
  }

  /** `build_map`: the loop over routes. */
  method BuildMap(points: seq<Coord>, routes: seq<RouteNodes>,
                  fetch: Option<(Coord, Coord) -> Fetched>) returns (r: Result<seq<Drawn>, MapError>)
    ensures r == BuildMapSpec(points, routes, fetch)
  {
    if points == [] { return Err(NoPoints); }
    var drawn: seq<Drawn> := [];
    var ri := 0;
    while ri < |routes|
      invariant 0 <= ri <= |routes|
      invariant BuildMapSpec(points, routes, fetch) == DrawnFrom(points, routes, ri, drawn, fetch)
    {
      var nodes := RouteNodeList(routes[ri]);
      if |nodes| >= 2 {
        var line := TraceRoute(points, nodes, fetch);
        if line.None? { return Err(IndexOutOfRange); }
        if line.value != [] {
          drawn := drawn + [Drawn(ri % PaletteSize, line.value)];
        }
      }
      ri := ri + 1;
    }
    r := Ok(drawn);
  }

  /** The points a route's nodes name, in order. */
  function NodePoints(points: seq<Coord>, nodes: seq<int>): seq<Coord>
    requires forall k :: 0 <= k < |nodes| ==> 0 <= nodes[k] < |points|
  {
    if nodes == [] then [] else [points[nodes[0]]] + NodePoints(points, nodes[1..])
  }

  /** Without a path fetcher every leg is the straight segment, and the
    * junctions merge: the drawn line passes through exactly the points of
    * the route's nodes, in order. */
  lemma {:induction false} StraightRouteLine(points: seq<Coord>, nodes: seq<int>, k: nat)
    requires forall j :: 0 <= j < |nodes| ==> 0 <= nodes[j] < |points|
    requires k < |nodes|
    ensures RouteLine(points, nodes, k, NodePoints(points, nodes[..k + 1]), None)
         == Some(NodePoints(points, nodes))
    decreases |nodes| - k
  {
    var line := NodePoints(points, nodes[..k + 1]);
    NodePointsAppend(points, nodes[..k + 1]);
    if k + 1 >= |nodes| {
      assert nodes[..k + 1] == nodes;
    } else {
      var o, d := points[nodes[k]], points[nodes[k + 1]];
      assert line[|line| - 1] == o;
      NodePointsAppend(points, nodes[..k + 2]);
      assert nodes[..k + 2][..k + 1] == nodes[..k + 1];
      assert Stitch(line, LegCoords(o, d, None)) == NodePoints(points, nodes[..k + 2]);
      StraightRouteLine(points, nodes, k + 1);
    }
  }

  lemma {:induction false} NodePointsAppend(points: seq<Coord>, nodes: seq<int>)
    requires forall j :: 0 <= j < |nodes| ==> 0 <= nodes[j] < |points|
    requires nodes != []
    ensures NodePoints(points, nodes) == NodePoints(points, nodes[..|nodes| - 1]) + [points[nodes[|nodes| - 1]]]
    decreases |nodes|
  {
    if |nodes| > 1 {
      NodePointsAppend(points, nodes[1..]);
      assert nodes[1..][..|nodes| - 2] == nodes[..|nodes| - 1][1..];
    }
  }

  /** Without a fetcher, a route over valid node indices is drawn through
    * the points of its nodes. */
  lemma StraightLineThroughNodes(points: seq<Coord>, nodes: seq<int>)
    requires forall j :: 0 <= j < |nodes| ==> 0 <= nodes[j] < |points|
    requires |nodes| >= 2
    ensures RouteLine(points, nodes, 0, [], None) == Some(NodePoints(points, nodes))
  {
    StraightRouteLine(points, nodes, 0);
    assert NodePoints(points, nodes[..1]) == [points[nodes[0]]];
    assert RouteLine(points, nodes, 0, [], None) == RouteLine(points, nodes, 0, [points[nodes[0]]], None) by {
      var o, d := points[nodes[0]], points[nodes[1]];
      assert Stitch([], LegCoords(o, d, None)) == [o, d];
      assert Stitch([o], LegCoords(o, d, None)) == [o, d];
    }
  }

  /** The positions, from `r` on, of the routes with at least two nodes:
    * the routes `build_map` draws. */
  function Drawable(routes: seq<RouteNodes>, r: nat): (o: seq<nat>)
    ensures forall j :: 0 <= j < |o| ==> r <= o[j] < |routes| && |RouteNodeList(routes[o[j]])| >= 2
    decreases |routes| - r
  {
    if r >= |routes| then []
    else if |RouteNodeList(routes[r])| >= 2 then [r] + Drawable(routes, r + 1)
    else Drawable(routes, r + 1)
  }

  /** Every route from `r` on with at least two nodes is among the drawable
    * ones. */
  lemma {:induction false} DrawableIsComplete(routes: seq<RouteNodes>, r: nat)
    ensures forall q :: r <= q < |routes| && |RouteNodeList(routes[q])| >= 2 ==> q in Drawable(routes, r)
    decreases |routes| - r
  {
    if r < |routes| {
      DrawableIsComplete(routes, r + 1);
      if |RouteNodeList(routes[r])| >= 2 {
        assert r in Drawable(routes, r);
      }
    }
  }

  /** The drawable routes are listed in increasing order of position. */
  lemma {:induction false} DrawableIsOrdered(routes: seq<RouteNodes>, r: nat)
    ensures forall i, j :: 0 <= i < j < |Drawable(routes, r)| ==> Drawable(routes, r)[i] < Drawable(routes, r)[j]
    decreases |routes| - r
  {
    if r < |routes| && |RouteNodeList(routes[r])| >= 2 {
      DrawableIsOrdered(routes, r + 1);
      var rest := Drawable(routes, r + 1);
      var o := [r] + rest;
      assert Drawable(routes, r) == o;
      forall i, j | 0 <= i < j < |o| ensures o[i] < o[j] {
        assert o[j] == rest[j - 1];
        if i > 0 { assert o[i] == rest[i - 1]; }
      }
    } else if r < |routes| {
      DrawableIsOrdered(routes, r + 1);
    }
  }

  /** A route with at least one leg, or a line already started, never
    * comes out empty: every leg contributes at least one point. */
  lemma {:induction false} RouteLineNonEmpty(points: seq<Coord>, nodes: seq<int>, k: nat, line: seq<Coord>,
                                            fetch: Option<(Coord, Coord) -> Fetched>)
    requires RouteLine(points, nodes, k, line, fetch).Some?
    requires line != [] || k + 1 < |nodes|
    ensures RouteLine(points, nodes, k, line, fetch).value != []
    decreases |nodes| - k
  {
    if k + 1 < |nodes| {
      var o, d := PyIndex(points, nodes[k]).value, PyIndex(points, nodes[k + 1]).value;
      var leg := LegCoords(o, d, fetch);
      var next := Stitch(line, leg);
      assert next != [] by {
        if line == [] { assert next == leg; }
      }
      RouteLineNonEmpty(points, nodes, k + 1, next, fetch);
    }
  }

  /** The drawn lines are, in order, exactly one per route with at least
    * two nodes: the route's traced line in the palette slot of the route's
    * position. */
  lemma {:induction false} DrawnLinesAreRoutes(points: seq<Coord>, routes: seq<RouteNodes>, r: nat,
                                              drawn: seq<Drawn>, fetch: Option<(Coord, Coord) -> Fetched>)
    requires DrawnFrom(points, routes, r, drawn, fetch).Ok?
    ensures |drawn| <= |DrawnFrom(points, routes, r, drawn, fetch).value|
    ensures DrawnFrom(points, routes, r, drawn, fetch).value[..|drawn|] == drawn
    ensures LinesOfRoutes(points, routes, Drawable(routes, r), DrawnFrom(points, routes, r, drawn, fetch).value[|drawn|..], fetch)
    decreases |routes| - r, 1
  {
    if r < |routes| {
      var nodes := RouteNodeList(routes[r]);
      if |nodes| < 2 {
        assert DrawnFrom(points, routes, r, drawn, fetch) == DrawnFrom(points, routes, r + 1, drawn, fetch);
        DrawnLinesAreRoutes(points, routes, r + 1, drawn, fetch);
      } else {
        DrawnRouteLine(points, routes, r, drawn, fetch);
      }
    }
  }

  /** What `build_map` draws, when it draws: one line per route with at
    * least two nodes, in route order, each the route's traced line in the
    * palette slot of the route's position. */
  lemma BuildMapDrawsEachRoute(points: seq<Coord>, routes: seq<RouteNodes>, fetch: Option<(Coord, Coord) -> Fetched>)
    requires BuildMapSpec(points, routes, fetch).Ok?
    ensures points != []
    ensures LinesOfRoutes(points, routes, Drawable(routes, 0), BuildMapSpec(points, routes, fetch).value, fetch)
  {
    DrawnLinesAreRoutes(points, routes, 0, [], fetch);
    assert BuildMapSpec(points, routes, fetch).value[0..] == BuildMapSpec(points, routes, fetch).value;
  }

  /** `DrawnLinesAreRoutes` for a route `r` that is drawn. */
  lemma {:induction false} DrawnRouteLine(points: seq<Coord>, routes: seq<RouteNodes>, r: nat,
                                         drawn: seq<Drawn>, fetch: Option<(Coord, Coord) -> Fetched>)
    requires r < |routes| && |RouteNodeList(routes[r])| >= 2
    requires DrawnFrom(points, routes, r, drawn, fetch).Ok?
    ensures |drawn| <= |DrawnFrom(points, routes, r, drawn, fetch).value|
    ensures DrawnFrom(points, routes, r, drawn, fetch).value[..|drawn|] == drawn
    ensures LinesOfRoutes(points, routes, Drawable(routes, r), DrawnFrom(points, routes, r, drawn, fetch).value[|drawn|..], fetch)
    decreases |routes| - r, 0
  {
    var nodes := RouteNodeList(routes[r]);
    var line := RouteLine(points, nodes, 0, [], fetch).value;
    RouteLineNonEmpty(points, nodes, 0, [], fetch);
    var next := drawn + [Drawn(r % PaletteSize, line)];
    var out := DrawnFrom(points, routes, r + 1, next, fetch).value;
    assert DrawnFrom(points, routes, r, drawn, fetch).value == out;
    DrawnLinesAreRoutes(points, routes, r + 1, next, fetch);
    assert Drawable(routes, r) == [r] + Drawable(routes, r + 1);
    SplitAfterPrefix(out, drawn, Drawn(r % PaletteSize, line));
    LinesOfRoutesCons(points, routes, r, Drawable(routes, r + 1), Drawn(r % PaletteSize, line), out[|next|..], fetch);
  }

  /** A sequence that starts with `prefix + [x]` continues after `prefix`
    * with `x`. */
  lemma SplitAfterPrefix<T>(out: seq<T>, prefix: seq<T>, x: T)
    requires |prefix| + 1 <= |out| && out[..|prefix| + 1] == prefix + [x]
    ensures out[..|prefix|] == prefix
    ensures out[|prefix|..] == [x] + out[|prefix| + 1..]
  {
    assert out[..|prefix|] == out[..|prefix| + 1][..|prefix|];
    assert out[|prefix|] == out[..|prefix| + 1][|prefix|];
  }

  /** `line` is what `build_map` draws for route `q`: the route's traced
    * line, in the palette slot of its position. */
  ghost predicate DrawnLineOf(points: seq<Coord>, routes: seq<RouteNodes>, q: int, line: Drawn,
                              fetch: Option<(Coord, Coord) -> Fetched>)
  {
    && 0 <= q < |routes|
    && RouteLine(points, RouteNodeList(routes[q]), 0, [], fetch).Some?
    && line == Drawn(q % PaletteSize, RouteLine(points, RouteNodeList(routes[q]), 0, [], fetch).value)
  }

  /** `lines[j]` is what is drawn for route `o[j]`, for every `j`. */
  ghost predicate LinesOfRoutes(points: seq<Coord>, routes: seq<RouteNodes>, o: seq<nat>, lines: seq<Drawn>,
                                fetch: Option<(Coord, Coord) -> Fetched>)
  {
    |lines| == |o| && forall j :: 0 <= j < |o| ==> DrawnLineOf(points, routes, o[j], lines[j], fetch)
  }

  lemma LinesOfRoutesCons(points: seq<Coord>, routes: seq<RouteNodes>, q: int, o: seq<nat>, line: Drawn,
                          lines: seq<Drawn>, fetch: Option<(Coord, Coord) -> Fetched>)
    requires q >= 0 && DrawnLineOf(points, routes, q, line, fetch)
    requires LinesOfRoutes(points, routes, o, lines, fetch)
    ensures LinesOfRoutes(points, routes, [q] + o, [line] + lines, fetch)
  {
    forall j | 0 <= j < |[q] + o|
      ensures DrawnLineOf(points, routes, ([q] + o)[j], ([line] + lines)[j], fetch)
    {
      if j > 0 {
        assert ([q] + o)[j] == o[j - 1] && ([line] + lines)[j] == lines[j - 1];
      }
    }
  }
}
