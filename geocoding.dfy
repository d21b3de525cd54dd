// Address geocoding with two public providers (core/providers/geocoding.py):
// the text normalisation applied to every address, the validation of a
// provider's answer, and the ordered fallback from the first provider to the
// second. Each provider's HTTP call is a parameter mapping the normalised
// address to what the call produced.

module Geocoding {
  import opened Common

  // ---------------------------------------------------------------
  // normalize_address

  /** Every white-space character is a plain space, and no two spaces are
    * adjacent. */
  predicate SingleSpaced(s: string)
  {
    (forall i :: 0 <= i < |s| ==> IsSpace(s[i]) ==> s[i] == ' ')
    && (forall i :: 0 <= i < |s| - 1 ==> !(s[i] == ' ' && s[i + 1] == ' '))
  }

  /** No comma is directly followed by a space. */
  predicate NoSpaceAfterComma(s: string)
  {
    forall i :: 0 <= i < |s| - 1 ==> s[i] == ',' ==> s[i + 1] != ' '
  }

  /** Every comma is followed by a space. */
  predicate CommaSpaced(s: string)
  {
    forall i {:trigger s[i]} :: 0 <= i < |s| ==> s[i] == ',' ==> i + 1 < |s| && s[i + 1] == ' '
  }

  /** The characters of `s` that are not white space, in order. */
  function NonSpace(s: string): (r: string)
    ensures |r| <= |s|
  {
    if s == [] then [] else (if IsSpace(s[0]) then [] else [s[0]]) + NonSpace(s[1..])
  }

  lemma {:induction false} NonSpaceAppend(a: string, b: string)
    ensures NonSpace(a + b) == NonSpace(a) + NonSpace(b)
    decreases |a|
  {
    if a == [] {
      assert a + b == b;
    } else {
      NonSpaceAppend(a[1..], b);
      var h := if IsSpace(a[0]) then [] else [a[0]];
      assert (a + b)[0] == a[0] && (a + b)[1..] == a[1..] + b;
      assert NonSpace(a + b) == h + NonSpace(a[1..] + b);
      assert NonSpace(a) == h + NonSpace(a[1..]);
    }
  }

  lemma {:induction false} NonSpaceOfSpaces(s: string)
    requires forall k :: 0 <= k < |s| ==> IsSpace(s[k])
    ensures NonSpace(s) == []
    decreases |s|
  {
    if s != [] {
      NonSpaceOfSpaces(s[1..]);
    }
  }

  /** `re.sub(r"\s+", " ", s)`: every maximal run of white space becomes one
    * space. */
  function Collapse(s: string): (r: string)
    ensures r == [] <==> s == []
    ensures r != [] ==> (r[0] == ' ' <==> IsSpace(s[0]))
    ensures r != [] && !IsSpace(s[0]) ==> r[0] == s[0]
    ensures SingleSpaced(r)
    decreases |s|
  {
    if s == [] then []
    else if IsSpace(s[0]) then [' '] + Collapse(s[LeadingSpaces(s)..])
    else [s[0]] + Collapse(s[1..])
  }

  /** Collapsing white space keeps every other character, in order. */
  lemma {:induction false} CollapseKeepsText(s: string)
    ensures NonSpace(Collapse(s)) == NonSpace(s)
    decreases |s|
  {
    if s != [] {
      if IsSpace(s[0]) {
        var n := LeadingSpaces(s);
        CollapseKeepsText(s[n..]);
        NonSpaceAppend([' '], Collapse(s[n..]));
        assert s == s[..n] + s[n..];
        NonSpaceAppend(s[..n], s[n..]);
        NonSpaceOfSpaces(s[..n]);
      } else {
        CollapseKeepsText(s[1..]);
        NonSpaceAppend([s[0]], Collapse(s[1..]));
      }
    }
  }

  /** Replacing text by text with the same non-space characters keeps the
    * non-space characters of the whole. */
  lemma {:induction false} ReplaceKeepsText(s: string, pat: string, rep: string)
    requires pat != []
    requires NonSpace(pat) == NonSpace(rep)
    ensures NonSpace(Replace(s, pat, rep)) == NonSpace(s)
    decreases |s|
  {
    if |pat| <= |s| && s[..|pat|] == pat {
      ReplaceKeepsText(s[|pat|..], pat, rep);
      NonSpaceAppend(rep, Replace(s[|pat|..], pat, rep));
      assert s == pat + s[|pat|..];
      NonSpaceAppend(pat, s[|pat|..]);
    } else if s != [] {
      ReplaceKeepsText(s[1..], pat, rep);
      NonSpaceAppend([s[0]], Replace(s[1..], pat, rep));
      assert s == [s[0]] + s[1..];
      NonSpaceAppend([s[0]], s[1..]);
    }
  }

  /** `strip` removes white space only. */
  lemma StripKeepsText(s: string)
    ensures NonSpace(Strip(s)) == NonSpace(s)
  {
    var x, z := StripSplit(s);
    NonSpaceBetweenSpaces(x, Strip(s), z);
  }

  /** White space around a text adds no non-space character. */
  lemma NonSpaceBetweenSpaces(x: string, y: string, z: string)
    requires forall k :: 0 <= k < |x| ==> IsSpace(x[k])
    requires forall k :: 0 <= k < |z| ==> IsSpace(z[k])
    ensures NonSpace(x + (y + z)) == NonSpace(y)
  {
    NonSpaceAppend(x, y + z);
    NonSpaceAppend(y, z);
    NonSpaceOfSpaces(x);
    NonSpaceOfSpaces(z);
    assert NonSpace(y) + [] == NonSpace(y);
  }

  /** `replace(", ", ",")` on single-spaced text leaves no space after a
    * comma and keeps the text single-spaced and its first character. */
  lemma {:induction false} DropCommaSpace(t: string)
    requires SingleSpaced(t)
    ensures var u := Replace(t, ", ", ",");
      SingleSpaced(u) && NoSpaceAfterComma(u) && (u == [] <==> t == []) && (u != [] ==> u[0] == t[0])
    decreases |t|
  {
    var u := Replace(t, ", ", ",");
    if 2 <= |t| && t[..2] == ", " {
      var rest := t[2..];
      DropCommaSpace(rest);
      var u' := Replace(rest, ", ", ",");
      assert u == "," + u';
      if rest != [] {
        assert t[1] == ' ' && t[2] == rest[0];
        assert !IsSpace(rest[0]);
      }
    } else if t != [] {
      var rest := t[1..];
      DropCommaSpace(rest);
      var u' := Replace(rest, ", ", ",");
      assert u == [t[0]] + u';
      if rest != [] {
        assert t[1] == rest[0];
        assert t[0] == ',' ==> t[1] != ' ' by {
          if |t| >= 2 { assert t[..2] == [t[0], t[1]]; }
        }
      }
    }
  }

  /** `replace(",", ", ")` on single-spaced text without a space after a
    * comma puts exactly one space after every comma. */
  lemma {:induction false} AddCommaSpace(u: string)
    requires SingleSpaced(u) && NoSpaceAfterComma(u)
    ensures var v := Replace(u, ",", ", ");
      SingleSpaced(v) && CommaSpaced(v) && (v == [] <==> u == []) && (v != [] ==> v[0] == u[0])
    decreases |u|
  {
    var v := Replace(u, ",", ", ");
    if u != [] {
      var rest := u[1..];
      AddCommaSpace(rest);
      var v' := Replace(rest, ",", ", ");
      if rest != [] {
        assert u[1] == rest[0];
      }
      if u[..1] == "," {
        assert v == ", " + v';
        PrependComma(v');
      } else {
        assert v == [u[0]] + v';
        PrependOther(u[0], v');
      }
    }
  }

  lemma PrependComma(w: string)
    requires SingleSpaced(w) && CommaSpaced(w) && (w != [] ==> w[0] != ' ')
    ensures SingleSpaced(", " + w) && CommaSpaced(", " + w)
  {
    var v := ", " + w;
    forall i | 0 <= i < |v| - 1
      ensures !(v[i] == ' ' && v[i + 1] == ' ') && (v[i] == ',' ==> v[i + 1] == ' ')
    {
      if i >= 2 {
        assert v[i] == w[i - 2] && v[i + 1] == w[i - 1];
      }
    }
    forall i | 0 <= i < |v|
      ensures (IsSpace(v[i]) ==> v[i] == ' ') && (v[i] == ',' ==> i + 1 < |v|)
    {
      if i >= 2 {
        assert v[i] == w[i - 2];
      }
    }
  }

  lemma PrependOther(c: char, w: string)
    requires c != ',' && (IsSpace(c) ==> c == ' ')
    requires SingleSpaced(w) && CommaSpaced(w) && (c == ' ' && w != [] ==> w[0] != ' ')
    ensures SingleSpaced([c] + w) && CommaSpaced([c] + w)
  {
    var v := [c] + w;
    forall i | 0 <= i < |v| - 1
      ensures !(v[i] == ' ' && v[i + 1] == ' ') && (v[i] == ',' ==> v[i + 1] == ' ')
    {
      if i >= 1 {
        assert v[i] == w[i - 1] && v[i + 1] == w[i];
      }
    }
    forall i | 0 <= i < |v|
      ensures (IsSpace(v[i]) ==> v[i] == ' ') && (v[i] == ',' ==> i + 1 < |v|)
    {
      if i >= 1 {
        assert v[i] == w[i - 1];
      }
    }
  }

  /** `normalize_address`: "" for a missing or empty address; otherwise the
    * address stripped, with white-space runs collapsed to one space and one
    * space after every comma. No other character is added, dropped or
    * changed. */
  function NormalizeAddress(address: Option<string>): (r: string)
    ensures address.None? || address == Some("") ==> r == ""
    ensures r != [] ==> !IsSpace(r[0])
    ensures SingleSpaced(r) && CommaSpaced(r)
    ensures address.Some? ==> NonSpace(r) == NonSpace(address.value)
  {
    if address.None? || address.value == "" then ""
    else
      var a := address.value;
      var t := Collapse(Strip(a));
      DropCommaSpace(t);
      var u := Replace(t, ", ", ",");
      AddCommaSpace(u);
      StripKeepsText(a);
      CollapseKeepsText(Strip(a));
      ReplaceKeepsText(t, ", ", ",");
      ReplaceKeepsText(u, ",", ", ");
      Replace(u, ",", ", ")
  }

  /** An address normalises to "" exactly when it is blank. */
  lemma NormalizeBlank(a: string)
    ensures NormalizeAddress(Some(a)) == [] <==> NonSpace(a) == []
  {
    var r := NormalizeAddress(Some(a));
    if r != [] {
      assert NonSpace(r) == [r[0]] + NonSpace(r[1..]);
    }
  }

  // ---------------------------------------------------------------
  // _validate_geodata

  /** A provider's answer: the raw "lat", "lon" and "display_name" entries
    * (Null when absent). */
  datatype GeoItem = GeoItem(lat: Value, lon: Value, displayName: Value)

  datatype GeoError =
    | AddressEmpty                    // GeocodingError("Endereço vazio.")
    | AddressNotFound(address: string) // GeocodingError, not found
    | InvalidCoordinates(address: string)
    | TooGeneric(address: string)     // GeocodingAmbiguous
    | OtherException                  // float() or lower() raising

  predicate HasDigit(s: string)
  {
    exists i :: 0 <= i < |s| && IsDigit(s[i])
  }

  /** The heuristic for a city-level answer in Recife or São Paulo. */
  predicate CityLevel(display: string)
  {
    Contains(display, "brazil") && (Contains(display, ", recife") || Contains(display, ", são paulo"))
  }

  /** `(item.get("display_name") or "").lower()`; None when a truthy value
    * is not text. */
  function DisplayText(v: Value): (r: Option<string>)
    ensures !Truthy(v) ==> r == Some("")
    ensures v.Str? ==> r == Some(Lower(v.s))
  {
    if !Truthy(v) then Some("")
    else if v.Str? then Some(Lower(v.s))
    else None
  }

  predicate InRange(c: (real, real))
  {
    -90.0 <= c.0 <= 90.0 && -180.0 <= c.1 <= 180.0
  }

  /** `_validate_geodata`. */
  function ValidateGeodata(item: Option<GeoItem>, address: string): (r: Result<(real, real), GeoError>)
    ensures item.None? ==> r == Err(AddressNotFound(address))
    ensures r.Ok? <==>
      (item.Some? && FloatOf(item.value.lat).Some? && FloatOf(item.value.lon).Some?
       && InRange((FloatOf(item.value.lat).value, FloatOf(item.value.lon).value))
       && DisplayText(item.value.displayName).Some?
       && !(CityLevel(DisplayText(item.value.displayName).value) && !HasDigit(address)))
    ensures r.Ok? ==> InRange(r.value) && r.value == (FloatOf(item.value.lat).value, FloatOf(item.value.lon).value)
    ensures r == Err(TooGeneric(address)) ==> !HasDigit(address)
  {
    match item
    case None => Err(AddressNotFound(address))
    case Some(it) =>
      match (FloatOf(it.lat), FloatOf(it.lon))
      case (Some(lat), Some(lon)) =>
        if !InRange((lat, lon)) then Err(InvalidCoordinates(address))
        else (match DisplayText(it.displayName)
          case None => Err(OtherException)
          case Some(display) =>
            if CityLevel(display) && !HasDigit(address) then Err(TooGeneric(address))
            else Ok((lat, lon)))
      case _ => Err(OtherException)
  }

  // ---------------------------------------------------------------
  // geocode_address

  /** What a provider call produced: it raised, or returned an item (None
    * stands for no item and for an empty one, which are both falsy). */
  datatype Outcome = Raises | Returned(item: Option<GeoItem>)

  /** One provider branch: the validated coordinates, or None when the call
    * raised, returned nothing or the validation raised. */
  function Attempt(o: Outcome, address: string): (r: Option<(real, real)>)
    ensures r.Some? <==> o.Returned? && o.item.Some? && ValidateGeodata(o.item, address).Ok?
    ensures r.Some? ==> r.value == ValidateGeodata(o.item, address).value
  {
    match o
    case Raises => None
    case Returned(item) =>
      if item.None? then None
      else match ValidateGeodata(item, address)
        case Ok(c) => Some(c)
        case Err(_) => None
  }

  /** `geocode_address`: a blank address is refused before any provider is
    * called; otherwise the first provider, then the second, is asked for the
    * normalised address, and the first answer that validates wins. */
  function GeocodeAddress(address: Option<string>, nominatim: string -> Outcome, mapsco: string -> Outcome)
    : (r: Result<(real, real), GeoError>)
    ensures r == Err(AddressEmpty) <==> address.None? || Strip(address.value) == []
    ensures r.Ok? ==> InRange(r.value)
    ensures r.Err? ==> r.error == AddressEmpty || r.error == AddressNotFound(NormalizeAddress(address))
  {
    if address.None? || Strip(address.value) == [] then Err(AddressEmpty)
    else
      var a := NormalizeAddress(address);
      match Attempt(nominatim(a), a)
      case Some(c) => Ok(c)
      case None =>
        match Attempt(mapsco(a), a)
        case Some(c) => Ok(c)
        case None => Err(AddressNotFound(a))
  }

  /** The providers are consulted in order: the first provider's valid
    * answer wins, and the second is used exactly when the first yields
    * nothing valid. */
  lemma ProvidersInOrder(address: string, nominatim: string -> Outcome, mapsco: string -> Outcome)
    requires Strip(address) != []
    ensures var a := NormalizeAddress(Some(address));
      && (Attempt(nominatim(a), a).Some? ==> GeocodeAddress(Some(address), nominatim, mapsco) == Ok(Attempt(nominatim(a), a).value))
      && (Attempt(nominatim(a), a).None? && Attempt(mapsco(a), a).Some? ==>
            GeocodeAddress(Some(address), nominatim, mapsco) == Ok(Attempt(mapsco(a), a).value))
      && (Attempt(nominatim(a), a).None? && Attempt(mapsco(a), a).None? ==>
            GeocodeAddress(Some(address), nominatim, mapsco) == Err(AddressNotFound(a)))
  {
  }

  /** A too-generic answer from the first provider is not reported: it is
    * swallowed and the second provider decides. */
  lemma AmbiguityIsSwallowed(address: string, item: GeoItem, nominatim: string -> Outcome, mapsco: string -> Outcome)
    requires Strip(address) != []
    requires nominatim(NormalizeAddress(Some(address))) == Returned(Some(item))
    requires ValidateGeodata(Some(item), NormalizeAddress(Some(address))).Err?
    ensures GeocodeAddress(Some(address), nominatim, mapsco).Err? ==>
      GeocodeAddress(Some(address), nominatim, mapsco) == Err(AddressNotFound(NormalizeAddress(Some(address))))
    ensures mapsco(NormalizeAddress(Some(address))) == Raises ==>
      GeocodeAddress(Some(address), nominatim, mapsco) == Err(AddressNotFound(NormalizeAddress(Some(address))))
  {
  }
}
