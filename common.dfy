// Shared vocabulary of the model: optional values and results (Python's
// None and raised exceptions), the dynamic values that arrive in JSON
// bodies and query strings, and the handful of Python string built-ins the
// application relies on (strip, lower, upper, split, int, str).

module Common {

  datatype Option<T> = None | Some(value: T)

  datatype Result<T, E> = Ok(value: T) | Err(error: E)

  /** A dynamically typed Python value as it arrives in a JSON body or a
    * dictionary. `Other` stands for lists and dictionaries; only their
    * emptiness (truthiness) is observed by the application. */
  datatype Value =
    | Null
    | Bool(b: bool)
    | Int(i: int)
    | Float(f: real)
    | Str(s: string)
    | Other(nonEmpty: bool)

  /** A request body as `request.get_json(force=True)` reads it: text that
    * is not JSON, a JSON object, or any other JSON value (null, a boolean,
    * a number, text or a list). */
  datatype JsonBody = NotJson | JsonObject(fields: map<string, Value>) | JsonOther(v: Value)

  /** `request.get_json(force=True) or {}` used as a dictionary: the
    * object's fields, `{}` for a falsy value, and None where the handler
    * fails: text that is not JSON, or a truthy value that is not an object,
    * whose `.get` raises AttributeError. */
  function FieldsOrEmpty(b: JsonBody): (r: Option<map<string, Value>>)
    ensures b.NotJson? ==> r.None?
    ensures b.JsonObject? ==> r == Some(b.fields)
    ensures b.JsonOther? ==> (r.None? <==> Truthy(b.v))
    ensures b.JsonOther? && !Truthy(b.v) ==> r == Some(map[])
  {
    match b
    case NotJson => None
    case JsonObject(fields) => Some(fields)
    case JsonOther(v) => if Truthy(v) then None else Some(map[])
  }

  /** Python truthiness. */
  predicate Truthy(v: Value)
  {
    match v
    case Null => false
    case Bool(b) => b
    case Int(i) => i != 0
    case Float(f) => f != 0.0
    case Str(s) => s != ""
    case Other(nonEmpty) => nonEmpty
  }

  /** `d.get(k)`: a missing key reads as None. */
  function Get(d: map<string, Value>, k: string): (v: Value)
    ensures k !in d ==> v == Null
    ensures k in d ==> v == d[k]
  {
    if k in d then d[k] else Null
  }

  // ---------------------------------------------------------------
  // Characters

  /** White space as `str.isspace` and `str.strip` see it, restricted to
    * the ASCII range. */
  predicate IsSpace(c: char)
  {
    c == ' ' || c == '\t' || c == '\n' || c == '\r' || c == '\U{B}' || c == '\U{C}'
    || ('\U{1C}' <= c <= '\U{1F}')
  }

  predicate IsDigit(c: char)
  {
    '0' <= c <= '9'
  }

  predicate AllDigits(s: string)
  {
    forall i :: 0 <= i < |s| ==> IsDigit(s[i])
  }

  /** `str.lower` on one character, for ASCII and the Latin-1 letters. */
  function LowerChar(c: char): (r: char)
    ensures IsDigit(c) ==> r == c
    ensures IsSpace(c) ==> r == c
    ensures !('A' <= r <= 'Z')
  {
    if 'A' <= c <= 'Z' then (c as int + 32) as char
    else if 'À' <= c <= 'Þ' && c != '×' then (c as int + 32) as char
    else c
  }

  /** `str.upper` on one character, for ASCII and the Latin-1 letters that
    * have a one-character upper case. */
  function UpperChar(c: char): (r: char)
    ensures !('a' <= r <= 'z')
  {
    if 'a' <= c <= 'z' then (c as int - 32) as char
    else if 'à' <= c <= 'þ' && c != '÷' then (c as int - 32) as char
    else c
  }

  function Lower(s: string): (r: string)
    ensures |r| == |s|
    ensures forall i :: 0 <= i < |s| ==> r[i] == LowerChar(s[i])
  {
    if s == [] then [] else [LowerChar(s[0])] + Lower(s[1..])
  }

  function Upper(s: string): (r: string)
    ensures |r| == |s|
    ensures forall i :: 0 <= i < |s| ==> r[i] == UpperChar(s[i])
  {
    if s == [] then [] else [UpperChar(s[0])] + Upper(s[1..])
  }

  /** Text without upper-case letters is its own lower case. */
  lemma LowerOfLowerCase(s: string)
    requires forall i :: 0 <= i < |s| ==> !('A' <= s[i] <= 'Z') && !('À' <= s[i] <= 'Þ')
    ensures Lower(s) == s
  {
  }

  /** `s.lower().lower() == s.lower()`. */
  lemma LowerIdempotent(s: string)
    ensures Lower(Lower(s)) == Lower(s)
  {
    var l := Lower(s);
    assert forall i :: 0 <= i < |s| ==> LowerChar(l[i]) == l[i];
  }

  /** `s.upper().upper() == s.upper()`. */
  lemma UpperIdempotent(s: string)
    ensures Upper(Upper(s)) == Upper(s)
  {
    var u := Upper(s);
    assert forall i :: 0 <= i < |s| ==> UpperChar(u[i]) == u[i];
  }

  // ---------------------------------------------------------------
  // strip

  /** Number of leading white-space characters. */
  function LeadingSpaces(s: string): (n: nat)
    ensures n <= |s|
    ensures forall k :: 0 <= k < n ==> IsSpace(s[k])
    ensures n < |s| ==> !IsSpace(s[n])
  {
    if s == [] || !IsSpace(s[0]) then 0 else 1 + LeadingSpaces(s[1..])
  }

  /** Length of `s` once its trailing white space is removed. */
  function TrimmedEnd(s: string): (n: nat)
    ensures n <= |s|
    ensures forall k :: n <= k < |s| ==> IsSpace(s[k])
    ensures n > 0 ==> !IsSpace(s[n - 1])
  {
    if s == [] || !IsSpace(s[|s| - 1]) then |s| else TrimmedEnd(s[..|s| - 1])
  }

  /** `str.strip()`: the longest slice of `s` that neither starts nor ends
    * with white space, obtained by removing white space from both ends. */
  function Strip(s: string): (r: string)
    ensures |r| <= |s|
    ensures r != [] ==> !IsSpace(r[0]) && !IsSpace(r[|r| - 1])
    ensures (forall k :: 0 <= k < |s| ==> IsSpace(s[k])) <==> r == []
  {
    var a := LeadingSpaces(s);
    var rest := s[a..];
    var b := TrimmedEnd(rest);
    assert a < |s| ==> !IsSpace(rest[0]);
    rest[..b]
  }

  /** `strip` cuts `s` into white space, the result and white space. */
  lemma StripSplit(s: string) returns (x: string, z: string)
    ensures s == x + (Strip(s) + z)
    ensures forall k :: 0 <= k < |x| ==> IsSpace(x[k])
    ensures forall k :: 0 <= k < |z| ==> IsSpace(z[k])
  {
    var a := LeadingSpaces(s);
    var rest := s[a..];
    var b := TrimmedEnd(rest);
    x, z := s[..a], rest[b..];
    AllSpacesPrefix(s, a);
    AllSpacesSuffix(rest, b);
    assert Strip(s) == rest[..b];
    SplitTwice(s, a, b);
  }

  lemma AllSpacesPrefix(s: string, a: nat)
    requires a <= |s| && forall k :: 0 <= k < a ==> IsSpace(s[k])
    ensures forall k :: 0 <= k < a ==> IsSpace(s[..a][k])
  {
  }

  lemma AllSpacesSuffix(s: string, b: nat)
    requires b <= |s| && forall k :: b <= k < |s| ==> IsSpace(s[k])
    ensures forall k :: 0 <= k < |s| - b ==> IsSpace(s[b..][k])
  {
    assert forall k :: 0 <= k < |s| - b ==> s[b..][k] == s[b + k];
  }

  lemma SplitTwice(s: string, a: nat, b: nat)
    requires a <= |s| && b <= |s| - a
    ensures s == s[..a] + (s[a..][..b] + s[a..][b..])
  {
    assert s[a..] == s[a..][..b] + s[a..][b..];
    assert s == s[..a] + s[a..];
  }

  /** A string without white space at its ends is left alone by `strip`. */
  lemma StripNoEdges(s: string)
    requires s != [] ==> !IsSpace(s[0]) && !IsSpace(s[|s| - 1])
    ensures Strip(s) == s
  {
    assert LeadingSpaces(s) == 0;
    assert s[0..] == s;
    if s != [] {
      assert TrimmedEnd(s) == |s|;
    }
  }

  /** `strip` is idempotent. */
  lemma StripIdempotent(s: string)
    ensures Strip(Strip(s)) == Strip(s)
  {
    StripNoEdges(Strip(s));
  }

  /** A string of digits (possibly signed) has no white space at its ends. */
  lemma DigitsNoEdges(s: string)
    requires forall k :: 0 <= k < |s| ==> IsDigit(s[k]) || s[k] == '-'
    ensures Strip(s) == s
  {
    StripNoEdges(s);
  }

  /** A plain lower-case ASCII word is left alone by `strip` and `lower`. */
  lemma PlainLowerWord(s: string)
    requires forall i :: 0 <= i < |s| ==> 'a' <= s[i] <= 'z'
    ensures Lower(s) == s && Strip(s) == s
  {
    LowerOfLowerCase(s);
    StripNoEdges(s);
  }

  // ---------------------------------------------------------------
  // Decimal numbers: int() and str()

  function DigitValue(c: char): (d: nat)
    requires IsDigit(c)
    ensures d < 10
  {
    c as int - '0' as int
  }

  function DigitChar(d: nat): (c: char)
    requires d < 10
    ensures IsDigit(c) && DigitValue(c) == d
  {
    ('0' as int + d) as char
  }

  /** The value of a string of decimal digits, most significant first. */
  function DigitsValue(s: string): nat
    requires AllDigits(s)
  {
    if s == [] then 0 else DigitsValue(s[..|s| - 1]) * 10 + DigitValue(s[|s| - 1])
  }

  /** `str(n)` for a natural number. */
  function NatToString(n: nat): (s: string)
    ensures s != [] && AllDigits(s)
    decreases n
  {
    if n < 10 then [DigitChar(n)] else NatToString(n / 10) + [DigitChar(n % 10)]
  }

  /** `str(i)` for any integer. */
  function IntToString(i: int): (s: string)
    ensures s != []
  {
    if i < 0 then "-" + NatToString(-i) else NatToString(i)
  }

  /** `int(s)` for a string: white space around an optionally signed run of
    * ASCII digits; anything else raises ValueError (None here). */
  function ParseInt(s: string): (r: Option<int>)
    ensures r.Some? ==> Strip(s) != []
  {
    var t := Strip(s);
    if t == [] then None
    else if t[0] == '-' || t[0] == '+' then
      if |t| > 1 && AllDigits(t[1..]) then
        var v: int := DigitsValue(t[1..]);
        Some(if t[0] == '-' then -v else v)
      else None
    else if AllDigits(t) then Some(DigitsValue(t))
    else None
  }

  /** Reading back the decimal text of a natural number gives the number. */
  lemma {:induction false} DigitsValueOfNatToString(n: nat)
    ensures DigitsValue(NatToString(n)) == n
    decreases n
  {
    var s := NatToString(n);
    if n >= 10 {
      DigitsValueOfNatToString(n / 10);
      assert s[..|s| - 1] == NatToString(n / 10);
    }
  }

  /** `int(str(i)) == i`. */
  lemma ParseIntOfIntToString(i: int)
    ensures ParseInt(IntToString(i)) == Some(i)
  {
    var s := IntToString(i);
    var d := NatToString(if i < 0 then -i else i);
    DigitsValueOfNatToString(if i < 0 then -i else i);
    DigitsNoEdges(s);
    if i < 0 {
      assert s[1..] == d;
    } else {
      assert s[0] != '-' && s[0] != '+';
    }
  }

  /** 10 to the power `k`. */
  function Pow10(k: nat): (r: nat)
    ensures r >= 1
  {
    if k == 0 then 1 else 10 * Pow10(k - 1)
  }

  /** `float(s)` for decimal text: white space around an optionally signed
    * decimal (a run of digits with at most one '.', and at least one digit),
    * optionally followed by 'e' or 'E' and a signed exponent. */
  function ParseFloat(s: string): (r: Option<real>)
    ensures r.Some? ==> Strip(s) != []
  {
    var t := Strip(s);
    if t == [] then None
    else
      var body := if t[0] == '-' || t[0] == '+' then t[1..] else t;
      match UnsignedValue(body)
      case None => None
      case Some(v) => Some(if t[0] == '-' then -v else v)
  }

  /** Unsigned float text: a decimal, or a decimal, one 'e' or 'E' and an
    * exponent. */
  function UnsignedValue(body: string): (r: Option<real>)
    ensures 'e' !in body && 'E' !in body ==> r == DecimalValue(Split(body, '.'))
  {
    var parts := if 'e' in body then Split(body, 'e') else Split(body, 'E');
    if 'e' !in body && 'E' !in body then
      DecimalValue(Split(body, '.'))
    else if |parts| == 2 then
      match (DecimalValue(Split(parts[0], '.')), ExponentValue(parts[1]))
      case (Some(m), Some(e)) => Some(Scaled(m, e))
      case _ => None
    else None
  }

  /** The exponent of float text: an optionally signed, non-empty run of
    * digits. */
  function ExponentValue(x: string): (r: Option<int>)
    ensures x != [] && AllDigits(x) ==> r == Some(DigitsValue(x))
    ensures r.Some? ==> x != []
  {
    if x == [] then None
    else if x[0] == '-' || x[0] == '+' then
      if |x| > 1 && AllDigits(x[1..]) then
        var v: int := DigitsValue(x[1..]);
        Some(if x[0] == '-' then -v else v)
      else None
    else if AllDigits(x) then Some(DigitsValue(x))
    else None
  }

  /** `m` times ten to the power `e`. */
  function Scaled(m: real, e: int): (r: real)
    ensures e >= 0 ==> r == m * Pow10(e) as real
    ensures e < 0 ==> r * Pow10(-e) as real == m
  {
    if e >= 0 then m * Pow10(e) as real else m / Pow10(-e) as real
  }

  /** Digits, 'e' and digits read as the first number scaled by ten to the
    * power of the second: `float("15e2") == 1500.0`. */
  lemma ParseFloatOfExponent(d: string, k: string)
    requires d != [] && AllDigits(d) && k != [] && AllDigits(k)
    ensures ParseFloat(d + "e" + k) == Some(Scaled(DigitsValue(d) as real, DigitsValue(k)))
  {
    ExponentText(d, k);
    UnsignedOfExponent(d, k);
    ParseFloatUnsigned(d + "e" + k, Scaled(DigitsValue(d) as real, DigitsValue(k)));
  }

  lemma UnsignedOfExponent(d: string, k: string)
    requires d != [] && AllDigits(d) && k != [] && AllDigits(k)
    ensures UnsignedValue(d + "e" + k) == Some(Scaled(DigitsValue(d) as real, DigitsValue(k)))
  {
    ExponentText(d, k);
    DecimalOfDigits(d);
    assert ExponentValue(k) == Some(DigitsValue(k));
  }

  lemma ParseFloatUnsigned(s: string, x: real)
    requires s != [] && s[0] != '-' && s[0] != '+' && Strip(s) == s
    requires UnsignedValue(s) == Some(x)
    ensures ParseFloat(s) == Some(x)
  {
  }

  /** The text of digits, 'e' and digits: unsigned, nothing to strip, and
    * split at its one 'e'. */
  lemma ExponentText(d: string, k: string)
    requires d != [] && AllDigits(d) && k != [] && AllDigits(k)
    ensures var s := d + "e" + k;
      Strip(s) == s && s[0] != '-' && s[0] != '+' && 'e' in s && Split(s, 'e') == [d, k]
  {
    var s := d + "e" + k;
    assert s[0] == d[0] && s[|s| - 1] == k[|k| - 1];
    assert IsDigit(s[0]) && IsDigit(s[|s| - 1]);
    StripNoEdges(s);
    assert 'e' !in d && 'e' !in k;
    SplitPrefix(d, k, 'e');
    assert d + ['e'] + k == s;
    SplitPrefix(k, "", 'e');
    assert s[|d|] == 'e';
  }

  /** The value of unsigned decimal text split at its points: digits, or
    * digits, a point and digits, with at least one digit in all. */
  function DecimalValue(parts: seq<string>): (r: Option<real>)
    ensures |parts| == 1 && parts[0] != [] && AllDigits(parts[0]) ==> r == Some(DigitsValue(parts[0]) as real)
  {
    if |parts| == 1 && parts[0] != [] && AllDigits(parts[0]) then
      Some(DigitsValue(parts[0]) as real)
    else if |parts| == 2 && parts[0] + parts[1] != [] && AllDigits(parts[0]) && AllDigits(parts[1]) then
      Some(DigitsValue(parts[0]) as real + (DigitsValue(parts[1]) as real) / (Pow10(|parts[1]|) as real))
    else None
  }

  /** A lower-case word without an 'e' that does not name infinity or NaN
    * is no number: `float` raises on it. */
  lemma ParseFloatOfWord(s: string)
    requires s != [] && forall i :: 0 <= i < |s| ==> 'a' <= s[i] <= 'z' && s[i] != 'e'
    requires s != "inf" && s != "infinity" && s != "nan"
    ensures ParseFloat(s).None?
  {
    StripNoEdges(s);
    assert s[0] != '-' && s[0] != '+';
    assert 'e' !in s && 'E' !in s;
    NoDecimalOfWord(s);
  }

  lemma NoDecimalOfWord(s: string)
    requires s != [] && forall i :: 0 <= i < |s| ==> 'a' <= s[i] <= 'z'
    ensures DecimalValue(Split(s, '.')) == None
  {
    assert '.' !in s;
    SplitPrefix(s, "", '.');
    assert !IsDigit(s[0]);
  }

  /** `float(str(i)) == i`. */
  lemma ParseFloatOfIntToString(i: int)
    ensures ParseFloat(IntToString(i)) == Some(i as real)
  {
    var n := if i < 0 then -i else i;
    DigitsValueOfNatToString(n);
    ParseFloatOfDigits(NatToString(n), i < 0);
  }

  /** `float` of a run of digits, with or without a minus sign, is its
    * value. */
  lemma ParseFloatOfDigits(d: string, neg: bool)
    requires d != [] && AllDigits(d)
    ensures var v := DigitsValue(d) as real;
      ParseFloat(if neg then "-" + d else d) == Some(if neg then -v else v)
  {
    if neg {
      ParseFloatOfNegative(d);
    } else {
      DigitsNoEdges(d);
      DecimalOfDigits(d);
      assert !IsDigit('-') && !IsDigit('+');
    }
  }

  lemma ParseFloatOfNegative(d: string)
    requires d != [] && AllDigits(d)
    ensures ParseFloat("-" + d) == Some(-(DigitsValue(d) as real))
  {
    NegativeText(d);
    DecimalOfDigits(d);
    ParseFloatSigned("-" + d, DigitsValue(d) as real);
  }

  /** A minus sign and digits: nothing for `strip` to remove. */
  lemma NegativeText(d: string)
    requires AllDigits(d)
    ensures ("-" + d)[0] == '-' && ("-" + d)[1..] == d && Strip("-" + d) == "-" + d
  {
    var s := "-" + d;
    assert forall k :: 0 <= k < |s| ==> IsDigit(s[k]) || s[k] == '-';
    DigitsNoEdges(s);
    assert s[1..] == d;
  }

  lemma ParseFloatSigned(s: string, x: real)
    requires s != [] && s[0] == '-' && Strip(s) == s
    requires UnsignedValue(s[1..]) == Some(x)
    ensures ParseFloat(s) == Some(-x)
  {
  }

  lemma DecimalOfDigits(d: string)
    requires d != [] && AllDigits(d)
    ensures DecimalValue(Split(d, '.')) == Some(DigitsValue(d) as real)
    ensures UnsignedValue(d) == Some(DigitsValue(d) as real)
  {
    assert '.' !in d && 'e' !in d && 'E' !in d;
    SplitPrefix(d, "", '.');
  }

  /** `float(v)`; None where Python raises (None, containers, text that is
    * not a number). */
  function FloatOf(v: Value): (r: Option<real>)
    ensures v.Int? ==> r == Some(v.i as real)
    ensures v.Float? ==> r == Some(v.f)
    ensures v.Null? || v.Other? ==> r == None
  {
    match v
    case Null => None
    case Bool(b) => Some(if b then 1.0 else 0.0)
    case Int(i) => Some(i as real)
    case Float(f) => Some(f)
    case Str(s) => ParseFloat(s)
    case Other(_) => None
  }

  /** `int(x)` for a real: truncation toward zero. */
  function Truncate(x: real): (r: int)
    ensures x >= 0.0 ==> 0.0 <= r as real <= x < r as real + 1.0
    ensures x < 0.0 ==> r as real - 1.0 < x <= r as real <= 0.0
  {
    if x >= 0.0 then x.Floor else -((-x).Floor)
  }

  /** `int(v)`; None where Python raises. */
  function IntOf(v: Value): (r: Option<int>)
    ensures v.Int? ==> r == Some(v.i)
    ensures v.Str? ==> r == ParseInt(v.s)
    ensures v.Null? || v.Other? ==> r == None
  {
    match v
    case Null => None
    case Bool(b) => Some(if b then 1 else 0)
    case Int(i) => Some(i)
    case Float(f) => Some(Truncate(f))
    case Str(s) => ParseInt(s)
    case Other(_) => None
  }

  /** Two-digit, zero-padded rendering of a clock field ("%02d"). */
  function Pad2(n: nat): (s: string)
    requires n < 100
    ensures |s| == 2 && AllDigits(s) && DigitsValue(s) == n
  {
    if n < 10 then
      var s := ['0', DigitChar(n)];
      assert s[..1] == ['0'] && s[..1][..0] == [];
      assert DigitsValue(['0']) == 0;
      s
    else
      DigitsValueOfNatToString(n);
      NatToString(n)
  }

  // ---------------------------------------------------------------
  // split and join on one separator character

  /** `s.split(c)`: the pieces between occurrences of `c`. */
  function Split(s: string, c: char): (r: seq<string>)
    ensures |r| >= 1
    ensures forall k :: 0 <= k < |r| ==> c !in r[k]
  {
    if s == [] then [""]
    else if s[0] == c then [""] + Split(s[1..], c)
    else
      var rest := Split(s[1..], c);
      [[s[0]] + rest[0]] + rest[1..]
  }

  /** `c.join(parts)`. */
  function Join(parts: seq<string>, c: char): string
  {
    if parts == [] then ""
    else if |parts| == 1 then parts[0]
    else parts[0] + [c] + Join(parts[1..], c)
  }

  lemma {:induction false} SplitPrefix(p: string, s: string, c: char)
    requires c !in p
    ensures Split(p + [c] + s, c) == [p] + Split(s, c)
    ensures Split(p, c) == [p]
  {
    if p == [] {
      assert p + [c] + s == [c] + s;
    } else {
      SplitPrefix(p[1..], s, c);
      assert (p + [c] + s)[1..] == p[1..] + [c] + s;
      assert [p[0]] + p[1..] == p;
    }
  }

  /** Splitting a join gives the parts back when no part holds the separator. */
  lemma {:induction false} SplitJoin(parts: seq<string>, c: char)
    requires |parts| >= 1
    requires forall k :: 0 <= k < |parts| ==> c !in parts[k]
    ensures Split(Join(parts, c), c) == parts
  {
    if |parts| == 1 {
      SplitPrefix(parts[0], "", c);
    } else {
      SplitJoin(parts[1..], c);
      SplitPrefix(parts[0], Join(parts[1..], c), c);
    }
  }

  // ---------------------------------------------------------------
  // substrings

  /** `sub in s`. */
  predicate Contains(s: string, sub: string)
  {
    exists i :: 0 <= i && i + |sub| <= |s| && OccursAt(s, sub, i)
  }

  /** A piece glued between two others occurs in the result. */
  lemma ContainsMiddle(a: string, sub: string, b: string)
    ensures Contains(a + sub + b, sub)
  {
    var s := a + sub + b;
    assert s[|a|..|a| + |sub|] == sub;
    assert OccursAt(s, sub, |a|);
  }

  /** `sub` occurs in `s` starting at position `i`. */
  predicate OccursAt(s: string, sub: string, i: nat)
    requires i + |sub| <= |s|
  {
    s[i..i + |sub|] == sub
  }

  /** `s.replace(pat, rep)`: every occurrence of `pat`, scanning from the
    * left without overlaps, is replaced by `rep`. */
  function Replace(s: string, pat: string, rep: string): string
    requires pat != []
    decreases |s|
  {
    if |pat| <= |s| && s[..|pat|] == pat then rep + Replace(s[|pat|..], pat, rep)
    else if s == [] then []
    else [s[0]] + Replace(s[1..], pat, rep)
  }

  /** Replacing one character by another is a character-wise substitution. */
  lemma {:induction false} ReplaceChar(s: string, a: char, b: char)
    ensures |Replace(s, [a], [b])| == |s|
    ensures forall i :: 0 <= i < |s| ==> Replace(s, [a], [b])[i] == (if s[i] == a then b else s[i])
    decreases |s|
  {
    if s != [] {
      ReplaceChar(s[1..], a, b);
      if s[..1] == [a] {
        assert s[0] == a;
      } else {
        assert s[0] != a;
      }
    }
  }

  /** Text without the first character of the pattern is left alone. */
  lemma {:induction false} ReplaceAbsent(s: string, pat: string, rep: string)
    requires pat != [] && pat[0] !in s
    ensures Replace(s, pat, rep) == s
    decreases |s|
  {
    if s != [] {
      ReplaceAbsent(s[1..], pat, rep);
      assert s[0] != pat[0];
      assert |pat| <= |s| ==> s[..|pat|][0] != pat[0];
    }
  }

  /** `s.startswith(p)`. */
  predicate StartsWith(s: string, p: string)
  {
    |p| <= |s| && s[..|p|] == p
  }

  /** `str(v)` for the values whose text the model knows; the text of a
    * float is only modelled for integral floats below 10**16 in size
    * ("3.0"; from 10**16 on Python writes "1e+16"), and containers have
    * none (None). */
  function Text(v: Value): (r: Option<string>)
    ensures v.Str? ==> r == Some(v.s)
    ensures v.Int? ==> r.Some? && ParseInt(r.value) == Some(v.i)
  {
    match v
    case Null => Some("None")
    case Bool(b) => Some(if b then "True" else "False")
    case Int(i) => ParseIntOfIntToString(i); Some(IntToString(i))
    case Float(f) =>
      if f.Floor as real == f && -10000000000000000.0 < f < 10000000000000000.0 then Some(IntToString(f.Floor) + ".0")
      else None
    case Str(s) => Some(s)
    case Other(_) => None
  }
}
