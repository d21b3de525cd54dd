// The billing blueprint: routes/billing_routes.py (the checkout summary
// page and its price table) and billing_routes.py (the older copy whose
// price helper cannot be imported). Money is integer cents.

module RoutesBilling {
  import opened Common
  import Billing

  // ---------------------------------------------------------------
  // `_fmt_brl`

  /** Three zero-padded digits ("%03d"). */
  function Pad3(n: nat): (s: string)
    requires n < 1000
    ensures |s| == 3 && AllDigits(s) && DigitsValue(s) == n
  {
    var s := [DigitChar(n / 100)] + Pad2(n % 100);
    DigitsValueAppend([DigitChar(n / 100)], Pad2(n % 100));
    assert [DigitChar(n / 100)][..0] == [];
    s
  }

  /** The digits of `a` followed by those of `b`. */
  lemma {:induction false} DigitsValueAppend(a: string, b: string)
    requires AllDigits(a) && AllDigits(b)
    ensures AllDigits(a + b)
    ensures DigitsValue(a + b) == DigitsValue(a) * Pow10(|b|) + DigitsValue(b)
    decreases |b|
  {
    if b == [] {
      assert a + b == a;
    } else {
      var b' := b[..|b| - 1];
      DigitsValueAppend(a, b');
      assert (a + b)[..|a + b| - 1] == a + b';
      var x, y, d := DigitsValue(a), DigitsValue(b'), DigitValue(b[|b| - 1]);
      assert DigitsValue(b) == y * 10 + d by {
        assert b[..|b| - 1] == b';
      }
      assert DigitsValue(a + b) == (x * Pow10(|b'|) + y) * 10 + d;
      assert Pow10(|b|) == 10 * Pow10(|b'|);
      MulShuffle(x, Pow10(|b'|), y, d);
    }
  }

  lemma MulShuffle(x: int, p: int, y: int, d: int)
    ensures (x * p + y) * 10 + d == x * (10 * p) + (y * 10 + d)
  {
  }

  /** `"{:,}"` of a natural number, with `sep` between groups of three
    * digits. */
  function Grouped(n: nat, sep: char): (s: string)
    ensures forall k :: 0 <= k < |s| ==> IsDigit(s[k]) || s[k] == sep
    decreases n
  {
    if n < 1000 then NatToString(n) else Grouped(n / 1000, sep) + [sep] + Pad3(n % 1000)
  }

  /** `s` with every `c` removed. */
  function Without(s: string, c: char): (r: string)
    ensures c !in r
  {
    if s == [] then [] else (if s[0] == c then [] else [s[0]]) + Without(s[1..], c)
  }

  lemma {:induction false} WithoutAppend(a: string, b: string, c: char)
    ensures Without(a + b, c) == Without(a, c) + Without(b, c)
    decreases |a|
  {
    if a != [] {
      WithoutAppend(a[1..], b, c);
      assert (a + b)[1..] == a[1..] + b;
    } else {
      assert a + b == b;
    }
  }

  lemma {:induction false} WithoutDigits(s: string, c: char)
    requires AllDigits(s) && !IsDigit(c)
    ensures Without(s, c) == s
    decreases |s|
  {
    if s != [] {
      WithoutDigits(s[1..], c);
    }
  }

  /** Dropping the separators from the grouped text gives the decimal
    * digits of the number back. */
  lemma {:induction false} GroupedReadsBack(n: nat, sep: char)
    requires !IsDigit(sep)
    ensures AllDigits(Without(Grouped(n, sep), sep))
    ensures DigitsValue(Without(Grouped(n, sep), sep)) == n
    decreases n
  {
    if n < 1000 {
      WithoutDigits(NatToString(n), sep);
      DigitsValueOfNatToString(n);
    } else {
      var head := Without(Grouped(n / 1000, sep), sep);
      var tail := Pad3(n % 1000);
      GroupedReadsBack(n / 1000, sep);
      WithoutGroup(n, sep);
      DigitsValueAppend(head, tail);
      assert Pow10(3) == 1000;
      assert DigitsValue(head + tail) == (n / 1000) * 1000 + n % 1000;
    }
  }

  /** Dropping the separators from a grouped number of four or more
    * digits drops them from the leading groups and the one before the
    * last three digits. */
  lemma WithoutGroup(n: nat, sep: char)
    requires n >= 1000 && !IsDigit(sep)
    ensures Without(Grouped(n, sep), sep) == Without(Grouped(n / 1000, sep), sep) + Pad3(n % 1000)
  {
    var head := Grouped(n / 1000, sep);
    var tail := Pad3(n % 1000);
    assert Grouped(n, sep) == head + [sep] + tail;
    assert Without([sep], sep) == [];
    WithoutAppend(head, [sep], sep);
    WithoutAppend(head + [sep], tail, sep);
    WithoutDigits(tail, sep);
  }

  /** Grouping with another separator changes the separators and nothing
    * else. */
  lemma {:induction false} GroupedOtherSeparator(n: nat, a: char, b: char)
    requires !IsDigit(a)
    ensures |Grouped(n, b)| == |Grouped(n, a)|
    ensures forall k :: 0 <= k < |Grouped(n, a)| ==>
      Grouped(n, b)[k] == if Grouped(n, a)[k] == a then b else Grouped(n, a)[k]
    decreases n
  {
    if n >= 1000 {
      GroupedOtherSeparator(n / 1000, a, b);
    }
  }

  /** `f"R$ {v:,.2f}"` for an amount of `cents`. */
  function PythonMoney(cents: nat): string
  {
    "R$ " + Grouped(cents / 100, ',') + "." + Pad2(cents % 100)
  }

  /** `_fmt_brl`: the separators of the Python text swapped through a
    * placeholder "X". */
  function FmtBrl(cents: nat): string
  {
    Replace(Replace(Replace(PythonMoney(cents), ",", "X"), ".", ","), "X", ".")
  }

  /** What the three replacements do to one character: a comma (or an
    * "X") becomes a point and a point a comma. */
  function Swapped(c: char): char
  {
    if c == ',' || c == 'X' then '.' else if c == '.' then ',' else c
  }

  lemma SwapThroughPlaceholder(s: string)
    ensures var t := Replace(Replace(Replace(s, ",", "X"), ".", ","), "X", ".");
      |t| == |s| && forall i :: 0 <= i < |s| ==> t[i] == Swapped(s[i])
  {
    var q := Replace(s, ",", "X");
    var r := Replace(q, ".", ",");
    ReplaceChar(s, ',', 'X');
    ReplaceChar(q, '.', ',');
    ReplaceChar(r, 'X', '.');
  }

  /** The Brazilian rendering: "." between groups of thousands, "," before
    * the two-digit cents. */
  lemma FmtBrlSwapsSeparators(cents: nat)
    ensures FmtBrl(cents) == "R$ " + Grouped(cents / 100, '.') + "," + Pad2(cents % 100)
  {
    var p := PythonMoney(cents);
    var t := FmtBrl(cents);
    SwapThroughPlaceholder(p);
    GroupedOtherSeparator(cents / 100, ',', '.');
    var want := "R$ " + Grouped(cents / 100, '.') + "," + Pad2(cents % 100);
    var g := Grouped(cents / 100, ',');
    assert |want| == |p| == |t|;
    forall k | 0 <= k < |p|
      ensures t[k] == want[k]
    {
      if k < 3 {
      } else if k < 3 + |g| {
        assert p[k] == g[k - 3];
        assert want[k] == Grouped(cents / 100, '.')[k - 3];
      } else if k == 3 + |g| {
      } else {
        assert p[k] == Pad2(cents % 100)[k - 4 - |g|];
        assert want[k] == Pad2(cents % 100)[k - 4 - |g|];
      }
    }
  }


  // ---------------------------------------------------------------
  // `_price`

  /** `monthly_base.get(plan, monthly_base["pro"])`. */
  function BaseCents(plan: string): (r: nat)
    ensures MonthlyBase(r)
  {
    if plan == "start" then 39900 else if plan == "enterprise" then 220000 else 149900
  }

  predicate IsAnnual(billing: string)
  {
    billing == "annual" || billing == "anual" || billing == "yearly"
  }

  /** The three monthly base prices, in cents. */
  predicate MonthlyBase(r: nat)
  {
    r == 39900 || r == 149900 || r == 220000
  }

  /** The three annual totals (twelve months less 15%), in cents. */
  predicate AnnualTotal(r: nat)
  {
    r == 406980 || r == 1528980 || r == 2244000
  }

  /** `_price(plan, billing, vehicles)`: the monthly base price, or twelve
    * months with the 15% discount for the annual spellings. */
  function Price(plan: Option<string>, billing: Option<string>, vehicles: int): (r: nat)
    ensures MonthlyBase(r) || AnnualTotal(r)
    ensures IsAnnual(Lower(OrElse(billing, "monthly"))) <==> AnnualTotal(r)
  {
    var base := BaseCents(Lower(OrElse(plan, "pro")));
    AnnualOfBase(base);
    if IsAnnual(Lower(OrElse(billing, "monthly"))) then Billing.Discounted(12 * base) else base
  }

  /** Twelve discounted months of a base price make an annual total. */
  lemma AnnualOfBase(base: nat)
    requires MonthlyBase(base)
    ensures AnnualTotal(Billing.Discounted(12 * base)) && !AnnualTotal(base)
  {
    Billing.AnnualPriceTable();
  }

  /** `x or default` for an optional string. */
  function OrElse(x: Option<string>, default: string): (r: string)
    ensures x.None? || x.value == [] ==> r == default
    ensures x.Some? && x.value != [] ==> r == x.value
  {
    if x.None? || x.value == [] then default else x.value
  }

  /** The vehicle count does not enter the price. */
  lemma PriceIgnoresVehicles(plan: Option<string>, billing: Option<string>, v: int, w: int)
    ensures Price(plan, billing, v) == Price(plan, billing, w)
  {
  }

  /** A missing or unknown plan is priced as Pro. */
  lemma UnknownPlanIsPro(plan: Option<string>, billing: Option<string>, vehicles: int)
    requires Lower(OrElse(plan, "pro")) != "start" && Lower(OrElse(plan, "pro")) != "enterprise"
    ensures Price(plan, billing, vehicles) == Price(Some("pro"), billing, vehicles)
  {
    ProBase();
    assert BaseCents(Lower(OrElse(plan, "pro"))) == 149900;
  }

  lemma ProBase()
    ensures BaseCents(Lower(OrElse(Some("pro"), "pro"))) == 149900
  {
    LowerOfLowerCase("pro");
    assert OrElse(Some("pro"), "pro") == "pro";
  }

  /** For plan and billing names already in lower case, the price is the
    * table entry. */
  lemma PriceOfLowerCaseNames(plan: string, billing: string, vehicles: int)
    requires plan != [] && billing != []
    requires Lower(plan) == plan && Lower(billing) == billing
    ensures Price(Some(plan), Some(billing), vehicles)
      == if IsAnnual(billing) then Billing.Discounted(12 * BaseCents(plan)) else BaseCents(plan)
  {
    assert OrElse(Some(plan), "pro") == plan && OrElse(Some(billing), "monthly") == billing;
  }

  /** Start, Pro and Enterprise are priced as the catalogue's route, full
    * and enterprise plans. */
  lemma PriceAgreesWithCatalogue(plan: string, billing: string, vehicles: int)
    requires plan == "start" || plan == "pro" || plan == "enterprise"
    requires billing == "monthly" || billing == "annual"
    ensures var monthly := Billing.Catalog(if plan == "start" then "route" else if plan == "pro" then "full" else "enterprise").value.monthlyCents;
      && (billing == "monthly" ==> Price(Some(plan), Some(billing), vehicles) == monthly)
      && (billing == "annual" ==> Price(Some(plan), Some(billing), vehicles) * 100 == monthly * 12 * 85)
  {
    var monthly := Billing.Catalog(if plan == "start" then "route" else if plan == "pro" then "full" else "enterprise").value.monthlyCents;
    PriceOfCatalogueNames(plan, billing, vehicles);
    BaseMatchesCatalogue();
    assert monthly == BaseCents(plan);
    if billing == "annual" {
      Billing.AnnualPriceTable();
    }
  }

  lemma PriceOfCatalogueNames(plan: string, billing: string, vehicles: int)
    requires plan == "start" || plan == "pro" || plan == "enterprise"
    requires billing == "monthly" || billing == "annual"
    ensures Price(Some(plan), Some(billing), vehicles)
      == if billing == "annual" then Billing.Discounted(12 * BaseCents(plan)) else BaseCents(plan)
  {
    LowerCaseName(plan);
    LowerCaseName(billing);
    PriceOfLowerCaseNames(plan, billing, vehicles);
    if billing == "monthly" {
      assert |billing| == 7;
    }
  }

  /** The plan and billing names of the catalogue are already in lower
    * case. */
  lemma LowerCaseName(w: string)
    requires w == "start" || w == "pro" || w == "enterprise" || w == "monthly" || w == "annual"
    ensures Lower(w) == w
  {
    if w == "start" {
      LowerOfLowerCase("start");
    } else if w == "pro" {
      LowerOfLowerCase("pro");
    } else if w == "enterprise" {
      LowerOfLowerCase("enterprise");
    } else if w == "monthly" {
      LowerOfLowerCase("monthly");
    } else {
      LowerOfLowerCase("annual");
    }
  }

  lemma BaseMatchesCatalogue()
    ensures BaseCents("start") == Billing.Catalog("route").value.monthlyCents
    ensures BaseCents("pro") == Billing.Catalog("full").value.monthlyCents
    ensures BaseCents("enterprise") == Billing.Catalog("enterprise").value.monthlyCents
  {
  }

  // ---------------------------------------------------------------
  // `checkout`

  const StartNames: set<string> := {"start", "starter", "route", "rota", "routing", "inicial", "basic", "essentials"}
  const ProNames: set<string> := {"pro", "pró", "professional", "profissional"}
  const EnterpriseNames: set<string> := {"enterprise", "empresarial", "empresa", "corp", "corporate"}

  /** `ALIASES`, in its insertion order. Every name in it is already lower
    * case, so `{n.lower() for n in names}` is `names`. */
  const Aliases: seq<(string, set<string>)> := [("start", StartNames), ("pro", ProNames), ("enterprise", EnterpriseNames)]

  /** The canonical plan a raw name stands for: the one whose alias set
    * holds it, "pro" when none does. */
  function CanonicalFor(raw: string): (plan: string)
    ensures plan in {"start", "pro", "enterprise"}
    ensures raw in StartNames ==> plan == "start"
    ensures raw in ProNames ==> plan == "pro"
    ensures raw in EnterpriseNames ==> plan == "enterprise"
    ensures raw !in StartNames + ProNames + EnterpriseNames ==> plan == "pro"
  {
    if raw in StartNames then "start"
    else if raw in ProNames then "pro"
    else if raw in EnterpriseNames then "enterprise"
    else "pro"
  }

  /** No name belongs to two plans, so the order of the search does not
    * matter. */
  lemma AliasSetsAreDisjoint()
    ensures StartNames * ProNames == {} && StartNames * EnterpriseNames == {} && ProNames * EnterpriseNames == {}
  {
  }

  /** The search loop over `ALIASES`, which stops at the first alias set
    * that holds the name. */
  method ResolvePlan(raw: string) returns (plan: string)
    ensures plan == CanonicalFor(raw)
  {
    var i := 0;
    while i < |Aliases| && raw !in Aliases[i].1
      invariant 0 <= i <= |Aliases|
      invariant forall j :: 0 <= j < i ==> raw !in Aliases[j].1
    {
      i := i + 1;
    }
    assert Aliases[0] == ("start", StartNames) && Aliases[1] == ("pro", ProNames);
    assert Aliases[2] == ("enterprise", EnterpriseNames);
    plan := if i < |Aliases| then Aliases[i].0 else "pro";
  }

  /** `MAX_VEHICLES.get(plan)`: Enterprise has no cap. */
  function MaxVehicles(plan: string): Option<nat>
  {
    if plan == "start" then Some(5) else if plan == "pro" then Some(50) else None
  }

  /** `int(request.args.get("vehicles") or 5)`; None when `int()` raises. */
  function RequestedVehicles(vehicles: Option<string>): (r: Option<int>)
    ensures vehicles.None? || vehicles.value == [] ==> r == Some(5)
    ensures vehicles.Some? && vehicles.value != [] ==> r == ParseInt(vehicles.value)
  {
    if vehicles.None? || vehicles.value == [] then Some(5) else ParseInt(vehicles.value)
  }

  /** What the page shows; `capped` is whether the handler flashed the
    * "no máximo" warning. */
  datatype Page = Page(
    plan: string,
    planLabel: string,
    billing: string,
    billingLabel: string,
    vehicles: int,
    priceCents: nat,
    monthlyEquivCents: Option<nat>,
    capped: bool)

  datatype CheckoutError = VehiclesNotAnInteger

  /** The cap of `checkout`: a count above the plan's maximum is lowered
    * to it (and a warning flashed); there is no lower bound. */
  function CapVehicles(plan: string, n: int): (r: (int, bool))
    ensures r.1 <==> MaxVehicles(plan).Some? && n > MaxVehicles(plan).value
    ensures r.1 ==> r.0 == MaxVehicles(plan).value
    ensures !r.1 ==> r.0 == n
    ensures MaxVehicles(plan).Some? ==> r.0 <= MaxVehicles(plan).value
  {
    var limit := MaxVehicles(plan);
    if limit.Some? && n > limit.value then (limit.value, true) else (n, false)
  }

  /** The annual price is twelve whole monthly equivalents, so
    * `round(price / 12, 2)` is exact; a lower-case billing name is priced
    * as annual exactly when it is an annual spelling. */
  lemma AnnualPricesSplitEvenly(plan: Option<string>, billing: string, vehicles: int)
    requires Lower(billing) == billing
    ensures IsAnnual(billing) <==> AnnualTotal(Price(plan, Some(billing), vehicles))
    ensures IsAnnual(billing) ==> Price(plan, Some(billing), vehicles) % 12 == 0
  {
    var r := Price(plan, Some(billing), vehicles);
    DefaultIsMonthly(billing);
    if AnnualTotal(r) {
      TwelveMonths(r);
    }
  }

  /** An empty billing name falls back to "monthly", which is no annual
    * spelling; a lower-case one is looked at as it is. */
  lemma DefaultIsMonthly(billing: string)
    requires Lower(billing) == billing
    ensures IsAnnual(Lower(OrElse(Some(billing), "monthly"))) <==> IsAnnual(billing)
  {
    var b := OrElse(Some(billing), "monthly");
    if billing == [] {
      assert |Lower(b)| == 7;
    }
  }

  /** Each annual total is a multiple of twelve. */
  lemma TwelveMonths(r: nat)
    requires AnnualTotal(r)
    ensures r % 12 == 0
  {
  }

  /** `(request.args.get("billing") or "monthly").strip().lower()`. */
  function NormalBilling(billing: Option<string>): (b: string)
    ensures Lower(b) == b
  {
    LowerIdempotent(Strip(OrElse(billing, "monthly")));
    Lower(Strip(OrElse(billing, "monthly")))
  }

  /** The page `checkout` renders for a resolved plan, a lower-case
    * billing name and a capped fleet: the price, the monthly equivalent of
    * an annual price and the billing label. */
  function Render(p: string, b: string, v: int, capped: bool): (pg: Page)
    requires Lower(b) == b
    ensures pg.plan == p && pg.billing == b && pg.vehicles == v && pg.capped == capped
    ensures pg.priceCents == Price(Some(p), Some(b), v)
    ensures IsAnnual(b) <==> pg.monthlyEquivCents.Some?
    ensures pg.monthlyEquivCents.Some? ==> 12 * pg.monthlyEquivCents.value == pg.priceCents
    ensures pg.billingLabel == "Mensal" <==> !IsAnnual(b)
  {
    var price := Price(Some(p), Some(b), v);
    var title := if p == "start" then "Start" else if p == "pro" then "Pro" else "Enterprise";
    AnnualPricesSplitEvenly(Some(p), b, v);
    if IsAnnual(b) then Page(p, title, b, "Anual (15% OFF)", v, price, Some(price / 12), capped)
    else Page(p, title, b, "Mensal", v, price, None, capped)
  }

  /** The `checkout` handler, from its three query arguments: the plan
    * resolved from its aliases, the fleet capped to the plan's maximum and
    * the rendered page. */
  method Checkout(plan: Option<string>, billing: Option<string>, vehicles: Option<string>)
    returns (r: Result<Page, CheckoutError>)
    ensures r.Err? <==> RequestedVehicles(vehicles).None?
    ensures r.Err? ==> r == Err(VehiclesNotAnInteger)
    ensures r.Ok? ==> var p := CanonicalFor(Lower(Strip(OrElse(plan, ""))));
      var capped := CapVehicles(p, RequestedVehicles(vehicles).value);
      r.value == Render(p, NormalBilling(billing), capped.0, capped.1)
  {
    var raw := Lower(Strip(OrElse(plan, "")));
    var p := ResolvePlan(raw);
    var requested := RequestedVehicles(vehicles);
    if requested.None? {
      return Err(VehiclesNotAnInteger);
    }
    var (v, capped) := CapVehicles(p, requested.value);
    r := Ok(Render(p, NormalBilling(billing), v, capped));
  }
}

module LegacyBilling {
  import opened Common
  import RoutesBilling

  /** The names `billing/asaas_routes.py` defines: its blueprint and the
    * `buy` view, and no `_price`. */
  const AsaasRoutesNames: set<string> := {"bp_asaas", "buy"}

  datatype CheckoutError = ImportError | VehiclesNotAnInteger

  /** The older `checkout` handler, given the names the imported module
    * defines: `from billing.asaas_routes import _price` comes first, and
    * the rest is the alias resolution, cap and page of
    * routes/billing_routes.py. */
  method Checkout(names: set<string>, plan: Option<string>, billing: Option<string>, vehicles: Option<string>)
    returns (r: Result<RoutesBilling.Page, CheckoutError>)
    ensures "_price" !in names <==> r == Err(ImportError)
  {
    if "_price" !in names {
      return Err(ImportError);
    }
    var page := RoutesBilling.Checkout(plan, billing, vehicles);
    r := match page
      case Ok(pg) => Ok(pg)
      case Err(_) => Err(VehiclesNotAnInteger);
  }

  /** `_price` is not among the names, so every request ends in
    * ImportError before anything is rendered. */
  lemma CheckoutAlwaysRaises()
    ensures "_price" !in AsaasRoutesNames
  {
  }
}
