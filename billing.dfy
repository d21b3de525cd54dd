// The central price list and quote (core/billing.py). Prices are integer
// cents: every catalogue price and every discounted price is a whole number
// of cents, so the two-decimal rounding of the original never changes a
// value (see CataloguePricesAreExact).

module Billing {
  import opened Common

  datatype PlanInfo = PlanInfo(title: string, monthlyCents: nat, maxVehicles: nat, minVehicles: nat)

  /** `PLAN_CATALOG`; every plan has a 15% annual discount. */
  function Catalog(plan: string): (r: Option<PlanInfo>)
    ensures r.Some? ==> 1 <= r.value.minVehicles <= r.value.maxVehicles
  {
    if plan == "route" then Some(PlanInfo("Start", 39900, 5, 1))
    else if plan == "full" then Some(PlanInfo("Pro", 149900, 50, 1))
    else if plan == "enterprise" then Some(PlanInfo("Enterprise", 220000, 999999, 51))
    else None
  }

  lemma EnterpriseEntry()
    ensures Catalog("enterprise") == Some(PlanInfo("Enterprise", 220000, 999999, 51))
  {
  }

  const AnnualDiscountPercent: nat := 15

  /** A monthly price after the annual discount. */
  function Discounted(cents: nat): nat
  {
    cents * (100 - AnnualDiscountPercent) / 100
  }

  /** The discount never needs rounding on catalogue prices. */
  lemma CataloguePricesAreExact(plan: string)
    requires Catalog(plan).Some?
    ensures Discounted(Catalog(plan).value.monthlyCents) * 100 == Catalog(plan).value.monthlyCents * 85
    ensures Discounted(12 * Catalog(plan).value.monthlyCents) == 12 * Discounted(Catalog(plan).value.monthlyCents)
  {
  }

  /** The UI's spellings of the plan names. */
  function Alias(plan: string): string
  {
    if plan == "start" || plan == "starter" then "route"
    else if plan == "pro" || plan == "professional" || plan == "profissional" then "full"
    else if plan == "empresa" || plan == "empresarial" || plan == "corp" then "enterprise"
    else plan
  }

  /** `(plan or "").lower().strip()`, then the aliases. */
  function CanonicalPlan(plan: Option<string>): string
  {
    Alias(Strip(Lower(if plan.Some? then plan.value else "")))
  }

  /** The billing period: "annual" for the annual spellings (accents on the
    * a removed), "monthly" for anything else, including nothing. */
  function NormalizeBilling(billing: Option<string>): (r: string)
    ensures r == "annual" || r == "monthly"
    ensures billing.None? ==> r == "monthly"
    ensures billing == Some("anual") || billing == Some("annual") || billing == Some("yearly") ==> r == "annual"
  {
    var b := if billing.None? || billing.value == "" then "monthly" else billing.value;
    PlainWord(b);
    var t := Replace(Replace(Strip(Lower(b)), "á", "a"), "ã", "a");
    if t == "annual" || t == "anual" || t == "yearly" then "annual" else "monthly"
  }

  /** A word of plain lower-case letters only goes through the aliases. */
  lemma CanonicalOfLowerWord(plan: string)
    requires forall i :: 0 <= i < |plan| ==> 'a' <= plan[i] <= 'z'
    ensures CanonicalPlan(Some(plan)) == Alias(plan)
  {
    PlainLowerWord(plan);
  }

  /** The catalogue's own plan names are canonical. */
  lemma CanonicalNames(plan: string)
    ensures plan in {"route", "full", "enterprise"} ==> CanonicalPlan(Some(plan)) == plan
  {
    if plan in {"route", "full", "enterprise"} {
      CanonicalOfLowerWord(plan);
      NamesAreNotAliases();
    }
  }

  lemma NamesAreNotAliases()
    ensures Alias("route") == "route" && Alias("full") == "full" && Alias("enterprise") == "enterprise"
  {
  }

  /** The plain lower-case spellings pass through the normalisation. */
  lemma PlainWord(b: string)
    ensures b in {"monthly", "annual", "anual", "yearly"} ==> Replace(Replace(Strip(Lower(b)), "á", "a"), "ã", "a") == b
  {
    if b == "monthly" || b == "annual" || b == "anual" || b == "yearly" {
      LowerCaseLetters(b);
    }
  }

  lemma LowerCaseLetters(b: string)
    requires forall i :: 0 <= i < |b| ==> 'a' <= b[i] <= 'z'
    ensures Replace(Replace(Strip(Lower(b)), "á", "a"), "ã", "a") == b
  {
    PlainLowerWord(b);
    ReplaceAbsent(b, "á", "a");
    ReplaceAbsent(b, "ã", "a");
  }

  /** `int(vehicles or 1)`, and 1 when `int()` raises. */
  function RequestedVehicles(v: Value): (n: int)
    ensures !Truthy(v) ==> n == 1
    ensures v.Int? && v.i != 0 ==> n == v.i
  {
    if !Truthy(v) then 1
    else match IntOf(v)
      case Some(n) => n
      case None => 1
  }

  /** `"%.2f"` of an amount in cents. */
  function CentsText(c: nat): (s: string)
    ensures forall k :: 0 <= k < |s| ==> IsDigit(s[k]) || s[k] == '.'
  {
    NatToString(c / 100) + "." + Pad2(c % 100)
  }

  /** The quote's friendly text. */
  function Description(title: string, minVehicles: nat, annual: bool, equivCents: nat): string
  {
    title + Period(annual) + (if minVehicles > 1 then "a partir de " else "")
    + NatToString(minVehicles) + " veículos" + Equivalent(annual, equivCents)
  }

  /** The billing period part of the text. */
  function Period(annual: bool): string
  {
    if annual then " — anual (15% OFF) — " else " — mensal — "
  }

  /** The monthly equivalent, shown for annual billing only. */
  function Equivalent(annual: bool, equivCents: nat): string
  {
    if annual then " — equiv. R$ " + CentsText(equivCents) + "/mês" else ""
  }

  lemma ContainsHasChars(s: string, sub: string, k: nat)
    requires Contains(s, sub) && k < |sub|
    ensures sub[k] in s
  {
    var i :| 0 <= i && i + |sub| <= |s| && OccursAt(s, sub, i);
    assert s[i + k] == sub[k];
  }

  /** The text says "a partir de" (starting from) exactly for plans with a
    * minimum fleet. */
  lemma DescriptionMentionsMinimum(title: string, minVehicles: nat, annual: bool, equivCents: nat)
    requires 'd' !in title
    ensures Contains(Description(title, minVehicles, annual, equivCents), "a partir de ") <==> minVehicles > 1
  {
    if minVehicles > 1 {
      MinimumIsMentioned(title, minVehicles, annual, equivCents);
    } else {
      var s := Description(title, minVehicles, annual, equivCents);
      NoLetterD(title, minVehicles, annual, equivCents);
      if Contains(s, "a partir de ") {
        ContainsHasChars(s, "a partir de ", 9);
      }
    }
  }

  lemma MinimumIsMentioned(title: string, minVehicles: nat, annual: bool, equivCents: nat)
    requires minVehicles > 1
    ensures Contains(Description(title, minVehicles, annual, equivCents), "a partir de ")
  {
    var rest := NatToString(minVehicles) + " veículos" + Equivalent(annual, equivCents);
    ContainsMiddle(title + Period(annual), "a partir de ", rest);
    assert Description(title, minVehicles, annual, equivCents) == title + Period(annual) + "a partir de " + rest;
  }

  /** Without a minimum fleet the text has no letter d outside the title. */
  lemma NoLetterD(title: string, minVehicles: nat, annual: bool, equivCents: nat)
    requires 'd' !in title && minVehicles <= 1
    ensures 'd' !in Description(title, minVehicles, annual, equivCents)
  {
    var digits := NatToString(minVehicles);
    assert forall k :: 0 <= k < |digits| ==> digits[k] != 'd';
    PiecesHaveNoD(annual, equivCents);
  }

  /** The fixed pieces of the text have no letter d. */
  lemma PiecesHaveNoD(annual: bool, equivCents: nat)
    ensures 'd' !in Period(annual) && 'd' !in " veículos" && 'd' !in Equivalent(annual, equivCents)
  {
    var equiv := CentsText(equivCents);
    assert forall k :: 0 <= k < |equiv| ==> equiv[k] != 'd';
    assert 'd' !in " — equiv. R$ " && 'd' !in "/mês";
  }

  datatype Quote = Quote(
    plan: string,
    planLabel: string,
    vehicles: int,
    maxVehicles: nat,
    billing: string,
    monthlyPriceCents: nat,
    monthlyEquivalentCents: nat,
    totalPerPeriodCents: nat,
    description: string)

  datatype QuoteError = InvalidPlan

  /** The quote of a catalogue plan for a requested fleet and a normalised
    * billing period. */
  function QuoteFor(p: string, info: PlanInfo, requested: int, b: string): (q: Quote)
    requires Catalog(p) == Some(info) && (b == "annual" || b == "monthly")
    ensures q.plan == p && q.planLabel == info.title && q.maxVehicles == info.maxVehicles
    ensures q.monthlyPriceCents == info.monthlyCents && q.billing == b
    ensures info.minVehicles <= q.vehicles <= info.maxVehicles
    ensures info.minVehicles <= requested <= info.maxVehicles ==> q.vehicles == requested
    ensures requested < info.minVehicles ==> q.vehicles == info.minVehicles
    ensures requested > info.maxVehicles ==> q.vehicles == info.maxVehicles
    ensures Contains(q.description, "a partir de ") <==> info.minVehicles > 1
    ensures b == "annual" ==>
      q.monthlyEquivalentCents * 100 == q.monthlyPriceCents * 85 && q.totalPerPeriodCents == 12 * q.monthlyEquivalentCents
    ensures b == "monthly" ==> q.monthlyEquivalentCents == q.monthlyPriceCents && q.totalPerPeriodCents == q.monthlyPriceCents
  {
    var atLeast := if requested < info.minVehicles then info.minVehicles else requested;
    var v := if atLeast > info.maxVehicles then info.maxVehicles else atLeast;
    var annual := b == "annual";
    CataloguePricesAreExact(p);
    var equiv := if annual then Discounted(info.monthlyCents) else info.monthlyCents;
    var total := if annual then Discounted(12 * info.monthlyCents) else info.monthlyCents;
    DescriptionMentionsMinimum(info.title, info.minVehicles, annual, equiv);
    Quote(p, info.title, v, info.maxVehicles, b, info.monthlyCents, equiv, total,
          Description(info.title, info.minVehicles, annual, equiv))
  }

  /** `quote(plan, vehicles, billing)`. */
  function MakeQuote(plan: Option<string>, vehicles: Value, billing: Option<string>): (r: Result<Quote, QuoteError>)
    ensures r.Err? <==> Catalog(CanonicalPlan(plan)).None?
    ensures r.Ok? ==> r.value.plan == CanonicalPlan(plan)
    ensures r.Ok? ==> var info := Catalog(r.value.plan).value;
      && r.value.planLabel == info.title && r.value.maxVehicles == info.maxVehicles
      && r.value.monthlyPriceCents == info.monthlyCents
      && info.minVehicles <= r.value.vehicles <= info.maxVehicles
      && (info.minVehicles <= RequestedVehicles(vehicles) <= info.maxVehicles ==> r.value.vehicles == RequestedVehicles(vehicles))
      && (RequestedVehicles(vehicles) < info.minVehicles ==> r.value.vehicles == info.minVehicles)
      && (RequestedVehicles(vehicles) > info.maxVehicles ==> r.value.vehicles == info.maxVehicles)
      && (Contains(r.value.description, "a partir de ") <==> info.minVehicles > 1)
    ensures r.Ok? ==> r.value.billing == NormalizeBilling(billing)
    ensures r.Ok? && r.value.billing == "annual" ==>
      r.value.monthlyEquivalentCents * 100 == r.value.monthlyPriceCents * 85
      && r.value.totalPerPeriodCents == 12 * r.value.monthlyEquivalentCents
    ensures r.Ok? && r.value.billing == "monthly" ==>
      r.value.monthlyEquivalentCents == r.value.monthlyPriceCents && r.value.totalPerPeriodCents == r.value.monthlyPriceCents
  {
    var p := CanonicalPlan(plan);
    match Catalog(p)
    case None => Err(InvalidPlan)
    case Some(info) => Ok(QuoteFor(p, info, RequestedVehicles(vehicles), NormalizeBilling(billing)))
  }

  /** A catalogue name and a plain billing period are taken as they are. */
  lemma QuoteOfCatalogueName(plan: string, vehicles: Value, billing: string)
    requires plan == "route" || plan == "full" || plan == "enterprise"
    requires billing == "monthly" || billing == "annual"
    ensures Catalog(plan).Some?
    ensures MakeQuote(Some(plan), vehicles, Some(billing))
      == Ok(QuoteFor(plan, Catalog(plan).value, RequestedVehicles(vehicles), billing))
  {
    CanonicalNames(plan);
    PlainBilling(billing);
  }

  lemma PlainBilling(billing: string)
    requires billing == "monthly" || billing == "annual"
    ensures NormalizeBilling(Some(billing)) == billing
  {
    PlainWord(billing);
  }

  /** The annual prices of the three plans, per month and per year. */
  lemma AnnualPriceTable()
    ensures Discounted(39900) == 33915 && Discounted(12 * 39900) == 406980
    ensures Discounted(149900) == 127415 && Discounted(12 * 149900) == 1528980
    ensures Discounted(220000) == 187000 && Discounted(12 * 220000) == 2244000
  {
  }

  /** Every alias names a catalogue plan. */
  lemma AliasesAreCatalogued(plan: string)
    requires plan in {"start", "starter", "pro", "professional", "profissional", "empresa", "empresarial", "corp"}
    ensures Catalog(Alias(plan)).Some?
  {
  }
}
