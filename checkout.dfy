// The two checkout blueprints: routes/checkout_routes.py (Start and Pro
// only) and checkout_routes.py (also Enterprise). Both validate the query
// of the checkout pages, quote a price in integer cents and compute the end
// of the first billing period. Time is seconds since the epoch.

module Checkout {
  import opened Common
  import Billing
  import Db

  const SecondsPerDay: int := 86400

  /** `_period_end`: 365 days ahead for annual billing, 30 otherwise. */
  function PeriodEnd(billing: string, now: int): (r: int)
    ensures billing == "annual" ==> r == now + 365 * SecondsPerDay
    ensures billing != "annual" ==> r == now + 30 * SecondsPerDay
  {
    now + (if billing == "annual" then 365 else 30) * SecondsPerDay
  }

  /** `_validate`. */
  predicate Validate(plan: string, billing: string, vehicles: int)
  {
    (plan == "route" || plan == "full") && (billing == "monthly" || billing == "annual") && vehicles > 0
  }

  /** The query parameters as the handlers read them. */
  datatype Params = Params(plan: string, billing: string, vehicles: int)

  /** `(args.get("plan") or "").strip().lower()`, the same for billing with
    * "monthly" as default, and `int(args.get("vehicles", "1"))` with 1 when
    * `int()` raises. */
  function ReadParams(plan: Option<string>, billing: Option<string>, vehicles: Option<string>): (p: Params)
    ensures vehicles.None? ==> p.vehicles == 1
    ensures vehicles.Some? && ParseInt(vehicles.value).Some? ==> p.vehicles == ParseInt(vehicles.value).value
    ensures vehicles.Some? && ParseInt(vehicles.value).None? ==> p.vehicles == 1
  {
    var pl := Lower(Strip(if plan.None? || plan.value == "" then "" else plan.value));
    var bl := Lower(Strip(if billing.None? || billing.value == "" then "monthly" else billing.value));
    var v := if vehicles.None? then 1 else match ParseInt(vehicles.value)
      case Some(n) => n
      case None => 1;
    Params(pl, bl, v)
  }

  /** Whether a handler lets the request through (otherwise it aborts with
    * 400); the vehicle count is raised to at least 1 before validation. */
  predicate Admits(p: Params)
  {
    Validate(p.plan, p.billing, if p.vehicles < 1 then 1 else p.vehicles)
  }

  /** The handlers' gate depends only on the plan and the billing period. */
  lemma GateIgnoresVehicles(p: Params)
    ensures Admits(p) <==> (p.plan == "route" || p.plan == "full") && (p.billing == "monthly" || p.billing == "annual")
  {
  }

  datatype CheckoutQuote = CheckoutQuote(
    plan: string,
    billing: string,
    vehicles: int,
    limit: int,
    monthlyEffectiveCents: nat,
    totalPerPeriodCents: nat,
    periodLabel: string,
    planLabel: string)

  /** `max(1, min(vehicles, limit))`. */
  function ClampVehicles(vehicles: int, limit: int): (r: int)
    requires limit >= 1
    ensures 1 <= r <= limit
    ensures 1 <= vehicles <= limit ==> r == vehicles
    ensures vehicles > limit ==> r == limit
    ensures vehicles < 1 ==> r == 1
  {
    var m := if vehicles < limit then vehicles else limit;
    if m < 1 then 1 else m
  }

  /** `_quote`: Start for "route", Pro for every other plan. */
  function Quote(plan: string, billing: string, vehicles: int): (q: CheckoutQuote)
    ensures q.plan == plan && q.billing == billing
    ensures q.planLabel == "Start" <==> plan == "route"
    ensures q.limit == (if plan == "route" then 5 else 50)
    ensures q.vehicles == ClampVehicles(vehicles, q.limit)
    ensures billing == "annual" ==>
      q.monthlyEffectiveCents * 100 == (if plan == "route" then 39900 else 149900) * 85
      && q.totalPerPeriodCents == 12 * q.monthlyEffectiveCents
    ensures billing != "annual" ==>
      q.monthlyEffectiveCents == q.totalPerPeriodCents == (if plan == "route" then 39900 else 149900)
  {
    var base: nat := if plan == "route" then 39900 else 149900;
    var limit := if plan == "route" then 5 else 50;
    var v := ClampVehicles(vehicles, limit);
    if billing == "annual" then
      var me := Billing.Discounted(base);
      CheckoutQuote(plan, billing, v, limit, me, 12 * me, "12 meses (anual)",
                    if plan == "route" then "Start" else "Pro")
    else
      CheckoutQuote(plan, billing, v, limit, base, base, "1 mês (mensal)",
                    if plan == "route" then "Start" else "Pro")
  }

  /** For the plans it accepts, the checkout charges what the catalogue
    * quotes, and caps the fleet at the catalogue's maximum. */
  lemma QuoteAgreesWithCatalogue(plan: string, billing: string, vehicles: int)
    requires plan == "route" || plan == "full"
    requires billing == "monthly" || billing == "annual"
    ensures var q := Quote(plan, billing, vehicles);
      var c := Billing.MakeQuote(Some(plan), Int(vehicles), Some(billing));
      && c.Ok?
      && q.limit == c.value.maxVehicles
      && q.monthlyEffectiveCents == c.value.monthlyEquivalentCents
      && q.totalPerPeriodCents == c.value.totalPerPeriodCents
      && q.planLabel == c.value.planLabel
  {
    Billing.QuoteOfCatalogueName(plan, Int(vehicles), billing);
  }

  datatype CheckoutError = BadRequest

  /** The subscription `confirm_checkout` records: active, from the mock
    * provider, for the quoted fleet, until the end of the first period. */
  function MockSubscription(user: int, p: Params, vehicles: int, now: int): (s: Db.Subscription)
    ensures s.status == "active" && s.provider == "mock" && s.providerRef == "mock-" + p.plan
    ensures s.startedAt == Db.Instant(now, true)
    ensures s.periodEnd == Some(Db.Instant(PeriodEnd(p.billing, now), true))
  {
    Db.Subscription(user, p.plan, p.billing, vehicles, "active", Db.Instant(now, true),
                    Some(Db.Instant(PeriodEnd(p.billing, now), true)), "mock", "mock-" + p.plan)
  }

  /** `confirm_checkout`: 400 for parameters the gate refuses; otherwise a
    * new subscription under the next id, marked active once more. */
  method Confirm(store: Db.Store, user: int, p: Params, now: int) returns (r: Result<int, CheckoutError>)
    modifies store`subscriptions
    ensures !Admits(p) ==> r == Err(BadRequest) && store.subscriptions == old(store.subscriptions)
    ensures Admits(p) ==> r.Ok? && r.value !in old(store.subscriptions)
    ensures Admits(p) ==> (store.subscriptions
      == old(store.subscriptions)[r.value := Db.Stored(MockSubscription(user, p, Quote(p.plan, p.billing, p.vehicles).vehicles, now))])
  {
    if !Admits(p) {
      return Err(BadRequest);
    }
    var q := Quote(p.plan, p.billing, p.vehicles);
    var id := store.CreateSubscription(MockSubscription(user, p, q.vehicles, now));
    store.MarkSubscriptionStatus(id, "active", None);
    assert store.subscriptions[id].(status := "active") == store.subscriptions[id];
    r := Ok(id);
  }
}

module LegacyCheckout {
  import opened Common
  import Billing
  import Checkout
  import Db

  /** `_validate`, which also accepts "enterprise". */
  predicate Validate(plan: string, billing: string, vehicles: int)
  {
    (plan == "route" || plan == "full" || plan == "enterprise")
    && (billing == "monthly" || billing == "annual") && vehicles > 0
  }

  /** This gate admits what the routes/ checkout admits and, besides, the
    * Enterprise plan under the same billing and count rules. */
  lemma ValidateAddsEnterprise(plan: string, billing: string, vehicles: int)
    ensures Checkout.Validate(plan, billing, vehicles) ==> Validate(plan, billing, vehicles)
    ensures Validate(plan, billing, vehicles) && !Checkout.Validate(plan, billing, vehicles) ==>
      plan == "enterprise" && Checkout.Validate("full", billing, vehicles)
  {
  }

  /** `_quote`: Start, Pro, and Enterprise for every other plan. */
  function Quote(plan: string, billing: string, vehicles: int): (q: Checkout.CheckoutQuote)
    ensures q.plan == plan && q.billing == billing
    ensures q.limit == (if plan == "route" then 5 else if plan == "full" then 50 else 999999)
    ensures q.planLabel == (if plan == "route" then "Start" else if plan == "full" then "Pro" else "Enterprise")
    ensures q.vehicles == Checkout.ClampVehicles(vehicles, q.limit)
    ensures billing == "annual" ==>
      q.monthlyEffectiveCents * 100 == (if plan == "route" then 39900 else if plan == "full" then 149900 else 220000) * 85
      && q.totalPerPeriodCents == 12 * q.monthlyEffectiveCents
    ensures billing != "annual" ==>
      q.monthlyEffectiveCents == q.totalPerPeriodCents
      == (if plan == "route" then 39900 else if plan == "full" then 149900 else 220000)
  {
    var base: nat := if plan == "route" then 39900 else if plan == "full" then 149900 else 220000;
    var limit := if plan == "route" then 5 else if plan == "full" then 50 else 999999;
    var title := if plan == "route" then "Start" else if plan == "full" then "Pro" else "Enterprise";
    var v := Checkout.ClampVehicles(vehicles, limit);
    if billing == "annual" then
      var me := Billing.Discounted(base);
      Checkout.CheckoutQuote(plan, billing, v, limit, me, 12 * me, "12 meses (anual)", title)
    else
      Checkout.CheckoutQuote(plan, billing, v, limit, base, base, "1 mês (mensal)", title)
  }

  /** On Start and Pro the two checkouts quote the same. */
  lemma AgreesOnStartAndPro(plan: string, billing: string, vehicles: int)
    requires plan == "route" || plan == "full"
    ensures Quote(plan, billing, vehicles) == Checkout.Quote(plan, billing, vehicles)
  {
  }

  /** Enterprise is priced as in the catalogue, but a fleet below the
    * catalogue's minimum of 51 is only raised to 1: a quote for 10 vehicles
    * keeps 10 here where the catalogue quotes 51. */
  lemma EnterpriseMinimumDiffers(vehicles: int, billing: string)
    requires 1 <= vehicles < 51
    ensures Quote("enterprise", billing, vehicles).vehicles == vehicles
    ensures var c := Billing.MakeQuote(Some("enterprise"), Int(vehicles), Some(billing));
      c.Ok? && c.value.vehicles == 51
  {
    var q := Quote("enterprise", billing, vehicles);
    assert q.limit == 999999 && q.vehicles == Checkout.ClampVehicles(vehicles, 999999);
    CatalogueRaisesFleet(vehicles, billing);
  }

  lemma CatalogueRaisesFleet(vehicles: int, billing: string)
    requires 1 <= vehicles < 51
    ensures var c := Billing.MakeQuote(Some("enterprise"), Int(vehicles), Some(billing));
      c.Ok? && c.value.vehicles == 51
  {
    Billing.CanonicalNames("enterprise");
    Billing.EnterpriseEntry();
    assert Billing.RequestedVehicles(Int(vehicles)) == vehicles;
  }

  /** `_validate` and the handlers' reading of the form. */
  predicate Admits(p: Checkout.Params)
  {
    Validate(p.plan, p.billing, if p.vehicles < 1 then 1 else p.vehicles)
  }

  /** `confirm_checkout`, with Enterprise admitted. */
  method Confirm(store: Db.Store, user: int, p: Checkout.Params, now: int) returns (r: Result<int, Checkout.CheckoutError>)
    modifies store`subscriptions
    ensures !Admits(p) ==> r == Err(Checkout.BadRequest) && store.subscriptions == old(store.subscriptions)
    ensures Admits(p) ==> r.Ok? && r.value !in old(store.subscriptions)
    ensures Admits(p) ==> (store.subscriptions
      == old(store.subscriptions)[r.value := Db.Stored(Checkout.MockSubscription(user, p, Quote(p.plan, p.billing, p.vehicles).vehicles, now))])
  {
    if !Admits(p) {
      return Err(Checkout.BadRequest);
    }
    var q := Quote(p.plan, p.billing, p.vehicles);
    var id := store.CreateSubscription(Checkout.MockSubscription(user, p, q.vehicles, now));
    store.MarkSubscriptionStatus(id, "active", None);
    assert store.subscriptions[id].(status := "active") == store.subscriptions[id];
    r := Ok(id);
  }
}
