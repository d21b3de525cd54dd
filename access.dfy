// Who may use the application: the subscription check of subscriptions.py,
// the two `user_has_access` variants (core/authz.py, with an administrator
// bypass, and authz.py, without), `admin_required`, and the vehicle limit of
// core/limits.py. The clock is a parameter `now`, the seconds of an aware
// UTC datetime; the database rows are read through the queries of Db.

module Subscriptions {
  import opened Common
  import Db
  import Checkout

  datatype AccessError = TypeError

  /** `user_has_active_subscription`: the user's most recently started
    * subscription decides. Python refuses to order a naive period end
    * against the aware `now`. */
  function HasActiveSubscription(subs: map<int, Db.Subscription>, user: int, now: int): (r: Result<bool, AccessError>)
    ensures Db.LatestSubscriptionFor(subs, user).None? ==> r == Ok(false)
    ensures r.Err? <==> var l := Db.LatestSubscriptionFor(subs, user);
      l.Some? && subs[l.value].periodEnd.Some? && !subs[l.value].periodEnd.value.aware
    ensures r == Ok(true) <==> var l := Db.LatestSubscriptionFor(subs, user);
      && l.Some? && subs[l.value].status == "active" && subs[l.value].periodEnd.Some?
      && subs[l.value].periodEnd.value.aware && now <= subs[l.value].periodEnd.value.t
  {
    match Db.LatestSubscriptionFor(subs, user)
    case None => Ok(false)
    case Some(id) =>
      var s := subs[id];
      if s.periodEnd.None? then Ok(false)
      else if !s.periodEnd.value.aware then Err(TypeError)
      else if s.periodEnd.value.t < now then Ok(false)
      else Ok(s.status == "active")
  }

  /** A latest subscription without a period end, or with a status other
    * than "active" (pending, past_due, canceled), never gives access, even
    * before its period ends. */
  lemma OnlyActiveWithEndPasses(subs: map<int, Db.Subscription>, user: int, now: int)
    requires Db.LatestSubscriptionFor(subs, user).Some?
    requires var s := subs[Db.LatestSubscriptionFor(subs, user).value];
      s.periodEnd.None? || s.status != "active"
    ensures HasActiveSubscription(subs, user, now) != Ok(true)
  {
  }

  /** The most recently started subscription decides: when it is past due,
    * no older active one helps. */
  lemma PastDueNewestBlocks(subs: map<int, Db.Subscription>, user: int, id: int, now: int)
    requires id in subs && subs[id].userId == user && subs[id].status == "past_due"
    requires forall i :: i in subs && i != id && subs[i].userId == user ==> subs[i].startedAt.t < subs[id].startedAt.t
    ensures HasActiveSubscription(subs, user, now) != Ok(true)
  {
    var l := Db.LatestSubscriptionFor(subs, user);
    assert subs[id].startedAt.t <= subs[l.value].startedAt.t;
  }

  /** A row that started after every other row of its user is that user's
    * latest subscription. */
  lemma NewestIsLatest(subs: map<int, Db.Subscription>, user: int, id: int)
    requires id in subs && subs[id].userId == user
    requires forall i :: i in subs && i != id && subs[i].userId == user ==> subs[i].startedAt.t < subs[id].startedAt.t
    ensures Db.LatestSubscriptionFor(subs, user) == Some(id)
  {
    var l := Db.LatestSubscriptionFor(subs, user);
    assert subs[id].startedAt.t <= subs[l.value].startedAt.t;
  }

  /** `user_has_active_subscription` as evidently meant: a naive period end
    * is read as UTC, as core/authz.py:24-25 reads naive trial-end text. */
  function IntendedHasActiveSubscription(subs: map<int, Db.Subscription>, user: int, now: int): (r: bool)
    ensures Db.LatestSubscriptionFor(subs, user).None? ==> !r
    ensures r <==> var l := Db.LatestSubscriptionFor(subs, user);
      && l.Some? && subs[l.value].status == "active" && subs[l.value].periodEnd.Some?
      && now <= subs[l.value].periodEnd.value.t
  {
    match Db.LatestSubscriptionFor(subs, user)
    case None => false
    case Some(id) =>
      var s := subs[id];
      if s.periodEnd.None? || s.periodEnd.value.t < now then false
      else s.status == "active"
  }

  /** Wherever the check as written answers, the intended one agrees; they
    * differ only where the written one raises. */
  lemma IntendedAgrees(subs: map<int, Db.Subscription>, user: int, now: int)
    ensures HasActiveSubscription(subs, user, now).Ok? ==>
      IntendedHasActiveSubscription(subs, user, now) == HasActiveSubscription(subs, user, now).value
  {
  }

  /** After a confirmed checkout the newest subscription is the stored one,
    * whose period end the table gives back naive: the check as written
    * raises TypeError for that user. */
  lemma ConfirmedCheckoutRaises(subs: map<int, Db.Subscription>, id: int, user: int, p: Checkout.Params,
                                vehicles: int, now: int, t: int)
    requires id !in subs
    requires forall i :: i in subs && subs[i].userId == user ==> subs[i].startedAt.t < now
    ensures HasActiveSubscription(subs[id := Db.Stored(Checkout.MockSubscription(user, p, vehicles, now))], user, t)
      == Err(TypeError)
  {
    var after := subs[id := Db.Stored(Checkout.MockSubscription(user, p, vehicles, now))];
    NewestIsLatest(after, user, id);
  }

  /** After a confirmed checkout, the user holds an active subscription
    * until the end of the first period, provided the user's earlier
    * subscriptions all started before: for the row as written with its
    * zone kept, and for the stored row under the intended check. */
  lemma ConfirmedCheckoutIsActive(subs: map<int, Db.Subscription>, id: int, user: int, p: Checkout.Params,
                                  vehicles: int, now: int, t: int)
    requires id !in subs
    requires forall i :: i in subs && subs[i].userId == user ==> subs[i].startedAt.t < now
    requires now <= t <= Checkout.PeriodEnd(p.billing, now)
    ensures HasActiveSubscription(subs[id := Checkout.MockSubscription(user, p, vehicles, now)], user, t) == Ok(true)
    ensures IntendedHasActiveSubscription(subs[id := Db.Stored(Checkout.MockSubscription(user, p, vehicles, now))], user, t)
  {
    var after := subs[id := Checkout.MockSubscription(user, p, vehicles, now)];
    NewestIsLatest(after, user, id);
    var stored := subs[id := Db.Stored(Checkout.MockSubscription(user, p, vehicles, now))];
    NewestIsLatest(stored, user, id);
  }

  datatype Gate = RedirectToPricing | CallView

  /** `subscription_required`: the view runs only for a user with an active
    * subscription; everybody else is sent to the pricing page. */
  function SubscriptionRequired(subs: map<int, Db.Subscription>, user: int, now: int): (r: Result<Gate, AccessError>)
    ensures r == Ok(CallView) <==> HasActiveSubscription(subs, user, now) == Ok(true)
    ensures r == Ok(RedirectToPricing) <==> HasActiveSubscription(subs, user, now) == Ok(false)
    ensures r.Err? <==> HasActiveSubscription(subs, user, now).Err?
  {
    match HasActiveSubscription(subs, user, now)
    case Err(e) => Err(e)
    case Ok(active) => Ok(if active then CallView else RedirectToPricing)
  }
}

module Authz {
  import opened Common
  import Db

  /** A trial's `trial_end` as the code may meet it: a datetime, or text
    * for `datetime.fromisoformat`. */
  datatype Stamp = Moment(d: Db.Instant) | IsoText(text: string)

  datatype AuthzError = TypeError | ValueError

  /** `datetime.fromisoformat` on text: None when it raises ValueError. */
  type IsoParser = string -> Option<Db.Instant>

  /** The trial branch of core/authz.py: an aware datetime is compared with
    * `now`; anything else goes through `fromisoformat`, whose naive result
    * is read as UTC. A naive datetime object makes `fromisoformat` raise
    * TypeError. */
  function TrialOpen(end: Stamp, now: int, fromIso: IsoParser): (r: Result<bool, AuthzError>)
    ensures end.Moment? && end.d.aware ==> r == Ok(now < end.d.t)
    ensures end.Moment? && !end.d.aware ==> r == Err(TypeError)
    ensures end.IsoText? ==> (r == Err(ValueError) <==> fromIso(end.text).None?)
    ensures end.IsoText? && fromIso(end.text).Some? ==> r == Ok(now < fromIso(end.text).value.t)
  {
    match end
    case Moment(d) => if d.aware then Ok(d.t > now) else Err(TypeError)
    case IsoText(text) =>
      match fromIso(text)
      case None => Err(ValueError)
      case Some(dt) => Ok(dt.t > now)
  }

  /** What the trial table says, when the subscription did not decide. */
  function TrialAccess(trials: map<int, Db.Trial>, user: int, now: int, fromIso: IsoParser): (r: Result<bool, AuthzError>)
    ensures Db.ActiveTrial(trials, user).None? ==> r == Ok(false)
    ensures Db.ActiveTrial(trials, user).Some? ==>
      r == TrialOpen(Moment(trials[Db.ActiveTrial(trials, user).value].trialEnd), now, fromIso)
  {
    match Db.ActiveTrial(trials, user)
    case None => Ok(false)
    case Some(id) => TrialOpen(Moment(trials[id].trialEnd), now, fromIso)
  }

  /** `user_has_access`: administrators always; otherwise an active
    * subscription; otherwise an active trial that has not ended. */
  function UserHasAccess(isAdmin: bool, subs: map<int, Db.Subscription>, trials: map<int, Db.Trial>, user: int,
                         now: int, fromIso: IsoParser): (r: Result<bool, AuthzError>)
    ensures isAdmin ==> r == Ok(true)
    ensures !isAdmin && Db.ActiveSubscription(subs, user).Some? ==> r == Ok(true)
    ensures !isAdmin && Db.ActiveSubscription(subs, user).None? ==> r == TrialAccess(trials, user, now, fromIso)
  {
    if isAdmin then Ok(true)
    else match Db.ActiveSubscription(subs, user)
      case Some(id) => if subs[id].status == "active" then Ok(true) else TrialAccess(trials, user, now, fromIso)
      case None => TrialAccess(trials, user, now, fromIso)
  }

  /** Access without administrator rights rests on a row: an active
    * subscription, or an active trial whose end lies after `now`. */
  lemma AccessNeedsARow(subs: map<int, Db.Subscription>, trials: map<int, Db.Trial>, user: int, now: int, fromIso: IsoParser)
    requires UserHasAccess(false, subs, trials, user, now, fromIso) == Ok(true)
    ensures (exists i :: i in subs && subs[i].userId == user && subs[i].status == "active")
      || (exists i :: i in trials && trials[i].userId == user && trials[i].status == "active" && now < trials[i].trialEnd.t)
  {
    var s := Db.ActiveSubscription(subs, user);
    if s.None? {
      var t := Db.ActiveTrial(trials, user).value;
      assert trials[t].userId == user && trials[t].status == "active";
    }
  }

  /** The table gives every `trial_end` back naive (`Db.Column`): a user
    * without an active subscription but with an active trial makes
    * `user_has_access` raise TypeError at `fromisoformat`. */
  lemma StoredTrialRaises(subs: map<int, Db.Subscription>, trials: map<int, Db.Trial>, user: int, now: int,
                          fromIso: IsoParser)
    requires Db.ActiveSubscription(subs, user).None?
    requires Db.ActiveTrial(trials, user).Some? && !trials[Db.ActiveTrial(trials, user).value].trialEnd.aware
    ensures UserHasAccess(false, subs, trials, user, now, fromIso) == Err(TypeError)
  {
  }

  /** The trial branch as evidently meant: a naive datetime is read as UTC,
    * as naive ISO text already is. */
  function IntendedTrialOpen(end: Stamp, now: int, fromIso: IsoParser): (r: Result<bool, AuthzError>)
    ensures end.Moment? ==> r == Ok(now < end.d.t)
    ensures end.IsoText? ==> r == TrialOpen(end, now, fromIso)
  {
    match end
    case Moment(d) => Ok(d.t > now)
    case IsoText(_) => TrialOpen(end, now, fromIso)
  }

  /** The intended trial branch never raises TypeError, and agrees with the
    * written one wherever that answers. */
  lemma IntendedTrialOpenAgrees(end: Stamp, now: int, fromIso: IsoParser)
    ensures IntendedTrialOpen(end, now, fromIso) != Err(TypeError)
    ensures TrialOpen(end, now, fromIso).Ok? ==> IntendedTrialOpen(end, now, fromIso) == TrialOpen(end, now, fromIso)
  {
  }

  datatype Denial = Unauthorized | Forbidden

  /** `admin_required`: 401 when nobody is logged in, 403 for a user who is
    * not an administrator. */
  function AdminRequired(authenticated: bool, isAdmin: bool): (r: Result<(), Denial>)
    ensures !authenticated ==> r == Err(Unauthorized)
    ensures authenticated && !isAdmin ==> r == Err(Forbidden)
    ensures r.Ok? <==> authenticated && isAdmin
  {
    if !authenticated then Err(Unauthorized)
    else if !isAdmin then Err(Forbidden)
    else Ok(())
  }

  /** Whoever passes `admin_required` also passes `user_has_access`. */
  lemma AdminsHaveAccess(authenticated: bool, isAdmin: bool, subs: map<int, Db.Subscription>, trials: map<int, Db.Trial>,
                         user: int, now: int, fromIso: IsoParser)
    requires AdminRequired(authenticated, isAdmin).Ok?
    ensures UserHasAccess(isAdmin, subs, trials, user, now, fromIso) == Ok(true)
  {
  }
}

module LegacyAuthz {
  import opened Common
  import Db
  import Authz

  /** The trial branch of authz.py: every datetime is compared with the
    * aware `now` as it is, and so is the result of `fromisoformat`; a naive
    * one raises TypeError. */
  function TrialOpen(end: Authz.Stamp, now: int, fromIso: Authz.IsoParser): (r: Result<bool, Authz.AuthzError>)
    ensures end.Moment? ==> r == (if end.d.aware then Ok(now < end.d.t) else Err(Authz.TypeError))
    ensures end.IsoText? && fromIso(end.text).None? ==> r == Err(Authz.ValueError)
    ensures end.IsoText? && fromIso(end.text).Some? ==>
      r == (if fromIso(end.text).value.aware then Ok(now < fromIso(end.text).value.t) else Err(Authz.TypeError))
  {
    var dt := match end
      case Moment(d) => Some(d)
      case IsoText(text) => fromIso(text);
    match dt
    case None => Err(Authz.ValueError)
    case Some(d) => if d.aware then Ok(d.t > now) else Err(Authz.TypeError)
  }

  function TrialAccess(trials: map<int, Db.Trial>, user: int, now: int, fromIso: Authz.IsoParser): (r: Result<bool, Authz.AuthzError>)
    ensures Db.ActiveTrial(trials, user).None? ==> r == Ok(false)
    ensures Db.ActiveTrial(trials, user).Some? ==>
      r == TrialOpen(Authz.Moment(trials[Db.ActiveTrial(trials, user).value].trialEnd), now, fromIso)
  {
    match Db.ActiveTrial(trials, user)
    case None => Ok(false)
    case Some(id) => TrialOpen(Authz.Moment(trials[id].trialEnd), now, fromIso)
  }

  /** `user_has_access` without the administrator bypass. */
  function UserHasAccess(subs: map<int, Db.Subscription>, trials: map<int, Db.Trial>, user: int,
                         now: int, fromIso: Authz.IsoParser): (r: Result<bool, Authz.AuthzError>)
    ensures Db.ActiveSubscription(subs, user).Some? ==> r == Ok(true)
    ensures Db.ActiveSubscription(subs, user).None? ==> r == TrialAccess(trials, user, now, fromIso)
  {
    match Db.ActiveSubscription(subs, user)
    case Some(id) => if subs[id].status == "active" then Ok(true) else TrialAccess(trials, user, now, fromIso)
    case None => TrialAccess(trials, user, now, fromIso)
  }

  /** Wherever the older check answers, the newer one gives the same answer
    * for a user who is not an administrator. */
  lemma NewerExtendsOlder(end: Authz.Stamp, now: int, fromIso: Authz.IsoParser)
    requires TrialOpen(end, now, fromIso).Ok?
    ensures Authz.TrialOpen(end, now, fromIso) == TrialOpen(end, now, fromIso)
  {
  }

  lemma NewerExtendsOlderOnTables(subs: map<int, Db.Subscription>, trials: map<int, Db.Trial>, user: int,
                                  now: int, fromIso: Authz.IsoParser)
    requires UserHasAccess(subs, trials, user, now, fromIso).Ok?
    ensures Authz.UserHasAccess(false, subs, trials, user, now, fromIso) == UserHasAccess(subs, trials, user, now, fromIso)
  {
    if Db.ActiveSubscription(subs, user).None? && Db.ActiveTrial(trials, user).Some? {
      NewerExtendsOlder(Authz.Moment(trials[Db.ActiveTrial(trials, user).value].trialEnd), now, fromIso);
    }
  }

  /** Naive ISO text is where the two differ: the newer check reads it as
    * UTC, the older one raises TypeError. */
  lemma NaiveIsoTextDiffers(text: string, now: int, fromIso: Authz.IsoParser)
    requires fromIso(text).Some? && !fromIso(text).value.aware
    ensures TrialOpen(Authz.IsoText(text), now, fromIso) == Err(Authz.TypeError)
    ensures Authz.TrialOpen(Authz.IsoText(text), now, fromIso).Ok?
  {
  }
}

module Limits {
  import opened Common
  import Db

  /** `PLAN_LIMITS.get(name, PLAN_LIMITS["start"])`. */
  function PlanLimit(name: string): (r: int)
    ensures r == 5 || r == 50 || r == 9999999
    ensures name == "pro" ==> r == 50
    ensures name == "enterprise" ==> r == 9999999
    ensures name != "pro" && name != "enterprise" ==> r == 5
  {
    if name == "start" then 5
    else if name == "pro" then 50
    else if name == "enterprise" then 9999999
    else 5
  }

  /** The catalogue's plan keys "route" and "full" are not limit names, so
    * both get the Start limit. */
  lemma CatalogueKeysGetStartLimit()
    ensures PlanLimit("route") == 5 && PlanLimit("full") == 5 && PlanLimit("trial") == 5
  {
  }

  datatype LimitError = AttributeError

  /** `get_vehicle_limit_for_user` as written: `sub.get` on the tuple row of
    * `get_active_subscription` raises AttributeError; without a
    * subscription the name is "start", trial or not. */
  function VehicleLimitForUser(subs: map<int, Db.Subscription>, trials: map<int, Db.Trial>, user: int): (r: Result<int, LimitError>)
    ensures r.Err? <==> Db.ActiveSubscription(subs, user).Some?
    ensures r.Ok? ==> r.value == 5
  {
    if Db.ActiveSubscription(subs, user).Some? then Err(AttributeError)
    else
      var name := if Db.ActiveTrial(trials, user).Some? then "start" else "";
      Ok(PlanLimit(if name == "" then "start" else name))
  }

  /** A user with one active subscription of the catalogue's Pro plan. */
  lemma SubscribedUserRaises(user: int, started: Db.Instant, end: Db.Instant)
    ensures var subs := map[1 := Db.Subscription(user, "pro", "monthly", 50, "active", started, Some(end), "mock", "mock-pro")];
      VehicleLimitForUser(subs, map[], user) == Err(AttributeError)
      && IntendedVehicleLimit(subs, map[], user) == 50
  {
    var subs := map[1 := Db.Subscription(user, "pro", "monthly", 50, "active", started, Some(end), "mock", "mock-pro")];
    assert subs[1].userId == user && subs[1].status == "active";
    var r := Db.ActiveSubscription(subs, user);
    assert r.Some? && r.value in subs.Keys;
    assert subs.Keys == {1};
    LowerOfLowerCase("pro");
  }

  /** The evident intent: the plan column of the active subscription,
    * lower-cased, then the trial, then "start". */
  function IntendedVehicleLimit(subs: map<int, Db.Subscription>, trials: map<int, Db.Trial>, user: int): (r: int)
    ensures r == 5 || r == 50 || r == 9999999
    ensures Db.ActiveSubscription(subs, user).Some? && subs[Db.ActiveSubscription(subs, user).value].plan != "" ==>
      r == PlanLimit(Lower(subs[Db.ActiveSubscription(subs, user).value].plan))
    ensures Db.ActiveSubscription(subs, user).None? ==> r == 5
  {
    var fromSub := match Db.ActiveSubscription(subs, user)
      case Some(id) => Lower(subs[id].plan)
      case None => "";
    var name := if fromSub != "" then fromSub else if Db.ActiveTrial(trials, user).Some? then "start" else "";
    PlanLimit(if name == "" then "start" else name)
  }

  /** Where the code as written answers, the intended limit agrees. */
  lemma IntendedAgreesWithoutSubscription(subs: map<int, Db.Subscription>, trials: map<int, Db.Trial>, user: int)
    requires VehicleLimitForUser(subs, trials, user).Ok?
    ensures IntendedVehicleLimit(subs, trials, user) == VehicleLimitForUser(subs, trials, user).value
  {
  }
}
