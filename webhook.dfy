// The Asaas payment webhook (asaas_webhook.py): a signed notification of a
// payment event moves the matching subscription to "active" with a new
// period end, or to "past_due". The HMAC-SHA256 digest and the clock are
// parameters.

module AsaasWebhook {
  import opened Common
  import Db
  import Checkout
  import Subscriptions

  /** `hmac.new(secret, raw, sha256).hexdigest()`. */
  type Digest = (string, string) -> string

  /** `_valid_sig`: any signature when no secret is configured, otherwise
    * exactly the hex digest of the body. */
  predicate ValidSig(secret: string, raw: string, provided: string, hmac: Digest)
  {
    secret == "" || hmac(secret, raw) == provided
  }

  /** Without a secret every request passes; with one, only the digest. */
  lemma SignatureRule(secret: string, raw: string, provided: string, hmac: Digest)
    ensures secret == "" ==> ValidSig(secret, raw, provided, hmac)
    ensures secret != "" ==> (ValidSig(secret, raw, provided, hmac) <==> provided == hmac(secret, raw))
  {
  }

  predicate Paid(event: string)
  {
    event == "PAYMENT_RECEIVED" || event == "PAYMENT_CONFIRMED"
  }

  predicate Lapsed(event: string)
  {
    event == "PAYMENT_OVERDUE" || event == "PAYMENT_DELETED" || event == "PAYMENT_REFUNDED"
  }

  /** The subscription table after an event, already upper-cased, about the
    * payment `payId`: the latest 'asaas' subscription with that reference
    * becomes active until 365 or 30 days from now (stored naive, see
    * `Db.Column`), or past due with its period end kept; every other row, and every other event, leaves the
    * table as it was. */
  function Applied(subs: map<int, Db.Subscription>, event: string, payId: Option<string>, now: int)
    : (r: map<int, Db.Subscription>)
    ensures r.Keys == subs.Keys
    ensures payId.None? || Db.ByProviderRef(subs, payId.value).None? || (!Paid(event) && !Lapsed(event)) ==> r == subs
    ensures payId.Some? && Db.ByProviderRef(subs, payId.value).Some? ==>
      var id := Db.ByProviderRef(subs, payId.value).value;
      && (forall i :: i in subs && i != id ==> r[i] == subs[i])
      && (Paid(event) ==> r[id] == subs[id].(status := "active",
            periodEnd := Some(Db.Instant(Checkout.PeriodEnd(subs[id].billing, now), false))))
      && (Lapsed(event) ==> r[id] == subs[id].(status := "past_due"))
  {
    match payId
    case None => subs
    case Some(ref) =>
      match Db.ByProviderRef(subs, ref)
      case None => subs
      case Some(id) =>
        if Paid(event) then
          Db.MarkStatus(subs, id, "active", Some(Db.Instant(Checkout.PeriodEnd(subs[id].billing, now), true)))
        else if Lapsed(event) then
          Db.MarkStatus(subs, id, "past_due", None)
        else subs
  }

  /** The "payment" member of the body: an object with its id (None when
    * the id is missing or not text), or another JSON value, of which only
    * its truth matters: a falsy one reads as `{}`. */
  datatype PaymentField = Payment(id: Option<string>) | NotAnObject(truthy: bool)

  /** The body as `get_json(force=True)` parses it: not JSON at all, a JSON
    * value that is not an object, or an object with its "event" member
    * (Null when missing) and its "payment" member. */
  datatype Body = Unparsable | NotObject | Object(event: Value, payment: PaymentField)

  /** `(payload.get("event") or "").upper()`: None when it raises, that is
    * for a truthy event that is not text. */
  function EventOf(v: Value): (r: Option<string>)
    ensures !Truthy(v) ==> r == Some("")
    ensures v.Str? ==> r == Some(Upper(v.s))
    ensures r.None? <==> Truthy(v) && !v.Str?
  {
    if !Truthy(v) then Some("")
    else if v.Str? then Some(Upper(v.s))
    else None
  }

  /** `(payload.get("payment") or {}).get("id")`: None when it raises, that
    * is for a truthy member that is not an object. */
  function PayIdOf(p: PaymentField): (r: Option<Option<string>>)
    ensures r.None? <==> p.NotAnObject? && p.truthy
    ensures p.Payment? ==> r == Some(p.id)
    ensures p.NotAnObject? && !p.truthy ==> r == Some(None)
  {
    match p
    case Payment(id) => Some(id)
    case NotAnObject(truthy) => if truthy then None else Some(None)
  }

  /** 401 for a bad signature, 400 for a body that is not JSON, 500 for an
    * AttributeError, and ok. */
  datatype Reply = Accepted | BadSignature | BadRequest | Raised

  /** `webhook`: 401 and no change for a bad signature; 400 for a body that
    * is not JSON; 500 and no change for a body that is not an object, an
    * event that is not text or a payment that is not an object; otherwise
    * the upper-cased event is applied, and the reply is ok. */
  method Webhook(store: Db.Store, secret: string, raw: string, signature: string, hmac: Digest,
                 body: Body, now: int) returns (reply: Reply)
    modifies store`subscriptions
    ensures reply == BadSignature <==> !ValidSig(secret, raw, signature, hmac)
    ensures reply == BadRequest <==> ValidSig(secret, raw, signature, hmac) && body.Unparsable?
    ensures reply == Raised <==>
      ValidSig(secret, raw, signature, hmac) &&
      (body.NotObject? || (body.Object? && (EventOf(body.event).None? || PayIdOf(body.payment).None?)))
    ensures reply != Accepted ==> store.subscriptions == old(store.subscriptions)
    ensures reply == Accepted ==>
      && body.Object? && EventOf(body.event).Some? && PayIdOf(body.payment).Some?
      && store.subscriptions == Applied(old(store.subscriptions), EventOf(body.event).value, PayIdOf(body.payment).value, now)
  {
    if !ValidSig(secret, raw, signature, hmac) {
      return BadSignature;
    }
    if body.Unparsable? {
      return BadRequest;
    }
    if body.NotObject? {
      return Raised;
    }
    var event := EventOf(body.event);
    if event.None? {
      return Raised;
    }
    var e := event.value;
    var payId := PayIdOf(body.payment);
    if payId.None? {
      return Raised;
    }
    if payId.value.None? {
      return Accepted;
    }
    var sub := store.GetSubscriptionByProviderRef(payId.value.value);
    if sub.None? {
      return Accepted;
    }
    var id := sub.value;
    if Paid(e) {
      var days := if store.subscriptions[id].billing == "annual" then 365 else 30;
      store.MarkSubscriptionStatus(id, "active", Some(Db.Instant(now + days * Checkout.SecondsPerDay, true)));
    } else if Lapsed(e) {
      store.MarkSubscriptionStatus(id, "past_due", None);
    }
    reply := Accepted;
  }

  /** Event names are matched without regard to case: an event and its upper
    * case have the same effect. */
  lemma EventCaseIgnored(subs: map<int, Db.Subscription>, event: string, payId: Option<string>, now: int)
    ensures Applied(subs, Upper(Upper(event)), payId, now) == Applied(subs, Upper(event), payId, now)
  {
    UpperIdempotent(event);
  }

  /** A received payment on a user's newest subscription stores its new
    * period end naive, so `user_has_active_subscription` as written raises
    * TypeError for that user afterwards. */
  lemma PaymentRaises(subs: map<int, Db.Subscription>, ref: string, now: int, t: int)
    requires Db.ByProviderRef(subs, ref).Some?
    requires var id := Db.ByProviderRef(subs, ref).value;
      forall i :: i in subs && i != id && subs[i].userId == subs[id].userId ==> subs[i].startedAt.t < subs[id].startedAt.t
    ensures var id := Db.ByProviderRef(subs, ref).value;
      Subscriptions.HasActiveSubscription(Applied(subs, "PAYMENT_RECEIVED", Some(ref), now), subs[id].userId, t)
        == Err(Subscriptions.TypeError)
  {
    var id := Db.ByProviderRef(subs, ref).value;
    var after := Applied(subs, "PAYMENT_RECEIVED", Some(ref), now);
    Subscriptions.NewestIsLatest(after, subs[id].userId, id);
  }

  /** A received payment on a user's newest subscription makes the user's
    * subscription active until the new period end, under the check that
    * reads a naive period end as UTC. */
  lemma PaymentActivates(subs: map<int, Db.Subscription>, ref: string, now: int, t: int)
    requires Db.ByProviderRef(subs, ref).Some?
    requires var id := Db.ByProviderRef(subs, ref).value;
      forall i :: i in subs && i != id && subs[i].userId == subs[id].userId ==> subs[i].startedAt.t < subs[id].startedAt.t
    requires var id := Db.ByProviderRef(subs, ref).value;
      now <= t <= Checkout.PeriodEnd(subs[id].billing, now)
    ensures var id := Db.ByProviderRef(subs, ref).value;
      Subscriptions.IntendedHasActiveSubscription(Applied(subs, "PAYMENT_RECEIVED", Some(ref), now), subs[id].userId, t)
  {
    var id := Db.ByProviderRef(subs, ref).value;
    var after := Applied(subs, "PAYMENT_RECEIVED", Some(ref), now);
    Subscriptions.NewestIsLatest(after, subs[id].userId, id);
  }

  /** An overdue, deleted or refunded payment on a user's newest
    * subscription ends the user's access through it. */
  lemma LapseDeactivates(subs: map<int, Db.Subscription>, ref: string, event: string, now: int, t: int)
    requires Lapsed(event)
    requires Db.ByProviderRef(subs, ref).Some?
    requires var id := Db.ByProviderRef(subs, ref).value;
      forall i :: i in subs && i != id && subs[i].userId == subs[id].userId ==> subs[i].startedAt.t < subs[id].startedAt.t
    ensures var id := Db.ByProviderRef(subs, ref).value;
      Subscriptions.HasActiveSubscription(Applied(subs, event, Some(ref), now), subs[id].userId, t) != Ok(true)
    ensures var id := Db.ByProviderRef(subs, ref).value;
      !Subscriptions.IntendedHasActiveSubscription(Applied(subs, event, Some(ref), now), subs[id].userId, t)
  {
    var id := Db.ByProviderRef(subs, ref).value;
    var after := Applied(subs, event, Some(ref), now);
    Subscriptions.PastDueNewestBlocks(after, subs[id].userId, id, t);
  }
}
