/** The billing tables and the handlers that change them, each as one serial transaction.

    New row identifiers come with the call. `str.upper` and the UUID parser are library functions
    and are parameters.
 */
module Billing {
  import opened Text
  import opened Pricing

  type Id = nat

  datatype Config = Config(upper: string -> string, parseUuid: string -> Option<Id>, showUuid: Id -> string)

  datatype User = User(tier: string, expires: Option<int>, trialUsed: bool)

  datatype Status = Pending | Completed

  datatype Payment = Payment(
    user: Id,
    amount: int,
    original: Option<int>,
    promo: Option<string>,
    status: Status,
    plan: string,
    externalId: Option<string>,
    subscription: Option<Id>)

  datatype Subscription = Subscription(user: Id, plan: string, startedAt: int, expiresAt: int, cancelledAt: Option<int>)

  datatype Db = Db(
    users: map<Id, User>,
    payments: map<Id, Payment>,
    subscriptions: map<Id, Subscription>,
    promos: map<string, Promo>)

  datatype Error = InvalidPlan | TrialAlreadyUsed | NoSubscription

  // ---------------------------------------------------------------- promo codes

  predicate AppliesTo(plans: string, plan: string) {
    plans == "all" || exists i :: 0 <= i < |Split(plans, ',')| && Trim(Split(plans, ',')[i], IsPythonWhitespace) == plan
  }

  predicate Usable(p: Promo, plan: string, now: int) {
    && p.isActive
    && !(p.validFrom.Some? && p.validFrom.value > now)
    && !(p.validUntil.Some? && p.validUntil.value < now)
    && !(p.maxUses > 0 && p.currentUses >= p.maxUses)
    && AppliesTo(p.plans, plan)
  }

  /** Mirrors `validate_promo`: the stored code of a promo that can be used now. */
  function ValidatePromo(cfg: Config, db: Db, code: string, plan: string, now: int): Option<string> {
    var stored := cfg.upper(code);
    if stored in db.promos && Usable(db.promos[stored], plan, now) then Some(stored) else None
  }

  /** Mirrors `check_promo`: the price that a code would give. */
  function CheckPromo(cfg: Config, db: Db, code: string, plan: string, now: int): Option<int> {
    if !ForSale(plan) then None else
    match ValidatePromo(cfg, db, code, plan, now)
    case None => None
    case Some(stored) => Some(ApplyDiscount(PLANS[plan].price, db.promos[stored]))
  }

  // ---------------------------------------------------------------- handlers on values

  /** The code that a purchase applies. An empty code is no code. */
  function AppliedPromo(cfg: Config, db: Db, plan: string, code: Option<string>, now: int): Option<string> {
    if code.None? || code.value == "" then None else ValidatePromo(cfg, db, code.value, plan, now)
  }

  function UsedOnce(promos: map<string, Promo>, stored: string): map<string, Promo>
    requires stored in promos
  {
    promos[stored := promos[stored].(currentUses := promos[stored].currentUses + 1)]
  }

  /** Mirrors `create_payment_link`, with the new payment's identifier. */
  function Purchase(cfg: Config, db: Db, user: Id, plan: string, code: Option<string>, id: Id, now: int): Result<Db, Error> {
    if !ForSale(plan) then Failure(InvalidPlan) else
    var price := PLANS[plan].price;
    match AppliedPromo(cfg, db, plan, code, now)
    case None =>
      Success(db.(payments := db.payments[id := Payment(user, price, None, None, Pending, plan, None, None)]))
    case Some(stored) =>
      var amount := ApplyDiscount(price, db.promos[stored]);
      Success(db.(payments := db.payments[id := Payment(user, amount, Some(price), Some(stored), Pending, plan, None, None)],
                  promos := UsedOnce(db.promos, stored)))
  }

  /** Python's `replace` with nothing: every occurrence, from the left. */
  function RemoveAll(s: string, part: string): string
    requires part != []
  {
    if |s| < |part| then s
    else if s[..|part|] == part then RemoveAll(s[|part|..], part)
    else [s[0]] + RemoveAll(s[1..], part)
  }

  const TAG: string := "PLG:"

  /** The payment that a webhook's comment names. */
  function NamedPayment(cfg: Config, comment: string): Option<Id> {
    if comment == [] || !(TAG <= comment) then None
    else cfg.parseUuid(Trim(RemoveAll(comment, TAG), IsPythonWhitespace))
  }

  /** The pending payment that a webhook completes, if there is one. */
  function Completes(cfg: Config, db: Db, comment: string): Option<Id> {
    match NamedPayment(cfg, comment)
    case None => None
    case Some(id) => if id in db.payments && db.payments[id].status == Pending then Some(id) else None
  }

  /** What the database demands: a payment's user and plan exist. */
  predicate References(db: Db) {
    forall p :: p in db.payments ==> db.payments[p].user in db.users && ForSale(db.payments[p].plan)
  }

  /** Mirrors `process_webhook` for a payment to complete, with the new subscription's identifier.
      The clock is read twice: first for the start, then, in `calculate_expiry`, for the expiry. */
  function Complete(db: Db, id: Id, sub: Id, externalId: string, started: int, now: int): Db
    requires References(db) && id in db.payments
  {
    var payment := db.payments[id];
    var user := db.users[payment.user];
    var expires := Extend(user.expires, now, PLANS[payment.plan].days * DAY);
    Db(db.users[payment.user := user.(tier := payment.plan, expires := Some(expires))],
       db.payments[id := payment.(status := Completed, externalId := Some(externalId), subscription := Some(sub))],
       db.subscriptions[sub := Subscription(payment.user, payment.plan, started, expires, None)],
       db.promos)
  }

  function Webhook(cfg: Config, db: Db, comment: string, sub: Id, externalId: string, started: int, now: int): Db
    requires References(db)
  {
    match Completes(cfg, db, comment)
    case None => db
    case Some(id) => Complete(db, id, sub, externalId, started, now)
  }

  /** Mirrors `activate_trial`. */
  function Trial(db: Db, user: Id, sub: Id, now: int): Result<Db, Error>
    requires user in db.users
  {
    if db.users[user].trialUsed then Failure(TrialAlreadyUsed) else
    var expires := now + 7 * DAY;
    Success(db.(users := db.users[user := User("trial", Some(expires), true)],
                subscriptions := db.subscriptions[sub := Subscription(user, "trial", now, expires, None)]))
  }

  /** The subscriptions that `cancel_subscription` may pick: those of the user that expire last. */
  predicate ExpiresLast(db: Db, user: Id, sub: Id) {
    && sub in db.subscriptions && db.subscriptions[sub].user == user
    && forall s :: s in db.subscriptions && db.subscriptions[s].user == user ==>
        db.subscriptions[s].expiresAt <= db.subscriptions[sub].expiresAt
  }

  function Cancel(db: Db, sub: Id, now: int): Db
    requires sub in db.subscriptions
  {
    db.(subscriptions := db.subscriptions[sub := db.subscriptions[sub].(cancelledAt := Some(now))])
  }

  // ---------------------------------------------------------------- the service

  class BillingService {
    const cfg: Config

    var users: map<Id, User>
    var payments: map<Id, Payment>
    var subscriptions: map<Id, Subscription>
    var promos: map<string, Promo>

    ghost function Tables(): Db
      reads this
    {
      Db(users, payments, subscriptions, promos)
    }

    constructor (cfg: Config, users: map<Id, User>, promos: map<string, Promo>)
      ensures this.cfg == cfg && Tables() == Db(users, map[], map[], promos)
    {
      this.cfg, this.users, this.promos := cfg, users, promos;
      payments, subscriptions := map[], map[];
    }

    method CreatePaymentLink(user: Id, plan: string, code: Option<string>, id: Id, now: int)
      returns (r: Result<Payment, Error>)
      requires id !in payments
      modifies this`payments, this`promos
      ensures match Purchase(cfg, old(Tables()), user, plan, code, id, now)
        case Success(db) => Tables() == db && r == Success(payments[id])
        case Failure(e) => Tables() == old(Tables()) && r == Failure(e)
      ensures r == Failure(InvalidPlan) <==> !ForSale(plan)
      ensures r.Success? ==>
        && payments == old(payments)[id :=
             Payment(user, r.value.amount, r.value.original, r.value.promo, Pending, plan, None, None)]
        && r.value.promo == AppliedPromo(cfg, old(Tables()), plan, code, now)
      ensures r.Success? && r.value.promo.None? ==>
        r.value.amount == PLANS[plan].price && r.value.original.None? && promos == old(promos)
      ensures r.Success? && r.value.promo.Some? ==>
        var stored := r.value.promo.value;
        && stored in old(promos) && r.value.original == Some(PLANS[plan].price)
        && r.value.amount == ApplyDiscount(PLANS[plan].price, old(promos)[stored])
        && promos == old(promos)[stored := old(promos)[stored].(currentUses := old(promos)[stored].currentUses + 1)]
    {
      if !ForSale(plan) {
        return Failure(InvalidPlan);
      }
      var amount: int := PLANS[plan].price;
      var original: Option<int> := None;
      var applied: Option<string> := None;
      if code.Some? && code.value != "" {
        var promo := ValidatePromo(cfg, Db(users, payments, subscriptions, promos), code.value, plan, now);
        if promo.Some? {
          original := Some(amount);
          amount := ApplyDiscount(PLANS[plan].price, promos[promo.value]);
          applied := promo;
          promos := UsedOnce(promos, promo.value);
        }
      }
      var payment := Payment(user, amount, original, applied, Pending, plan, None, None);
      payments := payments[id := payment];
      r := Success(payment);
    }

    method ProcessWebhook(comment: string, sub: Id, externalId: string, started: int, now: int) returns (done: Option<Id>)
      requires References(Tables()) && sub !in subscriptions
      modifies this`users, this`payments, this`subscriptions
      ensures Tables() == Webhook(cfg, old(Tables()), comment, sub, externalId, started, now)
      ensures done == Completes(cfg, old(Tables()), comment)
      ensures done.None? ==> Tables() == old(Tables())
      ensures done.Some? ==>
        && |comment| >= 4 && comment[..4] == "PLG:"
        && done.value in old(payments) && old(payments)[done.value].status == Pending
        && payments == old(payments)[done.value :=
             old(payments)[done.value].(status := Completed, externalId := Some(externalId), subscription := Some(sub))]
        && promos == old(promos)
      ensures done.Some? ==>
        var payment := old(payments)[done.value];
        var expires := old(users)[payment.user].expires;
        var until := (if expires.Some? && expires.value > now then expires.value else now) + PLANS[payment.plan].days * DAY;
        && users == old(users)[payment.user := User(payment.plan, Some(until), old(users)[payment.user].trialUsed)]
        && subscriptions == old(subscriptions)[sub := Subscription(payment.user, payment.plan, started, until, None)]
    {
      done := None;
      if comment == [] || !(TAG <= comment) { return; }
      var named := cfg.parseUuid(Trim(RemoveAll(comment, TAG), IsPythonWhitespace));
      if named.None? { return; }
      var id := named.value;
      if id !in payments || payments[id].status != Pending { return; }
      var payment := payments[id].(status := Completed, externalId := Some(externalId));
      var user := users[payment.user];
      var expires := Extend(user.expires, now, PLANS[payment.plan].days * DAY);
      subscriptions := subscriptions[sub := Subscription(payment.user, payment.plan, started, expires, None)];
      payments := payments[id := payment.(subscription := Some(sub))];
      users := users[payment.user := user.(tier := payment.plan, expires := Some(expires))];
      done := named;
    }

    method ActivateTrial(user: Id, sub: Id, now: int) returns (r: Result<Subscription, Error>)
      requires user in users && sub !in subscriptions
      modifies this`users, this`subscriptions
      ensures match Trial(old(Tables()), user, sub, now)
        case Success(db) => Tables() == db && r == Success(subscriptions[sub])
        case Failure(e) => Tables() == old(Tables()) && r == Failure(e)
      ensures r == Failure(TrialAlreadyUsed) <==> old(users)[user].trialUsed
      ensures r.Success? ==>
        var week := 604_800_000_000;
        && users == old(users)[user := User("trial", Some(now + week), true)]
        && subscriptions == old(subscriptions)[sub := Subscription(user, "trial", now, now + week, None)]
    {
      if users[user].trialUsed {
        return Failure(TrialAlreadyUsed);
      }
      var expires := now + 7 * DAY;
      var subscription := Subscription(user, "trial", now, expires, None);
      subscriptions := subscriptions[sub := subscription];
      users := users[user := User("trial", Some(expires), true)];
      r := Success(subscription);
    }

    /** The query's choice among the last to expire is `pick`. */
    method CancelSubscription(user: Id, pick: Option<Id>, now: int) returns (r: Result<Id, Error>)
      requires if pick.Some? then ExpiresLast(Tables(), user, pick.value)
        else forall s :: s in subscriptions ==> subscriptions[s].user != user
      modifies this`subscriptions
      ensures pick.None? ==> r == Failure(NoSubscription) && Tables() == old(Tables())
      ensures pick.Some? ==> r == Success(pick.value) && Tables() == Cancel(old(Tables()), pick.value, now)
      ensures pick.Some? ==>
        && pick.value in old(subscriptions) && old(subscriptions)[pick.value].user == user
        && (forall s :: s in old(subscriptions) && old(subscriptions)[s].user == user ==>
              old(subscriptions)[s].expiresAt <= old(subscriptions)[pick.value].expiresAt)
        && subscriptions == old(subscriptions)[pick.value := old(subscriptions)[pick.value].(cancelledAt := Some(now))]
    {
      if pick.None? {
        return Failure(NoSubscription);
      }
      subscriptions := subscriptions[pick.value := subscriptions[pick.value].(cancelledAt := Some(now))];
      r := Success(pick.value);
    }
  }
}
