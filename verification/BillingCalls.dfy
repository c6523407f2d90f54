/** Single purchases, webhooks and trials, and what one of them means for another. */
module BillingCalls {
  import opened Text
  import opened Pricing
  import opened Billing

  // ---------------------------------------------------------------- single deliveries

  /** Delivering a webhook again changes nothing. */
  lemma SecondDeliveryIgnored(cfg: Config, db: Db, comment: string, sub: Id, ext: string, started: int, now: int,
                              sub': Id, ext': string, started': int, now': int)
    requires References(db)
    ensures var once := Webhook(cfg, db, comment, sub, ext, started, now);
      References(once) && Webhook(cfg, once, comment, sub', ext', started', now') == once
  {
  }

  /** What is assumed of the UUID functions: reading undoes printing, and the printed form has no
      capital letter, colon or space. */
  ghost predicate UuidLaws(cfg: Config) {
    forall id: Id :: cfg.parseUuid(cfg.showUuid(id)) == Some(id)
      && forall c :: c in cfg.showUuid(id) ==> c == '-' || IsDigit(c) || 'a' <= c <= 'z'
  }

  // ---------------------------------------------------------------- comments

  predicate HasTag(s: string) { |s| >= 4 && (s[..4] == "PLG:" || HasTag(s[1..])) }

  /** The parts with a tag between each two. */
  function Tagged(parts: seq<string>): string
    requires parts != []
  {
    if |parts| == 1 then parts[0] else parts[0] + "PLG:" + Tagged(parts[1..])
  }

  function Concatenated(parts: seq<string>): string {
    if parts == [] then [] else parts[0] + Concatenated(parts[1..])
  }

  lemma {:induction false} TagGoes(before: string, after: string)
    requires !HasTag(before)
    ensures RemoveAll(before + "PLG:" + after, TAG) == before + RemoveAll(after, TAG)
  {
    var s := before + "PLG:" + after;
    if before == [] {
      assert s[..4] == "PLG:" && s[4..] == after;
    } else {
      if s[..4] == "PLG:" {
        NoTagAcross(before, after);
      }
      assert s[1..] == before[1..] + "PLG:" + after;
      TagGoes(before[1..], after);
    }
  }

  /** No tag begins in a text without tags and ends in a tag that follows. */
  lemma NoTagAcross(before: string, after: string)
    requires before != [] && !HasTag(before)
    ensures (before + "PLG:" + after)[..4] != "PLG:"
  {
    var s := before + "PLG:" + after;
    if |before| >= 4 {
      assert s[..4] == before[..4];
    } else {
      assert s[|before|] == 'P';
      assert "PLG:"[1] == 'L' && "PLG:"[2] == 'G' && "PLG:"[3] == ':';
      assert s[..4][|before|] == 'P';
    }
  }

  lemma {:induction false} NothingToRemove(s: string)
    requires !HasTag(s)
    ensures RemoveAll(s, TAG) == s
  {
    if |s| < 4 {
    } else {
      NothingToRemove(s[1..]);
    }
  }

  /** All tags go, and nothing else does. */
  lemma {:induction false} TagsRemoved(parts: seq<string>)
    requires parts != [] && forall i :: 0 <= i < |parts| ==> !HasTag(parts[i])
    ensures RemoveAll(Tagged(parts), TAG) == Concatenated(parts)
  {
    if |parts| == 1 {
      NothingToRemove(parts[0]);
      assert Concatenated(parts[1..]) == [];
    } else {
      TagGoes(parts[0], Tagged(parts[1..]));
      TagsRemoved(parts[1..]);
    }
  }

  /** A comment names a payment if it begins with a tag and all the rest, without tags and without
      white space around, is the printed identifier; one that does not begin with a tag names none. */
  lemma CommentNames(cfg: Config, parts: seq<string>, before: string, id: Id, after: string)
    requires UuidLaws(cfg) && parts != [] && forall i :: 0 <= i < |parts| ==> !HasTag(parts[i])
    requires Concatenated(parts) == before + cfg.showUuid(id) + after
    requires All(before, IsPythonWhitespace) && All(after, IsPythonWhitespace)
    ensures var comment := Tagged(parts);
      NamedPayment(cfg, comment) == if |comment| >= 4 && comment[..4] == "PLG:" then Some(id) else None
  {
    var shown := cfg.showUuid(id);
    TagsRemoved(parts);
    assert forall i :: 0 <= i < |shown| ==> shown[i] in shown;
    TrimPadded(before, shown, after, IsPythonWhitespace);
    assert TAG == "PLG:";
  }

  lemma {:induction false} NoCapitalNoTag(s: string)
    requires 'P' !in s
    ensures !HasTag(s)
  {
    if |s| >= 4 {
      assert s[..4][0] in s && "PLG:"[0] == 'P';
      NoCapitalNoTag(s[1..]);
    }
  }

  /** The comment that a purchase prints names its payment. */
  lemma CommentNamesPayment(cfg: Config, id: Id)
    requires UuidLaws(cfg)
    ensures NamedPayment(cfg, "PLG:" + cfg.showUuid(id)) == Some(id)
  {
    var shown := cfg.showUuid(id);
    var parts := [[], shown];
    assert forall i :: 0 <= i < |shown| ==> shown[i] in shown;
    NoCapitalNoTag(shown);
    assert parts[1..] == [shown] && Tagged([shown]) == shown;
    assert Tagged(parts) == "PLG:" + shown;
    assert Concatenated([shown]) == shown + Concatenated([]);
    assert Concatenated(parts) == [] + shown + [];
    CommentNames(cfg, parts, [], id, []);
  }

  /** A webhook changes the tables exactly when its comment begins with the tag and names a pending
      payment. */
  lemma WebhookChangesExactly(cfg: Config, db: Db, comment: string, sub: Id, ext: string, started: int, now: int)
    requires References(db)
    ensures Webhook(cfg, db, comment, sub, ext, started, now) != db <==>
      && |comment| >= 4 && comment[..4] == "PLG:"
      && var named := cfg.parseUuid(Trim(RemoveAll(comment, "PLG:"), IsPythonWhitespace));
      && named.Some? && named.value in db.payments && db.payments[named.value].status == Pending
  {
    assert TAG == "PLG:";
    var id := Completes(cfg, db, comment);
    if id.Some? {
      var after := Webhook(cfg, db, comment, sub, ext, started, now);
      assert after.payments[id.value].status == Completed;
    }
  }

  // ---------------------------------------------------------------- purchases

  /** A part of a list of plans: a name with white space around. */
  ghost predicate Spells(part: string, name: string) {
    && (name == [] || (!IsPythonWhitespace(name[0]) && !IsPythonWhitespace(name[|name| - 1])))
    && exists before, after ::
        All(before, IsPythonWhitespace) && All(after, IsPythonWhitespace) && part == before + name + after
  }

  /** A text of names separated by commas lists just these plans. */
  lemma ListedExactly(parts: seq<string>, names: seq<string>, plan: string)
    requires |parts| == |names| > 0
    requires forall i :: 0 <= i < |parts| ==> ',' !in parts[i] && Spells(parts[i], names[i])
    ensures AppliesTo(Joined(parts, ','), plan) <==> Joined(parts, ',') == "all" || plan in names
  {
    SplitJoined(parts, ',');
    forall i | 0 <= i < |parts|
      ensures Trim(parts[i], IsPythonWhitespace) == names[i]
    {
      var before, after :|
        All(before, IsPythonWhitespace) && All(after, IsPythonWhitespace) && parts[i] == before + names[i] + after;
      TrimPadded(before, names[i], after, IsPythonWhitespace);
    }
  }

  /** A purchase applies a code exactly if it is not empty and, in capitals, is stored, active,
      within its time and below its limit, and lists the plan. */
  lemma AppliedExactly(cfg: Config, db: Db, plan: string, code: Option<string>, now: int, stored: string,
                       parts: seq<string>, names: seq<string>)
    requires |parts| == |names| > 0
    requires stored in db.promos && db.promos[stored].plans == Joined(parts, ',')
    requires forall i :: 0 <= i < |parts| ==> ',' !in parts[i] && Spells(parts[i], names[i])
    ensures AppliedPromo(cfg, db, plan, code, now) == Some(stored) <==>
      && code.Some? && code.value != "" && cfg.upper(code.value) == stored
      && var p := db.promos[stored];
      && p.isActive
      && (p.validFrom.Some? ==> p.validFrom.value <= now)
      && (p.validUntil.Some? ==> now <= p.validUntil.value)
      && (p.maxUses > 0 ==> p.currentUses < p.maxUses)
      && (p.plans == "all" || plan in names)
  {
    ListedExactly(parts, names, plan);
  }

  /** A purchase of a plan that is sold adds one pending payment, and changes promo codes at most. */
  lemma PurchaseIsPending(cfg: Config, db: Db, user: Id, plan: string, code: Option<string>, id: Id, now: int)
    requires References(db) && user in db.users && id !in db.payments && ForSale(plan)
    ensures var bought := Purchase(cfg, db, user, plan, code, id, now);
      && bought.Success? && References(bought.value)
      && id in bought.value.payments
      && var p := bought.value.payments[id];
      && p == Payment(user, p.amount, p.original, p.promo, Pending, plan, None, None)
      && bought.value == db.(payments := db.payments[id := p], promos := bought.value.promos)
  {
  }

  /** What it means to complete a payment. */
  lemma CompletedPayment(db: Db, id: Id, sub: Id, ext: string, started: int, now: int)
    requires References(db) && id in db.payments
    ensures var p := db.payments[id];
      var expires := db.users[p.user].expires;
      var until := (if expires.Some? && expires.value > now then expires.value else now) + PLANS[p.plan].days * DAY;
      && Complete(db, id, sub, ext, started, now)
      == Db(db.users[p.user := User(p.plan, Some(until), db.users[p.user].trialUsed)],
            db.payments[id := p.(status := Completed, externalId := Some(ext), subscription := Some(sub))],
            db.subscriptions[sub := Subscription(p.user, p.plan, started, until, None)],
            db.promos)
  {
  }

  /** A purchase paid for with the comment it printed is completed and credited to its user. */
  lemma PaidPurchaseIsCredited(cfg: Config, db: Db, user: Id, plan: string, code: Option<string>, id: Id, now: int,
                               sub: Id, ext: string, started: int, paidAt: int)
    requires UuidLaws(cfg) && References(db) && user in db.users && id !in db.payments && ForSale(plan)
    ensures var bought := Purchase(cfg, db, user, plan, code, id, now);
      && bought.Success? && References(bought.value)
      && var paid := Webhook(cfg, bought.value, "PLG:" + cfg.showUuid(id), sub, ext, started, paidAt);
      var expires := db.users[user].expires;
      var until := (if expires.Some? && expires.value > paidAt then expires.value else paidAt) + PLANS[plan].days * DAY;
      && id in bought.value.payments
      && var p := bought.value.payments[id];
      && p == Payment(user, p.amount, p.original, p.promo, Pending, plan, None, None)
      && paid == Db(db.users[user := User(plan, Some(until), db.users[user].trialUsed)],
                    db.payments[id := p.(status := Completed, externalId := Some(ext), subscription := Some(sub))],
                    db.subscriptions[sub := Subscription(user, plan, started, until, None)],
                    bought.value.promos)
  {
    PurchaseIsPending(cfg, db, user, plan, code, id, now);
    CommentNamesPayment(cfg, id);
    var bought := Purchase(cfg, db, user, plan, code, id, now).value;
    CompletedPayment(bought, id, sub, ext, started, paidAt);
    var p := bought.payments[id];
    assert bought.payments[id := p.(status := Completed, externalId := Some(ext), subscription := Some(sub))]
        == db.payments[id := p.(status := Completed, externalId := Some(ext), subscription := Some(sub))];
  }

  /** The price that a code is checked for is the price that a purchase with it then asks; and a
      check finds no price exactly if the purchase fails or applies no code. */
  lemma CheckedPriceIsCharged(cfg: Config, db: Db, user: Id, plan: string, code: string, id: Id, now: int)
    requires code != ""
    ensures var checked, r := CheckPromo(cfg, db, code, plan, now), Purchase(cfg, db, user, plan, Some(code), id, now);
      && (r.Success? ==> id in r.value.payments)
      && (checked.Some? <==> r.Success? && r.value.payments[id].promo.Some?)
      && (checked.Some? ==>
            && r.value.payments[id].amount == checked.value
            && r.value.payments[id].original == Some(PLANS[plan].price))
  {
  }

  /** A trial takes time away exactly when more than a week was left; a webhook never does. */
  lemma OnlyTrialsShorten(cfg: Config, db: Db, user: Id, sub: Id, now: int, comment: string, ext: string, started: int)
    requires References(db) && user in db.users && db.users[user].expires.Some?
    ensures var r := Trial(db, user, sub, now);
      r.Success? && r.value.users[user].expires.value < db.users[user].expires.value
      <==> !db.users[user].trialUsed && db.users[user].expires.value > now + 7 * DAY
    ensures var after := Webhook(cfg, db, comment, sub, ext, started, now);
      user in after.users && after.users[user].expires.Some?
      && after.users[user].expires.value >= db.users[user].expires.value
  {
  }
}
