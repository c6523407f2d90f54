/** Billing over whole runs of purchases, webhooks, trials and cancellations in any order, with
    junk and repeated webhooks among them. Edits by administrators are not part of a run.
 */
module BillingRuns {
  import opened Text
  import opened Pricing
  import opened Billing

  datatype Event =
    | Purchased(user: Id, plan: string, code: Option<string>, id: Id, now: int)
    | Delivered(comment: string, sub: Id, externalId: string, started: int, now: int)
    | TrialStarted(user: Id, sub: Id, now: int)
    | CancelledSub(user: Id, sub: Id, now: int)

  /** What moved a user's expiry. */
  datatype Entry = Paid(payment: Id, user: Id, credit: Credit, started: int) | Week(user: Id, at: int)

  /** The tables, with the history of expiry changes. */
  datatype Ledger = Ledger(db: Db, log: seq<Entry>)

  /** New rows have new identifiers, and users exist. */
  predicate Possible(db: Db, e: Event) {
    match e
    case Purchased(user, _, _, id, _) => user in db.users && id !in db.payments
    case Delivered(_, sub, _, _, _) => sub !in db.subscriptions
    case TrialStarted(user, sub, _) => user in db.users && sub !in db.subscriptions
    case CancelledSub(user, sub, _) => ExpiresLast(db, user, sub)
  }

  function Orelse(r: Result<Db, Error>, db: Db): Db { if r.Success? then r.value else db }

  function CreditFor(db: Db, id: Id, started: int, now: int): Entry
    requires References(db) && id in db.payments
  {
    Paid(id, db.payments[id].user, Credit(now, PLANS[db.payments[id].plan].days * DAY), started)
  }

  function Step(cfg: Config, l: Ledger, e: Event): Ledger
    requires References(l.db) && Possible(l.db, e)
  {
    match e
    case Purchased(user, plan, code, id, now) =>
      Ledger(Orelse(Purchase(cfg, l.db, user, plan, code, id, now), l.db), l.log)
    case Delivered(comment, sub, externalId, started, now) =>
      (match Completes(cfg, l.db, comment)
       case None => l
       case Some(id) => Ledger(Webhook(cfg, l.db, comment, sub, externalId, started, now),
                               l.log + [CreditFor(l.db, id, started, now)]))
    case TrialStarted(user, sub, now) =>
      if l.db.users[user].trialUsed then l
      else Ledger(Orelse(Trial(l.db, user, sub, now), l.db), l.log + [Week(user, now)])
    case CancelledSub(_, sub, now) => l.(db := Cancel(l.db, sub, now))
  }

  lemma StepKeepsReferences(cfg: Config, l: Ledger, e: Event)
    requires References(l.db) && Possible(l.db, e)
    ensures References(Step(cfg, l, e).db)
  {
  }

  predicate Fresh(db: Db) { db.payments == map[] && db.subscriptions == map[] }

  /** The tables after a run that starts with users and promo codes only. */
  function Exec(cfg: Config, db: Db, es: seq<Event>): (r: Option<Ledger>)
    requires Fresh(db)
    ensures r.Some? ==> References(r.value.db)
  {
    if es == [] then Some(Ledger(db, [])) else
    match Exec(cfg, db, es[..|es| - 1])
    case None => None
    case Some(l) =>
      if !Possible(l.db, es[|es| - 1]) then None else
      StepKeepsReferences(cfg, l, es[|es| - 1]);
      Some(Step(cfg, l, es[|es| - 1]))
  }

  /** A step does to the tables what its operation does, and logs exactly the changes of an expiry. */
  lemma StepRunsOperation(cfg: Config, l: Ledger, e: Event)
    requires References(l.db) && Possible(l.db, e)
    ensures var l' := Step(cfg, l, e);
      match e
      case Purchased(user, plan, code, id, now) =>
        var r := Purchase(cfg, l.db, user, plan, code, id, now);
        l'.log == l.log && l'.db == if r.Success? then r.value else l.db
      case Delivered(comment, sub, externalId, started, now) =>
        && l'.db == Webhook(cfg, l.db, comment, sub, externalId, started, now)
        && (l'.log == l.log <==> l'.db == l.db)
      case TrialStarted(user, sub, now) =>
        var r := Trial(l.db, user, sub, now);
        && l'.db == (if r.Success? then r.value else l.db)
        && l'.log == if r.Success? then l.log + [Week(user, now)] else l.log
      case CancelledSub(_, sub, now) =>
        && l'.log == l.log
        && l'.db == l.db.(subscriptions := l.db.subscriptions[sub := l.db.subscriptions[sub].(cancelledAt := Some(now))])
  {
    if e.Delivered? && Completes(cfg, l.db, e.comment).Some? {
      var id := Completes(cfg, l.db, e.comment).value;
      assert Step(cfg, l, e).db.payments[id].status == Completed;
      assert |Step(cfg, l, e).log| == |l.log| + 1;
    }
  }

  // ---------------------------------------------------------------- exactly once

  ghost predicate Logged(l: Ledger, p: Id) {
    exists i :: 0 <= i < |l.log| && l.log[i].Paid? && l.log[i].payment == p
  }

  /** Payments are completed exactly by the log, each by one entry of its own user and plan. */
  ghost predicate CreditedOnce(l: Ledger) {
    && (forall p :: p in l.db.payments ==> (l.db.payments[p].status == Completed <==> Logged(l, p)))
    && (forall i :: 0 <= i < |l.log| && l.log[i].Paid? ==>
          && l.log[i].payment in l.db.payments
          && ForSale(l.db.payments[l.log[i].payment].plan)
          && l.log[i].user == l.db.payments[l.log[i].payment].user
          && l.log[i].credit.time == PLANS[l.db.payments[l.log[i].payment].plan].days * DAY)
    && (forall i, j :: 0 <= i < j < |l.log| && l.log[i].Paid? && l.log[j].Paid? ==>
          l.log[i].payment != l.log[j].payment)
  }

  lemma PurchaseKeepsCredits(cfg: Config, l: Ledger, e: Event)
    requires References(l.db) && Possible(l.db, e) && CreditedOnce(l) && e.Purchased?
    ensures CreditedOnce(Step(cfg, l, e))
  {
  }

  lemma DeliveryKeepsCredits(cfg: Config, l: Ledger, e: Event)
    requires References(l.db) && Possible(l.db, e) && CreditedOnce(l) && e.Delivered?
    ensures CreditedOnce(Step(cfg, l, e))
  {
    var l', done := Step(cfg, l, e), Completes(cfg, l.db, e.comment);
    if done.Some? {
      var n := |l.log|;
      assert l'.log[n] == CreditFor(l.db, done.value, e.started, e.now);
      forall p | p in l'.db.payments
        ensures l'.db.payments[p].status == Completed <==> Logged(l', p)
      {
        if Logged(l, p) {
          var i :| 0 <= i < n && l.log[i].Paid? && l.log[i].payment == p;
          assert l'.log[i] == l.log[i];
        }
        if p == done.value {
          assert l'.log[n].payment == p;
        }
      }
    }
  }

  lemma TrialKeepsCredits(cfg: Config, l: Ledger, e: Event)
    requires References(l.db) && Possible(l.db, e) && CreditedOnce(l) && e.TrialStarted?
    ensures CreditedOnce(Step(cfg, l, e))
  {
    var l' := Step(cfg, l, e);
    assert forall i :: 0 <= i < |l.log| ==> l'.log[i] == l.log[i];
    forall p | p in l'.db.payments
      ensures l'.db.payments[p].status == Completed <==> Logged(l', p)
    {
      assert Logged(l, p) <==> Logged(l', p);
    }
  }

  lemma CancelKeepsCredits(cfg: Config, l: Ledger, e: Event)
    requires References(l.db) && Possible(l.db, e) && CreditedOnce(l) && e.CancelledSub?
    ensures CreditedOnce(Step(cfg, l, e))
  {
  }

  lemma StepKeepsCredits(cfg: Config, l: Ledger, e: Event)
    requires References(l.db) && Possible(l.db, e) && CreditedOnce(l)
    ensures CreditedOnce(Step(cfg, l, e))
  {
    match e
    case Purchased(_, _, _, _, _) => PurchaseKeepsCredits(cfg, l, e);
    case Delivered(_, _, _, _, _) => DeliveryKeepsCredits(cfg, l, e);
    case TrialStarted(_, _, _) => TrialKeepsCredits(cfg, l, e);
    case CancelledSub(_, _, _) => CancelKeepsCredits(cfg, l, e);
  }

  /** Completed payments and bought subscriptions belong to each other one to one. */
  ghost predicate Paired(payments: map<Id, Payment>, subs: map<Id, Subscription>) {
    && (forall p :: p in payments ==> Matched(payments[p], subs))
    && (forall p, q :: p in payments && q in payments && p != q && payments[p].subscription.Some? ==>
          payments[p].subscription != payments[q].subscription)
    && (forall s :: s in subs && subs[s].plan != "trial" ==> PaidFor(payments, s))
  }

  predicate Matched(p: Payment, subs: map<Id, Subscription>) {
    && (p.status == Completed <==> p.subscription.Some?)
    && (p.subscription.Some? ==>
          && p.subscription.value in subs
          && subs[p.subscription.value].user == p.user
          && subs[p.subscription.value].plan == p.plan)
  }

  ghost predicate PaidFor(payments: map<Id, Payment>, s: Id) {
    exists p :: p in payments && payments[p].subscription == Some(s)
  }

  lemma NewPaymentKeepsPairs(payments: map<Id, Payment>, subs: map<Id, Subscription>, id: Id, payment: Payment)
    requires Paired(payments, subs) && id !in payments
    requires payment.status == Pending && payment.subscription.None?
    ensures Paired(payments[id := payment], subs)
  {
    forall s | s in subs && subs[s].plan != "trial"
      ensures PaidFor(payments[id := payment], s)
    {
      var p :| p in payments && payments[p].subscription == Some(s);
      assert payments[id := payment][p].subscription == Some(s);
    }
  }

  lemma CompletionKeepsPairs(payments: map<Id, Payment>, subs: map<Id, Subscription>, id: Id, payment: Payment,
                             sub: Id, subscription: Subscription)
    requires Paired(payments, subs) && id in payments && payments[id].status == Pending && sub !in subs
    requires payment.status == Completed && payment.subscription == Some(sub)
    requires payment.user == subscription.user && payment.plan == subscription.plan
    ensures Paired(payments[id := payment], subs[sub := subscription])
  {
    var after := payments[id := payment];
    assert Matched(payments[id], subs);
    forall p | p in payments && p != id
      ensures Matched(payments[p], subs) && payments[p].subscription != Some(sub)
    {
    }
    forall s | s in subs && subs[s].plan != "trial"
      ensures PaidFor(after, s)
    {
      var p :| p in payments && payments[p].subscription == Some(s);
      assert after[p].subscription == Some(s);
    }
    assert after[id].subscription == Some(sub);
    assert PaidFor(after, sub);
  }

  /** Trials and cancellations: no bought subscription is new, and none changes its owner or plan. */
  lemma OtherSubscriptionsKeepPairs(payments: map<Id, Payment>, subs: map<Id, Subscription>, sub: Id, subscription: Subscription)
    requires Paired(payments, subs)
    requires if sub in subs then subscription.user == subs[sub].user && subscription.plan == subs[sub].plan
      else subscription.plan == "trial"
    ensures Paired(payments, subs[sub := subscription])
  {
  }

  lemma PurchaseKeepsPairs(cfg: Config, l: Ledger, e: Event)
    requires References(l.db) && Possible(l.db, e) && Paired(l.db.payments, l.db.subscriptions) && e.Purchased?
    ensures var db := Step(cfg, l, e).db; Paired(db.payments, db.subscriptions)
  {
    if ForSale(e.plan) {
      NewPaymentKeepsPairs(l.db.payments, l.db.subscriptions, e.id, Step(cfg, l, e).db.payments[e.id]);
    }
  }

  lemma DeliveryKeepsPairs(cfg: Config, l: Ledger, e: Event)
    requires References(l.db) && Possible(l.db, e) && Paired(l.db.payments, l.db.subscriptions) && e.Delivered?
    ensures var db := Step(cfg, l, e).db; Paired(db.payments, db.subscriptions)
  {
    var done, db := Completes(cfg, l.db, e.comment), Step(cfg, l, e).db;
    if done.Some? {
      CompletionKeepsPairs(l.db.payments, l.db.subscriptions, done.value, db.payments[done.value], e.sub, db.subscriptions[e.sub]);
    }
  }

  lemma StepKeepsPairs(cfg: Config, l: Ledger, e: Event)
    requires References(l.db) && Possible(l.db, e) && Paired(l.db.payments, l.db.subscriptions)
    ensures var db := Step(cfg, l, e).db; Paired(db.payments, db.subscriptions)
  {
    if e.Purchased? {
      PurchaseKeepsPairs(cfg, l, e);
    } else if e.Delivered? {
      DeliveryKeepsPairs(cfg, l, e);
    } else if e.CancelledSub? || !l.db.users[e.user].trialUsed {
      OtherSubscriptionsKeepPairs(l.db.payments, l.db.subscriptions, e.sub, Step(cfg, l, e).db.subscriptions[e.sub]);
    }
  }

  /** A payment that is completed never changes again. */
  lemma CompletedIsFinal(cfg: Config, l: Ledger, e: Event, p: Id)
    requires References(l.db) && Possible(l.db, e)
    requires p in l.db.payments && l.db.payments[p].status == Completed
    ensures p in Step(cfg, l, e).db.payments && Step(cfg, l, e).db.payments[p] == l.db.payments[p]
  {
  }

  /** Exactly-once crediting over every run: a payment is completed exactly if it was credited,
      and then once; and completed payments and bought subscriptions are in bijection. */
  lemma {:induction false} CreditedExactlyOnce(cfg: Config, db: Db, es: seq<Event>)
    requires Fresh(db) && Exec(cfg, db, es).Some?
    ensures CreditedOnce(Exec(cfg, db, es).value)
    ensures var now := Exec(cfg, db, es).value.db; Paired(now.payments, now.subscriptions)
  {
    if es == [] {
    } else {
      CreditedExactlyOnce(cfg, db, es[..|es| - 1]);
      StepKeepsCredits(cfg, Exec(cfg, db, es[..|es| - 1]).value, es[|es| - 1]);
      StepKeepsPairs(cfg, Exec(cfg, db, es[..|es| - 1]).value, es[|es| - 1]);
    }
  }

  // ---------------------------------------------------------------- expiries

  /** What one entry makes of an expiry. */
  function Renewed(expires: Option<int>, entry: Entry): int {
    match entry
    case Paid(_, _, credit, _) => Extend(expires, credit.at, credit.time)
    case Week(_, at) => at + 7 * DAY
  }

  /** A user's expiry as the log tells it. */
  function Replay(expires: Option<int>, log: seq<Entry>, user: Id): Option<int> {
    if log == [] then expires else
    var before := Replay(expires, log[..|log| - 1], user);
    var last := log[|log| - 1];
    if last.user == user then Some(Renewed(before, last)) else before
  }

  ghost predicate ExpiryReplays(start: map<Id, User>, users: map<Id, User>, log: seq<Entry>) {
    && users.Keys == start.Keys
    && forall u :: u in start ==> users[u].expires == Replay(start[u].expires, log, u)
  }

  lemma EntryReplays(start: map<Id, User>, users: map<Id, User>, log: seq<Entry>, entry: Entry, user: User)
    requires ExpiryReplays(start, users, log) && entry.user in users
    requires user.expires == Some(Renewed(users[entry.user].expires, entry))
    ensures ExpiryReplays(start, users[entry.user := user], log + [entry])
  {
  }

  lemma StepReplays(cfg: Config, start: map<Id, User>, l: Ledger, e: Event)
    requires References(l.db) && Possible(l.db, e) && ExpiryReplays(start, l.db.users, l.log)
    ensures ExpiryReplays(start, Step(cfg, l, e).db.users, Step(cfg, l, e).log)
  {
    if e.Delivered? && Completes(cfg, l.db, e.comment).Some? {
      var entry := CreditFor(l.db, Completes(cfg, l.db, e.comment).value, e.started, e.now);
      EntryReplays(start, l.db.users, l.log, entry, Step(cfg, l, e).db.users[entry.user]);
    } else if e.TrialStarted? && !l.db.users[e.user].trialUsed {
      EntryReplays(start, l.db.users, l.log, Week(e.user, e.now), Step(cfg, l, e).db.users[e.user]);
    }
  }

  lemma {:induction false} RunReplays(cfg: Config, db: Db, es: seq<Event>)
    requires Fresh(db) && Exec(cfg, db, es).Some?
    ensures ExpiryReplays(db.users, Exec(cfg, db, es).value.db.users, Exec(cfg, db, es).value.log)
  {
    if es == [] {
    } else {
      RunReplays(cfg, db, es[..|es| - 1]);
      StepReplays(cfg, db.users, Exec(cfg, db, es[..|es| - 1]).value, es[|es| - 1]);
    }
  }

  /** The subscription of the i-th entry's payment runs from the payment to the expiry that the log
      gives by then. */
  ghost predicate SpanOf(start: map<Id, User>, l: Ledger, i: nat)
    requires i < |l.log| && l.log[i].Paid?
  {
    var entry := l.log[i];
    && entry.user in start && entry.payment in l.db.payments
    && l.db.payments[entry.payment].subscription.Some?
    && var s := l.db.payments[entry.payment].subscription.value;
    && s in l.db.subscriptions && l.db.subscriptions[s].startedAt == entry.started
    && Some(l.db.subscriptions[s].expiresAt) == Replay(start[entry.user].expires, l.log[..i + 1], entry.user)
  }

  ghost predicate Spans(start: map<Id, User>, l: Ledger) {
    forall i :: 0 <= i < |l.log| && l.log[i].Paid? ==> SpanOf(start, l, i)
  }

  lemma SpanStays(cfg: Config, start: map<Id, User>, l: Ledger, e: Event, i: nat)
    requires References(l.db) && Possible(l.db, e) && CreditedOnce(l)
    requires i < |l.log| && l.log[i].Paid? && SpanOf(start, l, i)
    ensures var l' := Step(cfg, l, e); i < |l'.log| && l'.log[i] == l.log[i] && SpanOf(start, l', i)
  {
    assert Logged(l, l.log[i].payment);
    assert Step(cfg, l, e).log[..i + 1] == l.log[..i + 1];
  }

  lemma NewSpan(cfg: Config, start: map<Id, User>, l: Ledger, e: Event)
    requires References(l.db) && Possible(l.db, e) && ExpiryReplays(start, l.db.users, l.log)
    requires e.Delivered? && Completes(cfg, l.db, e.comment).Some?
    ensures var l' := Step(cfg, l, e); |l'.log| == |l.log| + 1 && SpanOf(start, l', |l.log|)
  {
    var l' := Step(cfg, l, e);
    assert l'.log[..|l.log| + 1] == l'.log && l'.log[..|l.log|] == l.log;
  }

  lemma StepKeepsSpans(cfg: Config, start: map<Id, User>, l: Ledger, e: Event)
    requires References(l.db) && Possible(l.db, e) && CreditedOnce(l)
    requires ExpiryReplays(start, l.db.users, l.log) && Spans(start, l)
    ensures Spans(start, Step(cfg, l, e))
  {
    forall i | 0 <= i < |l.log| && l.log[i].Paid?
      ensures SpanOf(start, Step(cfg, l, e), i)
    {
      SpanStays(cfg, start, l, e, i);
    }
    if e.Delivered? && Completes(cfg, l.db, e.comment).Some? {
      NewSpan(cfg, start, l, e);
    }
  }

  /** In every run, a bought subscription starts when its payment is completed, and ends at the
      expiry that all payments and trials up to it give its user. */
  lemma {:induction false} SubscriptionSpans(cfg: Config, db: Db, es: seq<Event>)
    requires Fresh(db) && Exec(cfg, db, es).Some?
    ensures Spans(db.users, Exec(cfg, db, es).value)
  {
    if es == [] {
    } else {
      SubscriptionSpans(cfg, db, es[..|es| - 1]);
      CreditedExactlyOnce(cfg, db, es[..|es| - 1]);
      RunReplays(cfg, db, es[..|es| - 1]);
      StepKeepsSpans(cfg, db.users, Exec(cfg, db, es[..|es| - 1]).value, es[|es| - 1]);
    }
  }

  function CreditsOf(log: seq<Entry>, user: Id): seq<Credit> {
    if log == [] then [] else
    var before := CreditsOf(log[..|log| - 1], user);
    match log[|log| - 1]
    case Paid(_, u, credit, _) => if u == user then before + [credit] else before
    case Week(_, _) => before
  }

  predicate NoTrial(log: seq<Entry>, user: Id) {
    forall i :: 0 <= i < |log| && log[i].Week? ==> log[i].user != user
  }

  lemma {:induction false} ReplayIsExtendAll(expires: Option<int>, log: seq<Entry>, user: Id)
    requires NoTrial(log, user)
    ensures Replay(expires, log, user) == ExtendAll(expires, CreditsOf(log, user))
  {
    if log == [] {
    } else {
      var before := log[..|log| - 1];
      ReplayIsExtendAll(expires, before, user);
      var cs := CreditsOf(before, user);
      match log[|log| - 1]
      case Paid(_, u, credit, _) =>
        if u == user { assert (cs + [credit])[..|cs|] == cs; }
      case Week(_, _) =>
    }
  }

  /** The expiry that a run without a trial leaves a paying user is the greatest of all accounts
      of the credits that the run gave. */
  lemma RunExpiryClosedForm(cfg: Config, db: Db, es: seq<Event>, user: Id)
    requires Fresh(db) && Exec(cfg, db, es).Some? && user in db.users
    requires NoTrial(Exec(cfg, db, es).value.log, user) && CreditsOf(Exec(cfg, db, es).value.log, user) != []
    ensures var l := Exec(cfg, db, es).value;
      && user in l.db.users && l.db.users[user].expires.Some?
      && IsGreatestCandidate(db.users[user].expires, CreditsOf(l.log, user), l.db.users[user].expires.value)
  {
    var l := Exec(cfg, db, es).value;
    RunReplays(cfg, db, es);
    ReplayIsExtendAll(db.users[user].expires, l.log, user);
    PaidTimeClosedForm(db.users[user].expires, CreditsOf(l.log, user));
  }

  // ---------------------------------------------------------------- trials and tiers

  /** The log has a trial of the user. */
  ghost predicate Tried(log: seq<Entry>, u: Id) { exists i :: 0 <= i < |log| && log[i].Week? && log[i].user == u }

  /** No user has two trials, nor one who had used it before; and the mark of the user says so. */
  ghost predicate TrialsOnce(start: map<Id, User>, users: map<Id, User>, log: seq<Entry>) {
    && users.Keys == start.Keys
    && (forall u :: u in start ==> (users[u].trialUsed <==> start[u].trialUsed || Tried(log, u)))
    && (forall i :: 0 <= i < |log| && log[i].Week? ==> log[i].user in start && !start[log[i].user].trialUsed)
    && (forall i, j :: 0 <= i < j < |log| && log[i].Week? && log[j].Week? ==> log[i].user != log[j].user)
  }

  lemma TriedNext(log: seq<Entry>, entry: Entry, u: Id)
    ensures Tried(log + [entry], u) <==> Tried(log, u) || (entry.Week? && entry.user == u)
  {
    var longer := log + [entry];
    assert longer[|log|] == entry;
    if Tried(log, u) {
      var i :| 0 <= i < |log| && log[i].Week? && log[i].user == u;
      assert longer[i] == log[i];
    }
  }

  lemma PaymentKeepsTrials(start: map<Id, User>, users: map<Id, User>, log: seq<Entry>, entry: Entry, user: User)
    requires TrialsOnce(start, users, log) && entry.Paid? && entry.user in users
    requires user.trialUsed == users[entry.user].trialUsed
    ensures TrialsOnce(start, users[entry.user := user], log + [entry])
  {
    forall u | u in start
      ensures Tried(log + [entry], u) <==> Tried(log, u)
    {
      TriedNext(log, entry, u);
    }
  }

  lemma TrialKeepsTrials(start: map<Id, User>, users: map<Id, User>, log: seq<Entry>, entry: Entry, user: User)
    requires TrialsOnce(start, users, log) && entry.Week? && entry.user in users
    requires !users[entry.user].trialUsed && user.trialUsed
    ensures TrialsOnce(start, users[entry.user := user], log + [entry])
  {
    forall u | u in start
      ensures Tried(log + [entry], u) <==> Tried(log, u) || u == entry.user
    {
      TriedNext(log, entry, u);
    }
    forall i | 0 <= i < |log| && log[i].Week?
      ensures log[i].user != entry.user
    {
      assert Tried(log, log[i].user);
    }
  }

  lemma StepKeepsTrials(cfg: Config, start: map<Id, User>, l: Ledger, e: Event)
    requires References(l.db) && Possible(l.db, e) && TrialsOnce(start, l.db.users, l.log)
    ensures TrialsOnce(start, Step(cfg, l, e).db.users, Step(cfg, l, e).log)
  {
    if e.Delivered? && Completes(cfg, l.db, e.comment).Some? {
      var entry := CreditFor(l.db, Completes(cfg, l.db, e.comment).value, e.started, e.now);
      PaymentKeepsTrials(start, l.db.users, l.log, entry, Step(cfg, l, e).db.users[entry.user]);
    } else if e.TrialStarted? && !l.db.users[e.user].trialUsed {
      TrialKeepsTrials(start, l.db.users, l.log, Week(e.user, e.now), Step(cfg, l, e).db.users[e.user]);
    }
  }

  /** In every run each user gets at most one trial, and none who had used it before; and a user's
      mark is set exactly if it was before or the run gave a trial. */
  lemma {:induction false} OneTrial(cfg: Config, db: Db, es: seq<Event>)
    requires Fresh(db) && Exec(cfg, db, es).Some?
    ensures TrialsOnce(db.users, Exec(cfg, db, es).value.db.users, Exec(cfg, db, es).value.log)
  {
    if es == [] {
    } else {
      OneTrial(cfg, db, es[..|es| - 1]);
      StepKeepsTrials(cfg, db.users, Exec(cfg, db, es[..|es| - 1]).value, es[|es| - 1]);
    }
  }

  /** The last thing that happened to the user's expiry. */
  function LastOf(log: seq<Entry>, u: Id): Option<Entry> {
    if log == [] then None
    else if log[|log| - 1].user == u then Some(log[|log| - 1])
    else LastOf(log[..|log| - 1], u)
  }

  /** The user's tier is "trial" after a trial, the plan of the payment after a payment, and what it
      was before both. */
  ghost predicate TierTold(start: map<Id, User>, l: Ledger, u: Id)
    requires u in start
  {
    && u in l.db.users
    && match LastOf(l.log, u)
       case None => l.db.users[u].tier == start[u].tier
       case Some(Week(_, _)) => l.db.users[u].tier == "trial"
       case Some(Paid(p, _, _, _)) => p in l.db.payments && l.db.users[u].tier == l.db.payments[p].plan
  }

  lemma LastOfNext(log: seq<Entry>, entry: Entry, u: Id)
    ensures LastOf(log + [entry], u) == if entry.user == u then Some(entry) else LastOf(log, u)
  {
    assert (log + [entry])[..|log|] == log;
  }

  lemma PlansStay(cfg: Config, l: Ledger, e: Event, p: Id)
    requires References(l.db) && Possible(l.db, e) && p in l.db.payments
    ensures p in Step(cfg, l, e).db.payments && Step(cfg, l, e).db.payments[p].plan == l.db.payments[p].plan
  {
  }

  lemma StepKeepsTier(cfg: Config, start: map<Id, User>, l: Ledger, e: Event, u: Id)
    requires References(l.db) && Possible(l.db, e) && u in start && TierTold(start, l, u)
    ensures TierTold(start, Step(cfg, l, e), u)
  {
    var last := LastOf(l.log, u);
    if last.Some? && last.value.Paid? {
      PlansStay(cfg, l, e, last.value.payment);
    }
    if e.Delivered? && Completes(cfg, l.db, e.comment).Some? {
      LastOfNext(l.log, CreditFor(l.db, Completes(cfg, l.db, e.comment).value, e.started, e.now), u);
    } else if e.TrialStarted? && !l.db.users[e.user].trialUsed {
      LastOfNext(l.log, Week(e.user, e.now), u);
    }
  }

  /** In every run each user's tier is what the last payment or trial made it. */
  lemma {:induction false} TierFollowsLast(cfg: Config, db: Db, es: seq<Event>, u: Id)
    requires Fresh(db) && Exec(cfg, db, es).Some? && u in db.users
    ensures TierTold(db.users, Exec(cfg, db, es).value, u)
  {
    if es == [] {
    } else {
      TierFollowsLast(cfg, db, es[..|es| - 1], u);
      StepKeepsTier(cfg, db.users, Exec(cfg, db, es[..|es| - 1]).value, es[|es| - 1], u);
    }
  }

  // ---------------------------------------------------------------- promo codes

  function UsesOf(payments: map<Id, Payment>, code: string): set<Id> {
    set p | p in payments && payments[p].promo == Some(code)
  }

  /** Since the start, a code was used by as many payments as carry it; nothing else about it
      changed; and a limit that held then holds still. */
  predicate Counted(start: Promo, now: Promo, uses: nat) {
    && now == start.(currentUses := start.currentUses + uses)
    && (start.maxUses > 0 && start.currentUses <= start.maxUses ==> now.currentUses <= start.maxUses)
  }

  ghost predicate PromoCounted(start: map<string, Promo>, promos: map<string, Promo>, payments: map<Id, Payment>) {
    && promos.Keys == start.Keys
    && forall code :: code in start ==> Counted(start[code], promos[code], |UsesOf(payments, code)|)
  }

  lemma NewPaymentUses(payments: map<Id, Payment>, id: Id, payment: Payment, code: string)
    requires id !in payments
    ensures |UsesOf(payments[id := payment], code)|
         == |UsesOf(payments, code)| + (if payment.promo == Some(code) then 1 else 0)
  {
    var before, after := UsesOf(payments, code), UsesOf(payments[id := payment], code);
    if payment.promo == Some(code) {
      assert after == before + {id};
    } else {
      assert after == before;
    }
  }

  predicate BelowLimit(p: Promo) { p.maxUses > 0 ==> p.currentUses < p.maxUses }

  /** A payment without a code, and one with a code that is below its limit and then counted. */
  lemma PaymentCounts(start: map<string, Promo>, promos: map<string, Promo>, payments: map<Id, Payment>, id: Id, payment: Payment)
    requires PromoCounted(start, promos, payments) && id !in payments
    requires payment.promo.Some? ==> payment.promo.value in promos && BelowLimit(promos[payment.promo.value])
    ensures PromoCounted(start, if payment.promo.Some? then UsedOnce(promos, payment.promo.value) else promos, payments[id := payment])
  {
    var after := if payment.promo.Some? then UsedOnce(promos, payment.promo.value) else promos;
    forall code | code in start
      ensures Counted(start[code], after[code], |UsesOf(payments[id := payment], code)|)
    {
      NewPaymentUses(payments, id, payment, code);
      assert Counted(start[code], promos[code], |UsesOf(payments, code)|);
    }
  }

  lemma AppliedIsBelowLimit(cfg: Config, db: Db, plan: string, code: Option<string>, now: int)
    ensures var applied := AppliedPromo(cfg, db, plan, code, now);
      applied.Some? ==> applied.value in db.promos && BelowLimit(db.promos[applied.value])
  {
  }

  lemma PurchaseCounts(cfg: Config, start: map<string, Promo>, l: Ledger, e: Event)
    requires References(l.db) && Possible(l.db, e) && PromoCounted(start, l.db.promos, l.db.payments) && e.Purchased?
    ensures PromoCounted(start, Step(cfg, l, e).db.promos, Step(cfg, l, e).db.payments)
  {
    if ForSale(e.plan) {
      AppliedIsBelowLimit(cfg, l.db, e.plan, e.code, e.now);
      PaymentCounts(start, l.db.promos, l.db.payments, e.id, Step(cfg, l, e).db.payments[e.id]);
    }
  }

  lemma DeliveryCounts(cfg: Config, start: map<string, Promo>, l: Ledger, e: Event)
    requires References(l.db) && Possible(l.db, e) && PromoCounted(start, l.db.promos, l.db.payments) && e.Delivered?
    ensures PromoCounted(start, Step(cfg, l, e).db.promos, Step(cfg, l, e).db.payments)
  {
    var after := Step(cfg, l, e).db.payments;
    forall code | code in start
      ensures UsesOf(after, code) == UsesOf(l.db.payments, code)
    {
    }
  }

  lemma StepCounts(cfg: Config, start: map<string, Promo>, l: Ledger, e: Event)
    requires References(l.db) && Possible(l.db, e) && PromoCounted(start, l.db.promos, l.db.payments)
    ensures PromoCounted(start, Step(cfg, l, e).db.promos, Step(cfg, l, e).db.payments)
  {
    if e.Purchased? {
      PurchaseCounts(cfg, start, l, e);
    } else if e.Delivered? {
      DeliveryCounts(cfg, start, l, e);
    }
  }

  /** Promo accounting over every run. */
  lemma {:induction false} PromoUsesAccounted(cfg: Config, db: Db, es: seq<Event>)
    requires Fresh(db) && Exec(cfg, db, es).Some?
    ensures PromoCounted(db.promos, Exec(cfg, db, es).value.db.promos, Exec(cfg, db, es).value.db.payments)
  {
    if es == [] {
      assert forall code :: UsesOf(map[], code) == {};
    } else {
      PromoUsesAccounted(cfg, db, es[..|es| - 1]);
      StepCounts(cfg, db.promos, Exec(cfg, db, es[..|es| - 1]).value, es[|es| - 1]);
    }
  }

  /** A payment asks the plan's price, or that price with the discount of the code it carries. */
  ghost predicate Priced(start: map<string, Promo>, p: Payment) {
    && ForSale(p.plan)
    && match p.promo
       case None => p.amount == PLANS[p.plan].price && p.original.None?
       case Some(code) =>
         && code in start && p.original == Some(PLANS[p.plan].price)
         && p.amount == ApplyDiscount(PLANS[p.plan].price, start[code])
  }

  ghost predicate AllPriced(start: map<string, Promo>, payments: map<Id, Payment>) {
    forall p :: p in payments ==> Priced(start, payments[p])
  }

  lemma DiscountIgnoresUses(price: nat, p: Promo, uses: int)
    ensures ApplyDiscount(price, p.(currentUses := uses)) == ApplyDiscount(price, p)
  {
  }

  lemma PurchasePriced(cfg: Config, start: map<string, Promo>, l: Ledger, e: Event)
    requires References(l.db) && Possible(l.db, e) && PromoCounted(start, l.db.promos, l.db.payments)
    requires e.Purchased? && ForSale(e.plan)
    ensures Priced(start, Step(cfg, l, e).db.payments[e.id])
  {
    AppliedIsBelowLimit(cfg, l.db, e.plan, e.code, e.now);
    var code := AppliedPromo(cfg, l.db, e.plan, e.code, e.now);
    if code.Some? {
      assert Counted(start[code.value], l.db.promos[code.value], |UsesOf(l.db.payments, code.value)|);
      DiscountIgnoresUses(PLANS[e.plan].price, start[code.value], l.db.promos[code.value].currentUses);
    }
  }

  /** Every step other than a purchase leaves the pricing parts of all payments as they are. */
  lemma PricesStay(cfg: Config, start: map<string, Promo>, l: Ledger, e: Event, p: Id)
    requires References(l.db) && Possible(l.db, e) && p in l.db.payments && Priced(start, l.db.payments[p])
    ensures p in Step(cfg, l, e).db.payments && Priced(start, Step(cfg, l, e).db.payments[p])
  {
  }

  lemma StepPriced(cfg: Config, start: map<string, Promo>, l: Ledger, e: Event)
    requires References(l.db) && Possible(l.db, e) && PromoCounted(start, l.db.promos, l.db.payments)
    requires AllPriced(start, l.db.payments)
    ensures AllPriced(start, Step(cfg, l, e).db.payments)
  {
    if e.Purchased? && ForSale(e.plan) {
      PurchasePriced(cfg, start, l, e);
    }
    forall p | p in l.db.payments
      ensures Priced(start, Step(cfg, l, e).db.payments[p])
    {
      PricesStay(cfg, start, l, e, p);
    }
  }

  /** Every payment of a run asks its plan's price, or that with the discount its code had at the
      start. */
  lemma {:induction false} RunPriced(cfg: Config, db: Db, es: seq<Event>)
    requires Fresh(db) && Exec(cfg, db, es).Some?
    ensures AllPriced(db.promos, Exec(cfg, db, es).value.db.payments)
  {
    if es == [] {
    } else {
      RunPriced(cfg, db, es[..|es| - 1]);
      PromoUsesAccounted(cfg, db, es[..|es| - 1]);
      StepPriced(cfg, db.promos, Exec(cfg, db, es[..|es| - 1]).value, es[|es| - 1]);
    }
  }

  lemma PlansCostSomething(plan: string)
    requires ForSale(plan)
    ensures PLANS[plan].price >= 1
  {
  }

  /** Every payment of a run asks at least 1 and, if its code has no negative fixed discount, at
      most the plan's price. */
  lemma AmountsBounded(cfg: Config, db: Db, es: seq<Event>, p: Id)
    requires Fresh(db) && Exec(cfg, db, es).Some? && p in Exec(cfg, db, es).value.db.payments
    ensures var payment := Exec(cfg, db, es).value.db.payments[p];
      && ForSale(payment.plan)
      && 1 <= payment.amount
      && (payment.promo.Some? ==> payment.promo.value in db.promos)
      && (payment.promo.None? || !NegativeFixed(db.promos[payment.promo.value])
          ==> payment.amount <= PLANS[payment.plan].price)
  {
    RunPriced(cfg, db, es);
    var payment := Exec(cfg, db, es).value.db.payments[p];
    assert Priced(db.promos, payment);
    PlansCostSomething(payment.plan);
    if payment.promo.Some? {
      DiscountBounds(PLANS[payment.plan].price, db.promos[payment.promo.value]);
    }
  }

  predicate NegativeFixed(p: Promo) { p.fixed.Some? && p.fixed.value < 0 }
}
