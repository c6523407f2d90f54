/** Prices, discounts and paid time, as plain arithmetic. Amounts are whole roubles; a fixed
    discount is a number of hundredths. Times are microseconds.
 */
module Pricing {
  import opened Text

  const DAY: nat := 86_400_000_000

  datatype Plan = Plan(price: nat, days: nat)

  const PLANS: map<string, Plan> := map[
    "trial" := Plan(0, 7),
    "monthly" := Plan(299, 30),
    "quarterly" := Plan(749, 90),
    "yearly" := Plan(1999, 365)]

  /** The plans that can be bought. */
  predicate ForSale(plan: string) { plan in PLANS && plan != "trial" }

  // ---------------------------------------------------------------- discounts

  datatype Promo = Promo(
    percent: int,
    fixed: Option<int>,
    maxUses: int,
    currentUses: int,
    validFrom: Option<int>,
    validUntil: Option<int>,
    plans: string,
    isActive: bool)

  /** `quantize` to whole units: to the nearest, and halves to the even neighbour. */
  function HalfEven(hundredths: int): int {
    var whole, rest := hundredths / 100, hundredths % 100;
    if rest > 50 || (rest == 50 && whole % 2 == 1) then whole + 1 else whole
  }

  predicate RoundsTo(hundredths: int, k: int) {
    && -50 <= 100 * k - hundredths <= 50
    && (100 * k - hundredths == 50 || 100 * k - hundredths == -50 ==> k % 2 == 0)
  }

  lemma HalfEvenIsNearest(hundredths: int, k: int)
    ensures RoundsTo(hundredths, k) <==> k == HalfEven(hundredths)
  {
  }

  /** The price after the discount, in hundredths and before rounding, if there is a discount. */
  function Exact(price: nat, p: Promo): Option<int> {
    if p.fixed.Some? && p.fixed.value != 0 then Some(100 * price - p.fixed.value)
    else if p.percent > 0 then Some(price * (100 - p.percent))
    else None
  }

  /** Mirrors `apply_discount`. */
  function ApplyDiscount(price: nat, p: Promo): int {
    match Exact(price, p)
    case None => price
    case Some(hundredths) => if HalfEven(hundredths) < 1 then 1 else HalfEven(hundredths)
  }

  /** A discount never makes a price of at least 1 fall below 1. It raises the price exactly when
      it is a fixed one that is negative by more than half a rouble, or by just that half and the
      price is odd; whatever the percentage is, it does not. */
  lemma DiscountBounds(price: nat, p: Promo)
    requires price >= 1
    ensures 1 <= ApplyDiscount(price, p)
    ensures ApplyDiscount(price, p) <= price <==>
      p.fixed.None? || p.fixed.value > -50 || (p.fixed.value == -50 && price % 2 == 0)
  {
  }

  /** The amount is so many hundredths, rounded to the nearest rouble, or 1 if that is below 1. */
  predicate RoundedOrOne(hundredths: int, amount: int) {
    if hundredths <= 50 then amount == 1 else RoundsTo(hundredths, amount)
  }

  lemma RoundedUpToOne(hundredths: int)
    ensures RoundedOrOne(hundredths, if HalfEven(hundredths) < 1 then 1 else HalfEven(hundredths))
  {
    HalfEvenIsNearest(hundredths, HalfEven(hundredths));
  }

  /** A discounted price is the exact one, rounded to the nearest rouble, or the minimum of 1: a
      fixed discount takes precedence over a percentage, and a fixed one of 0 is none. */
  lemma DiscountRounds(price: nat, p: Promo)
    ensures var amount := ApplyDiscount(price, p);
      var fixed := if p.fixed.Some? then p.fixed.value else 0;
      && (fixed != 0 ==> RoundedOrOne(100 * price - fixed, amount))
      && (fixed == 0 && p.percent > 0 ==> RoundedOrOne(price * (100 - p.percent), amount))
      && (fixed == 0 && p.percent <= 0 ==> amount == price)
  {
    var exact := Exact(price, p);
    if exact.Some? {
      RoundedUpToOne(exact.value);
    }
  }

  /** The plans that are sold, with their prices and their time. */
  lemma PlanTable(plan: string)
    ensures ForSale(plan) <==> plan == "monthly" || plan == "quarterly" || plan == "yearly"
    ensures ForSale(plan) ==>
      && PLANS[plan].price == (if plan == "monthly" then 299 else if plan == "quarterly" then 749 else 1999)
      && PLANS[plan].days == (if plan == "monthly" then 30 else if plan == "quarterly" then 90 else 365)
      && PLANS[plan].days * DAY == PLANS[plan].days * 24 * 60 * 60 * 1_000_000
  {
    assert plan == "monthly" || plan == "quarterly" || plan == "yearly" ==> plan != "trial";
  }

  // ---------------------------------------------------------------- paid time

  /** Mirrors `calculate_expiry`, for a plan of so much time. */
  function Extend(expires: Option<int>, now: int, time: nat): int {
    (if expires.Some? && expires.value > now then expires.value else now) + time
  }

  datatype Credit = Credit(at: int, time: nat)

  /** The expiry after some credits, one after the other. */
  function ExtendAll(expires: Option<int>, cs: seq<Credit>): Option<int> {
    if cs == [] then expires else
    var last := cs[|cs| - 1];
    Some(Extend(ExtendAll(expires, cs[..|cs| - 1]), last.at, last.time))
  }

  function TotalTime(cs: seq<Credit>): nat {
    if cs == [] then 0 else TotalTime(cs[..|cs| - 1]) + cs[|cs| - 1].time
  }

  /** An expiry that some account of the credits reaches: all of them on top of the first expiry,
      or all from the i-th on, on top of the time of that one. */
  function Candidate(cs: seq<Credit>, i: nat): int
    requires i < |cs|
  {
    cs[i].at + TotalTime(cs[i..])
  }

  ghost predicate IsGreatestCandidate(expires: Option<int>, cs: seq<Credit>, v: int) {
    && (expires.Some? ==> v >= expires.value + TotalTime(cs))
    && (forall i :: 0 <= i < |cs| ==> v >= Candidate(cs, i))
    && ((expires.Some? && v == expires.value + TotalTime(cs)) || exists i :: 0 <= i < |cs| && v == Candidate(cs, i))
  }

  lemma CandidateGrows(cs: seq<Credit>, i: nat)
    requires 0 <= i < |cs| - 1
    ensures Candidate(cs, i) == Candidate(cs[..|cs| - 1], i) + cs[|cs| - 1].time
  {
    var n := |cs| - 1;
    assert cs[i..][..n - i] == cs[..n][i..];
  }

  /** The closed form of paid time: a maximum of sums. */
  lemma {:induction false} PaidTimeClosedForm(expires: Option<int>, cs: seq<Credit>)
    requires cs != []
    ensures ExtendAll(expires, cs).Some? && IsGreatestCandidate(expires, cs, ExtendAll(expires, cs).value)
  {
    var n := |cs| - 1;
    var before, last := cs[..n], cs[n];
    var v := ExtendAll(expires, cs).value;
    assert cs[n..] == [last] && TotalTime([last]) == TotalTime([]) + last.time;
    assert Candidate(cs, n) == last.at + last.time;
    if before == [] {
    } else {
      PaidTimeClosedForm(expires, before);
      var u := ExtendAll(expires, before).value;
      forall i | 0 <= i < |cs|
        ensures v >= Candidate(cs, i)
      {
        if i < n { CandidateGrows(cs, i); }
      }
      if v == u + last.time && !(expires.Some? && u == expires.value + TotalTime(before)) {
        var i :| 0 <= i < |before| && u == Candidate(before, i);
        CandidateGrows(cs, i);
      }
    }
  }

  /** No paid time is lost: the expiry moves by at least all the time paid for. It moves by
      exactly that when every payment comes before the expiry reached by then. */
  lemma {:induction false} NoPaidTimeLost(start: int, cs: seq<Credit>)
    ensures ExtendAll(Some(start), cs).Some? && ExtendAll(Some(start), cs).value >= start + TotalTime(cs)
    ensures (forall i :: 0 <= i < |cs| ==> cs[i].at <= ExtendAll(Some(start), cs[..i]).value)
      ==> ExtendAll(Some(start), cs).value == start + TotalTime(cs)
  {
    if cs == [] {
    } else {
      var before := cs[..|cs| - 1];
      NoPaidTimeLost(start, before);
      assert forall i :: 0 <= i < |before| ==> before[..i] == cs[..i];
    }
  }
}
