/** The sliding-window rate limiter over a Redis sorted set.

    A call to Redis is one atomic pipeline: prune, add, count, set the expiry. Times are reals in
    seconds; a member of the sorted set is the text of its score, so the set is a set of times.
 */
module RateLimit {
  import opened Text

  datatype Rule = Rule(limit: nat, window: real)

  const AUTH_LIMIT: Rule := Rule(5, 60.0)
  const GLOBAL_LIMIT: Rule := Rule(100, 60.0)
  const AUTH_PATHS: set<string> := {"/api/auth/register", "/api/auth/login", "/api/auth/refresh"}

  function RuleOf(path: string): (r: Rule)
    ensures r.window > 0.0
  {
    if path in AUTH_PATHS then AUTH_LIMIT else GLOBAL_LIMIT
  }

  function KeyOf(path: string, ip: string): string {
    if path in AUTH_PATHS then "rl:auth:" + ip + ":" + path else "rl:global:" + ip
  }

  lemma KeyHasOneKind(path: string, ip: string, path': string, ip': string)
    requires KeyOf(path, ip) == KeyOf(path', ip')
    ensures path in AUTH_PATHS <==> path' in AUTH_PATHS
  {
    assert KeyOf(path, ip)[3] == if path in AUTH_PATHS then 'a' else 'g';
    assert KeyOf(path', ip')[3] == if path' in AUTH_PATHS then 'a' else 'g';
  }

  /** Requests that share a key share the rule, so a key has one limit: five in a minute for
      authentication and a hundred for all else. */
  lemma KeyHasOneRule(path: string, ip: string, path': string, ip': string)
    requires KeyOf(path, ip) == KeyOf(path', ip')
    ensures RuleOf(path) == RuleOf(path') == if IsAuth(path) then Rule(5, 60.0) else Rule(100, 60.0)
  {
    KeyHasOneKind(path, ip, path', ip');
  }

  /** Where the last colon stands is not in doubt. */
  lemma LastColon(a: string, p: string, a': string, p': string)
    requires ':' !in p && ':' !in p' && a + ":" + p == a' + ":" + p'
    ensures a == a' && p == p'
  {
    var s := a + ":" + p;
    NoColonAfter(a, p);
    NoColonAfter(a', p');
    assert s[|a|] == ':' && s[|a'|] == ':';
    assert a == s[..|a|] && p == s[|a| + 1..];
  }

  lemma NoColonAfter(a: string, p: string)
    requires ':' !in p
    ensures forall i :: |a| < i < |a + ":" + p| ==> (a + ":" + p)[i] != ':'
  {
    forall i | |a| < i < |a + ":" + p|
      ensures (a + ":" + p)[i] != ':'
    {
      assert (a + ":" + p)[i] == p[i - |a| - 1];
    }
  }

  lemma AuthPathsHaveNoColon(path: string)
    requires path in AUTH_PATHS
    ensures ':' !in path
  {
  }

  predicate IsAuth(path: string) {
    path == "/api/auth/register" || path == "/api/auth/login" || path == "/api/auth/refresh"
  }

  /** Two requests share a key exactly if they come from one client, and go to one path of
      authentication or both to other paths. */
  lemma KeySharedExactly(path: string, ip: string, path': string, ip': string)
    ensures KeyOf(path, ip) == KeyOf(path', ip') <==> ip == ip' && (path == path' || (!IsAuth(path) && !IsAuth(path')))
  {
    if KeyOf(path, ip) == KeyOf(path', ip') {
      KeyHasOneKind(path, ip, path', ip');
      if path in AUTH_PATHS {
        AuthPathsHaveNoColon(path);
        AuthPathsHaveNoColon(path');
        LastColon("rl:auth:" + ip, path, "rl:auth:" + ip', path');
        assert ip == ("rl:auth:" + ip)[8..] && ip' == ("rl:auth:" + ip')[8..];
      } else {
        assert ip == ("rl:global:" + ip)[10..] && ip' == ("rl:global:" + ip')[10..];
      }
    }
  }

  // ---------------------------------------------------------------- one key

  /** The sorted set of a key, and when Redis lets the key expire. */
  datatype Store = Store(times: set<real>, expires: Option<real>)

  /** What Redis still holds at a time. */
  function Live(s: Store, now: real): set<real> {
    if s.expires.Some? && now >= s.expires.value then {} else s.times
  }

  /** The pipeline: remove the scores from 0 to `now - window`, add this one. */
  function Logged(times: set<real>, now: real, window: real): set<real> {
    (set t | t in times && !(0.0 <= t <= now - window)) + {now}
  }

  function After(s: Store, now: real, window: real): Store {
    Store(Logged(Live(s, now), now, window), Some(now + window))
  }

  // ---------------------------------------------------------------- counting

  /** A window of time: half-open from its start, or half-open up to its end. */
  datatype Window = From(start: real, length: real) | UpTo(end: real, length: real)

  predicate In(w: Window, t: real) {
    match w
    case From(start, length) => start <= t < start + length
    case UpTo(end, length) => end - length < t <= end
  }

  function Instants(times: seq<real>): set<real> { set i | 0 <= i < |times| :: times[i] }

  /** The different instants in a window. */
  function Distinct(times: seq<real>, w: Window): set<real> { set t | t in Instants(times) && In(w, t) }

  /** The requests in a window, and those of them at the instant of an earlier one. */
  function Count(times: seq<real>, w: Window): nat {
    if times == [] then 0
    else Count(times[..|times| - 1], w) + if In(w, times[|times| - 1]) then 1 else 0
  }

  function Repeats(times: seq<real>, w: Window): nat {
    if times == [] then 0 else
    var before, last := times[..|times| - 1], times[|times| - 1];
    Repeats(before, w) + if In(w, last) && last in before then 1 else 0
  }

  lemma InstantsNext(times: seq<real>, t: real)
    ensures Instants(times + [t]) == Instants(times) + {t}
  {
    var more := times + [t];
    assert forall i :: 0 <= i < |times| ==> more[i] == times[i];
    assert more[|times|] == t;
  }

  lemma DistinctNext(times: seq<real>, t: real, w: Window)
    ensures Distinct(times + [t], w) == Distinct(times, w) + if In(w, t) then {t} else {}
  {
    InstantsNext(times, t);
  }

  /** The set of a window counts its requests but for the repeats. */
  lemma {:induction false} CountSplits(times: seq<real>, w: Window)
    ensures Count(times, w) == |Distinct(times, w)| + Repeats(times, w)
  {
    if times == [] {
    } else {
      var before, last := times[..|times| - 1], times[|times| - 1];
      CountSplits(before, w);
      DistinctNext(before, last, w);
      assert before + [last] == times;
    }
  }

  /** Two requests in the window have one instant. */
  predicate HasRepeat(times: seq<real>, w: Window) {
    exists i, j :: 0 <= i < j < |times| && times[i] == times[j] && In(w, times[j])
  }

  lemma HasRepeatNext(times: seq<real>, t: real, w: Window)
    ensures HasRepeat(times + [t], w) <==> HasRepeat(times, w) || (In(w, t) && t in times)
  {
    var more := times + [t];
    if HasRepeat(times, w) {
      var i, j :| 0 <= i < j < |times| && times[i] == times[j] && In(w, times[j]);
      assert more[i] == more[j];
    }
    if In(w, t) && t in times {
      var i :| 0 <= i < |times| && times[i] == t;
      assert more[i] == more[|times|];
    }
  }

  lemma {:induction false} RepeatsExactly(times: seq<real>, w: Window)
    ensures Repeats(times, w) > 0 <==> HasRepeat(times, w)
  {
    if times == [] {
    } else {
      var before, last := times[..|times| - 1], times[|times| - 1];
      RepeatsExactly(before, w);
      HasRepeatNext(before, last, w);
      assert before + [last] == times;
    }
  }

  // ---------------------------------------------------------------- runs of one key

  /** The store, with the times of the attempts that were admitted. */
  datatype History = History(store: Store, admitted: seq<real>)

  function Feed(rule: Rule, h: History, now: real): History {
    var store := After(h.store, now, rule.window);
    History(store, h.admitted + if |store.times| <= rule.limit then [now] else [])
  }

  function Run(rule: Rule, times: seq<real>): History {
    if times == [] then History(Store({}, None), [])
    else Feed(rule, Run(rule, times[..|times| - 1]), times[|times| - 1])
  }

  predicate ClockRuns(times: seq<real>) {
    && (forall i :: 0 <= i < |times| ==> times[i] >= 0.0)
    && (forall i, j :: 0 <= i < j < |times| ==> times[i] <= times[j])
  }

  predicate ClockAdvances(times: seq<real>) {
    ClockRuns(times) && forall i, j :: 0 <= i < j < |times| ==> times[i] != times[j]
  }

  /** The store holds the window up to the latest attempt, and expires when that window is over. */
  ghost predicate StoreInv(rule: Rule, log: seq<real>, store: Store) {
    if log == [] then store == Store({}, None) else
    var last := log[|log| - 1];
    store == Store(Distinct(log, UpTo(last, rule.window)), Some(last + rule.window))
  }

  /** An admitted request had at most the limit of instants in its window. */
  ghost predicate AdmittedInv(rule: Rule, log: seq<real>, admitted: seq<real>) {
    && Instants(admitted) <= Instants(log)
    && forall t :: t in Instants(admitted) ==> |Distinct(log, UpTo(t, rule.window))| <= rule.limit
  }

  lemma UpToLast(times: seq<real>)
    requires ClockRuns(times) && times != []
    ensures forall t :: t in Instants(times) ==> 0.0 <= t <= times[|times| - 1]
  {
  }

  /** Pruning a window that ends earlier leaves the window that ends now, expired or not. */
  lemma PrunedWindow(instants: set<real>, last: real, now: real, window: real)
    requires forall t :: t in instants ==> 0.0 <= t <= last
    requires last <= now && window > 0.0
    ensures var held := set t | t in instants && In(UpTo(last, window), t);
      Logged(Live(Store(held, Some(last + window)), now), now, window)
      == (set t | t in instants && In(UpTo(now, window), t)) + {now}
  {
  }

  /** The pruned store is the window over the full log, whether or not the key had expired. */
  lemma StoreIsWindow(rule: Rule, log: seq<real>, store: Store, now: real)
    requires StoreInv(rule, log, store) && ClockRuns(log + [now]) && rule.window > 0.0
    ensures After(store, now, rule.window).times == Distinct(log + [now], UpTo(now, rule.window))
  {
    DistinctNext(log, now, UpTo(now, rule.window));
    if log == [] {
    } else {
      ClockRan(log, now);
      UpToLast(log);
      PrunedWindow(Instants(log), log[|log| - 1], now, rule.window);
    }
  }

  lemma ClockRan(times: seq<real>, now: real)
    requires ClockRuns(times + [now])
    ensures ClockRuns(times) && now >= 0.0 && forall i :: 0 <= i < |times| ==> times[i] <= now
  {
    var more := times + [now];
    assert forall i :: 0 <= i < |times| ==> more[i] == times[i];
    assert more[|times|] == now;
  }

  /** A later attempt, at the same instant or after, changes no window up to an earlier one. */
  lemma WindowStays(log: seq<real>, now: real, t: real, window: real)
    requires ClockRuns(log + [now]) && t in Instants(log)
    ensures Distinct(log + [now], UpTo(t, window)) == Distinct(log, UpTo(t, window))
  {
    DistinctNext(log, now, UpTo(t, window));
    var i :| 0 <= i < |log| && log[i] == t;
    assert (log + [now])[i] <= (log + [now])[|log|];
  }

  lemma AdmittedStay(rule: Rule, log: seq<real>, admitted: seq<real>, now: real)
    requires AdmittedInv(rule, log, admitted) && ClockRuns(log + [now])
    ensures AdmittedInv(rule, log + [now], admitted)
  {
    InstantsNext(log, now);
    forall t | t in Instants(admitted)
      ensures Distinct(log + [now], UpTo(t, rule.window)) == Distinct(log, UpTo(t, rule.window))
    {
      WindowStays(log, now, t, rule.window);
    }
  }

  lemma OneMoreAdmitted(rule: Rule, log: seq<real>, admitted: seq<real>, t: real)
    requires AdmittedInv(rule, log, admitted) && t in Instants(log)
    requires |Distinct(log, UpTo(t, rule.window))| <= rule.limit
    ensures AdmittedInv(rule, log, admitted + [t])
  {
  }

  ghost predicate Inv(rule: Rule, log: seq<real>, h: History) {
    StoreInv(rule, log, h.store) && AdmittedInv(rule, log, h.admitted)
  }

  lemma FeedKeepsInv(rule: Rule, log: seq<real>, h: History, now: real)
    requires Inv(rule, log, h) && ClockRuns(log + [now]) && rule.window > 0.0
    ensures Inv(rule, log + [now], Feed(rule, h, now))
  {
    StoreIsWindow(rule, log, h.store, now);
    AdmittedStay(rule, log, h.admitted, now);
    InstantsNext(log, now);
    if |After(h.store, now, rule.window).times| <= rule.limit {
      OneMoreAdmitted(rule, log + [now], h.admitted, now);
    } else {
      assert h.admitted + [] == h.admitted;
    }
  }

  lemma {:induction false} RunKeepsInv(rule: Rule, times: seq<real>)
    requires ClockRuns(times) && rule.window > 0.0
    ensures Inv(rule, times, Run(rule, times))
  {
    if times == [] {
    } else {
      var before, last := times[..|times| - 1], times[|times| - 1];
      RunKeepsInv(rule, before);
      assert before + [last] == times;
      FeedKeepsInv(rule, before, Run(rule, before), last);
    }
  }

  lemma SubsetSize(a: set<real>, b: set<real>)
    requires a <= b
    ensures |a| <= |b|
  {
    assert b == a + (b - a);
  }

  lemma {:induction false} Greatest(s: set<real>) returns (m: real)
    requires s != {}
    ensures m in s && forall t :: t in s ==> t <= m
    decreases |s|
  {
    var x := Member(s);
    if s == {x} {
      return x;
    }
    var y := Greatest(s - {x});
    m := if x > y then x else y;
    assert forall t :: t in s ==> t == x || t in s - {x};
  }

  ghost function Member<T>(s: set<T>): T
    requires |s| > 0
    ensures Member(s) in s
  {
    var x :| x in s; x
  }

  /** On any clock that does not go back, the requests that are admitted in a window, wherever it
      starts and whatever else was attempted, have at most `limit` different instants; so beyond the
      limit there are only repeats. */
  lemma AdmittedBeyondLimit(rule: Rule, times: seq<real>, start: real)
    requires ClockRuns(times) && rule.window > 0.0
    ensures var admitted, w := Run(rule, times).admitted, From(start, rule.window);
      && |Distinct(admitted, w)| <= rule.limit
      && Count(admitted, w) == |Distinct(admitted, w)| + Repeats(admitted, w)
  {
    RunKeepsInv(rule, times);
    var h, w := Run(rule, times), From(start, rule.window);
    CountSplits(h.admitted, w);
    var inside := Distinct(h.admitted, w);
    if inside != {} {
      var m := Greatest(inside);
      assert inside <= Distinct(times, UpTo(m, rule.window));
      SubsetSize(inside, Distinct(times, UpTo(m, rule.window)));
    }
  }

  lemma {:induction false} AdmittedAreAttempts(rule: Rule, times: seq<real>)
    requires ClockAdvances(times)
    ensures var admitted := Run(rule, times).admitted;
      && (forall t :: t in admitted ==> t in times)
      && (forall i, j :: 0 <= i < j < |admitted| ==> admitted[i] != admitted[j])
  {
    if times == [] {
    } else {
      var before := times[..|times| - 1];
      AdmittedAreAttempts(rule, before);
      assert times[|times| - 1] !in before;
    }
  }

  /** Sliding-window safety: while the clock advances, at most `limit` requests are admitted in any
      window. */
  lemma SlidingWindow(rule: Rule, times: seq<real>, start: real)
    requires ClockAdvances(times) && rule.window > 0.0
    ensures Count(Run(rule, times).admitted, From(start, rule.window)) <= rule.limit
  {
    AdmittedBeyondLimit(rule, times, start);
    AdmittedAreAttempts(rule, times);
    RepeatsExactly(Run(rule, times).admitted, From(start, rule.window));
  }

  function Repeated(t: real, n: nat): (times: seq<real>)
    ensures |times| == n && forall i :: 0 <= i < n ==> times[i] == t
  {
    seq(n, i => t)
  }

  lemma {:induction false} CountRepeated(t: real, n: nat, w: Window)
    requires In(w, t)
    ensures Count(Repeated(t, n), w) == n
  {
    if n == 0 {
    } else {
      CountRepeated(t, n - 1, w);
      assert Repeated(t, n)[..n - 1] == Repeated(t, n - 1);
    }
  }

  lemma SameInstantAfter(s: Store, t: real, window: real)
    requires window > 0.0 && (s == Store({}, None) || s == Store({t}, Some(t + window)))
    ensures After(s, t, window) == Store({t}, Some(t + window)) && |{t}| == 1
  {
  }

  lemma SameInstantAdmitted(rule: Rule, h: History, t: real)
    requires rule.limit >= 1 && rule.window > 0.0
    requires h.store == Store({}, None) || h.store == Store({t}, Some(t + rule.window))
    ensures Feed(rule, h, t) == History(Store({t}, Some(t + rule.window)), h.admitted + [t])
  {
    SameInstantAfter(h.store, t, rule.window);
  }

  lemma RunRepeated(rule: Rule, t: real, n: nat)
    requires n > 0
    ensures Run(rule, Repeated(t, n)) == Feed(rule, Run(rule, Repeated(t, n - 1)), t)
    ensures Repeated(t, n) == Repeated(t, n - 1) + [t]
  {
  }

  lemma {:induction false} RepeatedAdmitted(rule: Rule, t: real, n: nat)
    requires rule.limit >= 1 && rule.window > 0.0
    ensures var h := Run(rule, Repeated(t, n));
      && h.admitted == Repeated(t, n)
      && h.store == if n == 0 then Store({}, None) else Store({t}, Some(t + rule.window))
  {
    if n == 0 {
    } else {
      RepeatedAdmitted(rule, t, n - 1);
      RunRepeated(rule, t, n);
      SameInstantAdmitted(rule, Run(rule, Repeated(t, n - 1)), t);
    }
  }

  /** At one instant, any number of requests is admitted, whatever the limit is. */
  lemma SameInstantPasses(rule: Rule, t: real, n: nat)
    requires rule.limit >= 1 && rule.window > 0.0
    ensures t >= 0.0 ==> ClockRuns(Repeated(t, n))
    ensures Run(rule, Repeated(t, n)).admitted == Repeated(t, n)
    ensures Count(Run(rule, Repeated(t, n)).admitted, From(t, rule.window)) == n
  {
    RepeatedAdmitted(rule, t, n);
    CountRepeated(t, n, From(t, rule.window));
  }

  /** The limiter lets an attempt pass that follows these. */
  predicate Admits(rule: Rule, times: seq<real>, now: real) {
    |After(Run(rule, times).store, now, rule.window).times| <= rule.limit
  }

  lemma AdmittedNext(rule: Rule, times: seq<real>, now: real)
    requires ClockRuns(times + [now]) && rule.window > 0.0
    ensures Admits(rule, times, now) <==> |Distinct(times + [now], UpTo(now, rule.window))| <= rule.limit
    ensures Run(rule, times + [now]).admitted == Run(rule, times).admitted + if Admits(rule, times, now) then [now] else []
  {
    assert (times + [now])[..|times|] == times;
    ClockRan(times, now);
    RunKeepsInv(rule, times);
    StoreIsWindow(rule, times, Run(rule, times).store, now);
  }

  /** The decision on an attempt counts the instants in the window over the full log of attempts,
      rejected ones included; the expiry of the key never changes it. It differs from a count of the
      requests exactly if the instants are within the limit, and with the repeats exceed it. */
  lemma DecisionExactly(rule: Rule, times: seq<real>, now: real)
    requires ClockRuns(times + [now]) && rule.window > 0.0
    ensures var all, w := times + [now], UpTo(now, rule.window);
      && (Admits(rule, times, now) <==> |Distinct(all, w)| <= rule.limit)
      && Run(rule, all).admitted == Run(rule, times).admitted + (if Admits(rule, times, now) then [now] else [])
      && (Admits(rule, times, now) != (Count(all, w) <= rule.limit) <==>
            |Distinct(all, w)| <= rule.limit < |Distinct(all, w)| + Repeats(all, w))
  {
    AdmittedNext(rule, times, now);
    CountSplits(times + [now], UpTo(now, rule.window));
  }

  // ---------------------------------------------------------------- when the bound is passed

  /** All attempts at one instant get one decision. */
  lemma SameInstantSameDecision(rule: Rule, times: seq<real>, now: real)
    requires ClockRuns(times + [now]) && rule.window > 0.0
    ensures Admits(rule, times + [now], now) <==> Admits(rule, times, now)
  {
    var store, next := Run(rule, times).store, Run(rule, times + [now]).store;
    assert (times + [now])[..|times|] == times;
    assert next == After(store, now, rule.window);
    assert Logged(next.times, now, rule.window) == next.times;
  }

  /** The attempt is admitted although as many requests as the limit were admitted in its window:
      the instants there are within the limit. */
  predicate Passes(rule: Rule, times: seq<real>, now: real) {
    && Count(Run(rule, times).admitted, UpTo(now, rule.window)) >= rule.limit
    && |Distinct(times + [now], UpTo(now, rule.window))| <= rule.limit
  }

  predicate NeverPasses(rule: Rule, times: seq<real>) {
    forall n :: 0 <= n < |times| ==> !Passes(rule, times[..n], times[n])
  }

  /** No window, wherever it starts, holds more admitted requests than the limit. */
  ghost predicate Bounded(rule: Rule, admitted: seq<real>) {
    forall start: real :: Count(admitted, From(start, rule.window)) <= rule.limit
  }

  lemma CountNext(times: seq<real>, t: real, w: Window)
    ensures Count(times + [t], w) == Count(times, w) + if In(w, t) then 1 else 0
  {
    assert (times + [t])[..|times|] == times;
  }

  lemma {:induction false} CountWider(times: seq<real>, w: Window, wider: Window)
    requires forall i :: 0 <= i < |times| && In(w, times[i]) ==> In(wider, times[i])
    ensures Count(times, w) <= Count(times, wider)
  {
    if times == [] {
    } else {
      CountWider(times[..|times| - 1], w, wider);
    }
  }

  lemma {:induction false} Least(s: set<real>) returns (m: real)
    requires s != {}
    ensures m in s && forall t :: t in s ==> m <= t
    decreases |s|
  {
    var x := Member(s);
    if s == {x} {
      return x;
    }
    var y := Least(s - {x});
    m := if x < y then x else y;
    assert forall t :: t in s ==> t == x || t in s - {x};
  }

  lemma AdmittedBefore(rule: Rule, times: seq<real>, now: real)
    requires ClockRuns(times + [now]) && rule.window > 0.0
    ensures ClockRuns(times)
    ensures forall i :: 0 <= i < |Run(rule, times).admitted| ==> Run(rule, times).admitted[i] <= now
  {
    ClockRan(times, now);
    RunKeepsInv(rule, times);
    var admitted := Run(rule, times).admitted;
    forall i | 0 <= i < |admitted|
      ensures admitted[i] <= now
    {
      assert admitted[i] in Instants(admitted);
    }
  }

  /** An attempt that does not pass keeps the bound. */
  lemma BoundKept(rule: Rule, times: seq<real>, now: real)
    requires ClockRuns(times + [now]) && rule.window > 0.0
    requires Bounded(rule, Run(rule, times).admitted) && !Passes(rule, times, now)
    ensures Bounded(rule, Run(rule, times + [now]).admitted)
  {
    AdmittedNext(rule, times, now);
    AdmittedBefore(rule, times, now);
    var admitted := Run(rule, times).admitted;
    assert admitted + [] == admitted;
    forall start: real
      ensures Count(Run(rule, times + [now]).admitted, From(start, rule.window)) <= rule.limit
    {
      CountNext(admitted, now, From(start, rule.window));
      if In(From(start, rule.window), now) {
        CountWider(admitted, From(start, rule.window), UpTo(now, rule.window));
      }
    }
  }

  /** One that passes breaks it. */
  lemma BoundBroken(rule: Rule, times: seq<real>, now: real)
    requires ClockRuns(times + [now]) && rule.window > 0.0 && Passes(rule, times, now)
    ensures !Bounded(rule, Run(rule, times + [now]).admitted)
  {
    AdmittedNext(rule, times, now);
    AdmittedBefore(rule, times, now);
    var admitted := Run(rule, times).admitted + [now];
    var w := UpTo(now, rule.window);
    CountNext(Run(rule, times).admitted, now, w);
    DistinctNext(Run(rule, times).admitted, now, w);
    var start := Least(Distinct(admitted, w));
    forall i | 0 <= i < |admitted| && In(w, admitted[i])
      ensures In(From(start, rule.window), admitted[i])
    {
      assert admitted[i] in Distinct(admitted, w);
    }
    CountWider(admitted, w, From(start, rule.window));
  }

  /** A bound once broken stays broken. */
  lemma BoundStaysBroken(rule: Rule, times: seq<real>, now: real)
    requires ClockRuns(times + [now]) && rule.window > 0.0 && Bounded(rule, Run(rule, times + [now]).admitted)
    ensures Bounded(rule, Run(rule, times).admitted)
  {
    AdmittedNext(rule, times, now);
    var admitted := Run(rule, times).admitted;
    assert admitted + [] == admitted;
    forall start: real
      ensures Count(admitted, From(start, rule.window)) <= rule.limit
    {
      CountNext(admitted, now, From(start, rule.window));
    }
  }

  lemma NeverPassesNext(rule: Rule, times: seq<real>, now: real)
    ensures NeverPasses(rule, times + [now]) <==> NeverPasses(rule, times) && !Passes(rule, times, now)
  {
    var all := times + [now];
    assert all[..|times|] == times && all[|times|] == now;
    assert forall n :: 0 <= n < |times| ==> all[..n] == times[..n] && all[n] == times[n];
  }

  /** The limit holds in every window exactly if no attempt passes it: if none is admitted that
      finds the limit used up in its window and the instants there still within the limit. */
  lemma {:induction false} BoundedExactly(rule: Rule, times: seq<real>)
    requires ClockRuns(times) && rule.window > 0.0
    ensures Bounded(rule, Run(rule, times).admitted) <==> NeverPasses(rule, times)
  {
    if times == [] {
    } else {
      var before, now := times[..|times| - 1], times[|times| - 1];
      assert before + [now] == times;
      ClockRan(before, now);
      BoundedExactly(rule, before);
      NeverPassesNext(rule, before, now);
      if Bounded(rule, Run(rule, times).admitted) {
        BoundStaysBroken(rule, before, now);
        if Passes(rule, before, now) { BoundBroken(rule, before, now); }
      } else if NeverPasses(rule, times) {
        BoundKept(rule, before, now);
      }
    }
  }

  // ---------------------------------------------------------------- the middleware

  type Stores = map<string, Store>

  /** A request that reaches the middleware; `up` says whether Redis answers. */
  datatype Request = Request(isHttp: bool, path: string, client: Option<string>, now: real, up: bool)

  predicate Exempt(q: Request) { !q.isHttp || q.path == "/api/health" }

  function KeyOfRequest(q: Request): string { KeyOf(q.path, if q.client.Some? then q.client.value else "unknown") }

  function Held(stores: Stores, key: string): Store { if key in stores then stores[key] else Store({}, None) }

  /** Mirrors `__call__` up to the decision. */
  function Serve(stores: Stores, q: Request): (Stores, bool) {
    if Exempt(q) || !q.up then (stores, true) else
    var rule := RuleOf(q.path);
    var store := After(Held(stores, KeyOfRequest(q)), q.now, rule.window);
    (stores[KeyOfRequest(q) := store], |store.times| <= rule.limit)
  }

  class RateLimiter {
    var stores: Stores

    constructor ()
      ensures stores == map[]
    {
      stores := map[];
    }

    method Call(q: Request) returns (admitted: bool)
      modifies this
      ensures (stores, admitted) == Serve(old(stores), q)
      ensures !q.isHttp || q.path == "/api/health" || !q.up ==> admitted && stores == old(stores)
    {
      if !q.isHttp || q.path == "/api/health" {
        return true;
      }
      var ip := if q.client.Some? then q.client.value else "unknown";
      var rule := RuleOf(q.path);
      if !q.up {
        return true;
      }
      var count := Pipeline(KeyOf(q.path, ip), q.now, rule.window);
      admitted := count <= rule.limit;
    }

    /** The four commands to Redis: prune, add, count, and set the expiry. */
    method Pipeline(key: string, now: real, window: real) returns (count: nat)
      modifies this
      ensures stores == old(stores)[key := After(Held(old(stores), key), now, window)]
      ensures count == |stores[key].times|
    {
      var times := Live(Held(stores, key), now);
      times := set t | t in times && !(0.0 <= t <= now - window);
      times := times + {now};
      count := |times|;
      stores := stores[key := Store(times, Some(now + window))];
    }
  }

  // ---------------------------------------------------------------- runs of requests

  /** What Redis holds after some requests. */
  function ServeAll(qs: seq<Request>): Stores {
    if qs == [] then map[] else Serve(ServeAll(qs[..|qs| - 1]), qs[|qs| - 1]).0
  }

  predicate Checks(q: Request, key: string) { !Exempt(q) && q.up && KeyOfRequest(q) == key }

  /** The times of the requests that are checked under a key, and of those of them that pass. */
  function AttemptsOf(qs: seq<Request>, key: string): seq<real> {
    if qs == [] then [] else
    var q := qs[|qs| - 1];
    AttemptsOf(qs[..|qs| - 1], key) + if Checks(q, key) then [q.now] else []
  }

  function AdmittedOf(qs: seq<Request>, key: string): seq<real> {
    if qs == [] then [] else
    var before, q := qs[..|qs| - 1], qs[|qs| - 1];
    AdmittedOf(before, key) + if Checks(q, key) && Serve(ServeAll(before), q).1 then [q.now] else []
  }

  /** However requests of other paths and clients mix in, a key sees the run of its own attempts. */
  lemma {:induction false} KeyRuns(qs: seq<Request>, path: string, ip: string)
    ensures var key, rule := KeyOf(path, ip), RuleOf(path);
      var h := Run(rule, AttemptsOf(qs, key));
      Held(ServeAll(qs), key) == h.store && AdmittedOf(qs, key) == h.admitted
  {
    var key := KeyOf(path, ip);
    if qs == [] {
    } else {
      var before, q := qs[..|qs| - 1], qs[|qs| - 1];
      KeyRuns(before, path, ip);
      if Checks(q, key) {
        KeyHasOneRule(path, ip, q.path, if q.client.Some? then q.client.value else "unknown");
        assert (AttemptsOf(before, key) + [q.now])[..|AttemptsOf(before, key)|] == AttemptsOf(before, key);
      } else {
        assert AttemptsOf(before, key) + [] == AttemptsOf(before, key);
        assert AdmittedOf(before, key) + [] == AdmittedOf(before, key);
      }
    }
  }

  /** The limit over any run of requests of any paths and clients: of the requests checked under
      one key, on a clock that advances for them, at most five for a path of authentication, and at
      most a hundred otherwise, pass in any minute. */
  lemma KeyWindow(qs: seq<Request>, path: string, ip: string, start: real)
    requires ClockAdvances(AttemptsOf(qs, KeyOf(path, ip)))
    ensures Count(AdmittedOf(qs, KeyOf(path, ip)), From(start, 60.0)) <= if IsAuth(path) then 5 else 100
  {
    KeyRuns(qs, path, ip);
    KeyHasOneRule(path, ip, path, ip);
    SlidingWindow(RuleOf(path), AttemptsOf(qs, KeyOf(path, ip)), start);
  }

  // ---------------------------------------------------------------- budgets

  function ClientOf(q: Request): string { if q.client.Some? then q.client.value else "unknown" }

  /** A request that is counted at all. */
  predicate IsCounted(q: Request) { q.isHttp && q.path != "/api/health" && q.up }

  /** Two requests count against each other: they come from one client, and go to one path of
      authentication or both to other paths. */
  predicate SameBudget(q: Request, q': Request) {
    ClientOf(q) == ClientOf(q') && (q.path == q'.path || (!IsAuth(q.path) && !IsAuth(q'.path)))
  }

  /** The requests that count against another. */
  function Own(qs: seq<Request>, q: Request): seq<Request> {
    if qs == [] then [] else
    var last := qs[|qs| - 1];
    Own(qs[..|qs| - 1], q) + if IsCounted(last) && SameBudget(last, q) then [last] else []
  }

  lemma ServeOwn(stores: Stores, stores': Stores, last: Request, q: Request)
    requires IsCounted(last) && SameBudget(last, q) && Held(stores, KeyOfRequest(q)) == Held(stores', KeyOfRequest(q))
    ensures Held(Serve(stores, last).0, KeyOfRequest(q)) == Held(Serve(stores', last).0, KeyOfRequest(q))
  {
    KeySharedExactly(last.path, ClientOf(last), q.path, ClientOf(q));
  }

  lemma ServeOther(stores: Stores, last: Request, q: Request)
    requires !(IsCounted(last) && SameBudget(last, q))
    ensures Held(Serve(stores, last).0, KeyOfRequest(q)) == Held(stores, KeyOfRequest(q))
  {
    KeySharedExactly(last.path, ClientOf(last), q.path, ClientOf(q));
  }

  lemma {:induction false} OwnRequestsHeld(qs: seq<Request>, q: Request)
    ensures Held(ServeAll(qs), KeyOfRequest(q)) == Held(ServeAll(Own(qs, q)), KeyOfRequest(q))
  {
    if qs == [] {
    } else {
      var before, last := qs[..|qs| - 1], qs[|qs| - 1];
      OwnRequestsHeld(before, q);
      if IsCounted(last) && SameBudget(last, q) {
        ServeOwn(ServeAll(before), ServeAll(Own(before, q)), last, q);
        assert Own(qs, q)[..|Own(qs, q)| - 1] == Own(before, q);
      } else {
        ServeOther(ServeAll(before), last, q);
        assert Own(qs, q) == Own(before, q);
      }
    }
  }

  /** A decision depends on the requests that count against it and on no others: neither on other
      clients, nor on other paths of authentication, nor on what is not counted. */
  lemma OwnRequestsDecide(qs: seq<Request>, q: Request)
    ensures Serve(ServeAll(qs), q).1 == Serve(ServeAll(Own(qs, q)), q).1
  {
    OwnRequestsHeld(qs, q);
  }
}
