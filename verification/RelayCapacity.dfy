/** The session limit under overlapping registrations: the check and the insertion of a registration
    are two steps.
 */
module RelayCapacity {
  import opened Bits
  import opened Text
  import opened Net
  import opened RelayTables
  import opened RelaySteps

  /** At every state of the run at most `k` registrations are past the check. */
  predicate AtMostInFlight(cfg: Config, es: seq<Event>, k: nat) {
    forall n :: 0 <= n <= |es| && Exec(cfg, es[..n]).Some? ==> |Exec(cfg, es[..n]).value.registrations| <= k
  }

  function Total(s: State): nat { |s.sessions| + |s.registrations| }

  // ---------------------------------------------------------------- the bound

  lemma RetireShrinks(s: State, token: u32)
    ensures |Retire(s, token).sessions| <= |s.sessions| && Total(Retire(s, token)) <= Total(s)
  {
  }

  lemma ClearTotal(s: State, r: nat)
    requires DoClear(s, r).Some?
    ensures Total(DoClear(s, r).value) <= Total(s)
  {
  }

  lemma BindFailsTotal(s: State, r: nat)
    requires DoBindFails(s, r).Some?
    ensures Total(DoBindFails(s, r).value) <= Total(s)
  {
  }

  lemma InsertTotal(cfg: Config, s: State, e: Event)
    requires e.Insert? && DoInsert(cfg, s, e).Some?
    ensures Total(DoInsert(cfg, s, e).value) <= Total(s)
  {
  }

  lemma PacketTotal(s: State, data: seq<u8>, addr: SocketAddr, now: int)
    requires DoClientPacket(s, data, addr, now).Some?
    ensures |DoClientPacket(s, data, addr, now).value.sessions| == |s.sessions|
    ensures Total(DoClientPacket(s, data, addr, now).value) == Total(s)
  {
  }

  lemma RespondTotal(s: State, l: nat, payload: seq<u8>)
    requires DoRespond(s, l, payload).Some?
    ensures |DoRespond(s, l, payload).value.sessions| == |s.sessions|
    ensures Total(DoRespond(s, l, payload).value) == Total(s)
  {
  }

  /** No step but a passed check increases the sum. */
  lemma StepTotal(cfg: Config, s: State, e: Event)
    requires Step(cfg, s, e).Some? && !e.Check?
    ensures Total(Step(cfg, s, e).value) <= Total(s)
  {
    match e
    case Clear(r) => ClearTotal(s, r);
    case Remove(token) => RetireShrinks(s, token);
    case BindFails(r) => BindFailsTotal(s, r);
    case Insert(_, _, _) => InsertTotal(cfg, s, e);
    case ClientPacket(data, addr, now) => PacketTotal(s, data, addr, now);
    case Respond(l, payload) => RespondTotal(s, l, payload);
    case DropPort(_) =>
    case _ =>
      OthersLeaveSessions(cfg, s, e);
      OthersLeaveRegistrations(cfg, s, e);
  }

  lemma CheckTotal(cfg: Config, s: State, e: Event, k: nat)
    requires e.Check? && DoCheck(cfg, s, e).Some? && |DoCheck(cfg, s, e).value.registrations| <= k
    requires Total(s) <= cfg.maxSessions - 1 + k
    ensures Total(DoCheck(cfg, s, e).value) <= cfg.maxSessions - 1 + k
  {
  }

  /** With at most `k` registrations in flight, sessions and registrations together exceed the
      limit by at most `k - 1`; with one at a time the limit holds. */
  lemma {:induction false} CapacityOvershoot(cfg: Config, es: seq<Event>, k: nat)
    requires Exec(cfg, es).Some? && AtMostInFlight(cfg, es, k) && cfg.maxSessions >= 1
    ensures Total(Exec(cfg, es).value) <= cfg.maxSessions - 1 + k
  {
    if es == [] {
    } else {
      var before := es[..|es| - 1];
      assert forall n :: 0 <= n <= |before| ==> before[..n] == es[..n];
      CapacityOvershoot(cfg, before, k);
      assert es[..|es|] == es;
      var s, e := Exec(cfg, before).value, es[|es| - 1];
      if e.Check? {
        CheckTotal(cfg, s, e, k);
      } else {
        StepTotal(cfg, s, e);
      }
    }
  }

  // ---------------------------------------------------------------- passing the limit

  lemma InsertSize(cfg: Config, s: State, e: Event)
    requires e.Insert? && DoInsert(cfg, s, e).Some?
    ensures |DoInsert(cfg, s, e).value.sessions|
         == |s.sessions| + if s.registrations[e.r].token in s.sessions then 0 else 1
  {
  }

  /** A step passes the limit exactly if it inserts a session for a token without one into a full
      table. */
  lemma LimitPassedExactly(cfg: Config, s: State, e: Event)
    requires Step(cfg, s, e).Some? && |s.sessions| <= cfg.maxSessions
    ensures |Step(cfg, s, e).value.sessions| > cfg.maxSessions <==>
      e.Insert? && |s.sessions| == cfg.maxSessions && s.registrations[e.r].token !in s.sessions
  {
    match e
    case Clear(r) => RetireShrinks(s, s.registrations[r].token);
    case Remove(token) => RetireShrinks(s, token);
    case Insert(_, _, _) => InsertSize(cfg, s, e);
    case ClientPacket(data, addr, now) => PacketTotal(s, data, addr, now);
    case Respond(l, payload) => RespondTotal(s, l, payload);
    case DropPort(_) =>
    case _ => OthersLeaveSessions(cfg, s, e);
  }

  // ---------------------------------------------------------------- the bound is reached

  /** Sessions for the first `n` tokens, each on the port after its number. */
  ghost predicate RowSessions(sessions: Sessions, n: nat) {
    |sessions| == n && forall t :: t in sessions ==> t < n && sessions[t].forwardPort == t + 1
  }

  /** Registrations for the next `k` tokens, of which the first `c` are cleared. */
  ghost predicate RowRegistrations(registrations: map<nat, Registration>, n: nat, k: nat, c: nat) {
    && |registrations| == k
    && (forall r :: r in registrations <==> n <= r < n + k)
    && (forall r :: r in registrations ==> r < U32 && registrations[r] == Registration(r, [], [], r < n + c))
  }

  ghost predicate Row(s: State, n: nat, k: nat, c: nat) {
    && RowSessions(s.sessions, n) && RowRegistrations(s.registrations, n, k, c)
    && s.dropping == {} && s.listeners == map[] && s.sending.None?
    && (forall r :: r in s.entering || r in s.spawning ==> r < n)
  }

  lemma CheckRow(cfg: Config, s: State, n: nat, k: nat)
    requires Row(s, n, k, 0) && n < cfg.maxSessions && n + k < U16 - 1
    ensures var e := Check(n + k, n + k, [], []);
      Step(cfg, s, e).Some? && Row(Step(cfg, s, e).value, n, k + 1, 0)
  {
  }

  lemma ClearRow(cfg: Config, s: State, n: nat, k: nat, c: nat)
    requires Row(s, n, k, c) && c < k
    ensures Step(cfg, s, Clear(n + c)).Some? && Row(Step(cfg, s, Clear(n + c)).value, n, k, c + 1)
  {
    assert n + c in s.registrations && s.registrations[n + c].token !in s.sessions;
  }

  lemma FirstRegistrationLeaves(registrations: map<nat, Registration>, n: nat, k: nat)
    requires RowRegistrations(registrations, n, k, k) && k > 0
    ensures n in registrations && RowRegistrations(registrations - {n}, n + 1, k - 1, k - 1)
  {
  }

  lemma SessionJoins(sessions: Sessions, n: nat, info: Session)
    requires RowSessions(sessions, n) && n < U16 - 1 && info.token == n && info.forwardPort == n + 1
    ensures n !in sessions && RowSessions(sessions[n := info], n + 1)
  {
  }

  lemma InsertRow(cfg: Config, s: State, n: nat, k: nat)
    requires Row(s, n, k, k) && k > 0 && n < U16 - 1
    ensures Step(cfg, s, Insert(n, n + 1, 0)).Some? && Row(Step(cfg, s, Insert(n, n + 1, 0)).value, n + 1, k - 1, k - 1)
  {
    FirstRegistrationLeaves(s.registrations, n, k);
    SessionJoins(s.sessions, n, NewSession(cfg.v6, n, PLACEHOLDER, [], [], n + 1, 0));
  }

  lemma MoreInFlight(cfg: Config, es: seq<Event>, s: State, e: Event, k: nat) returns (es': seq<Event>, s': State)
    requires Exec(cfg, es) == Some(s) && AtMostInFlight(cfg, es, k)
    requires Step(cfg, s, e).Some? && |Step(cfg, s, e).value.registrations| <= k
    ensures s' == Step(cfg, s, e).value && Exec(cfg, es') == Some(s') && AtMostInFlight(cfg, es', k)
  {
    es', s' := Then(cfg, es, s, e);
    forall n | 0 <= n <= |es'| && Exec(cfg, es'[..n]).Some?
      ensures |Exec(cfg, es'[..n]).value.registrations| <= k
    {
      if n <= |es| {
        assert es'[..n] == es[..n];
      } else {
        assert es'[..n] == es';
      }
    }
  }

  lemma {:induction false} CheckAll(cfg: Config, es: seq<Event>, s: State, n: nat, i: nat, j: nat, k: nat)
    returns (es': seq<Event>, s': State)
    requires Exec(cfg, es) == Some(s) && AtMostInFlight(cfg, es, k)
    requires Row(s, n, i, 0) && i <= j <= k && n < cfg.maxSessions && n + j < U16
    ensures Exec(cfg, es') == Some(s') && AtMostInFlight(cfg, es', k) && Row(s', n, j, 0)
    decreases j - i
  {
    if i == j {
      es', s' := es, s;
    } else {
      CheckRow(cfg, s, n, i);
      es', s' := MoreInFlight(cfg, es, s, Check(n + i, n + i, [], []), k);
      es', s' := CheckAll(cfg, es', s', n, i + 1, j, k);
    }
  }

  lemma {:induction false} ClearAll(cfg: Config, es: seq<Event>, s: State, n: nat, c: nat, j: nat, k: nat)
    returns (es': seq<Event>, s': State)
    requires Exec(cfg, es) == Some(s) && AtMostInFlight(cfg, es, k)
    requires Row(s, n, j, c) && c <= j <= k
    ensures Exec(cfg, es') == Some(s') && AtMostInFlight(cfg, es', k) && Row(s', n, j, j)
    decreases j - c
  {
    if c == j {
      es', s' := es, s;
    } else {
      ClearRow(cfg, s, n, j, c);
      es', s' := MoreInFlight(cfg, es, s, Clear(n + c), k);
      es', s' := ClearAll(cfg, es', s', n, c + 1, j, k);
    }
  }

  lemma {:induction false} InsertAll(cfg: Config, es: seq<Event>, s: State, n: nat, j: nat, k: nat)
    returns (es': seq<Event>, s': State)
    requires Exec(cfg, es) == Some(s) && AtMostInFlight(cfg, es, k)
    requires Row(s, n, j, j) && j <= k && n + j < U16
    ensures Exec(cfg, es') == Some(s') && AtMostInFlight(cfg, es', k) && Row(s', n + j, 0, 0)
    decreases j
  {
    if j == 0 {
      es', s' := es, s;
    } else {
      InsertRow(cfg, s, n, j);
      es', s' := MoreInFlight(cfg, es, s, Insert(n, n + 1, 0), k);
      es', s' := InsertAll(cfg, es', s', n + 1, j - 1, k);
    }
  }

  /** `j` registrations that overlap add `j` sessions to a table that is not full. */
  lemma Overlap(cfg: Config, es: seq<Event>, s: State, n: nat, j: nat, k: nat) returns (es': seq<Event>, s': State)
    requires Exec(cfg, es) == Some(s) && AtMostInFlight(cfg, es, k)
    requires Row(s, n, 0, 0) && j <= k && n < cfg.maxSessions && n + j < U16
    ensures Exec(cfg, es') == Some(s') && AtMostInFlight(cfg, es', k) && Row(s', n + j, 0, 0)
  {
    es', s' := CheckAll(cfg, es, s, n, 0, j, k);
    es', s' := ClearAll(cfg, es', s', n, 0, j, k);
    es', s' := InsertAll(cfg, es', s', n, j, k);
  }

  /** Registrations one at a time fill the table. */
  lemma {:induction false} Fill(cfg: Config, n: nat, k: nat) returns (es: seq<Event>, s: State)
    requires n < cfg.maxSessions && n < U16 && k >= 1
    ensures Exec(cfg, es) == Some(s) && AtMostInFlight(cfg, es, k) && Row(s, n, 0, 0)
  {
    if n == 0 {
      es, s := [], INITIAL;
    } else {
      es, s := Fill(cfg, n - 1, k);
      es, s := Overlap(cfg, es, s, n - 1, 1, k);
    }
  }

  /** The bound is reached: for every limit and every number of registrations in flight for which
      there are ports, a run ends with `maxSessions - 1 + k` sessions. */
  lemma OverlapReachesBound(cfg: Config, k: nat) returns (es: seq<Event>)
    requires cfg.maxSessions >= 1 && k >= 1 && cfg.maxSessions - 1 + k < U16
    ensures Exec(cfg, es).Some? && AtMostInFlight(cfg, es, k)
    ensures |Exec(cfg, es).value.sessions| == cfg.maxSessions - 1 + k
  {
    var s;
    es, s := Fill(cfg, cfg.maxSessions - 1, k);
    es, s := Overlap(cfg, es, s, cfg.maxSessions - 1, k, k);
  }
}
