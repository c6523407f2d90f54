/** Packet accounting in the relay, over every run: no packet is counted twice or not at all. */
module RelayAccounting {
  import opened Bits
  import opened Text
  import opened Net
  import opened RelayTables
  import opened RelaySteps

  ghost function Pick(m: Sessions): u32
    requires m != map[]
    ensures Pick(m) in m
  {
    var t :| t in m; t
  }

  /** The packets counted in all sessions. */
  ghost function SumIn(m: Sessions): nat
    decreases |m|
  {
    if m == map[] then 0
    else SizeWithout(m, Pick(m)); m[Pick(m)].packetsIn + SumIn(m - {Pick(m)})
  }

  lemma {:induction false} SumInWithout(m: Sessions, t: u32)
    requires t in m
    ensures SumIn(m) == m[t].packetsIn + SumIn(m - {t})
    decreases |m|
  {
    var x := Pick(m);
    if x == t {
    } else {
      SizeWithout(m, x);
      SizeWithout(m, t);
      SumInWithout(m - {x}, t);
      SumInWithout(m - {t}, x);
      assert m - {x} - {t} == m - {t} - {x};
    }
  }

  lemma SumInWith(m: Sessions, t: u32, s: Session)
    ensures SumIn(m[t := s]) == SumIn(m) + s.packetsIn - (if t in m then m[t].packetsIn else 0)
  {
    SumInWithout(m[t := s], t);
    assert m[t := s] - {t} == m - {t};
    if t in m {
      SumInWithout(m, t);
    } else {
      assert m - {t} == m;
    }
  }

  /** Between two iterations of the client loop every packet received is accounted for once; a
      packet whose send is under way is still to be counted. */
  ghost predicate CountersInv(s: State) {
    && s.counters.received == s.counters.dropped + s.counters.invalid + s.counters.keepalives + s.log.controls
         + s.log.upstreamSent + (if s.sending.Some? then 1 else 0)
    && s.counters.forwarded == s.log.upstreamSent + s.log.responses
  }

  /** Every packet that matched a session is counted in a session, live or gone. */
  ghost predicate MatchedInv(s: State) {
    s.log.matched == SumIn(s.sessions) + s.log.retiredIn
  }

  lemma StepKeepsCounters(cfg: Config, s: State, e: Event)
    requires CountersInv(s) && Step(cfg, s, e).Some?
    ensures CountersInv(Step(cfg, s, e).value)
  {
    match e
    case ClientPacket(data, addr, now) => PacketKeepsCounters(s, data, addr, now);
    case SendDone(ok) => SendKeepsCounters(s, ok);
    case Respond(l, payload) => RespondKeepsCounters(s, l, payload);
    case _ => OthersCountNothing(cfg, s, e);
  }

  lemma OthersCountNothing(cfg: Config, s: State, e: Event)
    requires Step(cfg, s, e).Some? && !e.ClientPacket? && !e.SendDone? && !e.Respond?
    ensures var s' := Step(cfg, s, e).value;
      && s'.counters == s.counters && s'.sending == s.sending && s'.log.controls == s.log.controls
      && s'.log.upstreamSent == s.log.upstreamSent && s'.log.responses == s.log.responses
      && s'.log.matched == s.log.matched
  {
    match e
    case Check(_, _, _, _) =>
    case Clear(_) =>
    case BindFails(_) =>
    case Insert(_, _, _) =>
    case EnterPort(_) =>
    case Spawn(_, _) =>
    case Remove(_) =>
    case DropPort(_) =>
    case Lookup(_) =>
    case ListenerFails(_) =>
  }

  lemma SendKeepsCounters(s: State, ok: bool)
    requires CountersInv(s) && DoSendDone(s, ok).Some?
    ensures CountersInv(DoSendDone(s, ok).value)
  {
  }

  lemma RespondKeepsCounters(s: State, l: nat, payload: seq<u8>)
    requires CountersInv(s) && DoRespond(s, l, payload).Some?
    ensures CountersInv(DoRespond(s, l, payload).value)
  {
  }

  lemma PacketKeepsCounters(s: State, data: seq<u8>, addr: SocketAddr, now: int)
    requires CountersInv(s) && DoClientPacket(s, data, addr, now).Some?
    ensures CountersInv(DoClientPacket(s, data, addr, now).value)
  {
  }

  lemma PacketKeepsMatched(s: State, data: seq<u8>, addr: SocketAddr, now: int)
    requires MatchedInv(s) && DoClientPacket(s, data, addr, now).Some?
    ensures MatchedInv(DoClientPacket(s, data, addr, now).value)
  {
    ClassifyFrame(s.sessions, data, addr, now);
    var m := MatchedToken(s.sessions, data);
    if m.Some? {
      SumInWith(s.sessions, m.value, Classify(s.sessions, data, addr, now).1[m.value]);
    }
  }

  lemma RetireKeepsMatched(s: State, token: u32)
    requires MatchedInv(s)
    ensures MatchedInv(Retire(s, token))
  {
    if token in s.sessions {
      SumInWithout(s.sessions, token);
    }
  }

  lemma InsertKeepsMatched(cfg: Config, s: State, e: Event)
    requires MatchedInv(s) && e.Insert? && DoInsert(cfg, s, e).Some?
    ensures MatchedInv(DoInsert(cfg, s, e).value)
  {
    var token := s.registrations[e.r].token;
    SumInWith(s.sessions, token, DoInsert(cfg, s, e).value.sessions[token]);
  }

  lemma RespondKeepsMatched(s: State, l: nat, payload: seq<u8>)
    requires MatchedInv(s) && DoRespond(s, l, payload).Some?
    ensures MatchedInv(DoRespond(s, l, payload).value)
  {
    var token := s.listeners[l].found.value;
    if token in s.sessions {
      SumInWith(s.sessions, token, CountResponse(s.sessions[token], |payload|));
    }
  }

  lemma StepKeepsMatched(cfg: Config, s: State, e: Event)
    requires MatchedInv(s) && Step(cfg, s, e).Some?
    ensures MatchedInv(Step(cfg, s, e).value)
  {
    match e
    case Clear(r) => RetireKeepsMatched(s, s.registrations[r].token);
    case Remove(token) => RetireKeepsMatched(s, token);
    case Insert(_, _, _) => InsertKeepsMatched(cfg, s, e);
    case ClientPacket(data, addr, now) => PacketKeepsMatched(s, data, addr, now);
    case Respond(l, payload) => RespondKeepsMatched(s, l, payload);
    case SendDone(_) =>
    case DropPort(_) =>
    case _ =>
      OthersLeaveSessions(cfg, s, e);
      OthersCountNothing(cfg, s, e);
  }

  /** Which counters a step moves: every datagram is received, and dropped, invalid or a keepalive
      by its verdict; a send upstream is forwarded or dropped when it is done; a response is forwarded
      when it is sent. */
  lemma CountersExactly(cfg: Config, s: State, e: Event)
    requires Step(cfg, s, e).Some?
    ensures var c, c' := s.counters, Step(cfg, s, e).value.counters;
      match e
      case ClientPacket(data, addr, now) =>
        var v := Classify(s.sessions, data, addr, now).0;
        && c'.received == c.received + 1 && c'.forwarded == c.forwarded
        && c'.dropped == c.dropped + (if v.TooShort? || v.ControlRejected? || v.NoTarget? then 1 else 0)
        && c'.invalid == c.invalid + (if v.UnknownSession? then 1 else 0)
        && c'.keepalives == c.keepalives + (if v.KeepaliveSeen? then 1 else 0)
      case SendDone(ok) =>
        c' == if ok then c.(forwarded := c.forwarded + 1) else c.(dropped := c.dropped + 1)
      case Respond(_, _) =>
        c' == c.(forwarded := c.forwarded + |Step(cfg, s, e).value.log.replies| - |s.log.replies|)
      case _ => c' == c
  {
    match e
    case ClientPacket(_, _, _) =>
    case SendDone(_) =>
    case Respond(_, _) =>
    case _ => OthersCountNothing(cfg, s, e);
  }

  /** Packet accounting over every run. */
  lemma {:induction false} PacketAccounting(cfg: Config, es: seq<Event>)
    requires Exec(cfg, es).Some?
    ensures CountersInv(Exec(cfg, es).value) && MatchedInv(Exec(cfg, es).value)
  {
    if es == [] {
    } else {
      PacketAccounting(cfg, es[..|es| - 1]);
      StepKeepsCounters(cfg, Exec(cfg, es[..|es| - 1]).value, es[|es| - 1]);
      StepKeepsMatched(cfg, Exec(cfg, es[..|es| - 1]).value, es[|es| - 1]);
    }
  }

  /** The session is found by the client loop's datagram, or by the listener's. */
  predicate FoundBy(s: State, e: Event, token: u32) {
    match e
    case ClientPacket(data, _, _) => MatchedToken(s.sessions, data) == Some(token)
    case Respond(l, _) => l in s.listeners && s.listeners[l].found == Some(token)
    case _ => false
  }

  predicate Replaces(s: State, e: Event, token: u32) {
    e.Insert? && e.r in s.registrations && s.registrations[e.r].token == token
  }

  lemma PacketCounts(cfg: Config, s: State, e: Event, token: u32)
    requires e.ClientPacket? && Step(cfg, s, e).Some? && token in s.sessions
    ensures var after := Step(cfg, s, e).value.sessions;
      && token in after
      && var i := s.sessions[token];
      after[token] == if MatchedToken(s.sessions, e.data) != Some(token) then i
        else i.(clientAddr := e.addr, lastSeen := e.now, packetsIn := i.packetsIn + 1, bytesIn := i.bytesIn + |e.data|,
                target := after[token].target)
  {
    ClassifyFrame(s.sessions, e.data, e.addr, e.now);
  }

  lemma ResponseCounts(cfg: Config, s: State, e: Event, token: u32)
    requires e.Respond? && Step(cfg, s, e).Some? && token in s.sessions
    ensures var after := Step(cfg, s, e).value.sessions;
      && token in after
      && var i := s.sessions[token];
      after[token] == if !FoundBy(s, e, token) then i
        else i.(packetsOut := i.packetsOut + 1, bytesOut := i.bytesOut + 10 + |e.payload|)
  {
  }

  lemma OthersCountNoSession(cfg: Config, s: State, e: Event, token: u32)
    requires Step(cfg, s, e).Some? && token in s.sessions && token in Step(cfg, s, e).value.sessions
    requires !Replaces(s, e, token) && !e.ClientPacket? && !e.Respond?
    ensures Step(cfg, s, e).value.sessions[token] == s.sessions[token]
  {
    match e
    case Insert(_, _, _) =>
    case Clear(_) =>
    case Remove(_) =>
    case DropPort(_) =>
    case _ => OthersLeaveSessions(cfg, s, e);
  }

  /** What a step does to the counts and the address of a session that stays: a packet from its client
      is counted in, with all its bytes, and sets address and time; a response is counted out, with a
      header of ten bytes, even if it is not sent; and nothing else changes them. */
  lemma SessionCountsExactly(cfg: Config, s: State, e: Event, token: u32)
    requires Step(cfg, s, e).Some? && token in s.sessions && token in Step(cfg, s, e).value.sessions
    requires !Replaces(s, e, token)
    ensures var i, i' := s.sessions[token], Step(cfg, s, e).value.sessions[token];
      if !FoundBy(s, e, token) then i' == i
      else if e.ClientPacket?
      then i' == i.(clientAddr := e.addr, lastSeen := e.now, packetsIn := i.packetsIn + 1, bytesIn := i.bytesIn + |e.data|,
                    target := i'.target)
      else e.Respond? && i' == i.(packetsOut := i.packetsOut + 1, bytesOut := i.bytesOut + 10 + |e.payload|)
  {
    match e
    case ClientPacket(_, _, _) => PacketCounts(cfg, s, e, token);
    case Respond(_, _) => ResponseCounts(cfg, s, e, token);
    case _ => OthersCountNoSession(cfg, s, e, token);
  }
}
