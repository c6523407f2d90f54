/** Where the relay forwards to, over every run: only to addresses that a session's list spells, and
    at all only if that list can be used.
 */
module RelayTargets {
  import opened Bits
  import opened Text
  import opened Net
  import opened PlgProtocol
  import opened RelayTables
  import opened RelaySteps

  // ---------------------------------------------------------------- targets are listed

  ghost predicate ForwardInv(cfg: Config, s: State) {
    && TargetsAllowed(cfg.v6, s.sessions)
    && forall i :: 0 <= i < |s.log.upstream| ==> Allowed(cfg.v6, s.log.upstream[i].target, s.log.upstream[i].allowed)
  }

  lemma OthersForwardNothing(cfg: Config, s: State, e: Event)
    requires Step(cfg, s, e).Some? && !e.ClientPacket?
    ensures Step(cfg, s, e).value.log.upstream == s.log.upstream
  {
    match e
    case Check(_, _, _, _) =>
    case Clear(_) =>
    case BindFails(_) =>
    case Insert(_, _, _) =>
    case EnterPort(_) =>
    case Spawn(_, _) =>
    case Remove(_) =>
    case DropPort(_) =>
    case SendDone(_) =>
    case Lookup(_) =>
    case Respond(_, _) =>
    case ListenerFails(_) =>
  }

  lemma InsertKeepsTargets(cfg: Config, s: State, e: Event)
    requires TargetsAllowed(cfg.v6, s.sessions) && e.Insert? && DoInsert(cfg, s, e).Some?
    ensures TargetsAllowed(cfg.v6, DoInsert(cfg, s, e).value.sessions)
  {
  }

  lemma PacketKeepsTargets(cfg: Config, s: State, data: seq<u8>, addr: SocketAddr, now: int)
    requires ForwardInv(cfg, s) && DoClientPacket(s, data, addr, now).Some?
    ensures ForwardInv(cfg, DoClientPacket(s, data, addr, now).value)
  {
    ClassifyKeepsTargets(cfg.v6, s.sessions, data, addr, now);
  }

  lemma RespondKeepsTargets(cfg: Config, s: State, l: nat, payload: seq<u8>)
    requires TargetsAllowed(cfg.v6, s.sessions) && DoRespond(s, l, payload).Some?
    ensures TargetsAllowed(cfg.v6, DoRespond(s, l, payload).value.sessions)
  {
  }

  lemma StepKeepsTargets(cfg: Config, s: State, e: Event)
    requires ForwardInv(cfg, s) && Step(cfg, s, e).Some?
    ensures ForwardInv(cfg, Step(cfg, s, e).value)
  {
    match e
    case ClientPacket(data, addr, now) => PacketKeepsTargets(cfg, s, data, addr, now);
    case Insert(_, _, _) =>
      InsertKeepsTargets(cfg, s, e);
      OthersForwardNothing(cfg, s, e);
    case Respond(l, payload) =>
      RespondKeepsTargets(cfg, s, l, payload);
      OthersForwardNothing(cfg, s, e);
    case Clear(r) => OthersForwardNothing(cfg, s, e);
    case Remove(token) => OthersForwardNothing(cfg, s, e);
    case DropPort(_) =>
    case _ =>
      OthersLeaveSessions(cfg, s, e);
      OthersForwardNothing(cfg, s, e);
  }

  /** Over every run, each session's target and each datagram sent upstream has an address that
      some entry of the session's allow-list spells. */
  lemma {:induction false} ForwardTargetSafety(cfg: Config, es: seq<Event>)
    requires Exec(cfg, es).Some?
    ensures ForwardInv(cfg, Exec(cfg, es).value)
  {
    if es == [] {
    } else {
      ForwardTargetSafety(cfg, es[..|es| - 1]);
      StepKeepsTargets(cfg, Exec(cfg, es[..|es| - 1]).value, es[|es| - 1]);
    }
  }

  // ---------------------------------------------------------------- lists that can be used

  /** The lists give a default target, or some entry is the printed form of an IPv4 address, which
      a control packet can name. */
  ghost predicate CanForward(v6: V6Parser, ips: seq<string>, gamePorts: seq<u16>) {
    DefaultForwardTarget(v6, ips, gamePorts).Some? || exists ip: u32 :: ShowIpv4(ip) in ips
  }

  /** The session has a target only if its lists can be used. */
  ghost predicate Usable(v6: V6Parser, info: Session) {
    info.target.Some? ==> CanForward(v6, info.allowed, info.gamePorts)
  }

  ghost predicate AllUsable(v6: V6Parser, sessions: Sessions) {
    forall t :: t in sessions ==> Usable(v6, sessions[t])
  }

  ghost predicate UsableInv(cfg: Config, s: State) {
    && AllUsable(cfg.v6, s.sessions)
    && (forall i :: 0 <= i < |s.log.upstream| ==>
          CanForward(cfg.v6, s.log.upstream[i].allowed, s.log.upstream[i].gamePorts))
  }

  lemma UpdateKeepsUsable(v6: V6Parser, sessions: Sessions, token: u32, info: Session)
    requires AllUsable(v6, sessions) && Usable(v6, info)
    ensures AllUsable(v6, sessions[token := info])
  {
  }

  lemma ClassifyKeepsUsable(v6: V6Parser, sessions: Sessions, data: seq<u8>, addr: SocketAddr, now: int)
    requires AllUsable(v6, sessions)
    ensures var (verdict, after) := Classify(sessions, data, addr, now);
      && AllUsable(v6, after)
      && (verdict.Forward? ==>
            MatchedToken(sessions, data).Some? && sessions[MatchedToken(sessions, data).value].target.Some?)
  {
  }

  lemma PacketKeepsUsable(cfg: Config, s: State, data: seq<u8>, addr: SocketAddr, now: int)
    requires UsableInv(cfg, s) && DoClientPacket(s, data, addr, now).Some?
    ensures UsableInv(cfg, DoClientPacket(s, data, addr, now).value)
  {
    ClassifyKeepsUsable(cfg.v6, s.sessions, data, addr, now);
    var m := MatchedToken(s.sessions, data);
    assert m.Some? ==> Usable(cfg.v6, s.sessions[m.value]);
  }

  lemma RetireKeepsUsable(cfg: Config, s: State, token: u32)
    requires UsableInv(cfg, s)
    ensures UsableInv(cfg, Retire(s, token))
  {
  }

  lemma RespondKeepsUsable(cfg: Config, s: State, l: nat, payload: seq<u8>)
    requires UsableInv(cfg, s) && DoRespond(s, l, payload).Some?
    ensures UsableInv(cfg, DoRespond(s, l, payload).value)
  {
    var token := s.listeners[l].found.value;
    if token in s.sessions {
      assert Usable(cfg.v6, s.sessions[token]);
      UpdateKeepsUsable(cfg.v6, s.sessions, token, CountResponse(s.sessions[token], |payload|));
    }
  }

  lemma InsertKeepsUsable(cfg: Config, s: State, e: Event)
    requires UsableInv(cfg, s) && e.Insert? && DoInsert(cfg, s, e).Some?
    ensures UsableInv(cfg, DoInsert(cfg, s, e).value)
  {
  }

  lemma StepKeepsUsable(cfg: Config, s: State, e: Event)
    requires UsableInv(cfg, s) && Step(cfg, s, e).Some?
    ensures UsableInv(cfg, Step(cfg, s, e).value)
  {
    match e
    case ClientPacket(data, addr, now) => PacketKeepsUsable(cfg, s, data, addr, now);
    case Insert(_, _, _) => InsertKeepsUsable(cfg, s, e);
    case Respond(l, payload) => RespondKeepsUsable(cfg, s, l, payload);
    case Clear(r) => RetireKeepsUsable(cfg, s, s.registrations[r].token);
    case Remove(token) => RetireKeepsUsable(cfg, s, token);
    case DropPort(_) =>
    case _ =>
      OthersLeaveSessions(cfg, s, e);
      OthersForwardNothing(cfg, s, e);
  }

  /** In every run, only sessions whose lists can be used forward anything. */
  lemma {:induction false} OnlyUsableForward(cfg: Config, es: seq<Event>)
    requires Exec(cfg, es).Some?
    ensures UsableInv(cfg, Exec(cfg, es).value)
  {
    if es == [] {
    } else {
      OnlyUsableForward(cfg, es[..|es| - 1]);
      StepKeepsUsable(cfg, Exec(cfg, es[..|es| - 1]).value, es[|es| - 1]);
    }
  }

  // ---------------------------------------------------------------- lists come from registrations

  type Lists = iset<(seq<string>, seq<u16>)>

  /** All registrations of the run come with one of these pairs of lists. */
  predicate RegistersWithin(es: seq<Event>, lists: Lists) {
    forall i :: 0 <= i < |es| && es[i].Check? ==> (es[i].ips, es[i].gamePorts) in lists
  }

  predicate ListsInv(s: State, lists: Lists) {
    && (forall r :: r in s.registrations ==> (s.registrations[r].ips, s.registrations[r].gamePorts) in lists)
    && (forall t :: t in s.sessions ==> (s.sessions[t].allowed, s.sessions[t].gamePorts) in lists)
    && (forall i :: 0 <= i < |s.log.upstream| ==> (s.log.upstream[i].allowed, s.log.upstream[i].gamePorts) in lists)
  }

  lemma PacketKeepsLists(s: State, data: seq<u8>, addr: SocketAddr, now: int, lists: Lists)
    requires ListsInv(s, lists) && DoClientPacket(s, data, addr, now).Some?
    ensures ListsInv(DoClientPacket(s, data, addr, now).value, lists)
  {
    ClassifyFrame(s.sessions, data, addr, now);
  }

  lemma ClearKeepsLists(s: State, r: nat, lists: Lists)
    requires ListsInv(s, lists) && DoClear(s, r).Some?
    ensures ListsInv(DoClear(s, r).value, lists)
  {
  }

  lemma InsertKeepsLists(cfg: Config, s: State, e: Event, lists: Lists)
    requires ListsInv(s, lists) && e.Insert? && DoInsert(cfg, s, e).Some?
    ensures ListsInv(DoInsert(cfg, s, e).value, lists)
  {
  }

  lemma RespondKeepsLists(s: State, l: nat, payload: seq<u8>, lists: Lists)
    requires ListsInv(s, lists) && DoRespond(s, l, payload).Some?
    ensures ListsInv(DoRespond(s, l, payload).value, lists)
  {
  }

  lemma StepKeepsLists(cfg: Config, s: State, e: Event, lists: Lists)
    requires ListsInv(s, lists) && Step(cfg, s, e).Some? && RegistersWithin([e], lists)
    ensures ListsInv(Step(cfg, s, e).value, lists)
  {
    match e
    case ClientPacket(data, addr, now) => PacketKeepsLists(s, data, addr, now, lists);
    case Clear(r) => ClearKeepsLists(s, r, lists);
    case Insert(_, _, _) => InsertKeepsLists(cfg, s, e, lists);
    case Respond(l, payload) => RespondKeepsLists(s, l, payload, lists);
    case Check(_, _, _, _) => assert [e][0] == e;
    case BindFails(_) =>
    case Remove(_) =>
    case DropPort(_) =>
    case _ =>
      OthersLeaveSessions(cfg, s, e);
      OthersLeaveRegistrations(cfg, s, e);
      OthersForwardNothing(cfg, s, e);
  }

  lemma {:induction false} RunKeepsLists(cfg: Config, es: seq<Event>, lists: Lists)
    requires Exec(cfg, es).Some? && RegistersWithin(es, lists)
    ensures ListsInv(Exec(cfg, es).value, lists)
  {
    if es == [] {
    } else {
      RunKeepsLists(cfg, es[..|es| - 1], lists);
      StepKeepsLists(cfg, Exec(cfg, es[..|es| - 1]).value, es[|es| - 1], lists);
    }
  }

  lemma ForwardedIsUsable(cfg: Config, s: State, lists: Lists)
    requires UsableInv(cfg, s) && ListsInv(s, lists) && s.log.upstream != []
    ensures exists l :: l in lists && CanForward(cfg.v6, l.0, l.1)
  {
    assert (s.log.upstream[0].allowed, s.log.upstream[0].gamePorts) in lists;
  }

  ghost predicate NoneUsable(v6: V6Parser, lists: Lists) {
    forall l :: l in lists ==> !CanForward(v6, l.0, l.1)
  }

  /** If no registration of a run brings lists that can be used, the relay sends nothing upstream. */
  lemma UnusableForwardNothing(cfg: Config, es: seq<Event>, lists: Lists)
    requires Exec(cfg, es).Some? && RegistersWithin(es, lists)
    requires NoneUsable(cfg.v6, lists)
    ensures Exec(cfg, es).value.log.upstream == []
  {
    OnlyUsableForward(cfg, es);
    RunKeepsLists(cfg, es, lists);
    if Exec(cfg, es).value.log.upstream != [] {
      ForwardedIsUsable(cfg, Exec(cfg, es).value, lists);
    }
  }

  predicate CidrOnly(ips: seq<string>) { forall i :: 0 <= i < |ips| ==> '/' in ips[i] }

  /** Lists of CIDR blocks cannot be used. */
  lemma CidrCannotForward(v6: V6Parser, ips: seq<string>, gamePorts: seq<u16>)
    requires CidrOnly(ips)
    ensures !CanForward(v6, ips, gamePorts)
  {
    if ips != [] {
      SlashIsNoIp(v6, ips[0]);
    }
    forall ip: u32
      ensures ShowIpv4(ip) !in ips
    {
      assert forall c :: c in ShowIpv4(ip) ==> c != '/';
    }
  }

  /** A relay whose sessions are all registered with CIDR blocks never sends anything upstream. */
  lemma CidrOnlyForwardsNothing(cfg: Config, es: seq<Event>)
    requires Exec(cfg, es).Some?
    requires forall i :: 0 <= i < |es| && es[i].Check? ==> CidrOnly(es[i].ips)
    ensures Exec(cfg, es).value.log.upstream == []
  {
    var lists: Lists := iset l: (seq<string>, seq<u16>) | CidrOnly(l.0);
    forall l | l in lists
      ensures !CanForward(cfg.v6, l.0, l.1)
    {
      CidrCannotForward(cfg.v6, l.0, l.1);
    }
    UnusableForwardNothing(cfg, es, lists);
  }

  // ---------------------------------------------------------------- a run that forwards

  predicate RegistersOnly(es: seq<Event>, ips: seq<string>, gamePorts: seq<u16>) {
    RegistersWithin(es, iset{(ips, gamePorts)})
  }

  /** A session with these lists. */
  lemma Registered(cfg: Config, ips: seq<string>, gamePorts: seq<u16>) returns (es: seq<Event>, s: State)
    requires cfg.maxSessions >= 1
    ensures Exec(cfg, es) == Some(s) && RegistersOnly(es, ips, gamePorts)
    ensures s.sessions == map[0 := NewSession(cfg.v6, 0, PLACEHOLDER, ips, gamePorts, 1, 0)]
    ensures s.sending.None? && s.log.upstream == []
  {
    es, s := [], INITIAL;
    es, s := Then(cfg, es, s, Check(0, 0, ips, gamePorts));
    es, s := Then(cfg, es, s, Clear(0));
    es, s := Then(cfg, es, s, Insert(0, 1, 0));
  }

  /** A data packet of a session with a target is sent there. */
  lemma DataForwards(cfg: Config, es: seq<Event>, s: State, addr: SocketAddr) returns (es': seq<Event>)
    requires Exec(cfg, es) == Some(s) && 0 in s.sessions && s.sessions[0].target.Some? && s.sending.None?
    ensures Exec(cfg, es').Some? && Exec(cfg, es').value.log.upstream != []
    ensures es' == es + [ClientPacket(Wire(Data(0, 0, [])), addr, 0)]
  {
    var packet := Data(0, 0, []);
    ParseWire(packet);
    FlagBits(0);
    var s';
    es', s' := Then(cfg, es, s, ClientPacket(Wire(packet), addr, 0));
  }

  function ControlData(ip: u32, port: u16): seq<u8> { Wire(Control(0, 0, AsciiBytes(ShowTarget(ip, port)))) }

  /** A control packet gives a session the target it names, if its address is listed. */
  lemma ControlIsAccepted(sessions: Sessions, ip: u32, port: u16, addr: SocketAddr)
    requires 0 in sessions && ShowIpv4(ip) in sessions[0].allowed
    ensures var (verdict, after) := Classify(sessions, ControlData(ip, port), addr, 0);
      verdict == ControlAccepted && 0 in after && after[0].target == Some(SocketAddr(V4(ip), port))
  {
    var packet := Control(0, 0, AsciiBytes(ShowTarget(ip, port)));
    ControlTargetRoundTrip(0, 0, ip, port);
    ParseWire(packet);
  }

  lemma PacketClassified(cfg: Config, es: seq<Event>, s: State, data: seq<u8>, addr: SocketAddr)
    returns (es': seq<Event>, s': State)
    requires Exec(cfg, es) == Some(s) && s.sending.None?
    requires !Classify(s.sessions, data, addr, 0).0.Forward?
    ensures Exec(cfg, es') == Some(s') && es' == es + [ClientPacket(data, addr, 0)]
    ensures s'.sessions == Classify(s.sessions, data, addr, 0).1 && s'.sending.None?
  {
    es', s' := Then(cfg, es, s, ClientPacket(data, addr, 0));
  }

  lemma OnlyThoseLists(es: seq<Event>, e: Event, ips: seq<string>, gamePorts: seq<u16>)
    requires RegistersOnly(es, ips, gamePorts) && e.ClientPacket?
    ensures RegistersOnly(es + [e], ips, gamePorts)
  {
  }

  /** A session gets a target from lists that can be used. */
  lemma TargetGiven(cfg: Config, ips: seq<string>, gamePorts: seq<u16>, addr: SocketAddr) returns (es: seq<Event>, s: State)
    requires cfg.maxSessions >= 1 && CanForward(cfg.v6, ips, gamePorts)
    ensures Exec(cfg, es) == Some(s) && RegistersOnly(es, ips, gamePorts)
    ensures 0 in s.sessions && s.sessions[0].target.Some? && s.sending.None?
  {
    es, s := Registered(cfg, ips, gamePorts);
    if DefaultForwardTarget(cfg.v6, ips, gamePorts).None? {
      var ip: u32 :| ShowIpv4(ip) in ips;
      ControlIsAccepted(s.sessions, ip, 1, addr);
      OnlyThoseLists(es, ClientPacket(ControlData(ip, 1), addr, 0), ips, gamePorts);
      es, s := PacketClassified(cfg, es, s, ControlData(ip, 1), addr);
    }
  }

  /** Lists that can be used are used: some run that registers nothing else sends upstream. */
  lemma UsableForwards(cfg: Config, ips: seq<string>, gamePorts: seq<u16>, addr: SocketAddr) returns (es: seq<Event>)
    requires cfg.maxSessions >= 1 && CanForward(cfg.v6, ips, gamePorts)
    ensures Exec(cfg, es).Some? && RegistersOnly(es, ips, gamePorts) && Exec(cfg, es).value.log.upstream != []
  {
    var s;
    es, s := TargetGiven(cfg, ips, gamePorts, addr);
    OnlyThoseLists(es, ClientPacket(Wire(Data(0, 0, [])), addr, 0), ips, gamePorts);
    es := DataForwards(cfg, es, s, addr);
  }

  /** A pair of lists can make the relay forward exactly if its first entry reads as an address and
      a port is listed, or some entry is the printed form of an IPv4 address. */
  lemma ForwardsExactly(cfg: Config, ips: seq<string>, gamePorts: seq<u16>)
    requires cfg.maxSessions >= 1
    ensures CanForward(cfg.v6, ips, gamePorts) <==>
      exists es :: Exec(cfg, es).Some? && RegistersOnly(es, ips, gamePorts) && Exec(cfg, es).value.log.upstream != []
    ensures CanForward(cfg.v6, ips, gamePorts) <==>
      || (ips != [] && gamePorts != [] && ParseIp(cfg.v6, ips[0]).Some?)
      || exists ip: u32 :: ShowIpv4(ip) in ips
  {
    if CanForward(cfg.v6, ips, gamePorts) {
      var es := UsableForwards(cfg, ips, gamePorts, SocketAddr(V4(1), 1));
    } else {
      forall es | Exec(cfg, es).Some? && RegistersOnly(es, ips, gamePorts)
        ensures Exec(cfg, es).value.log.upstream == []
      {
        UnusableForwardNothing(cfg, es, iset{(ips, gamePorts)});
      }
    }
  }
}
