/** The relay as a step system: every interleaving of registrations, removals, the client loop
    and the response listeners.

    A step is one access to a table, or a stretch of code without another task's step inside it.
    A registration puts its session into one table and its port into the other in two steps, and a
    removal takes them out in two. A socket lives as long as a session, a removal in progress, a
    listener or the client loop holds it, and the system gives a new socket any port that no live
    socket has. Fields under `log` are history: no step reads them.
 */
module RelaySteps {
  import opened Bits
  import opened Text
  import opened Net
  import opened PlgProtocol
  import opened RelayTables

  datatype Config = Config(maxSessions: nat, v6: V6Parser)

  /** A registration that passed the capacity check and has not inserted its session yet. */
  datatype Registration = Registration(token: u32, ips: seq<string>, gamePorts: seq<u16>, cleared: bool)

  /** A registration that inserted its session and has not entered its port yet. */
  datatype Entering = Entering(token: u32, port: u16)

  /** A response listener: the token and the port it was spawned for, and the token that it has
      looked up for the datagram in hand. */
  datatype Listener = Listener(token: u32, port: u16, found: Option<u32>)

  datatype Counters = Counters(received: nat, dropped: nat, invalid: nat, keepalives: nat, forwarded: nat)

  /** A response that the listener of `listener` sent under `token`. */
  datatype Reply = Reply(listener: u32, token: u32, addr: SocketAddr, payload: seq<u8>)

  function Datagram(r: Reply): seq<u8> { Wire(ResponsePacket(r.token, r.payload)) }

  /** A datagram sent upstream, with the lists of its session at that time. */
  datatype Upstream = Upstream(target: SocketAddr, allowed: seq<string>, gamePorts: seq<u16>)

  datatype Log = Log(
    replies: seq<Reply>,
    upstream: seq<Upstream>,
    learned: set<(u32, SocketAddr)>,  // who sent a packet of which session from where
    controls: nat,
    upstreamSent: nat,
    responses: nat,
    matched: nat,                     // packets that belonged to a session
    retiredIn: nat)                   // packets counted in sessions that are gone

  datatype State = State(
    sessions: Sessions,
    ports: Ports,
    dropping: set<u16>,               // ports of removed sessions still in the port table
    registrations: map<nat, Registration>,
    entering: map<nat, Entering>,
    spawning: map<nat, u32>,          // registrations done, listener not spawned yet
    listeners: map<nat, Listener>,
    sending: Option<u16>,             // the socket that the client loop is sending on
    counters: Counters,
    log: Log)

  const INITIAL: State := State(map[], map[], {}, map[], map[], map[], map[], None,
                             Counters(0, 0, 0, 0, 0), Log([], [], {}, 0, 0, 0, 0, 0))

  datatype Event =
    | Check(r: nat, token: u32, ips: seq<string>, gamePorts: seq<u16>)
    | Clear(r: nat)
    | BindFails(r: nat)
    | Insert(r: nat, port: u16, now: int)
    | EnterPort(r: nat)
    | Spawn(r: nat, l: nat)
    | Remove(token: u32)
    | DropPort(port: u16)
    | ClientPacket(data: seq<u8>, addr: SocketAddr, now: int)
    | SendDone(ok: bool)
    | Lookup(l: nat)
    | Respond(l: nat, payload: seq<u8>)
    | ListenerFails(l: nat)

  // ---------------------------------------------------------------- the steps

  /** The system can give the port to a new socket; it never gives port 0. */
  predicate PortFree(s: State, p: u16) {
    && p != 0
    && (forall t :: t in s.sessions ==> s.sessions[t].forwardPort != p)
    && p !in s.dropping
    && (forall l :: l in s.listeners ==> s.listeners[l].port != p)
    && s.sending != Some(p)
  }

  /** The first half of `unregister`: the session leaves its table, its socket is still held. */
  function Retire(s: State, token: u32): State {
    if token !in s.sessions then s else
    s.(sessions := s.sessions - {token},
       dropping := s.dropping + {s.sessions[token].forwardPort},
       log := s.log.(retiredIn := s.log.retiredIn + s.sessions[token].packetsIn))
  }

  function DoCheck(cfg: Config, s: State, e: Event): Option<State>
    requires e.Check?
  {
    if e.r in s.registrations || e.r in s.entering || e.r in s.spawning then None
    else if |s.sessions| >= cfg.maxSessions then Some(s)
    else Some(s.(registrations := s.registrations[e.r := Registration(e.token, e.ips, e.gamePorts, false)]))
  }

  function DoClear(s: State, r: nat): Option<State> {
    if r !in s.registrations || s.registrations[r].cleared then None else
    var reg := s.registrations[r];
    Some(Retire(s, reg.token).(registrations := s.registrations[r := reg.(cleared := true)]))
  }

  function DoBindFails(s: State, r: nat): Option<State> {
    if r !in s.registrations || !s.registrations[r].cleared then None
    else Some(s.(registrations := s.registrations - {r}))
  }

  /** `sessions.insert`; a session of the token that is still there is dropped with its socket. */
  function DoInsert(cfg: Config, s: State, e: Event): Option<State>
    requires e.Insert?
  {
    if e.r !in s.registrations || !s.registrations[e.r].cleared || !PortFree(s, e.port) then None else
    var reg := s.registrations[e.r];
    var info := NewSession(cfg.v6, reg.token, PLACEHOLDER, reg.ips, reg.gamePorts, e.port, e.now);
    var lost := if reg.token in s.sessions then s.sessions[reg.token].packetsIn else 0;
    Some(s.(sessions := s.sessions[reg.token := info],
            registrations := s.registrations - {e.r},
            entering := s.entering[e.r := Entering(reg.token, e.port)],
            log := s.log.(retiredIn := s.log.retiredIn + lost)))
  }

  /** `port_to_token.insert`, for the port that the registration remembers. */
  function DoEnterPort(s: State, r: nat): Option<State> {
    if r !in s.entering then None else
    var own := s.entering[r];
    Some(s.(ports := s.ports[own.port := own.token],
            entering := s.entering - {r},
            spawning := s.spawning[r := own.token]))
  }

  /** The handler looks its token up again, and listens on the socket that it finds then. */
  function DoSpawn(s: State, r: nat, l: nat): Option<State> {
    if r !in s.spawning || l in s.listeners then None else
    var token := s.spawning[r];
    var rest := s.(spawning := s.spawning - {r});
    if token !in s.sessions then Some(rest)
    else Some(rest.(listeners := s.listeners[l := Listener(token, s.sessions[token].forwardPort, None)]))
  }

  /** The second half of `unregister`. */
  function DoDropPort(s: State, p: u16): Option<State> {
    if p !in s.dropping then None
    else Some(s.(ports := s.ports - {p}, dropping := s.dropping - {p}))
  }

  /** The counters after a verdict; a datagram to send is counted when its send is done. */
  function CountVerdict(c: Counters, v: Verdict): Counters {
    var c := c.(received := c.received + 1);
    match v
    case TooShort => c.(dropped := c.dropped + 1)
    case UnknownSession => c.(invalid := c.invalid + 1)
    case KeepaliveSeen => c.(keepalives := c.keepalives + 1)
    case ControlAccepted => c
    case ControlRejected => c.(dropped := c.dropped + 1)
    case NoTarget => c.(dropped := c.dropped + 1)
    case Forward(_, _, _) => c
  }

  function UpstreamOf(target: SocketAddr, info: Session): Upstream { Upstream(target, info.allowed, info.gamePorts) }

  function LogPacket(s: State, data: seq<u8>, addr: SocketAddr, v: Verdict): Log {
    var m := MatchedToken(s.sessions, data);
    var log := s.log.(controls := s.log.controls + if v.ControlAccepted? then 1 else 0);
    if m.None? then log else
    log.(learned := log.learned + {(m.value, addr)},
         matched := log.matched + 1,
         upstream := log.upstream + if v.Forward? then [UpstreamOf(v.target, s.sessions[m.value])] else [])
  }

  /** One iteration of the client loop, up to the send. */
  function DoClientPacket(s: State, data: seq<u8>, addr: SocketAddr, now: int): Option<State> {
    if s.sending.Some? then None else
    var (v, after) := Classify(s.sessions, data, addr, now);
    Some(s.(sessions := after,
            sending := if v.Forward? then Some(v.port) else None,
            counters := CountVerdict(s.counters, v),
            log := LogPacket(s, data, addr, v)))
  }

  function DoSendDone(s: State, ok: bool): Option<State> {
    if s.sending.None? then None
    else if ok then
      Some(s.(sending := None,
              counters := s.counters.(forwarded := s.counters.forwarded + 1),
              log := s.log.(upstreamSent := s.log.upstreamSent + 1)))
    else Some(s.(sending := None, counters := s.counters.(dropped := s.counters.dropped + 1)))
  }

  /** A listener with a datagram looks up the token of its port; without one it exits. */
  function DoLookup(s: State, l: nat): Option<State> {
    if l !in s.listeners || s.listeners[l].found.Some? then None else
    var port := s.listeners[l].port;
    if port !in s.ports then Some(s.(listeners := s.listeners - {l}))
    else Some(s.(listeners := s.listeners[l := s.listeners[l].(found := Some(s.ports[port]))]))
  }

  /** It then counts the datagram in that session, and sends it to the address it reads there. */
  function DoRespond(s: State, l: nat, payload: seq<u8>): Option<State> {
    if l !in s.listeners || s.listeners[l].found.None? then None else
    var listener := s.listeners[l];
    var token := listener.found.value;
    if token !in s.sessions then Some(s.(listeners := s.listeners - {l})) else
    var addr := s.sessions[token].clientAddr;
    var counted := s.(sessions := s.sessions[token := CountResponse(s.sessions[token], |payload|)],
                      listeners := s.listeners[l := listener.(found := None)]);
    if addr.port == 0 then Some(counted) else
    Some(counted.(counters := s.counters.(forwarded := s.counters.forwarded + 1),
                  log := s.log.(responses := s.log.responses + 1,
                                replies := s.log.replies + [Reply(listener.token, token, addr, payload)])))
  }

  function Step(cfg: Config, s: State, e: Event): Option<State> {
    match e
    case Check(_, _, _, _) => DoCheck(cfg, s, e)
    case Clear(r) => DoClear(s, r)
    case BindFails(r) => DoBindFails(s, r)
    case Insert(_, _, _) => DoInsert(cfg, s, e)
    case EnterPort(r) => DoEnterPort(s, r)
    case Spawn(r, l) => DoSpawn(s, r, l)
    case Remove(token) => Some(Retire(s, token))
    case DropPort(p) => DoDropPort(s, p)
    case ClientPacket(data, addr, now) => DoClientPacket(s, data, addr, now)
    case SendDone(ok) => DoSendDone(s, ok)
    case Lookup(l) => DoLookup(s, l)
    case Respond(l, payload) => DoRespond(s, l, payload)
    case ListenerFails(l) => if l in s.listeners then Some(s.(listeners := s.listeners - {l})) else None
  }

  /** The state after a run, if every event of the run can happen. */
  function Exec(cfg: Config, es: seq<Event>): Option<State> {
    if es == [] then Some(INITIAL) else
    match Exec(cfg, es[..|es| - 1])
    case Some(s) => Step(cfg, s, es[|es| - 1])
    case None => None
  }

  lemma ExecAppend(cfg: Config, es: seq<Event>, e: Event)
    requires Exec(cfg, es).Some?
    ensures Exec(cfg, es + [e]) == Step(cfg, Exec(cfg, es).value, e)
  {
  }

  /** One more event of a run. */
  lemma Then(cfg: Config, es: seq<Event>, s: State, e: Event) returns (es': seq<Event>, s': State)
    requires Exec(cfg, es) == Some(s) && Step(cfg, s, e).Some?
    ensures es' == es + [e] && s' == Step(cfg, s, e).value && Exec(cfg, es') == Some(s')
  {
    ExecAppend(cfg, es, e);
    es', s' := es + [e], Step(cfg, s, e).value;
  }

  // ---------------------------------------------------------------- sockets

  /** Sessions are stored under their own token, no two have one port, and no removal in progress
      holds the port of a session. */
  ghost predicate OwnSockets(sessions: Sessions, dropping: set<u16>) {
    && (forall t :: t in sessions ==> sessions[t].token == t && sessions[t].forwardPort !in dropping)
    && (forall t, u :: t in sessions && u in sessions && t != u ==> sessions[t].forwardPort != sessions[u].forwardPort)
  }

  ghost predicate SocketsInv(s: State) { OwnSockets(s.sessions, s.dropping) }

  lemma UpdateKeepsSockets(sessions: Sessions, dropping: set<u16>, token: u32, info: Session)
    requires OwnSockets(sessions, dropping) && token in sessions
    requires info.token == token && info.forwardPort == sessions[token].forwardPort
    ensures OwnSockets(sessions[token := info], dropping)
  {
  }

  lemma RetireKeepsSockets(s: State, token: u32)
    requires SocketsInv(s)
    ensures SocketsInv(Retire(s, token))
  {
  }

  lemma InsertKeepsSockets(cfg: Config, s: State, e: Event)
    requires SocketsInv(s) && e.Insert? && DoInsert(cfg, s, e).Some?
    ensures SocketsInv(DoInsert(cfg, s, e).value)
  {
  }

  lemma PacketKeepsSockets(s: State, data: seq<u8>, addr: SocketAddr, now: int)
    requires SocketsInv(s)
    ensures OwnSockets(Classify(s.sessions, data, addr, now).1, s.dropping)
  {
    ClassifyFrame(s.sessions, data, addr, now);
    var m := MatchedToken(s.sessions, data);
    if m.Some? {
      UpdateKeepsSockets(s.sessions, s.dropping, m.value, Classify(s.sessions, data, addr, now).1[m.value]);
    }
  }

  lemma RespondKeepsSockets(s: State, l: nat, payload: seq<u8>)
    requires SocketsInv(s) && DoRespond(s, l, payload).Some?
    ensures SocketsInv(DoRespond(s, l, payload).value)
  {
    var token := s.listeners[l].found.value;
    if token in s.sessions {
      UpdateKeepsSockets(s.sessions, s.dropping, token, CountResponse(s.sessions[token], |payload|));
    }
  }

  predicate LeavesSessions(e: Event) {
    !e.Clear? && !e.Remove? && !e.Insert? && !e.ClientPacket? && !e.Respond? && !e.DropPort?
  }

  predicate SameSessions(s: State, s': State) {
    s'.sessions == s.sessions && s'.dropping == s.dropping && s'.log.retiredIn == s.log.retiredIn
  }

  lemma SpawnLeavesSessions(s: State, r: nat, l: nat)
    requires DoSpawn(s, r, l).Some?
    ensures SameSessions(s, DoSpawn(s, r, l).value)
  {
  }

  lemma LookupLeavesSessions(s: State, l: nat)
    requires DoLookup(s, l).Some?
    ensures SameSessions(s, DoLookup(s, l).value)
  {
  }

  lemma CheckLeavesSessions(cfg: Config, s: State, e: Event)
    requires e.Check? && DoCheck(cfg, s, e).Some?
    ensures SameSessions(s, DoCheck(cfg, s, e).value)
  {
  }

  lemma OthersLeaveSessions(cfg: Config, s: State, e: Event)
    requires Step(cfg, s, e).Some? && LeavesSessions(e)
    ensures SameSessions(s, Step(cfg, s, e).value)
  {
    match e
    case Check(_, _, _, _) => CheckLeavesSessions(cfg, s, e);
    case Spawn(r, l) => SpawnLeavesSessions(s, r, l);
    case Lookup(l) => LookupLeavesSessions(s, l);
    case BindFails(_) =>
    case EnterPort(_) =>
    case SendDone(_) =>
    case ListenerFails(_) =>
  }

  lemma OthersLeaveRegistrations(cfg: Config, s: State, e: Event)
    requires Step(cfg, s, e).Some?
    requires e.EnterPort? || e.Spawn? || e.DropPort? || e.SendDone? || e.Lookup? || e.ListenerFails?
    ensures Step(cfg, s, e).value.registrations == s.registrations
  {
    match e
    case EnterPort(_) =>
    case Spawn(_, _) =>
    case DropPort(_) =>
    case SendDone(_) =>
    case Lookup(_) =>
    case ListenerFails(_) =>
  }

  lemma StepKeepsSockets(cfg: Config, s: State, e: Event)
    requires SocketsInv(s) && Step(cfg, s, e).Some?
    ensures SocketsInv(Step(cfg, s, e).value)
  {
    match e
    case Clear(r) => RetireKeepsSockets(s, s.registrations[r].token);
    case Remove(token) => RetireKeepsSockets(s, token);
    case Insert(_, _, _) => InsertKeepsSockets(cfg, s, e);
    case ClientPacket(data, addr, now) => PacketKeepsSockets(s, data, addr, now);
    case Respond(l, payload) => RespondKeepsSockets(s, l, payload);
    case DropPort(_) =>
    case _ => OthersLeaveSessions(cfg, s, e);
  }

  lemma {:induction false} RunKeepsSockets(cfg: Config, es: seq<Event>)
    requires Exec(cfg, es).Some?
    ensures SocketsInv(Exec(cfg, es).value)
  {
    if es == [] {
    } else {
      RunKeepsSockets(cfg, es[..|es| - 1]);
      StepKeepsSockets(cfg, Exec(cfg, es[..|es| - 1]).value, es[|es| - 1]);
    }
  }

  // ---------------------------------------------------------------- steps without interruption

  function OrSame(s: State, next: Option<State>): State { if next.Some? then next.value else s }

  /** The two halves of a removal, one right after the other. */
  function RetireAtOnce(s: State, token: u32): State {
    var retired := Retire(s, token);
    if token in s.sessions then OrSame(retired, DoDropPort(retired, s.sessions[token].forwardPort)) else retired
  }

  /** Without another task's step in between, the steps of a removal do what `unregister` does. */
  lemma UnbrokenRemoval(s: State, token: u32)
    requires Inverse(s.sessions, s.ports) && s.dropping == {}
    ensures var after := RetireAtOnce(s, token);
      && after.sessions == s.sessions - {token} && after.ports == PortsWithout(s.sessions, s.ports, token)
      && after.dropping == {} && Inverse(after.sessions, after.ports)
  {
    RemoveKeepsInverse(s.sessions, s.ports, token);
    assert token !in s.sessions ==> s.sessions - {token} == s.sessions;
  }

  function CheckedEntry(e: Event, cleared: bool): Registration
    requires e.Check?
  {
    Registration(e.token, e.ips, e.gamePorts, cleared)
  }

  lemma ClearRemembers(s: State, e: Event)
    requires e.Check? && e.r in s.registrations && s.registrations[e.r] == CheckedEntry(e, false)
    ensures DoClear(s, e.r) == Some(Retire(s, e.token).(registrations := s.registrations[e.r := CheckedEntry(e, true)]))
  {
  }

  lemma RetireKnown(s: State, token: u32)
    requires token in s.sessions && s.dropping == {}
    ensures Retire(s, token) == s.(sessions := s.sessions - {token}, dropping := {s.sessions[token].forwardPort},
                                   log := Retire(s, token).log)
  {
  }

  predicate CanCheck(cfg: Config, s: State, e: Event) {
    e.Check? && e.r !in s.registrations && e.r !in s.entering && e.r !in s.spawning && |s.sessions| < cfg.maxSessions
  }

  lemma CheckRemembers(cfg: Config, s: State, e: Event)
    requires CanCheck(cfg, s, e)
    ensures DoCheck(cfg, s, e) == Some(s.(registrations := s.registrations[e.r := CheckedEntry(e, false)]))
    ensures s.registrations[e.r := CheckedEntry(e, false)][e.r := CheckedEntry(e, true)] == s.registrations[e.r := CheckedEntry(e, true)]
  {
  }

  /** The table entry of a session that was just retired goes, too. */
  lemma DropRetired(s: State, token: u32, registrations: map<nat, Registration>)
    requires s.dropping == {}
    ensures var cleared := Retire(s, token).(registrations := registrations);
      var after := if token in s.sessions then DoDropPort(cleared, s.sessions[token].forwardPort) else Some(cleared);
      && after.Some?
      && after.value == s.(sessions := s.sessions - {token}, ports := PortsWithout(s.sessions, s.ports, token),
                           registrations := registrations, log := after.value.log)
  {
    if token in s.sessions {
      RetireKnown(s, token);
      assert {s.sessions[token].forwardPort} - {s.sessions[token].forwardPort} == s.dropping;
    } else {
      assert s.sessions - {token} == s.sessions;
    }
  }

  /** At capacity a registration does nothing. Below it, its check and the removal of its token's old
      session, without another task's step in between, do what `unregister` does, and remember what
      to register. */
  lemma UnbrokenClearing(cfg: Config, s: State, e: Event)
    requires s.dropping == {}
    requires e.Check? && e.r !in s.registrations && e.r !in s.entering && e.r !in s.spawning
    ensures |s.sessions| >= cfg.maxSessions ==> DoCheck(cfg, s, e) == Some(s)
    ensures |s.sessions| < cfg.maxSessions ==>
      var checked := DoCheck(cfg, s, e);
      && checked.Some?
      && var cleared := DoClear(checked.value, e.r);
      && cleared.Some?
      && var after := if e.token in s.sessions then DoDropPort(cleared.value, s.sessions[e.token].forwardPort) else cleared;
      && after.Some?
      && after.value == s.(sessions := s.sessions - {e.token}, ports := PortsWithout(s.sessions, s.ports, e.token),
                           registrations := s.registrations[e.r := CheckedEntry(e, true)], log := after.value.log)
  {
    if |s.sessions| < cfg.maxSessions {
      CheckRemembers(cfg, s, e);
      var checked := DoCheck(cfg, s, e).value;
      ClearRemembers(checked, e);
      DropRetired(checked, e.token, s.registrations[e.r := CheckedEntry(e, true)]);
    }
  }

  /** When binding then fails, nothing remains of the registration. */
  lemma FailedBinding(s: State, registrations: map<nat, Registration>, e: Event)
    requires e.Check? && e.r !in registrations && s.registrations == registrations[e.r := CheckedEntry(e, true)]
    ensures DoBindFails(s, e.r) == Some(s.(registrations := registrations))
  {
    assert registrations[e.r := CheckedEntry(e, true)] - {e.r} == registrations;
  }

  /** With the token removed, the two insertions of a registration, one right after the other,
      insert what `register` inserts, and leave the tables inverse. */
  lemma UnbrokenRegistration(cfg: Config, s: State, e: Event)
    requires Inverse(s.sessions, s.ports) && s.dropping == {}
    requires e.Insert? && e.r in s.registrations && s.registrations[e.r].cleared
    requires s.registrations[e.r].token !in s.sessions && PortFree(s, e.port)
    ensures var reg := s.registrations[e.r];
      var info := NewSession(cfg.v6, reg.token, PLACEHOLDER, reg.ips, reg.gamePorts, e.port, e.now);
      && DoInsert(cfg, s, e).Some?
      && DoEnterPort(DoInsert(cfg, s, e).value, e.r).Some?
      && var after := DoEnterPort(DoInsert(cfg, s, e).value, e.r).value;
      && RegisteredAs(cfg.v6, info, reg.token, SocketAddr(V4(0), 0), reg.ips, reg.gamePorts, e.port, e.now)
      && after.dropping == {} && Inverse(after.sessions, after.ports)
      && after == s.(sessions := s.sessions[reg.token := info], ports := s.ports[e.port := reg.token],
                     registrations := s.registrations - {e.r}, entering := s.entering[e.r := Entering(reg.token, e.port)] - {e.r},
                     spawning := s.spawning[e.r := reg.token], log := after.log)
  {
  }
}
