/** The relay's two session tables and the operations on them, as values.

    `RelayServer` runs these operations one at a time; `RelaySteps` interleaves them.
 */
module RelayTables {
  import opened Bits
  import opened Text
  import opened Net
  import opened PlgProtocol

  datatype Session = Session(
    token: u32,
    clientAddr: SocketAddr,
    allowed: seq<string>,
    gamePorts: seq<u16>,
    target: Option<SocketAddr>,
    forwardPort: u16,
    lastSeen: int,
    packetsIn: nat,
    packetsOut: nat,
    bytesIn: nat,
    bytesOut: nat)

  type Sessions = map<u32, Session>

  type Ports = map<u16, u32>

  /** The address that the API registers until the client's first packet arrives. */
  const PLACEHOLDER: SocketAddr := SocketAddr(V4(0), 0)

  /** Mirrors `default_forward_target`. */
  function DefaultForwardTarget(v6: V6Parser, ips: seq<string>, ports: seq<u16>): Option<SocketAddr> {
    if ips == [] || ports == [] then None else
    match ParseIp(v6, ips[0])
    case Some(ip) => Some(SocketAddr(ip, ports[0]))
    case None => None
  }

  function NewSession(v6: V6Parser, token: u32, addr: SocketAddr, ips: seq<string>, ports: seq<u16>,
                      forwardPort: u16, now: int): Session {
    Session(token, addr, ips, ports, DefaultForwardTarget(v6, ips, ports), forwardPort, now, 0, 0, 0, 0)
  }

  /** A session as it is registered: the target is the first address on the first port, if both are
      there and the address can be read; nothing is counted yet. */
  predicate RegisteredAs(v6: V6Parser, s: Session, token: u32, addr: SocketAddr, ips: seq<string>, ports: seq<u16>,
                         forwardPort: u16, now: int) {
    && s.token == token && s.clientAddr == addr && s.allowed == ips && s.gamePorts == ports
    && s.forwardPort == forwardPort && s.lastSeen == now
    && s.packetsIn == s.packetsOut == s.bytesIn == s.bytesOut == 0
    && s.target == (if ips != [] && ports != [] && ParseIp(v6, ips[0]).Some?
                    then Some(SocketAddr(ParseIp(v6, ips[0]).value, ports[0])) else None)
  }

  lemma NewSessionRegistered(v6: V6Parser, token: u32, addr: SocketAddr, ips: seq<string>, ports: seq<u16>,
                             forwardPort: u16, now: int)
    ensures RegisteredAs(v6, NewSession(v6, token, addr, ips, ports, forwardPort, now), token, addr, ips, ports, forwardPort, now)
  {
  }

  // ---------------------------------------------------------------- the tables are inverse

  /** Sessions are stored under their own token, and the port table says for every port which
      session forwards through it, and nothing else. */
  ghost predicate Inverse(sessions: Sessions, ports: Ports) {
    && (forall t :: t in sessions ==> sessions[t].token == t)
    && (forall t :: t in sessions ==> sessions[t].forwardPort in ports && ports[sessions[t].forwardPort] == t)
    && (forall p :: p in ports ==> ports[p] in sessions && sessions[ports[p]].forwardPort == p)
  }

  function PortsWithout(sessions: Sessions, ports: Ports, token: u32): Ports {
    if token in sessions then ports - {sessions[token].forwardPort} else ports
  }

  lemma RemoveKeepsInverse(sessions: Sessions, ports: Ports, token: u32)
    requires Inverse(sessions, ports)
    ensures Inverse(sessions - {token}, PortsWithout(sessions, ports, token))
  {
  }

  lemma InsertKeepsInverse(sessions: Sessions, ports: Ports, s: Session)
    requires Inverse(sessions, ports)
    requires s.token !in sessions && s.forwardPort !in ports
    ensures Inverse(sessions[s.token := s], ports[s.forwardPort := s.token])
  {
  }

  lemma RemovedThenInserted(sessions: Sessions, token: u32, s: Session)
    ensures (sessions - {token})[token := s] == sessions[token := s]
  {
  }

  lemma UpdateKeepsInverse(sessions: Sessions, ports: Ports, token: u32, s: Session)
    requires token in sessions && s.token == sessions[token].token && s.forwardPort == sessions[token].forwardPort
    ensures |sessions[token := s]| == |sessions|
    ensures Inverse(sessions, ports) ==> Inverse(sessions[token := s], ports)
  {
  }

  lemma SizeWithout(sessions: Sessions, token: u32)
    ensures |sessions - {token}| == |sessions| - (if token in sessions then 1 else 0)
  {
  }

  lemma SizeWith(sessions: Sessions, s: Session)
    ensures |sessions[s.token := s]| == |sessions| + (if s.token in sessions then 0 else 1)
  {
  }

  // ---------------------------------------------------------------- stale sessions

  /** `duration_since`, which is zero for a later instant. */
  function Idle(now: int, since: int): nat { if now > since then now - since else 0 }

  predicate IsStale(s: Session, now: int, timeout: nat) { Idle(now, s.lastSeen) > timeout }

  function StaleTokens(sessions: Sessions, now: int, timeout: nat): set<u32> {
    set t | t in sessions && IsStale(sessions[t], now, timeout)
  }

  /** The tables without the sessions of some tokens. */
  function PortsWithoutAll(sessions: Sessions, ports: Ports, tokens: set<u32>): Ports {
    map p | p in ports && ports[p] !in tokens :: ports[p]
  }

  /** The tables are what is left of some tables when some tokens are gone. */
  predicate LeftOver(sessions: Sessions, ports: Ports, gone: set<u32>, sessions': Sessions, ports': Ports) {
    sessions' == sessions - gone && ports' == PortsWithoutAll(sessions, ports, gone)
  }

  lemma NothingGone(sessions: Sessions, ports: Ports, tokens: set<u32>)
    ensures LeftOver(sessions, ports, tokens - tokens, sessions, ports)
  {
  }

  lemma RemoveOneOfMany(sessions: Sessions, ports: Ports, tokens: set<u32>, pending: set<u32>, token: u32,
                        sessions': Sessions, ports': Ports)
    requires Inverse(sessions, ports) && token in pending && pending <= tokens <= sessions.Keys
    requires LeftOver(sessions, ports, tokens - pending, sessions', ports')
    ensures LeftOver(sessions, ports, tokens - (pending - {token}), sessions' - {token}, PortsWithout(sessions', ports', token))
  {
  }

  /** Cleaning up twice at one instant removes nothing the second time. */
  lemma CleanupIsIdempotent(sessions: Sessions, now: int, timeout: nat)
    ensures StaleTokens(sessions - StaleTokens(sessions, now, timeout), now, timeout) == {}
  {
  }

  // ---------------------------------------------------------------- packets from clients

  datatype Verdict =
    | TooShort
    | UnknownSession
    | KeepaliveSeen
    | ControlAccepted
    | ControlRejected
    | NoTarget
    | Forward(port: u16, target: SocketAddr, payload: seq<u8>)

  /** What every packet of a session does to its entry, whatever its kind. */
  function Touch(s: Session, addr: SocketAddr, now: int, length: nat): Session {
    s.(clientAddr := addr, lastSeen := now, packetsIn := s.packetsIn + 1, bytesIn := s.bytesIn + length)
  }

  /** What a control packet with this reading does: its address must be in the list as text. */
  function HandleControl(s: Session, reading: Option<(u32, u16)>): (Verdict, Session) {
    match reading
    case Some((ip, port)) =>
      if ShowIpv4(ip) in s.allowed then (ControlAccepted, s.(target := Some(SocketAddr(V4(ip), port))))
      else (ControlRejected, s)
    case None => (ControlRejected, s)
  }

  /** What the kind of a packet does to its session. */
  function Handle(s: Session, packet: PlgPacket): (Verdict, Session) {
    if IsKeepalive(packet) then (KeepaliveSeen, s)
    else if IsControl(packet) then HandleControl(s, ParseControlPayload(packet.payload))
    else
      match s.target
      case None => (NoTarget, s)
      case Some(target) => (Forward(s.forwardPort, target, packet.payload), s)
  }

  /** One iteration of `client_listener` up to the send: the verdict, and the sessions after it. */
  function Classify(sessions: Sessions, data: seq<u8>, addr: SocketAddr, now: int): (Verdict, Sessions) {
    match Parse(data)
    case None => (TooShort, sessions)
    case Some(packet) =>
      var token := packet.sessionId;
      if token !in sessions then (UnknownSession, sessions) else
      var (verdict, s) := Handle(Touch(sessions[token], addr, now, |data|), packet);
      (verdict, sessions[token := s])
  }

  /** The session that a datagram belongs to, if any. */
  function MatchedToken(sessions: Sessions, data: seq<u8>): Option<u32> {
    match Parse(data)
    case Some(packet) => if packet.sessionId in sessions then Some(packet.sessionId) else None
    case None => None
  }

  /** A packet changes at most its own session: there always the address, the time and the counts
      of packets and bytes, at most the target, and nothing else. */
  lemma ClassifyFrame(sessions: Sessions, data: seq<u8>, addr: SocketAddr, now: int)
    ensures var m, after := MatchedToken(sessions, data), Classify(sessions, data, addr, now).1;
      if m.None? then after == sessions
      else && after.Keys == sessions.Keys
           && after == sessions[m.value := after[m.value]]
           && after[m.value] == sessions[m.value].(
                clientAddr := addr, lastSeen := now, packetsIn := sessions[m.value].packetsIn + 1,
                bytesIn := sessions[m.value].bytesIn + |data|, target := after[m.value].target)
  {
  }

  /** The big-endian number in the first four bytes. */
  function TokenOf(data: seq<u8>): int
    requires |data| >= 4
  {
    data[0] as int * 0x100_0000 + data[1] as int * 0x1_0000 + data[2] as int * 0x100 + data[3]
  }

  lemma ParsedParts(data: seq<u8>)
    requires |data| >= 10
    ensures Parse(data).Some?
    ensures var p := Parse(data).value;
      && p.sessionId == TokenOf(data) && p.payload == data[10..]
      && (IsKeepalive(p) <==> data[8] as int / 2 % 2 == 1) && (IsControl(p) <==> data[8] as int / 4 % 2 == 1)
  {
    BigEndianValue(data[0..4]);
    KindBits(Parse(data).value);
  }

  /** What becomes of any datagram, byte by byte: a header takes ten bytes; the session is the one of
      the first four; bit 1 of the ninth byte is a keepalive, before bit 2, a control packet. All else
      goes, without the header, from the session's own port to its target. */
  lemma VerdictExactly(sessions: Sessions, data: seq<u8>, addr: SocketAddr, now: int)
    ensures var (verdict, after) := Classify(sessions, data, addr, now);
      if |data| < 10 then verdict == TooShort
      else if TokenOf(data) !in sessions then verdict == UnknownSession
      else
        var s := sessions[TokenOf(data)];
        var s' := if TokenOf(data) in after then after[TokenOf(data)] else s;
        var reading := ParseControlPayload(data[10..]);
        if data[8] as int / 2 % 2 == 1 then verdict == KeepaliveSeen && s'.target == s.target
        else if data[8] as int / 4 % 2 == 1 then
          if reading.Some? && ShowIpv4(reading.value.0) in s.allowed
          then verdict == ControlAccepted && s'.target == Some(SocketAddr(V4(reading.value.0), reading.value.1))
          else verdict == ControlRejected && s'.target == s.target
        else
          && s'.target == s.target
          && verdict == if s.target.None? then NoTarget else Forward(s.forwardPort, s.target.value, data[10..])
  {
    if |data| >= 10 {
      ParsedParts(data);
    }
  }

  /** A packet that is neither a keepalive nor a control packet is forwarded to its session's target. */
  lemma DataIsForwarded(sessions: Sessions, packet: PlgPacket, addr: SocketAddr, now: int)
    requires packet.flags < 2 && packet.sessionId in sessions && sessions[packet.sessionId].target.Some?
    ensures var s := sessions[packet.sessionId];
      Classify(sessions, Wire(packet), addr, now).0 == Forward(s.forwardPort, s.target.value, packet.payload)
  {
    ParseWire(packet);
    DataIsHandled(Touch(sessions[packet.sessionId], addr, now, |Wire(packet)|), packet);
  }

  lemma DataIsHandled(s: Session, packet: PlgPacket)
    requires packet.flags < 2 && s.target.Some?
    ensures Handle(s, packet).0 == Forward(s.forwardPort, s.target.value, packet.payload)
  {
    DataBits(packet);
  }

  // ---------------------------------------------------------------- staying alive

  /** A datagram of the client loop, with its time of arrival. */
  datatype Received = Received(data: seq<u8>, addr: SocketAddr, at: int)

  function AfterPackets(sessions: Sessions, ps: seq<Received>): Sessions {
    if ps == [] then sessions else
    var p := ps[|ps| - 1];
    Classify(AfterPackets(sessions, ps[..|ps| - 1]), p.data, p.addr, p.at).1
  }

  predicate IsFrom(p: Received, token: u32) { |p.data| >= 10 && TokenOf(p.data) == token }

  /** When the last packet of a token came, or else the time given. */
  function LastFrom(ps: seq<Received>, token: u32, since: int): int {
    if ps == [] then since
    else if IsFrom(ps[|ps| - 1], token) then ps[|ps| - 1].at
    else LastFrom(ps[..|ps| - 1], token, since)
  }

  lemma {:induction false} SeenAtLastPacket(sessions: Sessions, ps: seq<Received>, token: u32)
    requires token in sessions
    ensures token in AfterPackets(sessions, ps)
    ensures AfterPackets(sessions, ps)[token].lastSeen == LastFrom(ps, token, sessions[token].lastSeen)
  {
    if ps == [] {
    } else {
      var before, p := ps[..|ps| - 1], ps[|ps| - 1];
      SeenAtLastPacket(sessions, before, token);
      ClassifyFrame(AfterPackets(sessions, before), p.data, p.addr, p.at);
      if |p.data| >= 10 {
        ParsedParts(p.data);
      }
    }
  }

  lemma {:induction false} NoNewSessions(sessions: Sessions, ps: seq<Received>)
    ensures AfterPackets(sessions, ps).Keys == sessions.Keys
  {
    if ps == [] {
    } else {
      var before, p := ps[..|ps| - 1], ps[|ps| - 1];
      NoNewSessions(sessions, before);
      ClassifyFrame(AfterPackets(sessions, before), p.data, p.addr, p.at);
    }
  }

  /** After any packets, a cleanup removes a session exactly if its last packet, or its registration
      if there was none, came longer than the timeout ago. */
  lemma StaleExactly(sessions: Sessions, ps: seq<Received>, now: int, timeout: nat, token: u32)
    ensures token in StaleTokens(AfterPackets(sessions, ps), now, timeout) <==>
      token in sessions && now - LastFrom(ps, token, sessions[token].lastSeen) > timeout
  {
    NoNewSessions(sessions, ps);
    if token in sessions {
      SeenAtLastPacket(sessions, ps, token);
    }
  }

  lemma TouchKeepsInverse(sessions: Sessions, ports: Ports, data: seq<u8>, addr: SocketAddr, now: int)
    ensures var after := Classify(sessions, data, addr, now).1;
      |after| == |sessions| && (Inverse(sessions, ports) ==> Inverse(after, ports))
  {
  }

  /** What forwarding a response to the client does to the session's entry. */
  function CountResponse(s: Session, length: nat): Session {
    s.(packetsOut := s.packetsOut + 1, bytesOut := s.bytesOut + HEADER_SIZE + length)
  }

  /** The packet that answers a client: its sequence number is always 0. */
  function ResponsePacket(token: u32, payload: seq<u8>): PlgPacket {
    PlgPacket(token, 0, 0, 0, payload)
  }

  // ---------------------------------------------------------------- forward targets

  /** The target's address is the reading of some entry of the allow-list. */
  ghost predicate Allowed(v6: V6Parser, target: SocketAddr, allowed: seq<string>) {
    exists i :: 0 <= i < |allowed| && ParseIp(v6, allowed[i]) == Some(target.ip)
  }

  ghost predicate TargetAllowed(v6: V6Parser, s: Session) {
    s.target.Some? ==> Allowed(v6, s.target.value, s.allowed)
  }

  ghost predicate TargetsAllowed(v6: V6Parser, sessions: Sessions) {
    forall t :: t in sessions ==> TargetAllowed(v6, sessions[t])
  }

  lemma NewTargetAllowed(v6: V6Parser, token: u32, addr: SocketAddr, ips: seq<string>, ports: seq<u16>,
                         forwardPort: u16, now: int)
    ensures TargetAllowed(v6, NewSession(v6, token, addr, ips, ports, forwardPort, now))
  {
  }

  lemma ControlTargetAllowed(v6: V6Parser, ip: u32, port: u16, allowed: seq<string>)
    requires ShowIpv4(ip) in allowed
    ensures Allowed(v6, SocketAddr(V4(ip), port), allowed)
  {
    var i :| 0 <= i < |allowed| && allowed[i] == ShowIpv4(ip);
    ParseShownIpv4(ip);
    assert ParseIp(v6, allowed[i]) == Some(V4(ip));
  }

  lemma HandleControlKeepsTarget(v6: V6Parser, s: Session, reading: Option<(u32, u16)>)
    requires TargetAllowed(v6, s)
    ensures TargetAllowed(v6, HandleControl(s, reading).1) && !HandleControl(s, reading).0.Forward?
  {
    if reading.Some? && ShowIpv4(reading.value.0) in s.allowed {
      ControlTargetAllowed(v6, reading.value.0, reading.value.1, s.allowed);
    }
  }

  lemma HandleKeepsTarget(v6: V6Parser, s: Session, packet: PlgPacket)
    requires TargetAllowed(v6, s)
    ensures TargetAllowed(v6, Handle(s, packet).1)
    ensures Handle(s, packet).0.Forward? ==> Allowed(v6, Handle(s, packet).0.target, s.allowed)
  {
    HandleControlKeepsTarget(v6, s, ParseControlPayload(packet.payload));
  }

  /** Neither a control packet nor a default makes a session forward to an address outside its list. */
  lemma ClassifyKeepsTargets(v6: V6Parser, sessions: Sessions, data: seq<u8>, addr: SocketAddr, now: int)
    requires TargetsAllowed(v6, sessions)
    ensures TargetsAllowed(v6, Classify(sessions, data, addr, now).1)
    ensures var m, verdict := MatchedToken(sessions, data), Classify(sessions, data, addr, now).0;
      verdict.Forward? ==> m.Some? && Allowed(v6, verdict.target, sessions[m.value].allowed)
  {
    var m := MatchedToken(sessions, data);
    if m.Some? {
      var s := sessions[m.value];
      assert TargetAllowed(v6, s);
      HandleKeepsTarget(v6, Touch(s, addr, now, |data|), Parse(data).value);
    }
  }

  /** An allow-list of CIDR blocks allows no target at all. */
  lemma CidrListAllowsNothing(v6: V6Parser, allowed: seq<string>, target: SocketAddr)
    requires forall i :: 0 <= i < |allowed| ==> '/' in allowed[i]
    ensures !Allowed(v6, target, allowed)
  {
    forall i | 0 <= i < |allowed|
      ensures ParseIp(v6, allowed[i]).None?
    {
      SlashIsNoIp(v6, allowed[i]);
    }
  }
}
