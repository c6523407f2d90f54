/** The relay's session cache and its packet loops, each operation run to its end.

    `RelaySteps` gives the interleaved behaviour; here every method is proved against the tables
    it leaves behind, and keeps the two tables inverse and the counters balanced.
 */
module RelayServer {
  import opened Bits
  import opened Text
  import opened Net
  import opened PlgProtocol
  import opened RelayTables

  class Relay {
    const maxSessions: nat
    const sessionTimeout: nat
    const v6: V6Parser

    var sessions: Sessions
    var portToToken: Ports

    var activeSessions: int
    var packetsReceived: nat
    var packetsForwarded: nat
    var packetsDropped: nat
    var bytesForwarded: nat
    var invalidSessions: nat
    var keepalives: nat

    // what the counters are balanced against
    ghost var controls: nat
    ghost var upstream: nat
    ghost var responses: nat

    ghost predicate Balanced()
      reads this`packetsReceived, this`packetsForwarded, this`packetsDropped, this`invalidSessions,
        this`keepalives, this`controls, this`upstream, this`responses
    {
      && packetsReceived == packetsDropped + invalidSessions + keepalives + controls + upstream
      && packetsForwarded == upstream + responses
    }

    ghost predicate TablesValid()
      reads this`sessions, this`portToToken, this`activeSessions
    {
      Inverse(sessions, portToToken) && activeSessions == |sessions|
    }

    ghost predicate Valid()
      reads this
    {
      TablesValid() && Balanced()
    }

    constructor (maxSessions: nat, sessionTimeout: nat, v6: V6Parser)
      ensures Valid() && sessions == map[]
      ensures this.maxSessions == maxSessions && this.sessionTimeout == sessionTimeout && this.v6 == v6
    {
      this.maxSessions := maxSessions;
      this.sessionTimeout := sessionTimeout;
      this.v6 := v6;
      sessions, portToToken := map[], map[];
      activeSessions, packetsReceived, packetsForwarded, packetsDropped := 0, 0, 0, 0;
      bytesForwarded, invalidSessions, keepalives := 0, 0, 0;
      controls, upstream, responses := 0, 0, 0;
    }

    /** Mirrors `unregister`. */
    method Unregister(token: u32)
      requires TablesValid()
      modifies this`sessions, this`portToToken, this`activeSessions
      ensures TablesValid()
      ensures sessions == old(sessions) - {token}
      ensures portToToken == PortsWithout(old(sessions), old(portToToken), token)
    {
      RemoveKeepsInverse(sessions, portToToken, token);
      if token in sessions {
        var info := sessions[token];
        sessions := sessions - {token};
        portToToken := portToToken - {info.forwardPort};
        activeSessions := |sessions|;
      } else {
        assert sessions == sessions - {token};
      }
    }

    /** The two insertions of `register`. */
    method Insert(info: Session)
      requires TablesValid()
      requires info.token !in sessions && info.forwardPort !in portToToken
      modifies this`sessions, this`portToToken, this`activeSessions
      ensures TablesValid()
      ensures |sessions| == old(|sessions|) + 1
      ensures sessions == old(sessions)[info.token := info]
      ensures portToToken == old(portToToken)[info.forwardPort := info.token]
    {
      InsertKeepsInverse(sessions, portToToken, info);
      SizeWith(sessions, info);
      sessions := sessions[info.token := info];
      portToToken := portToToken[info.forwardPort := info.token];
      activeSessions := |sessions|;
    }

    /** Mirrors `register`. The port of the new socket is the system's choice: `bound` is that
        port, which no session's socket has, or `None` when binding fails. */
    method Register(token: u32, clientAddr: SocketAddr, ips: seq<string>, ports: seq<u16>,
                    bound: Option<u16>, now: int) returns (localPort: Option<u16>)
      requires TablesValid()
      requires bound.Some? ==> forall t :: t in sessions && t != token ==> sessions[t].forwardPort != bound.value
      modifies this`sessions, this`portToToken, this`activeSessions
      ensures TablesValid()
      // at capacity nothing happens, even for a token that is registered
      ensures old(|sessions|) >= maxSessions ==>
        localPort.None? && sessions == old(sessions) && portToToken == old(portToToken)
      // below it, the old session of the token goes, even when binding then fails
      ensures old(|sessions|) < maxSessions ==> localPort == bound && |sessions| <= maxSessions
      ensures old(|sessions|) < maxSessions && bound.None? ==> sessions == old(sessions) - {token}
      ensures old(|sessions|) < maxSessions && bound.Some? ==>
        && token in sessions && sessions == old(sessions)[token := sessions[token]]
        && RegisteredAs(v6, sessions[token], token, clientAddr, ips, ports, bound.value, now)
    {
      if |sessions| >= maxSessions {
        return None;
      }
      SizeWithout(sessions, token);
      Unregister(token);
      if bound.None? {
        return None;
      }
      var port := bound.value;
      var info := NewSession(v6, token, clientAddr, ips, ports, port, now);
      NewSessionRegistered(v6, token, clientAddr, ips, ports, port, now);
      RemovedThenInserted(old(sessions), token, info);
      Insert(info);
      localPort := Some(port);
    }

    /** The loop of `cleanup_stale`. The stale tokens come in no particular order. */
    method UnregisterAll(tokens: set<u32>) returns (removed: nat)
      requires TablesValid() && tokens <= sessions.Keys
      modifies this`sessions, this`portToToken, this`activeSessions
      ensures TablesValid()
      ensures LeftOver(old(sessions), old(portToToken), tokens, sessions, portToToken)
      ensures removed == |tokens|
    {
      removed := 0;
      var pending := tokens;
      ghost var sessions0, ports0 := sessions, portToToken;
      NothingGone(sessions0, ports0, tokens);
      while pending != {}
        invariant TablesValid()
        invariant pending <= tokens && removed == |tokens| - |pending|
        invariant LeftOver(sessions0, ports0, tokens - pending, sessions, portToToken)
        decreases |pending|
      {
        var token :| token in pending;
        RemoveOneOfMany(sessions0, ports0, tokens, pending, token, sessions, portToToken);
        Unregister(token);
        removed := removed + 1;
        pending := pending - {token};
      }
      assert tokens - pending == tokens;
    }

    /** Mirrors `cleanup_stale`: exactly the stale sessions go, from both tables. */
    method CleanupStale(now: int) returns (removed: nat)
      requires TablesValid()
      modifies this`sessions, this`portToToken, this`activeSessions
      ensures TablesValid()
      ensures var stale := StaleTokens(old(sessions), now, sessionTimeout);
        LeftOver(old(sessions), old(portToToken), stale, sessions, portToToken) && removed == |stale|
    {
      var stale := StaleTokens(sessions, now, sessionTimeout);
      removed := UnregisterAll(stale);
    }

    /** One iteration of `client_listener`; `sent` is the result of the upstream send. */
    method ClientPacket(data: seq<u8>, addr: SocketAddr, now: int, sent: Option<nat>)
      returns (verdict: Verdict, datagram: Option<(u16, SocketAddr, seq<u8>)>)
      requires Valid()
      modifies this`sessions, this`packetsReceived, this`packetsForwarded, this`packetsDropped,
        this`bytesForwarded, this`invalidSessions, this`keepalives, this`controls, this`upstream
      ensures Valid()
      ensures (verdict, sessions) == Classify(old(sessions), data, addr, now)
      ensures datagram == if verdict.Forward? then Some((verdict.port, verdict.target, verdict.payload)) else None
      ensures packetsReceived == old(packetsReceived) + 1
      ensures keepalives == old(keepalives) + (if verdict.KeepaliveSeen? then 1 else 0)
      ensures invalidSessions == old(invalidSessions) + (if verdict.UnknownSession? then 1 else 0)
      ensures packetsForwarded == old(packetsForwarded) + (if verdict.Forward? && sent.Some? then 1 else 0)
      ensures bytesForwarded == old(bytesForwarded) + (if verdict.Forward? && sent.Some? then sent.value else 0)
      ensures controls == old(controls) + (if verdict.ControlAccepted? then 1 else 0)
    {
      packetsReceived := packetsReceived + 1;
      verdict := Admit(data, addr, now);
      datagram := Account(verdict, sent);
    }

    /** The packet's effect on its session, and its verdict. */
    method Admit(data: seq<u8>, addr: SocketAddr, now: int) returns (verdict: Verdict)
      requires TablesValid()
      modifies this`sessions
      ensures TablesValid() && (verdict, sessions) == Classify(old(sessions), data, addr, now)
    {
      TouchKeepsInverse(sessions, portToToken, data, addr, now);
      var (v, after) := Classify(sessions, data, addr, now);
      verdict, sessions := v, after;
    }

    /** The counters that a verdict moves, and the datagram that it sends upstream. */
    method Account(verdict: Verdict, sent: Option<nat>) returns (datagram: Option<(u16, SocketAddr, seq<u8>)>)
      requires TablesValid()
      modifies this`packetsForwarded, this`packetsDropped, this`bytesForwarded, this`invalidSessions,
        this`keepalives, this`controls, this`upstream
      ensures datagram == if verdict.Forward? then Some((verdict.port, verdict.target, verdict.payload)) else None
      ensures keepalives == old(keepalives) + (if verdict.KeepaliveSeen? then 1 else 0)
      ensures invalidSessions == old(invalidSessions) + (if verdict.UnknownSession? then 1 else 0)
      ensures packetsForwarded == old(packetsForwarded) + (if verdict.Forward? && sent.Some? then 1 else 0)
      ensures upstream == old(upstream) + (if verdict.Forward? && sent.Some? then 1 else 0)
      ensures bytesForwarded == old(bytesForwarded) + (if verdict.Forward? && sent.Some? then sent.value else 0)
      ensures controls == old(controls) + (if verdict.ControlAccepted? then 1 else 0)
      ensures TablesValid()
      ensures packetsForwarded - upstream == old(packetsForwarded - upstream)
      ensures packetsDropped + keepalives + invalidSessions + controls + upstream
           == old(packetsDropped + keepalives + invalidSessions + controls + upstream) + 1
    {
      datagram := None;
      match verdict {
        case TooShort => packetsDropped := packetsDropped + 1;
        case UnknownSession => invalidSessions := invalidSessions + 1;
        case KeepaliveSeen => keepalives := keepalives + 1;
        case ControlAccepted => controls := controls + 1;
        case ControlRejected => packetsDropped := packetsDropped + 1;
        case NoTarget => packetsDropped := packetsDropped + 1;
        case Forward(port, target, payload) =>
          datagram := Some((port, target, payload));
          if sent.Some? {
            packetsForwarded := packetsForwarded + 1;
            bytesForwarded := bytesForwarded + sent.value;
            upstream := upstream + 1;
          } else {
            packetsDropped := packetsDropped + 1;
          }
      }
    }

    /** The statistics of one response. */
    method CountReply(token: u32, length: nat)
      requires TablesValid() && token in sessions
      modifies this`sessions
      ensures TablesValid()
      ensures Counted(old(sessions), sessions, token, length)
    {
      UpdateKeepsInverse(sessions, portToToken, token, CountResponse(sessions[token], length));
      sessions := sessions[token := CountResponse(sessions[token], length)];
    }

    /** One iteration of the response listener of a socket; `live` says whether it goes on. A
        client that has not sent a packet yet gets no reply. */
    method Response(localPort: u16, payload: seq<u8>) returns (reply: Option<(SocketAddr, seq<u8>)>, live: bool)
      requires Valid()
      modifies this`sessions, this`packetsForwarded, this`bytesForwarded, this`responses
      ensures Valid()
      ensures live <==> localPort in portToToken
      ensures !live ==> reply.None? && sessions == old(sessions)
      ensures packetsForwarded == old(packetsForwarded) + if reply.Some? then 1 else 0
      ensures bytesForwarded == old(bytesForwarded) + if reply.Some? then |reply.value.1| else 0
      ensures live ==>
        var token := portToToken[localPort];
        && token in old(sessions) && old(sessions)[token].forwardPort == localPort
        && Counted(old(sessions), sessions, token, |payload|)
        && Answers(reply, old(sessions)[token].clientAddr, token, payload)
    {
      reply := None;
      if localPort !in portToToken {
        return None, false;
      }
      live := true;
      var token := portToToken[localPort];
      var clientAddr := sessions[token].clientAddr;
      CountReply(token, |payload|);
      reply := SendReply(clientAddr, token, payload);
    }

    /** Builds the response packet, sends it and counts it. */
    method SendReply(clientAddr: SocketAddr, token: u32, payload: seq<u8>) returns (reply: Option<(SocketAddr, seq<u8>)>)
      modifies this`packetsForwarded, this`bytesForwarded, this`responses
      ensures Answers(reply, clientAddr, token, payload)
      ensures packetsForwarded - old(packetsForwarded) == responses - old(responses) == if reply.Some? then 1 else 0
      ensures bytesForwarded == old(bytesForwarded) + if reply.Some? then |reply.value.1| else 0
    {
      reply := None;
      if clientAddr.port != 0 {
        var data := Encode(ResponsePacket(token, payload));
        ParseWire(PlgPacket(token, 0, 0, 0, payload));
        reply := Some((clientAddr, data));
        packetsForwarded := packetsForwarded + 1;
        bytesForwarded := bytesForwarded + |data|;
        responses := responses + 1;
      }
    }
  }

  /** The reply, unless the client's address is the placeholder, goes there and is read as a packet
      of the session with number 0, no flags, and what the game server sent. */
  predicate Answers(reply: Option<(SocketAddr, seq<u8>)>, clientAddr: SocketAddr, token: u32, payload: seq<u8>) {
    && (reply.Some? <==> clientAddr.port != 0)
    && (reply.Some? ==> reply.value.0 == clientAddr)
    && (reply.Some? ==> Parse(reply.value.1) == Some(PlgPacket(token, 0, 0, 0, payload)))
  }

  /** One more packet of so many bytes, and its header of ten, went out for the session. */
  predicate Counted(sessions: Sessions, sessions': Sessions, token: u32, length: nat)
    requires token in sessions
  {
    var s := sessions[token];
    sessions' == sessions[token := s.(packetsOut := s.packetsOut + 1, bytesOut := s.bytesOut + 10 + length)]
  }
}
