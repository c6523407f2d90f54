/** Which client a response goes to, over every interleaving.

    A reply always goes where a packet of the token it carries came from. Whether that token is the
    one its listener was spawned for depends on the port table, which a registration fills only
    after its session is visible to all other tasks.
 */
module RelayIsolation {
  import opened Bits
  import opened Text
  import opened Net
  import opened PlgProtocol
  import opened RelayTables
  import opened RelaySteps

  // ---------------------------------------------------------------- every reply is consistent

  /** A session's client address is the placeholder or the source of a packet of that session. */
  ghost predicate LearnedInv(s: State) {
    forall t :: t in s.sessions && s.sessions[t].clientAddr.port != 0 ==> (t, s.sessions[t].clientAddr) in s.log.learned
  }

  ghost predicate Consistent(r: Reply, learned: set<(u32, SocketAddr)>) {
    (r.token, r.addr) in learned && r.addr.port != 0
  }

  ghost predicate RepliesInv(s: State) {
    LearnedInv(s) && forall i :: 0 <= i < |s.log.replies| ==> Consistent(s.log.replies[i], s.log.learned)
  }

  lemma PacketKeepsReplies(s: State, data: seq<u8>, addr: SocketAddr, now: int)
    requires RepliesInv(s) && DoClientPacket(s, data, addr, now).Some?
    ensures RepliesInv(DoClientPacket(s, data, addr, now).value)
  {
  }

  lemma RespondKeepsReplies(s: State, l: nat, payload: seq<u8>)
    requires RepliesInv(s) && DoRespond(s, l, payload).Some?
    ensures RepliesInv(DoRespond(s, l, payload).value)
  {
  }

  lemma RetireKeepsReplies(s: State, token: u32)
    requires RepliesInv(s)
    ensures RepliesInv(Retire(s, token))
  {
  }

  lemma InsertKeepsReplies(cfg: Config, s: State, e: Event)
    requires RepliesInv(s) && e.Insert? && DoInsert(cfg, s, e).Some?
    ensures RepliesInv(DoInsert(cfg, s, e).value)
  {
  }

  lemma OthersSendNothing(cfg: Config, s: State, e: Event)
    requires Step(cfg, s, e).Some? && !e.ClientPacket? && !e.Respond?
    ensures var log := Step(cfg, s, e).value.log; log.replies == s.log.replies && log.learned == s.log.learned
  {
    match e
    case Check(_, _, _, _) =>
    case Clear(_) =>
    case BindFails(_) =>
    case Insert(_, _, _) =>
    case EnterPort(_) =>
    case Spawn(_, _) =>
    case Remove(_) =>
    case DropPort(_) =>
    case SendDone(_) =>
    case Lookup(_) =>
    case ListenerFails(_) =>
  }

  lemma StepKeepsReplies(cfg: Config, s: State, e: Event)
    requires RepliesInv(s) && Step(cfg, s, e).Some?
    ensures RepliesInv(Step(cfg, s, e).value)
  {
    match e
    case ClientPacket(data, addr, now) => PacketKeepsReplies(s, data, addr, now);
    case Respond(l, payload) => RespondKeepsReplies(s, l, payload);
    case Clear(r) => RetireKeepsReplies(s, s.registrations[r].token);
    case Remove(token) => RetireKeepsReplies(s, token);
    case Insert(_, _, _) => InsertKeepsReplies(cfg, s, e);
    case DropPort(_) =>
    case _ =>
      OthersLeaveSessions(cfg, s, e);
      OthersSendNothing(cfg, s, e);
  }

  /** Over every run, each reply goes to an address from which a packet of its token came. */
  lemma {:induction false} RepliesConsistent(cfg: Config, es: seq<Event>)
    requires Exec(cfg, es).Some?
    ensures RepliesInv(Exec(cfg, es).value)
  {
    if es == [] {
    } else {
      RepliesConsistent(cfg, es[..|es| - 1]);
      StepKeepsReplies(cfg, Exec(cfg, es[..|es| - 1]).value, es[|es| - 1]);
    }
  }

  /** A step sends at most one reply: a response of the listener that takes the step, under the
      token that it looked up and to the address that this session records at that moment. */
  lemma ReplyGoesToRecordedClient(cfg: Config, s: State, e: Event)
    requires Step(cfg, s, e).Some?
    ensures var after := Step(cfg, s, e).value.log.replies;
      after == s.log.replies
      || (e.Respond? && e.l in s.listeners && s.listeners[e.l].found.Some?
          && var token := s.listeners[e.l].found.value;
             token in s.sessions
             && after == s.log.replies + [Reply(s.listeners[e.l].token, token, s.sessions[token].clientAddr, e.payload)])
  {
    match e
    case ClientPacket(_, _, _) =>
    case Respond(_, _) =>
    case _ => OthersSendNothing(cfg, s, e);
  }

  // ---------------------------------------------------------------- pinned ports

  /** Every live listener's port leads to the listener's token or nowhere. */
  ghost predicate Pinned(s: State) {
    forall l :: l in s.listeners && s.listeners[l].port in s.ports ==>
      s.ports[s.listeners[l].port] == s.listeners[l].token
  }

  /** The step enters a port on which another token's listener lives, or spawns a listener on a port
      that is entered for another token. */
  ghost predicate Hijacks(s: State, e: Event) {
    match e
    case EnterPort(r) =>
      r in s.entering && exists l :: l in s.listeners && s.listeners[l].port == s.entering[r].port
                                     && s.listeners[l].token != s.entering[r].token
    case Spawn(r, _) =>
      && r in s.spawning && s.spawning[r] in s.sessions
      && var port := s.sessions[s.spawning[r]].forwardPort;
      && port in s.ports && s.ports[port] != s.spawning[r]
    case _ => false
  }

  predicate TouchesPorts(e: Event) {
    e.EnterPort? || e.Spawn? || e.DropPort? || e.Lookup? || e.Respond? || e.ListenerFails?
  }

  lemma OthersLeavePorts(cfg: Config, s: State, e: Event)
    requires Step(cfg, s, e).Some? && !TouchesPorts(e)
    ensures var s' := Step(cfg, s, e).value; s'.ports == s.ports && s'.listeners == s.listeners
  {
    match e
    case Check(_, _, _, _) =>
    case Clear(_) =>
    case BindFails(_) =>
    case Insert(_, _, _) =>
    case Remove(_) =>
    case ClientPacket(_, _, _) =>
    case SendDone(_) =>
  }

  /** Of all steps, exactly those break a pin. */
  lemma PinBrokenExactly(cfg: Config, s: State, e: Event)
    requires Pinned(s) && Step(cfg, s, e).Some?
    ensures Pinned(Step(cfg, s, e).value) <==> !Hijacks(s, e)
  {
    match e
    case EnterPort(r) =>
      var s' := DoEnterPort(s, r).value;
      assert forall l :: l in s.listeners && s.listeners[l].port == s.entering[r].port ==>
          s'.ports[s'.listeners[l].port] == s.entering[r].token;
    case Spawn(r, l) => SpawnPins(s, r, l);
    case DropPort(_) =>
    case Lookup(_) =>
    case Respond(_, _) =>
    case ListenerFails(_) =>
    case _ => OthersLeavePorts(cfg, s, e);
  }

  lemma SpawnPins(s: State, r: nat, l: nat)
    requires Pinned(s) && DoSpawn(s, r, l).Some?
    ensures Pinned(DoSpawn(s, r, l).value) <==> !Hijacks(s, Spawn(r, l))
  {
    var s' := DoSpawn(s, r, l).value;
    if s.spawning[r] in s.sessions {
      assert s'.listeners[l] == Listener(s.spawning[r], s.sessions[s.spawning[r]].forwardPort, None);
    }
  }

  /** A listener looks up its own token, and what it sent carries that. */
  ghost predicate OwnInv(s: State) {
    && Pinned(s)
    && (forall l :: l in s.listeners && s.listeners[l].found.Some? ==> s.listeners[l].found.value == s.listeners[l].token)
    && (forall i :: 0 <= i < |s.log.replies| ==> s.log.replies[i].token == s.log.replies[i].listener)
  }

  lemma LookupFindsOwn(s: State, l: nat)
    requires OwnInv(s) && DoLookup(s, l).Some?
    ensures OwnInv(DoLookup(s, l).value)
  {
  }

  lemma RespondIsOwn(s: State, l: nat, payload: seq<u8>)
    requires OwnInv(s) && DoRespond(s, l, payload).Some?
    ensures OwnInv(DoRespond(s, l, payload).value)
  {
  }

  lemma SpawnIsOwn(s: State, r: nat, l: nat)
    requires OwnInv(s) && DoSpawn(s, r, l).Some? && !Hijacks(s, Spawn(r, l))
    ensures OwnInv(DoSpawn(s, r, l).value)
  {
    SpawnPins(s, r, l);
  }

  lemma EnterPortIsOwn(s: State, r: nat)
    requires OwnInv(s) && DoEnterPort(s, r).Some? && !Hijacks(s, EnterPort(r))
    ensures OwnInv(DoEnterPort(s, r).value)
  {
  }

  lemma StepKeepsOwn(cfg: Config, s: State, e: Event)
    requires OwnInv(s) && Step(cfg, s, e).Some? && !Hijacks(s, e)
    ensures OwnInv(Step(cfg, s, e).value)
  {
    match e
    case EnterPort(r) => EnterPortIsOwn(s, r);
    case Spawn(r, l) => SpawnIsOwn(s, r, l);
    case Lookup(l) => LookupFindsOwn(s, l);
    case Respond(l, payload) => RespondIsOwn(s, l, payload);
    case DropPort(_) =>
    case ListenerFails(_) =>
    case ClientPacket(_, _, _) =>
      OthersLeavePorts(cfg, s, e);
      ReplyGoesToRecordedClient(cfg, s, e);
    case _ =>
      OthersLeavePorts(cfg, s, e);
      OthersSendNothing(cfg, s, e);
  }

  ghost predicate NeverHijacked(cfg: Config, es: seq<Event>) {
    forall n :: 0 <= n < |es| && Exec(cfg, es[..n]).Some? ==> !Hijacks(Exec(cfg, es[..n]).value, es[n])
  }

  /** Token isolation, over every run in which no pin is broken: whatever the listener of a token
      sends carries that token and goes where a packet of that token came from; and while the
      listener lives, its port leads to that token or nowhere. */
  lemma {:induction false} TokenIsolation(cfg: Config, es: seq<Event>)
    requires Exec(cfg, es).Some? && NeverHijacked(cfg, es)
    ensures RepliesInv(Exec(cfg, es).value) && OwnInv(Exec(cfg, es).value)
  {
    RepliesConsistent(cfg, es);
    if es == [] {
    } else {
      var before := es[..|es| - 1];
      assert forall n :: 0 <= n <= |before| ==> before[..n] == es[..n];
      TokenIsolation(cfg, before);
      assert es[..|before|] == before;
      StepKeepsOwn(cfg, Exec(cfg, before).value, es[|es| - 1]);
    }
  }

  lemma {:induction false} PrefixHappens(cfg: Config, es: seq<Event>, n: nat)
    requires Exec(cfg, es).Some? && n <= |es|
    ensures Exec(cfg, es[..n]).Some?
  {
    if n == |es| {
      assert es[..n] == es;
    } else {
      assert es[..|es| - 1][..n] == es[..n];
      PrefixHappens(cfg, es[..|es| - 1], n);
    }
  }

  ghost predicate AlwaysPinned(cfg: Config, es: seq<Event>) {
    forall n :: 0 <= n <= |es| && Exec(cfg, es[..n]).Some? ==> Pinned(Exec(cfg, es[..n]).value)
  }

  lemma PinnedUntil(cfg: Config, es: seq<Event>, n: nat)
    requires Exec(cfg, es).Some? && NeverHijacked(cfg, es) && n <= |es|
    ensures Exec(cfg, es[..n]).Some? && Pinned(Exec(cfg, es[..n]).value)
  {
    PrefixHappens(cfg, es, n);
    assert forall m :: 0 <= m <= n ==> es[..n][..m] == es[..m];
    TokenIsolation(cfg, es[..n]);
  }

  /** A run has no such step exactly if all its pins hold all the time. */
  lemma NeverHijackedExactly(cfg: Config, es: seq<Event>)
    requires Exec(cfg, es).Some?
    ensures NeverHijacked(cfg, es) <==> AlwaysPinned(cfg, es)
  {
    if NeverHijacked(cfg, es) {
      forall n | 0 <= n <= |es|
        ensures Exec(cfg, es[..n]).Some? && Pinned(Exec(cfg, es[..n]).value)
      {
        PinnedUntil(cfg, es, n);
      }
    }
    if AlwaysPinned(cfg, es) {
      forall n | 0 <= n < |es| && Exec(cfg, es[..n]).Some?
        ensures !Hijacks(Exec(cfg, es[..n]).value, es[n])
      {
        PrefixHappens(cfg, es, n + 1);
        assert es[..n + 1][..n] == es[..n];
        PinBrokenExactly(cfg, Exec(cfg, es[..n]).value, es[n]);
      }
    }
  }

  /** A broken pin can be used: if the token that the port leads to has a session, and the listener
      and the client loop are idle, three more steps send what the listener receives under that
      token, to whoever sent the last packet of it. */
  lemma BrokenPinMisdirects(cfg: Config, es: seq<Event>, s: State, l: nat, addr: SocketAddr, payload: seq<u8>)
    returns (es': seq<Event>)
    requires Exec(cfg, es) == Some(s) && s.sending.None? && addr.port != 0
    requires l in s.listeners && s.listeners[l].found.None? && s.listeners[l].port in s.ports
    requires s.ports[s.listeners[l].port] != s.listeners[l].token && s.ports[s.listeners[l].port] in s.sessions
    ensures Exec(cfg, es').Some? && |es'| == |es| + 3
    ensures Exec(cfg, es').value.log.replies
         == s.log.replies + [Reply(s.listeners[l].token, s.ports[s.listeners[l].port], addr, payload)]
  {
    var token := s.ports[s.listeners[l].port];
    var data, s' := Wire(Keepalive(token, 0)), s;
    ParseWire(Keepalive(token, 0));
    FlagBits(FLAG_KEEPALIVE);
    ClassifyFrame(s.sessions, data, addr, 0);
    es', s' := Then(cfg, es, s, ClientPacket(data, addr, 0));
    es', s' := Then(cfg, es', s', Lookup(l));
    es', s' := Then(cfg, es', s', Respond(l, payload));
  }

  // ---------------------------------------------------------------- undisturbed registrations

  /** A registration of the token is between its two insertions. */
  ghost predicate IsEntering(s: State, token: u32) {
    exists r :: r in s.entering && s.entering[r].token == token
  }

  /** The token whose session a step takes out, replaces or hands out. */
  function Subject(s: State, e: Event): Option<u32> {
    match e
    case Clear(r) => if r in s.registrations then Some(s.registrations[r].token) else None
    case Insert(r, _, _) => if r in s.registrations then Some(s.registrations[r].token) else None
    case Spawn(r, _) => if r in s.spawning then Some(s.spawning[r]) else None
    case Remove(token) => Some(token)
    case _ => None
  }

  /** The step falls between the two insertions of a registration of its token. */
  ghost predicate Disturbs(s: State, e: Event) {
    Subject(s, e).Some? && IsEntering(s, Subject(s, e).value)
  }

  ghost predicate Undisturbed(cfg: Config, es: seq<Event>) {
    forall n :: 0 <= n < |es| && Exec(cfg, es[..n]).Some? ==> !Disturbs(Exec(cfg, es[..n]).value, es[n])
  }

  /** Every session is entered, or its registration is about to enter it; and a registration about
      to enter its port still has its session there, and no listener yet. */
  ghost predicate CalmInv(s: State) {
    && SocketsInv(s)
    && (forall t :: t in s.sessions && !IsEntering(s, t) ==>
          s.sessions[t].forwardPort in s.ports && s.ports[s.sessions[t].forwardPort] == t)
    && (forall r :: r in s.entering ==>
          && r !in s.registrations
          && s.entering[r].token in s.sessions
          && s.sessions[s.entering[r].token].forwardPort == s.entering[r].port)
    && (forall r, l :: r in s.entering && l in s.listeners ==> s.listeners[l].port != s.entering[r].port)
    && (forall r, q :: r in s.entering && q in s.entering && r != q ==> s.entering[r].token != s.entering[q].token)
  }

  lemma RetireKeepsCalm(s: State, token: u32)
    requires CalmInv(s) && !IsEntering(s, token)
    ensures CalmInv(Retire(s, token))
  {
    RetireKeepsSockets(s, token);
    assert forall t :: IsEntering(Retire(s, token), t) <==> IsEntering(s, t);
  }

  lemma InsertEnters(cfg: Config, s: State, e: Event, t: u32)
    requires CalmInv(s) && e.Insert? && DoInsert(cfg, s, e).Some?
    ensures IsEntering(DoInsert(cfg, s, e).value, t) <==> IsEntering(s, t) || t == s.registrations[e.r].token
  {
    var s' := DoInsert(cfg, s, e).value;
    if IsEntering(s, t) {
      var r :| r in s.entering && s.entering[r].token == t;
      assert r in s'.entering && s'.entering[r].token == t;
    }
    assert s'.entering[e.r].token == s.registrations[e.r].token;
  }

  lemma InsertKeepsCalm(cfg: Config, s: State, e: Event)
    requires CalmInv(s) && e.Insert? && DoInsert(cfg, s, e).Some? && !Disturbs(s, e)
    ensures CalmInv(DoInsert(cfg, s, e).value)
  {
    InsertKeepsSockets(cfg, s, e);
    forall t
      ensures IsEntering(DoInsert(cfg, s, e).value, t) <==> IsEntering(s, t) || t == s.registrations[e.r].token
    {
      InsertEnters(cfg, s, e, t);
    }
  }

  lemma EnterPortKeepsCalm(s: State, r: nat)
    requires CalmInv(s) && DoEnterPort(s, r).Some?
    ensures CalmInv(DoEnterPort(s, r).value)
  {
    var s' := DoEnterPort(s, r).value;
    forall t | t != s.entering[r].token
      ensures IsEntering(s, t) <==> IsEntering(s', t)
    {
      if IsEntering(s, t) {
        var q :| q in s.entering && s.entering[q].token == t;
        assert q in s'.entering;
      }
    }
  }

  lemma SpawnKeepsCalm(s: State, r: nat, l: nat)
    requires CalmInv(s) && DoSpawn(s, r, l).Some? && !Disturbs(s, Spawn(r, l))
    ensures CalmInv(DoSpawn(s, r, l).value) && !Hijacks(s, Spawn(r, l))
  {
    var s' := DoSpawn(s, r, l).value;
    assert forall t :: IsEntering(s', t) <==> IsEntering(s, t);
    forall q | q in s.entering && s.spawning[r] in s.sessions
      ensures s.entering[q].port != s.sessions[s.spawning[r]].forwardPort
    {
      assert IsEntering(s, s.entering[q].token);
    }
  }

  lemma DropPortKeepsCalm(s: State, p: u16)
    requires CalmInv(s) && DoDropPort(s, p).Some?
    ensures CalmInv(DoDropPort(s, p).value)
  {
  }

  predicate SameSockets(sessions: Sessions, sessions': Sessions) {
    && sessions'.Keys == sessions.Keys
    && forall t :: t in sessions ==>
         sessions'[t].token == sessions[t].token && sessions'[t].forwardPort == sessions[t].forwardPort
  }

  predicate FewerListeners(listeners: map<nat, Listener>, listeners': map<nat, Listener>) {
    forall l :: l in listeners' ==> l in listeners && listeners'[l].port == listeners[l].port
  }

  /** Sessions change in neither token nor port, and all else is the same or less. */
  predicate Fewer(s: State, s': State) {
    && s'.ports == s.ports && s'.entering == s.entering && s'.dropping == s.dropping
    && SameSockets(s.sessions, s'.sessions)
    && FewerListeners(s.listeners, s'.listeners)
    && (forall r :: r in s'.registrations && r in s.entering ==> r in s.registrations)
  }

  lemma FewerKeepCalm(s: State, s': State)
    requires CalmInv(s) && Fewer(s, s')
    ensures CalmInv(s')
  {
    assert forall t :: IsEntering(s', t) <==> IsEntering(s, t);
  }

  lemma PacketFewer(s: State, data: seq<u8>, addr: SocketAddr, now: int)
    requires SocketsInv(s) && DoClientPacket(s, data, addr, now).Some?
    ensures Fewer(s, DoClientPacket(s, data, addr, now).value)
  {
    ClassifyFrame(s.sessions, data, addr, now);
  }

  lemma RespondFewer(s: State, l: nat, payload: seq<u8>)
    requires DoRespond(s, l, payload).Some?
    ensures Fewer(s, DoRespond(s, l, payload).value)
  {
    var s', listener := DoRespond(s, l, payload).value, s.listeners[l].(found := None);
    assert s'.listeners == s.listeners - {l} || s'.listeners == s.listeners[l := listener];
    var token := s.listeners[l].found.value;
    if token in s.sessions {
      CountKeepsSockets(s.sessions, token, |payload|);
    }
  }

  lemma CountKeepsSockets(sessions: Sessions, token: u32, length: nat)
    requires token in sessions
    ensures SameSockets(sessions, sessions[token := CountResponse(sessions[token], length)])
  {
  }

  lemma LookupFewer(s: State, l: nat)
    requires DoLookup(s, l).Some?
    ensures Fewer(s, DoLookup(s, l).value)
  {
  }

  lemma CheckFewer(cfg: Config, s: State, e: Event)
    requires e.Check? && DoCheck(cfg, s, e).Some?
    ensures Fewer(s, DoCheck(cfg, s, e).value)
  {
  }

  lemma ClearKeepsCalm(s: State, r: nat)
    requires CalmInv(s) && DoClear(s, r).Some? && !Disturbs(s, Clear(r))
    ensures CalmInv(DoClear(s, r).value)
  {
    RetireKeepsCalm(s, s.registrations[r].token);
    FewerKeepCalm(Retire(s, s.registrations[r].token), DoClear(s, r).value);
  }

  lemma OthersFewer(cfg: Config, s: State, e: Event)
    requires SocketsInv(s) && Step(cfg, s, e).Some?
    requires e.Check? || e.BindFails? || e.ClientPacket? || e.SendDone? || e.Lookup? || e.Respond? || e.ListenerFails?
    ensures Fewer(s, Step(cfg, s, e).value)
  {
    match e
    case Check(_, _, _, _) => CheckFewer(cfg, s, e);
    case ClientPacket(data, addr, now) => PacketFewer(s, data, addr, now);
    case Lookup(l) => LookupFewer(s, l);
    case Respond(l, payload) => RespondFewer(s, l, payload);
    case BindFails(r) => BindFailsFewer(s, r);
    case SendDone(ok) => SendDoneFewer(s, ok);
    case ListenerFails(_) =>
  }

  lemma BindFailsFewer(s: State, r: nat)
    requires DoBindFails(s, r).Some?
    ensures Fewer(s, DoBindFails(s, r).value)
  {
  }

  lemma SendDoneFewer(s: State, ok: bool)
    requires DoSendDone(s, ok).Some?
    ensures Fewer(s, DoSendDone(s, ok).value)
  {
  }

  lemma StepKeepsCalm(cfg: Config, s: State, e: Event)
    requires CalmInv(s) && Step(cfg, s, e).Some? && !Disturbs(s, e)
    ensures CalmInv(Step(cfg, s, e).value)
  {
    match e
    case Clear(r) => ClearKeepsCalm(s, r);
    case Remove(token) => RetireKeepsCalm(s, token);
    case Insert(_, _, _) => InsertKeepsCalm(cfg, s, e);
    case EnterPort(r) => EnterPortKeepsCalm(s, r);
    case Spawn(r, l) => SpawnKeepsCalm(s, r, l);
    case DropPort(p) => DropPortKeepsCalm(s, p);
    case _ =>
      OthersFewer(cfg, s, e);
      FewerKeepCalm(s, Step(cfg, s, e).value);
  }

  lemma CalmNeverHijacks(s: State, e: Event)
    requires CalmInv(s) && !Disturbs(s, e)
    ensures !Hijacks(s, e)
  {
  }

  lemma {:induction false} RunKeepsCalm(cfg: Config, es: seq<Event>)
    requires Exec(cfg, es).Some? && Undisturbed(cfg, es)
    ensures CalmInv(Exec(cfg, es).value) && NeverHijacked(cfg, es)
  {
    if es == [] {
    } else {
      var before := es[..|es| - 1];
      assert forall n :: 0 <= n <= |before| ==> before[..n] == es[..n];
      RunKeepsCalm(cfg, before);
      assert es[..|before|] == before;
      StepKeepsCalm(cfg, Exec(cfg, before).value, es[|es| - 1]);
      CalmNeverHijacks(Exec(cfg, before).value, es[|es| - 1]);
      assert forall n :: 0 <= n < |before| ==> es[n] == before[n];
    }
  }

  /** If no step falls between the two insertions of a registration of its token, tokens are
      isolated. */
  lemma UndisturbedIsolation(cfg: Config, es: seq<Event>)
    requires Exec(cfg, es).Some? && Undisturbed(cfg, es)
    ensures RepliesInv(Exec(cfg, es).value) && OwnInv(Exec(cfg, es).value)
  {
    RunKeepsCalm(cfg, es);
    TokenIsolation(cfg, es);
  }

  // ---------------------------------------------------------------- a reply to the wrong client

  predicate NoRemoval(es: seq<Event>) { forall i :: 0 <= i < |es| ==> !es[i].Remove? }

  /** Three registrations, two of them of `a`, that passed the check. */
  lemma ThreeChecked(cfg: Config, a: u32, b: u32) returns (es: seq<Event>, s: State)
    requires cfg.maxSessions >= 1
    ensures Exec(cfg, es) == Some(s) && NoRemoval(es)
    ensures s == INITIAL.(registrations := map[0 := Registration(a, [], [], false), 1 := Registration(b, [], [], false),
                                            2 := Registration(a, [], [], false)])
  {
    es, s := [], INITIAL;
    es, s := Then(cfg, es, s, Check(0, a, [], []));
    es, s := Then(cfg, es, s, Check(1, b, [], []));
    es, s := Then(cfg, es, s, Check(2, a, [], []));
  }

  /** They have also cleared their tokens. */
  lemma ThreeCleared(cfg: Config, a: u32, b: u32) returns (es: seq<Event>, s: State)
    requires cfg.maxSessions >= 1
    ensures Exec(cfg, es) == Some(s) && NoRemoval(es)
    ensures s == INITIAL.(registrations := map[0 := Registration(a, [], [], true), 1 := Registration(b, [], [], true),
                                            2 := Registration(a, [], [], true)])
  {
    es, s := ThreeChecked(cfg, a, b);
    es, s := Then(cfg, es, s, Clear(0));
    es, s := Then(cfg, es, s, Clear(1));
    es, s := Then(cfg, es, s, Clear(2));
  }

  /** The first registration of `a` has inserted its session. */
  lemma FirstInserted(cfg: Config, a: u32, b: u32, p: u16) returns (es: seq<Event>, s: State)
    requires cfg.maxSessions >= 1 && p != 0
    ensures Exec(cfg, es) == Some(s)
    ensures s == INITIAL.(entering := map[0 := Entering(a, p)], sessions := s.sessions,
                       registrations := map[1 := Registration(b, [], [], true), 2 := Registration(a, [], [], true)])
    ensures s.sessions.Keys == {a} && s.sessions[a].forwardPort == p && s.sessions[a].packetsIn == 0
  {
    es, s := ThreeCleared(cfg, a, b);
    es, s := Then(cfg, es, s, Insert(0, p, 0));
  }

  /** It is removed between its two insertions. */
  lemma RemovedBetween(cfg: Config, a: u32, b: u32, p: u16) returns (es: seq<Event>, s: State)
    requires cfg.maxSessions >= 1 && p != 0
    ensures Exec(cfg, es) == Some(s)
    ensures s == INITIAL.(entering := map[0 := Entering(a, p)],
                       registrations := map[1 := Registration(b, [], [], true), 2 := Registration(a, [], [], true)])
  {
    es, s := FirstInserted(cfg, a, b, p);
    es, s := Then(cfg, es, s, Remove(a));
    assert s.sessions == map[];
    es, s := Then(cfg, es, s, DropPort(p));
  }

  /** The system gives its port to `b`. */
  lemma PortTaken(cfg: Config, a: u32, b: u32, p: u16) returns (es: seq<Event>, s: State)
    requires cfg.maxSessions >= 1 && p != 0
    ensures Exec(cfg, es) == Some(s)
    ensures s == INITIAL.(entering := map[0 := Entering(a, p), 1 := Entering(b, p)], sessions := s.sessions,
                       registrations := map[2 := Registration(a, [], [], true)])
    ensures s.sessions.Keys == {b} && s.sessions[b].forwardPort == p
  {
    es, s := RemovedBetween(cfg, a, b, p);
    es, s := Then(cfg, es, s, Insert(1, p, 0));
  }

  lemma PortReused(cfg: Config, a: u32, b: u32, p: u16) returns (es: seq<Event>, s: State)
    requires cfg.maxSessions >= 1 && p != 0 && a != b
    ensures Exec(cfg, es) == Some(s)
    ensures s.entering == map[0 := Entering(a, p)] && s.registrations == map[2 := Registration(a, [], [], true)]
    ensures s.sessions.Keys == {b} && s.sessions[b].forwardPort == p && s.ports == map[p := b]
    ensures s.spawning == map[1 := b] && s.listeners == map[]
    ensures s.dropping == {} && s.sending.None? && s.log.replies == []
  {
    es, s := PortTaken(cfg, a, b, p);
    es, s := Then(cfg, es, s, EnterPort(1));
  }

  /** Now `b` gets a listener, the first registration of `a` enters its port, and another completes. */
  lemma PortHijacked(cfg: Config, a: u32, b: u32, p: u16, q: u16) returns (es: seq<Event>, s: State)
    requires cfg.maxSessions >= 1 && p != 0 && q != 0 && a != b && p != q
    ensures Exec(cfg, es) == Some(s)
    ensures a in s.sessions && s.ports == map[p := a, q := a] && s.listeners == map[5 := Listener(b, p, None)]
    ensures s.sending.None? && s.log.replies == []
  {
    es, s := PortReused(cfg, a, b, p);
    es, s := Then(cfg, es, s, Spawn(1, 5));
    es, s := Then(cfg, es, s, EnterPort(0));
    es, s := Then(cfg, es, s, Insert(2, q, 0));
    es, s := Then(cfg, es, s, EnterPort(2));
  }

  /** The isolation fails then: the listener of `b` sends what it receives under the token `a`, to
      the client of `a`. */
  lemma HijackedReply(cfg: Config, a: u32, b: u32, p: u16, q: u16, addr: SocketAddr, payload: seq<u8>)
    returns (es: seq<Event>)
    requires cfg.maxSessions >= 1 && p != 0 && q != 0 && a != b && p != q && addr.port != 0
    ensures Exec(cfg, es).Some? && Exec(cfg, es).value.log.replies == [Reply(b, a, addr, payload)]
  {
    var s;
    es, s := PortHijacked(cfg, a, b, p, q);
    es := BrokenPinMisdirects(cfg, es, s, 5, addr, payload);
  }

  // ---------------------------------------------------------------- a hijack without a removal

  /** Two registrations each of `a` and `b`, of which the first of `a` has completed. */
  lemma OneEntered(cfg: Config, a: u32, b: u32, q: u16) returns (es: seq<Event>, s: State)
    requires cfg.maxSessions >= 1 && q != 0
    ensures Exec(cfg, es) == Some(s) && NoRemoval(es)
    ensures s.registrations == map[1 := Registration(b, [], [], true), 2 := Registration(a, [], [], true),
                                   3 := Registration(b, [], [], true)]
    ensures s.sessions.Keys == {a} && s.sessions[a].forwardPort == q && s.ports == map[q := a]
    ensures s.entering == map[] && s.spawning == map[0 := a]
    ensures s.listeners == map[] && s.dropping == {} && s.sending.None?
  {
    es, s := OneInserted(cfg, a, b, q);
    es, s := Then(cfg, es, s, EnterPort(0));
  }

  lemma OneInserted(cfg: Config, a: u32, b: u32, q: u16) returns (es: seq<Event>, s: State)
    requires cfg.maxSessions >= 1 && q != 0
    ensures Exec(cfg, es) == Some(s) && NoRemoval(es)
    ensures s == INITIAL.(entering := map[0 := Entering(a, q)], sessions := s.sessions,
                       registrations := map[1 := Registration(b, [], [], true), 2 := Registration(a, [], [], true),
                                            3 := Registration(b, [], [], true)])
    ensures s.sessions.Keys == {a} && s.sessions[a].forwardPort == q
  {
    es, s := FourCleared(cfg, a, b);
    es, s := Then(cfg, es, s, Insert(0, q, 0));
  }

  /** The other one of `a` overlaps with it, and leaves `q` entered for nothing. */
  lemma StrayOfOther(cfg: Config, a: u32, b: u32, q: u16, x: u16) returns (es: seq<Event>, s: State)
    requires cfg.maxSessions >= 1 && q != 0 && x != 0 && q != x
    ensures Exec(cfg, es) == Some(s) && NoRemoval(es)
    ensures s.registrations == map[1 := Registration(b, [], [], true), 3 := Registration(b, [], [], true)]
    ensures s.sessions.Keys == {a} && s.sessions[a].forwardPort == x && s.ports == map[q := a, x := a]
    ensures s.entering == map[] && s.spawning == map[0 := a, 2 := a]
    ensures s.listeners == map[] && s.dropping == {} && s.sending.None?
  {
    es, s := OneEntered(cfg, a, b, q);
    es, s := Then(cfg, es, s, Insert(2, x, 0));
    assert s.sessions.Keys == {a} && s.entering == map[2 := Entering(a, x)];
    es, s := Then(cfg, es, s, EnterPort(2));
  }

  lemma FourCleared(cfg: Config, a: u32, b: u32) returns (es: seq<Event>, s: State)
    requires cfg.maxSessions >= 1
    ensures Exec(cfg, es) == Some(s) && NoRemoval(es)
    ensures s == INITIAL.(registrations := map[0 := Registration(a, [], [], true), 1 := Registration(b, [], [], true),
                                            2 := Registration(a, [], [], true), 3 := Registration(b, [], [], true)])
  {
    es, s := ThreeCleared(cfg, a, b);
    es, s := Then(cfg, es, s, Check(3, b, [], []));
    es, s := Then(cfg, es, s, Clear(3));
  }

  /** The first registration of `b` completes on another port. */
  lemma OtherEntered(cfg: Config, a: u32, b: u32, p: u16, q: u16, x: u16) returns (es: seq<Event>, s: State)
    requires cfg.maxSessions >= 1 && p != 0 && q != 0 && x != 0 && a != b && p != q && p != x && q != x
    ensures Exec(cfg, es) == Some(s) && NoRemoval(es)
    ensures s.registrations == map[3 := Registration(b, [], [], true)]
    ensures s.sessions.Keys == {a, b} && s.sessions[a].forwardPort == x && s.sessions[b].forwardPort == p
    ensures q in s.ports && s.ports[q] == a && s.entering == map[] && 1 in s.spawning && s.spawning[1] == b
    ensures s.listeners == map[] && s.dropping == {} && s.sending.None?
  {
    es, s := StrayOfOther(cfg, a, b, q, x);
    es, s := Then(cfg, es, s, Insert(1, p, 0));
    assert s.entering == map[1 := Entering(b, p)];
    es, s := Then(cfg, es, s, EnterPort(1));
  }

  /** Not only removals are to be kept out: when the second registration of `b` has inserted its
      session on `q` and not entered it, the listener that the first one spawns finds the entry of
      `a` there. */
  lemma SpawnHijacks(cfg: Config, a: u32, b: u32, p: u16, q: u16, x: u16) returns (es: seq<Event>, s: State)
    requires cfg.maxSessions >= 1 && p != 0 && q != 0 && x != 0 && a != b && p != q && p != x && q != x
    ensures Exec(cfg, es) == Some(s) && NoRemoval(es)
    ensures Step(cfg, s, Spawn(1, 5)).Some? && Hijacks(s, Spawn(1, 5)) && Disturbs(s, Spawn(1, 5))
  {
    es, s := OtherEntered(cfg, a, b, p, q, x);
    es, s := Then(cfg, es, s, Insert(3, q, 0));
    assert s.entering[3] == Entering(b, q);
    assert IsEntering(s, b);
  }
}
