/** Which entries of the port table belong to nothing, and how long a listener lives. */
module RelayPorts {
  import opened Bits
  import opened Text
  import opened RelayTables
  import opened RelaySteps
  import opened RelayIsolation

  // ---------------------------------------------------------------- stray entries

  /** Every entry of the port table belongs to a session or to a removal in progress. */
  ghost predicate NoStray(sessions: Sessions, ports: Ports, dropping: set<u16>) {
    forall p :: p in ports && p !in dropping ==> ports[p] in sessions && sessions[ports[p]].forwardPort == p
  }

  ghost predicate NoStrayPort(s: State) { NoStray(s.sessions, s.ports, s.dropping) }

  /** The step inserts a session over one whose port is entered, or enters a port whose session is
      gone or on another port, and that no removal in progress is about to drop. */
  predicate Strays(s: State, e: Event) {
    match e
    case Insert(r, _, _) =>
      && r in s.registrations && s.registrations[r].token in s.sessions
      && s.sessions[s.registrations[r].token].forwardPort in s.ports
    case EnterPort(r) =>
      && r in s.entering && s.entering[r].port !in s.dropping
      && !(s.entering[r].token in s.sessions && s.sessions[s.entering[r].token].forwardPort == s.entering[r].port)
    case _ => false
  }

  /** Of all steps, exactly those leave an entry that belongs to nothing. */
  lemma StrayPortExactly(cfg: Config, s: State, e: Event)
    requires SocketsInv(s) && NoStrayPort(s) && Step(cfg, s, e).Some?
    ensures NoStrayPort(Step(cfg, s, e).value) <==> !Strays(s, e)
  {
    match e
    case Insert(_, _, _) => InsertStrays(cfg, s, e);
    case EnterPort(r) => EnterPortStrays(s, r);
    case ClientPacket(data, addr, now) =>
      ClassifyFrame(s.sessions, data, addr, now);
      StrayFrame(s.sessions, Classify(s.sessions, data, addr, now).1, s.ports, s.dropping);
    case Respond(l, payload) =>
      RespondFewer(s, l, payload);
      StrayFrame(s.sessions, DoRespond(s, l, payload).value.sessions, s.ports, s.dropping);
    case Clear(r) => RetireStraysNot(s, s.registrations[r].token);
    case Remove(token) => RetireStraysNot(s, token);
    case DropPort(_) =>
    case _ =>
      OthersLeaveSessions(cfg, s, e);
      if TouchesPorts(e) {
        ListenersLeaveEntries(cfg, s, e);
      } else {
        OthersLeavePorts(cfg, s, e);
      }
  }

  lemma ListenersLeaveEntries(cfg: Config, s: State, e: Event)
    requires Step(cfg, s, e).Some? && (e.Spawn? || e.Lookup? || e.ListenerFails?)
    ensures Step(cfg, s, e).value.ports == s.ports
  {
    match e
    case Spawn(_, _) =>
    case Lookup(_) =>
    case ListenerFails(_) =>
  }

  lemma StrayFrame(sessions: Sessions, sessions': Sessions, ports: Ports, dropping: set<u16>)
    requires sessions'.Keys == sessions.Keys
    requires forall t :: t in sessions ==> sessions'[t].forwardPort == sessions[t].forwardPort
    ensures NoStray(sessions, ports, dropping) <==> NoStray(sessions', ports, dropping)
  {
  }

  lemma RetireStraysNot(s: State, token: u32)
    requires NoStrayPort(s)
    ensures NoStrayPort(Retire(s, token))
  {
  }

  lemma InsertStrays(cfg: Config, s: State, e: Event)
    requires SocketsInv(s) && NoStrayPort(s) && e.Insert? && DoInsert(cfg, s, e).Some?
    ensures NoStrayPort(DoInsert(cfg, s, e).value) <==> !Strays(s, e)
  {
  }

  lemma EnterPortStrays(s: State, r: nat)
    requires NoStrayPort(s) && DoEnterPort(s, r).Some?
    ensures NoStrayPort(DoEnterPort(s, r).value) <==> !Strays(s, EnterPort(r))
  {
  }

  /** Among undisturbed registrations, only one that inserts over a live session strays. */
  lemma UndisturbedStrays(s: State, e: Event)
    requires CalmInv(s) && !Disturbs(s, e)
    ensures Strays(s, e) <==>
      e.Insert? && e.r in s.registrations && s.registrations[e.r].token in s.sessions
  {
  }

  /** Overlap of two registrations of one token: afterwards the first port still leads to the
      token, whose session is on the second port, and nothing is in progress. */
  lemma OverlapLeavesStrayPort(cfg: Config, token: u32, p: u16, q: u16) returns (es: seq<Event>)
    requires cfg.maxSessions >= 1 && p != 0 && q != 0 && p != q
    ensures Exec(cfg, es).Some? && !NoStrayPort(Exec(cfg, es).value)
    ensures Exec(cfg, es).value.entering == map[] && Exec(cfg, es).value.dropping == {}
  {
    var s;
    es, s := StrayOfOther(cfg, token, token, p, q);
    assert p in s.ports && s.ports[p] == token && s.sessions[token].forwardPort == q;
  }

  /** A removal between the two insertions of one registration: no session is left, and the port
      still leads to the token. */
  lemma RemovalLeavesStrayPort(cfg: Config, token: u32, p: u16) returns (es: seq<Event>)
    requires cfg.maxSessions >= 1 && p != 0
    ensures Exec(cfg, es).Some?
    ensures var s := Exec(cfg, es).value; s.sessions == map[] && s.ports == map[p := token] && s.dropping == {} && s.entering == map[]
  {
    var s;
    es, s := RemovedBetween(cfg, token, token, p);
    es, s := Then(cfg, es, s, EnterPort(0));
  }

  // ---------------------------------------------------------------- the life of a listener

  /** A listener ends at a step exactly if it looks up its port and finds no entry, finds the
      session of the entry gone, or fails to receive. */
  lemma ListenerEndsExactly(cfg: Config, s: State, e: Event, l: nat)
    requires Step(cfg, s, e).Some? && l in s.listeners
    ensures l !in Step(cfg, s, e).value.listeners <==>
      || (e == Lookup(l) && s.listeners[l].port !in s.ports)
      || (e.Respond? && e.l == l && s.listeners[l].found.Some? && s.listeners[l].found.value !in s.sessions)
      || e == ListenerFails(l)
  {
    match e
    case Spawn(_, _) =>
    case EnterPort(_) =>
    case DropPort(_) =>
    case Lookup(_) =>
    case Respond(_, _) =>
    case ListenerFails(_) =>
    case _ => OthersLeavePorts(cfg, s, e);
  }

  /** A session with its listener. */
  lemma Listening(cfg: Config, token: u32, p: u16) returns (es: seq<Event>, s: State)
    requires cfg.maxSessions >= 1 && p != 0
    ensures Exec(cfg, es) == Some(s)
    ensures s.sessions.Keys == {token} && s.sessions[token].forwardPort == p && s.ports == map[p := token]
    ensures s.listeners == map[0 := Listener(token, p, None)]
    ensures s.dropping == {} && s.entering == map[] && s.spawning == map[]
  {
    es, s := [], INITIAL;
    es, s := Then(cfg, es, s, Check(0, token, [], []));
    es, s := Then(cfg, es, s, Clear(0));
    es, s := Then(cfg, es, s, Insert(0, p, 0));
    es, s := Then(cfg, es, s, EnterPort(0));
    es, s := Then(cfg, es, s, Spawn(0, 0));
  }

  /** A removal does not end the listener: the tables are empty, and it still holds its socket. */
  lemma ListenerOutlivesSession(cfg: Config, token: u32, p: u16) returns (es: seq<Event>)
    requires cfg.maxSessions >= 1 && p != 0
    ensures Exec(cfg, es).Some?
    ensures var s := Exec(cfg, es).value;
      && s.sessions == map[] && s.ports == map[] && s.dropping == {} && s.entering == map[] && s.spawning == map[]
      && s.listeners == map[0 := Listener(token, p, None)] && Orphaned(s, 0) && !PortFree(s, p)
  {
    var s;
    es, s := Listening(cfg, token, p);
    es, s := Then(cfg, es, s, Remove(token));
    es, s := Then(cfg, es, s, DropPort(p));
    assert 0 in s.listeners;
    assert s.sessions == map[] && s.ports == map[];
  }

  /** The listener waits for a datagram on a port without an entry, and no registration is about to
      enter that port. */
  ghost predicate Orphaned(s: State, l: nat) {
    && l in s.listeners && s.listeners[l].found.None? && s.listeners[l].port !in s.ports
    && forall r :: r in s.entering ==> s.entering[r].port != s.listeners[l].port
  }

  lemma OthersLeaveEntering(cfg: Config, s: State, e: Event)
    requires Step(cfg, s, e).Some? && !e.Insert? && !e.EnterPort?
    ensures Step(cfg, s, e).value.entering == s.entering
  {
    match e
    case Check(_, _, _, _) =>
    case Clear(_) =>
    case BindFails(_) =>
    case Spawn(_, _) =>
    case Remove(_) =>
    case DropPort(_) =>
    case ClientPacket(_, _, _) =>
    case SendDone(_) =>
    case Lookup(_) =>
    case Respond(_, _) =>
    case ListenerFails(_) =>
  }

  predicate Ends(e: Event, l: nat) { e == Lookup(l) || e == ListenerFails(l) }

  predicate RespondsAs(e: Event, l: nat) { e.Respond? && e.l == l }

  lemma ListenersLeaveOrphan(cfg: Config, s: State, e: Event, l: nat)
    requires Orphaned(s, l) && Step(cfg, s, e).Some? && !Ends(e, l)
    requires e.Spawn? || e.Lookup? || e.Respond? || e.ListenerFails?
    ensures Orphaned(Step(cfg, s, e).value, l)
  {
    OthersLeaveEntering(cfg, s, e);
    match e
    case Spawn(_, _) =>
    case Lookup(_) =>
    case Respond(_, _) =>
    case ListenerFails(_) =>
  }

  lemma InsertLeavesOrphan(cfg: Config, s: State, e: Event, l: nat)
    requires Orphaned(s, l) && e.Insert? && DoInsert(cfg, s, e).Some?
    ensures Orphaned(DoInsert(cfg, s, e).value, l)
  {
    assert e.port != s.listeners[l].port;
  }

  lemma OrphanStays(cfg: Config, s: State, e: Event, l: nat)
    requires Orphaned(s, l) && Step(cfg, s, e).Some? && !Ends(e, l)
    ensures Orphaned(Step(cfg, s, e).value, l) && !RespondsAs(e, l)
  {
    match e
    case Insert(_, _, _) => InsertLeavesOrphan(cfg, s, e, l);
    case EnterPort(_) =>
    case DropPort(_) =>
    case Spawn(_, _) => ListenersLeaveOrphan(cfg, s, e, l);
    case Lookup(_) => ListenersLeaveOrphan(cfg, s, e, l);
    case Respond(_, _) => ListenersLeaveOrphan(cfg, s, e, l);
    case ListenerFails(_) => ListenersLeaveOrphan(cfg, s, e, l);
    case _ =>
      OthersLeavePorts(cfg, s, e);
      OthersLeaveEntering(cfg, s, e);
  }

  predicate Undisturbing(es: seq<Event>, l: nat) {
    forall i :: 0 <= i < |es| ==> !Ends(es[i], l)
  }

  predicate NoResponseOf(es: seq<Event>, l: nat) {
    forall i :: 0 <= i < |es| ==> !RespondsAs(es[i], l)
  }

  lemma OrphanStaysFurther(cfg: Config, es: seq<Event>, e: Event, l: nat)
    requires Exec(cfg, es).Some? && Orphaned(Exec(cfg, es).value, l) && Exec(cfg, es + [e]).Some? && !Ends(e, l)
    ensures Orphaned(Exec(cfg, es + [e]).value, l) && !RespondsAs(e, l)
  {
    ExecAppend(cfg, es, e);
    OrphanStays(cfg, Exec(cfg, es).value, e, l);
  }

  lemma StillUndisturbing(after: seq<Event>, l: nat)
    requires after != [] && Undisturbing(after, l)
    ensures !Ends(after[0], l) && Undisturbing(after[1..], l)
    ensures !RespondsAs(after[0], l) && NoResponseOf(after[1..], l) ==> NoResponseOf(after, l)
  {
    assert after == [after[0]] + after[1..];
  }

  lemma {:induction false} OrphanStaysOrphaned(cfg: Config, before: seq<Event>, after: seq<Event>, l: nat)
    requires Exec(cfg, before).Some? && Orphaned(Exec(cfg, before).value, l)
    requires Exec(cfg, before + after).Some? && Undisturbing(after, l)
    ensures Orphaned(Exec(cfg, before + after).value, l) && NoResponseOf(after, l)
    decreases |after|
  {
    if after == [] {
      assert before + after == before;
    } else {
      var first := before + [after[0]];
      assert before + after == first + after[1..];
      assert (before + after)[..|first|] == first;
      PrefixHappens(cfg, before + after, |first|);
      StillUndisturbing(after, l);
      OrphanStaysFurther(cfg, before, after[0], l);
      OrphanStaysOrphaned(cfg, first, after[1..], l);
    }
  }

  lemma LookupEndsOrphan(cfg: Config, s: State, l: nat)
    requires Orphaned(s, l)
    ensures Step(cfg, s, Lookup(l)).Some? && l !in Step(cfg, s, Lookup(l)).value.listeners
  {
  }

  /** Nothing brings an orphaned listener back, as it holds its port: until its next datagram it
      sends nothing, whatever the other tasks do, and that datagram ends it. */
  lemma NextDatagramEndsListener(cfg: Config, before: seq<Event>, after: seq<Event>, l: nat)
    requires Exec(cfg, before).Some? && Orphaned(Exec(cfg, before).value, l)
    requires Exec(cfg, before + after).Some? && Undisturbing(after, l)
    ensures NoResponseOf(after, l)
    ensures var s := Exec(cfg, before + after).value;
      Step(cfg, s, Lookup(l)).Some? && l !in Step(cfg, s, Lookup(l)).value.listeners
  {
    OrphanStaysOrphaned(cfg, before, after, l);
    LookupEndsOrphan(cfg, Exec(cfg, before + after).value, l);
  }
}
