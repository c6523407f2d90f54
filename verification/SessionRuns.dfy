/** Session admission over whole runs of starts and stops, with administrators stopping sessions
    and editing games and nodes in between. An administrator deactivates a node but never deletes
    its row.
 */
module SessionRuns {
  import opened Text
  import opened SessionAdmission

  datatype Event =
    | Start(user: Id, slug: string, node: Id, multipath: bool, id: Id, token: nat, now: int)
    | Stop(id: Id, user: Id, now: int)
    | AdminStop(id: Id, now: int)
    | GamesEdited(games: map<string, Id>)
    | NodesEdited(nodes: map<Id, Node>)

  /** The accepted starts and stops of sessions, with the calls to relays that each made. */
  datatype Entry =
    | Began(id: Id, user: Id, calls: seq<Call>)
    | Finished(id: Id, user: Id, calls: seq<Call>)

  datatype State = State(db: Db, log: seq<Entry>)

  predicate Possible(db: Db, e: Event) {
    match e
    case Start(_, _, _, _, id, _, _) => id !in db.sessions
    case NodesEdited(nodes) => db.nodes.Keys <= nodes.Keys
    case _ => true
  }

  function Begin(s: State, id: Id, session: Session): State
    requires NodesStored(s.db.nodes, session)
  {
    State(s.db.(sessions := s.db.sessions[id := session]),
          s.log + [Began(id, session.user, StartCalls(s.db.nodes, session))])
  }

  function Finish(s: State, id: Id, now: int, calls: seq<Call>): State
    requires id in s.db.sessions
  {
    var session := s.db.sessions[id];
    State(s.db.(sessions := s.db.sessions[id := Ended(session, now)]), s.log + [Finished(id, session.user, calls)])
  }

  lemma AdmittedIsStored(db: Db, user: Id, slug: string, node: Id, multipath: bool, token: nat, now: int)
    requires Admit(db, user, slug, node, multipath, token, now).Success?
    ensures NodesStored(db.nodes, Admit(db, user, slug, node, multipath, token, now).value)
  {
  }

  function Step(s: State, e: Event): State
    requires Possible(s.db, e)
  {
    match e
    case Start(user, slug, node, multipath, id, token, now) =>
      (match Admit(s.db, user, slug, node, multipath, token, now)
       case Success(session) => AdmittedIsStored(s.db, user, slug, node, multipath, token, now); Begin(s, id, session)
       case Failure(_) => s)
    case Stop(id, user, now) =>
      if MayStop(s.db.sessions, id, user) then Finish(s, id, now, StopCalls(s.db.nodes, s.db.sessions[id])) else s
    case AdminStop(id, now) =>
      if id in s.db.sessions && s.db.sessions[id].status == Active then Finish(s, id, now, []) else s
    case GamesEdited(games) => s.(db := s.db.(games := games))
    case NodesEdited(nodes) => s.(db := s.db.(nodes := nodes))
  }

  function Exec(games: map<string, Id>, nodes: map<Id, Node>, es: seq<Event>): Option<State> {
    if es == [] then Some(State(Db(games, nodes, map[]), [])) else
    match Exec(games, nodes, es[..|es| - 1])
    case None => None
    case Some(s) => if Possible(s.db, es[|es| - 1]) then Some(Step(s, es[|es| - 1])) else None
  }

  // ---------------------------------------------------------------- one session at a time

  /** The session that a user has begun and not finished, as the log tells it. */
  function Current(log: seq<Entry>, user: Id): Option<Id> {
    if log == [] then None else
    var last := log[|log| - 1];
    if last.user != user then Current(log[..|log| - 1], user)
    else if last.Began? then Some(last.id) else None
  }

  /** The entry is the turn of its user: it begins a session when there is none, or finishes the
      one there is. */
  predicate InTurn(before: seq<Entry>, entry: Entry) {
    Current(before, entry.user) == if entry.Began? then None else Some(entry.id)
  }

  predicate Alternates(log: seq<Entry>) {
    forall i :: 0 <= i < |log| ==> InTurn(log[..i], log[i])
  }

  function Rows(current: Option<Id>): set<Id> { if current.Some? then {current.value} else {} }

  /** The active rows of every user are what the log says: at most one. */
  ghost predicate OneAtATime(s: State) {
    && Alternates(s.log)
    && forall u: Id :: ActiveOf(s.db.sessions, u) == Rows(Current(s.log, u))
  }

  lemma NoRows(current: Option<Id>)
    ensures Rows(current) == {} <==> current.None?
  {
  }

  lemma CurrentNext(log: seq<Entry>, entry: Entry, u: Id)
    ensures Current(log + [entry], u)
         == if entry.user != u then Current(log, u) else if entry.Began? then Some(entry.id) else None
  {
  }

  lemma AlternatesNext(log: seq<Entry>, entry: Entry)
    requires Alternates(log) && InTurn(log, entry)
    ensures Alternates(log + [entry])
  {
    var longer := log + [entry];
    forall i | 0 <= i < |longer|
      ensures InTurn(longer[..i], longer[i])
    {
      assert longer[..i] == log[..i];
      if i == |log| { assert log[..i] == log; }
    }
  }

  lemma BeginKeepsTurns(s: State, id: Id, session: Session)
    requires OneAtATime(s) && id !in s.db.sessions && NodesStored(s.db.nodes, session)
    requires session.status == Active && ActiveOf(s.db.sessions, session.user) == {}
    ensures OneAtATime(Begin(s, id, session))
  {
    var s', entry := Begin(s, id, session), Began(id, session.user, StartCalls(s.db.nodes, session));
    NoRows(Current(s.log, session.user));
    AlternatesNext(s.log, entry);
    forall u: Id
      ensures ActiveOf(s'.db.sessions, u) == Rows(Current(s'.log, u))
    {
      CurrentNext(s.log, entry, u);
      assert ActiveOf(s'.db.sessions, u) == ActiveOf(s.db.sessions, u) + if u == session.user then {id} else {};
    }
  }

  lemma EndedIsInactive(sessions: map<Id, Session>, id: Id, now: int, u: Id)
    requires id in sessions
    ensures ActiveOf(sessions[id := Ended(sessions[id], now)], u) == ActiveOf(sessions, u) - {id}
  {
  }

  lemma FinishKeepsTurns(s: State, id: Id, now: int, calls: seq<Call>)
    requires OneAtATime(s) && id in s.db.sessions && s.db.sessions[id].status == Active
    ensures OneAtATime(Finish(s, id, now, calls))
  {
    var session := s.db.sessions[id];
    var s', entry := Finish(s, id, now, calls), Finished(id, session.user, calls);
    assert id in ActiveOf(s.db.sessions, session.user);
    AlternatesNext(s.log, entry);
    forall u: Id
      ensures ActiveOf(s'.db.sessions, u) == Rows(Current(s'.log, u))
    {
      CurrentNext(s.log, entry, u);
      EndedIsInactive(s.db.sessions, id, now, u);
    }
  }

  lemma StepKeepsTurns(s: State, e: Event)
    requires OneAtATime(s) && Possible(s.db, e)
    ensures OneAtATime(Step(s, e))
  {
    match e
    case Start(user, slug, node, multipath, id, token, now) =>
      var r := Admit(s.db, user, slug, node, multipath, token, now);
      if r.Success? {
        AdmittedIsStored(s.db, user, slug, node, multipath, token, now);
        BeginKeepsTurns(s, id, r.value);
      }
    case Stop(id, user, now) =>
      if MayStop(s.db.sessions, id, user) { FinishKeepsTurns(s, id, now, StopCalls(s.db.nodes, s.db.sessions[id])); }
    case AdminStop(id, now) =>
      if id in s.db.sessions && s.db.sessions[id].status == Active { FinishKeepsTurns(s, id, now, []); }
    case _ =>
  }

  /** In every run, the sessions of each user begin and finish in turn, and at most one is active:
      the query for an existing session never raises. */
  lemma {:induction false} OneActiveSession(games: map<string, Id>, nodes: map<Id, Node>, es: seq<Event>, user: Id)
    requires Exec(games, nodes, es).Some?
    ensures var s := Exec(games, nodes, es).value;
      && OneAtATime(s) && |ActiveOf(s.db.sessions, user)| <= 1
      && OneOrNone(ActiveOf(s.db.sessions, user)) == Success(Current(s.log, user))
  {
    if es == [] {
    } else {
      OneActiveSession(games, nodes, es[..|es| - 1], user);
      StepKeepsTurns(Exec(games, nodes, es[..|es| - 1]).value, es[|es| - 1]);
    }
  }

  // ---------------------------------------------------------------- outcomes

  /** When a start fails in a reachable state, and how. It adds no row then. */
  lemma StartOutcome(games: map<string, Id>, nodes: map<Id, Node>, es: seq<Event>,
                     user: Id, slug: string, node: Id, multipath: bool, id: Id, token: nat, now: int)
    requires Exec(games, nodes, es).Some? && id !in Exec(games, nodes, es).value.db.sessions
    ensures var s := Exec(games, nodes, es).value;
      var known := slug in s.db.games;
      var usable := node in s.db.nodes && s.db.nodes[node].active;
      var busy := Current(s.log, user).Some?;
      var r := Admit(s.db, user, slug, node, multipath, token, now);
      && (r == Failure(GameNotFound) <==> !known)
      && (r == Failure(NodeNotFound) <==> known && !usable)
      && (r == Failure(AlreadyActive) <==> known && usable && busy)
      && (r == Failure(MultipleRows) <==>
            known && usable && !busy && multipath && Ambiguous(s.db.nodes, node, s.db.nodes[node].location))
      && (r.Failure? <==> Step(s, Start(user, slug, node, multipath, id, token, now)) == s)
  {
    var s := Exec(games, nodes, es).value;
    OneActiveSession(games, nodes, es, user);
    if node in s.db.nodes {
      BackupFoundExactly(s.db.nodes, node, s.db.nodes[node].location);
    }
  }

  /** When a stop ends a session, and what that does: the row is stopped now and else as before, no
      other row changes, and the log has one more entry, without calls if an administrator stops it. */
  lemma StopOutcome(s: State, e: Event)
    requires e.Stop? || e.AdminStop?
    ensures var rows := s.db.sessions;
      var ends := e.id in rows && rows[e.id].status == Active && (e.Stop? ==> rows[e.id].user == e.user);
      var s' := Step(s, e);
      && (ends <==> s' != s)
      && (ends ==>
            && s'.db == s.db.(sessions := rows[e.id := rows[e.id].(status := Stopped, endedAt := Some(e.now))])
            && |s'.log| == |s.log| + 1 && s'.log[..|s.log|] == s.log
            && s'.log[|s.log|].Finished? && s'.log[|s.log|].id == e.id && s'.log[|s.log|].user == rows[e.id].user
            && (e.AdminStop? ==> s'.log[|s.log|].calls == []))
  {
    assert Step(s, e) != s ==> |Step(s, e).log| == |s.log| + 1;
  }

  /** An edit replaces the games or the nodes, and neither touches a session nor calls a relay. */
  lemma EditsTouchNoSession(s: State, e: Event)
    requires Possible(s.db, e) && (e.GamesEdited? || e.NodesEdited?)
    ensures Step(s, e) == State(Db(if e.GamesEdited? then e.games else s.db.games,
                                   if e.NodesEdited? then e.nodes else s.db.nodes,
                                   s.db.sessions), s.log)
  {
  }

  /** What a row says about its session, from its start on. */
  ghost predicate Sound(nodes: map<Id, Node>, session: Session) {
    && (session.multipath <==> session.backup.Some?)
    && (session.status == Stopped <==> session.endedAt.Some?)
    && NodesStored(nodes, session)
    && (session.backup.Some? ==> session.backup.value != session.node)
  }

  ghost predicate AllSound(db: Db) {
    forall id :: id in db.sessions ==> Sound(db.nodes, db.sessions[id])
  }

  /** The row that a start adds: on the node asked for, with a good backup if there is any and one
      was asked for, and on several paths exactly if it has a backup. */
  lemma AdmittedSession(db: Db, user: Id, slug: string, node: Id, multipath: bool, token: nat, now: int)
    requires Admit(db, user, slug, node, multipath, token, now).Success?
    ensures var row := Admit(db, user, slug, node, multipath, token, now).value;
      && slug in db.games && node in db.nodes && db.nodes[node].active
      && row == Session(user, node, db.games[slug], token, Active, now, None, row.backup, row.multipath)
      && Sound(db.nodes, row)
      && ActiveOf(db.sessions, user) == {}
      && (row.multipath <==> multipath && exists n :: n in db.nodes && n != node && db.nodes[n].active)
      && (row.multipath ==> GoodBackup(db.nodes, node, db.nodes[node].location, row.backup.value))
  {
    BackupFoundExactly(db.nodes, node, db.nodes[node].location);
    if multipath && ChosenBackup(db.nodes, node, multipath).value.Some? {
      var n := ChosenBackup(db.nodes, node, multipath).value.value;
      assert n in db.nodes && n != node && db.nodes[n].active;
    }
  }

  lemma StepKeepsSound(s: State, e: Event)
    requires AllSound(s.db) && Possible(s.db, e)
    ensures AllSound(Step(s, e).db)
  {
  }

  // ---------------------------------------------------------------- relay calls

  /** The calls that take back some registrations. */
  function Undone(calls: seq<Call>): seq<Call> {
    seq(|calls|, i requires 0 <= i < |calls| => Unregister(calls[i].address, calls[i].token))
  }

  /** The calls register a session's token once for each of its nodes. */
  predicate RegistersFor(session: Session, calls: seq<Call>) {
    && |calls| == (if session.backup.Some? then 2 else 1)
    && forall i :: 0 <= i < |calls| ==> calls[i] == Register(calls[i].address, session.token)
  }

  ghost predicate CallsMatch(s: State) {
    forall i :: 0 <= i < |s.log| ==>
      s.log[i].id in s.db.sessions && (s.log[i].Began? ==> RegistersFor(s.db.sessions[s.log[i].id], s.log[i].calls))
  }

  lemma StepKeepsCalls(s: State, e: Event)
    requires CallsMatch(s) && Possible(s.db, e)
    ensures CallsMatch(Step(s, e))
  {
  }

  lemma {:induction false} RunIsSound(games: map<string, Id>, nodes: map<Id, Node>, es: seq<Event>)
    requires Exec(games, nodes, es).Some?
    ensures AllSound(Exec(games, nodes, es).value.db) && CallsMatch(Exec(games, nodes, es).value)
  {
    if es == [] {
    } else {
      RunIsSound(games, nodes, es[..|es| - 1]);
      StepKeepsSound(Exec(games, nodes, es[..|es| - 1]).value, es[|es| - 1]);
      StepKeepsCalls(Exec(games, nodes, es[..|es| - 1]).value, es[|es| - 1]);
    }
  }

  /** The nodes of the session have, in whatever order, the addresses at which these calls
      registered it. */
  predicate SameRelays(nodes: map<Id, Node>, session: Session, calls: seq<Call>)
    requires NodesStored(nodes, session) && RegistersFor(session, calls)
  {
    var first := nodes[session.node].address;
    if session.backup.None? then first == calls[0].address else
    var second := nodes[session.backup.value].address;
    || (first == calls[0].address && second == calls[1].address)
    || (first == calls[1].address && second == calls[0].address)
  }

  lemma SamePairs(a: Call, b: Call, c: Call, d: Call)
    ensures multiset([a, b]) == multiset([c, d]) <==> (a == c && b == d) || (a == d && b == c)
  {
    assert multiset([a, b]) == multiset{a, b} && multiset([c, d]) == multiset{c, d};
    if multiset{a, b} == multiset{c, d} {
      assert a in multiset{c, d} && b in multiset{c, d} && c in multiset{a, b} && d in multiset{a, b};
    }
  }

  lemma SameOnes(a: Call, c: Call)
    ensures multiset([a]) == multiset([c]) <==> a == c
  {
    assert a in multiset([a]) && c in multiset([c]);
  }

  lemma SinglePathCalls(nodes: map<Id, Node>, session: Session, calls: seq<Call>)
    requires NodesStored(nodes, session) && RegistersFor(session, calls) && session.backup.None?
    ensures StopCalls(nodes, session) == [Unregister(nodes[session.node].address, session.token)]
    ensures Undone(calls) == [Unregister(calls[0].address, session.token)]
  {
  }

  lemma BothPathsCalls(nodes: map<Id, Node>, session: Session, calls: seq<Call>)
    requires NodesStored(nodes, session) && RegistersFor(session, calls) && session.backup.Some?
    ensures StopCalls(nodes, session)
         == [Unregister(nodes[session.node].address, session.token),
             Unregister(nodes[session.backup.value].address, session.token)]
    ensures Undone(calls) == [Unregister(calls[0].address, session.token), Unregister(calls[1].address, session.token)]
  {
    assert calls[0] == Register(calls[0].address, session.token) && calls[1] == Register(calls[1].address, session.token);
  }

  lemma UndoneExactly(nodes: map<Id, Node>, session: Session, calls: seq<Call>)
    requires NodesStored(nodes, session) && RegistersFor(session, calls)
    ensures multiset(StopCalls(nodes, session)) == multiset(Undone(calls)) <==> SameRelays(nodes, session, calls)
    ensures |StopCalls(nodes, session)| == |calls|
  {
    if session.backup.None? {
      SinglePathCalls(nodes, session, calls);
      SameOnes(Unregister(nodes[session.node].address, session.token), Unregister(calls[0].address, session.token));
    } else {
      BothPathsCalls(nodes, session, calls);
      SamePairs(Unregister(nodes[session.node].address, session.token),
                Unregister(nodes[session.backup.value].address, session.token),
                Unregister(calls[0].address, session.token), Unregister(calls[1].address, session.token));
    }
  }

  /** In every run, a session that its user stops is unregistered once for each of its nodes, with
      its token; and on just the relays where it was registered exactly if its nodes still have
      those addresses between them. One that an administrator stops is unregistered nowhere. */
  lemma StoppedWhereStarted(games: map<string, Id>, nodes: map<Id, Node>, es: seq<Event>, e: Event) returns (i: nat)
    requires Exec(games, nodes, es).Some? && (e.Stop? || e.AdminStop?)
    requires var s := Exec(games, nodes, es).value; Possible(s.db, e) && Step(s, e) != s
    ensures var s := Exec(games, nodes, es).value;
      && e.id in s.db.sessions
      && i < |s.log| && s.log[i].Began? && s.log[i].id == e.id
      && var session := s.db.sessions[e.id];
      && NodesStored(s.db.nodes, session) && RegistersFor(session, s.log[i].calls)
      && var stop := if e.Stop? then StopCalls(s.db.nodes, session) else [];
      && Step(s, e).log == s.log + [Finished(e.id, s.log[i].user, stop)]
      && (multiset(stop) == multiset(Undone(s.log[i].calls)) <==> e.Stop? && SameRelays(s.db.nodes, session, s.log[i].calls))
  {
    var s := Exec(games, nodes, es).value;
    var session := s.db.sessions[e.id];
    RunIsSound(games, nodes, es);
    OneActiveSession(games, nodes, es, session.user);
    assert e.id in ActiveOf(s.db.sessions, session.user);
    i := CurrentBegan(s.log, session.user);
    assert Sound(s.db.nodes, session);
    UndoneExactly(s.db.nodes, session, s.log[i].calls);
    var undone := Undone(s.log[i].calls);
    assert |multiset(undone)| == |undone| > 0;
  }

  lemma {:induction false} CurrentBegan(log: seq<Entry>, user: Id) returns (i: nat)
    requires Current(log, user).Some?
    ensures i < |log| && log[i].Began? && log[i].id == Current(log, user).value && log[i].user == user
  {
    if log[|log| - 1].user == user {
      i := |log| - 1;
    } else {
      i := CurrentBegan(log[..|log| - 1], user);
    }
  }

  // ---------------------------------------------------------------- from start to stop

  /** A start registers the session's token once on each of its nodes, at the address stored then. */
  lemma StartCallsEachNode(nodes: map<Id, Node>, session: Session)
    requires NodesStored(nodes, session)
    ensures session.backup.None? ==> StartCalls(nodes, session) == [Register(nodes[session.node].address, session.token)]
    ensures session.backup.Some? ==>
      StartCalls(nodes, session) == [Register(nodes[session.node].address, session.token),
                                     Register(nodes[session.backup.value].address, session.token)]
  {
  }

  /** Since a start, the session still has its user, nodes and token, and the nodes their addresses. */
  ghost predicate Kept(start: State, id: Id, session: Session, s: State) {
    && NodesStored(start.db.nodes, session)
    && id in s.db.sessions
    && s.db.sessions[id].(status := session.status, endedAt := session.endedAt) == session
    && s.db.nodes == start.db.nodes
    && |start.log| < |s.log|
    && s.log[..|start.log|] == start.log
    && s.log[|start.log|] == Began(id, session.user, StartCalls(start.db.nodes, session))
  }

  lemma BegunIsKept(s: State, e: Event)
    requires e.Start? && Possible(s.db, e)
    requires Admit(s.db, e.user, e.slug, e.node, e.multipath, e.token, e.now).Success?
    ensures Kept(s, e.id, Admit(s.db, e.user, e.slug, e.node, e.multipath, e.token, e.now).value, Step(s, e))
  {
    AdmittedIsStored(s.db, e.user, e.slug, e.node, e.multipath, e.token, e.now);
  }

  lemma StepKeeps(start: State, id: Id, session: Session, s: State, e: Event)
    requires Kept(start, id, session, s) && Possible(s.db, e) && !e.NodesEdited?
    ensures Kept(start, id, session, Step(s, e))
  {
    assert |s.log| <= |Step(s, e).log| && Step(s, e).log[..|s.log|] == s.log;
    assert Step(s, e).log[..|start.log|] == s.log[..|start.log|];
  }

  lemma ExecNext(games: map<string, Id>, nodes: map<Id, Node>, es: seq<Event>, e: Event)
    requires Exec(games, nodes, es + [e]).Some?
    ensures Exec(games, nodes, es).Some? && Possible(Exec(games, nodes, es).value.db, e)
    ensures Exec(games, nodes, es + [e]).value == Step(Exec(games, nodes, es).value, e)
  {
    assert (es + [e])[..|es|] == es;
  }

  predicate NoNodesEdited(es: seq<Event>) { forall i :: 0 <= i < |es| ==> !es[i].NodesEdited? }

  lemma {:induction false} RunKeeps(games: map<string, Id>, nodes: map<Id, Node>, before: seq<Event>, e: Event, es: seq<Event>)
    requires e.Start? && Exec(games, nodes, before + [e] + es).Some? && NoNodesEdited(es)
    ensures Exec(games, nodes, before).Some?
    ensures var s := Exec(games, nodes, before).value;
      var r := Admit(s.db, e.user, e.slug, e.node, e.multipath, e.token, e.now);
      r.Success? ==> Kept(s, e.id, r.value, Exec(games, nodes, before + [e] + es).value)
  {
    if es == [] {
      assert before + [e] + es == before + [e];
      ExecNext(games, nodes, before, e);
      var s := Exec(games, nodes, before).value;
      if Admit(s.db, e.user, e.slug, e.node, e.multipath, e.token, e.now).Success? {
        BegunIsKept(s, e);
      }
    } else {
      var fewer, last := es[..|es| - 1], es[|es| - 1];
      assert before + [e] + es == (before + [e] + fewer) + [last];
      ExecNext(games, nodes, before + [e] + fewer, last);
      RunKeeps(games, nodes, before, e, fewer);
      var s := Exec(games, nodes, before).value;
      var r := Admit(s.db, e.user, e.slug, e.node, e.multipath, e.token, e.now);
      if r.Success? {
        StepKeeps(s, e.id, r.value, Exec(games, nodes, before + [e] + fewer).value, last);
      }
    }
  }

  /** The calls that stop a kept session. */
  lemma KeptStopCalls(start: State, id: Id, session: Session, s: State)
    requires Kept(start, id, session, s)
    ensures var calls := StopCalls(s.db.nodes, s.db.sessions[id]);
      && (session.backup.None? ==> calls == [Unregister(s.db.nodes[session.node].address, session.token)])
      && (session.backup.Some? ==>
            calls == [Unregister(s.db.nodes[session.node].address, session.token),
                      Unregister(s.db.nodes[session.backup.value].address, session.token)])
  {
    var row := s.db.sessions[id];
    assert row.node == session.node && row.backup == session.backup && row.token == session.token;
  }

  /** If no node is edited from an accepted start to the user's stop of that session, whatever else
      happens in between, the start has registered the token once on each node of its row, and the
      stop unregisters it on just these. */
  lemma StopUndoesStart(games: map<string, Id>, nodes: map<Id, Node>, before: seq<Event>, e: Event, es: seq<Event>,
                        row: Session, user: Id, now: int)
    requires e.Start? && Exec(games, nodes, before + [e] + es).Some? && NoNodesEdited(es)
    requires MayStop(Exec(games, nodes, before + [e] + es).value.db.sessions, e.id, user)
    requires Exec(games, nodes, before).Some?
    requires Admit(Exec(games, nodes, before).value.db, e.user, e.slug, e.node, e.multipath, e.token, e.now) == Success(row)
    ensures
      var s, s' := Exec(games, nodes, before).value, Exec(games, nodes, before + [e] + es).value;
      var s'' := Step(s', Stop(e.id, user, now));
      && user == e.user
      && NodesStored(s.db.nodes, row)
      && var first := s.db.nodes[e.node].address;
      && |s.log| < |s'.log| && s''.log[..|s'.log|] == s'.log && |s''.log| == |s'.log| + 1
      && var began, finished := s'.log[|s.log|], s''.log[|s'.log|];
      && began.Began? && began.id == e.id && finished.Finished? && finished.id == e.id
      && (row.backup.None? ==>
            began.calls == [Register(first, e.token)] && finished.calls == [Unregister(first, e.token)])
      && (row.backup.Some? ==>
            var second := s.db.nodes[row.backup.value].address;
            && began.calls == [Register(first, e.token), Register(second, e.token)]
            && finished.calls == [Unregister(first, e.token), Unregister(second, e.token)])
  {
    RunKeeps(games, nodes, before, e, es);
    var s, s' := Exec(games, nodes, before).value, Exec(games, nodes, before + [e] + es).value;
    assert row.node == e.node && row.token == e.token && row.user == e.user;
    StartCallsEachNode(s.db.nodes, row);
    KeptStopCalls(s, e.id, row, s');
    assert s'.db.sessions[e.id].user == row.user;
  }
}
