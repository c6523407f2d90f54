/** Admission of sessions by the API: which start requests are accepted, the choice of a backup
    node, and stopping. Rows are kept by primary key, and games by their unique slug; a handler is
    one serial transaction. The new row's identifier, its token and the time come with the call.
 */
module SessionAdmission {
  import opened Text

  type Id = nat

  /** A node, with the address of its relay. */
  datatype Node = Node(location: string, active: bool, address: string)

  datatype Status = Active | Stopped

  datatype Session = Session(
    user: Id,
    node: Id,
    game: Id,
    token: nat,
    status: Status,
    startedAt: int,
    endedAt: Option<int>,
    backup: Option<Id>,
    multipath: bool)

  datatype Db = Db(games: map<string, Id>, nodes: map<Id, Node>, sessions: map<Id, Session>)

  datatype Error = GameNotFound | NodeNotFound | AlreadyActive | SessionNotFound | MultipleRows

  /** A request to the relay at an address. */
  datatype Call = Register(address: string, token: nat) | Unregister(address: string, token: nat)

  // ---------------------------------------------------------------- queries

  lemma OnlyElement(rows: set<Id>, x: Id)
    requires |rows| == 1 && x in rows
    ensures rows == {x}
  {
    assert |rows - {x}| == 0;
  }

  /** `scalar_one_or_none`: it raises for more than one row. */
  function OneOrNone(rows: set<Id>): (r: Result<Option<Id>, Error>)
    ensures r == Success(None) <==> rows == {}
    ensures forall x: Id :: r == Success(Some(x)) <==> rows == {x}
    ensures r.Failure? <==> |rows| > 1
    ensures r.Failure? ==> r.error == MultipleRows
  {
    if |rows| > 1 then Failure(MultipleRows)
    else if rows == {} then Success(None)
    else
      assert forall x :: x in rows ==> rows == {x} by {
        forall x | x in rows ensures rows == {x} { OnlyElement(rows, x); }
      }
      var x :| x in rows;
      Success(Some(x))
  }

  function Others(nodes: map<Id, Node>, primary: Id): set<Id> {
    set n | n in nodes && n != primary && nodes[n].active
  }

  function Elsewhere(nodes: map<Id, Node>, primary: Id, location: string): set<Id> {
    set n | n in nodes && n != primary && nodes[n].active && nodes[n].location != location
  }

  /** Mirrors `find_backup_node`. */
  function FindBackup(nodes: map<Id, Node>, primary: Id, location: string): Result<Option<Id>, Error> {
    var first := OneOrNone(Elsewhere(nodes, primary, location));
    if first.Failure? || first.value.Some? then first
    else OneOrNone(Others(nodes, primary))
  }

  /** There are several equally good backups: several in other locations, or none there and
      several in the same one. */
  predicate Ambiguous(nodes: map<Id, Node>, primary: Id, location: string) {
    |Elsewhere(nodes, primary, location)| > 1
    || (Elsewhere(nodes, primary, location) == {} && |Others(nodes, primary)| > 1)
  }

  /** What its description promises: a different location is preferred, else any other active node. */
  predicate GoodBackup(nodes: map<Id, Node>, primary: Id, location: string, n: Id) {
    && n in nodes && n != primary && nodes[n].active
    && (nodes[n].location != location
        || forall m :: m in nodes && m != primary && nodes[m].active ==> nodes[m].location == location)
  }

  /** The search finds what is promised, and nothing only if there is nothing, exactly when there
      is no second candidate as good; otherwise it raises. */
  lemma BackupFoundExactly(nodes: map<Id, Node>, primary: Id, location: string)
    ensures var r := FindBackup(nodes, primary, location);
      && (r == Failure(MultipleRows) <==> Ambiguous(nodes, primary, location))
      && (r == Success(None) <==> forall n :: n in nodes && n != primary ==> !nodes[n].active)
      && (r.Success? && r.value.Some? ==>
            && GoodBackup(nodes, primary, location, r.value.value)
            && forall n :: GoodBackup(nodes, primary, location, n) ==> n == r.value.value)
  {
    var off, all := Elsewhere(nodes, primary, location), Others(nodes, primary);
    assert off <= all;
    assert forall n :: n in nodes && n != primary && nodes[n].active ==>
      n in all && (n in off <==> nodes[n].location != location);
    var r := FindBackup(nodes, primary, location);
    if r.Success? && r.value.Some? {
      var x := r.value.value;
      assert off == {x} || (off == {} && all == {x});
      assert x in all;
      forall n | GoodBackup(nodes, primary, location, n)
        ensures n == x
      {
        assert n in all && (off == {} || n in off);
      }
    }
  }

  /** Ambiguous says no more than that there are two backups to choose from. */
  lemma AmbiguousMeansAChoice(nodes: map<Id, Node>, primary: Id, location: string)
    ensures Ambiguous(nodes, primary, location) <==>
      exists n, m :: n != m && GoodBackup(nodes, primary, location, n) && GoodBackup(nodes, primary, location, m)
  {
    BackupFoundExactly(nodes, primary, location);
    var off, all := Elsewhere(nodes, primary, location), Others(nodes, primary);
    if Ambiguous(nodes, primary, location) {
      assert forall n :: n in nodes && n != primary && nodes[n].active && nodes[n].location != location ==> n in off;
      var best := if |off| > 1 then off else all;
      var n :| n in best;
      assert |best - {n}| >= 1;
      var m :| m in best - {n};
      assert GoodBackup(nodes, primary, location, n) && GoodBackup(nodes, primary, location, m);
    }
  }

  function ThreeNodes(primary: Id, a: Id, b: Id): map<Id, Node> {
    map[primary := Node("DE", true, ""), a := Node("SE", true, ""), b := Node("US", true, "")]
  }

  /** With one active node in each of three locations, no session of several paths can start. */
  lemma ThreeLocationsRaise(primary: Id, a: Id, b: Id)
    requires primary != a && primary != b && a != b
    ensures FindBackup(ThreeNodes(primary, a, b), primary, "DE") == Failure(MultipleRows)
  {
    var nodes := ThreeNodes(primary, a, b);
    assert GoodBackup(nodes, primary, "DE", a) && GoodBackup(nodes, primary, "DE", b);
    AmbiguousMeansAChoice(nodes, primary, "DE");
    BackupFoundExactly(nodes, primary, "DE");
  }

  // ---------------------------------------------------------------- handlers on values

  function ActiveOf(sessions: map<Id, Session>, user: Id): set<Id> {
    set s | s in sessions && sessions[s].user == user && sessions[s].status == Active
  }

  /** The backup to store, if the search for one succeeds. */
  function ChosenBackup(nodes: map<Id, Node>, node: Id, multipath: bool): Result<Option<Id>, Error>
    requires node in nodes
  {
    if multipath then FindBackup(nodes, node, nodes[node].location) else Success(None)
  }

  /** Mirrors `start_session`: the row to add. */
  function Admit(db: Db, user: Id, slug: string, node: Id, multipath: bool, token: nat, now: int): Result<Session, Error> {
    if slug !in db.games then Failure(GameNotFound)
    else if node !in db.nodes || !db.nodes[node].active then Failure(NodeNotFound) else
    var existing := OneOrNone(ActiveOf(db.sessions, user));
    if existing.Failure? then Failure(MultipleRows)
    else if existing.value.Some? then Failure(AlreadyActive) else
    match ChosenBackup(db.nodes, node, multipath)
    case Failure(e) => Failure(e)
    case Success(backup) =>
      Success(Session(user, node, db.games[slug], token, Active, now, None, backup, backup.Some?))
  }

  function Ended(session: Session, now: int): Session {
    session.(status := Stopped, endedAt := Some(now))
  }

  predicate MayStop(sessions: map<Id, Session>, id: Id, user: Id) {
    id in sessions && sessions[id].user == user && sessions[id].status == Active
  }

  /** The nodes of a session are stored. */
  predicate NodesStored(nodes: map<Id, Node>, session: Session) {
    session.node in nodes && (session.backup.Some? ==> session.backup.value in nodes)
  }

  function StartCalls(nodes: map<Id, Node>, session: Session): seq<Call>
    requires NodesStored(nodes, session)
  {
    [Register(nodes[session.node].address, session.token)]
    + if session.backup.Some? then [Register(nodes[session.backup.value].address, session.token)] else []
  }

  /** Only nodes that are still stored are called, at the address that is stored now. */
  function StopCalls(nodes: map<Id, Node>, session: Session): seq<Call> {
    (if session.node in nodes then [Unregister(nodes[session.node].address, session.token)] else [])
    + if session.backup.Some? && session.backup.value in nodes
      then [Unregister(nodes[session.backup.value].address, session.token)] else []
  }

  // ---------------------------------------------------------------- the service

  class SessionService {
    var games: map<string, Id>
    var nodes: map<Id, Node>
    var sessions: map<Id, Session>
    var calls: seq<Call>

    ghost function Tables(): Db
      reads this
    {
      Db(games, nodes, sessions)
    }

    constructor (games: map<string, Id>, nodes: map<Id, Node>)
      ensures Tables() == Db(games, nodes, map[]) && calls == []
    {
      this.games, this.nodes := games, nodes;
      sessions, calls := map[], [];
    }

    method StartSession(user: Id, slug: string, node: Id, multipath: bool, id: Id, token: nat, now: int)
      returns (r: Result<Session, Error>)
      requires id !in sessions
      modifies this`sessions, this`calls
      ensures r == Admit(old(Tables()), user, slug, node, multipath, token, now)
      ensures r.Success? ==> slug in games && node in nodes && nodes[node].active
      ensures r.Success? ==> NodesStored(nodes, r.value) && calls == old(calls) + StartCalls(nodes, r.value)
      ensures r.Success? ==>
        sessions == old(sessions)[id :=
          Session(user, node, games[slug], token, Active, now, None, r.value.backup, r.value.backup.Some?)]
      ensures r.Success? && r.value.backup.None? ==> calls == old(calls) + [Register(nodes[node].address, token)]
      ensures r.Success? && r.value.backup.Some? ==>
        calls == old(calls) + [Register(nodes[node].address, token), Register(nodes[r.value.backup.value].address, token)]
      ensures r.Success? ==> sessions[id] == r.value
      ensures r.Failure? ==> sessions == old(sessions) && calls == old(calls)
    {
      if slug !in games {
        return Failure(GameNotFound);
      }
      if node !in nodes || !nodes[node].active {
        return Failure(NodeNotFound);
      }
      var existing := OneOrNone(ActiveOf(sessions, user));
      if existing.Failure? {
        return Failure(existing.error);
      }
      if existing.value.Some? {
        return Failure(AlreadyActive);
      }
      var backup := None;
      if multipath {
        var found := FindBackup(nodes, node, nodes[node].location);
        if found.Failure? {
          return Failure(found.error);
        }
        backup := found.value;
        BackupFoundExactly(nodes, node, nodes[node].location);
      }
      var session := Session(user, node, games[slug], token, Active, now, None, backup, backup.Some?);
      sessions := sessions[id := session];
      calls := calls + [Register(nodes[node].address, token)];
      if backup.Some? {
        calls := calls + [Register(nodes[backup.value].address, token)];
      }
      r := Success(session);
    }

    method StopSession(id: Id, user: Id, now: int) returns (r: Result<Session, Error>)
      modifies this`sessions, this`calls
      ensures r.Success? <==> MayStop(old(sessions), id, user)
      ensures r.Success? <==> id in old(sessions) && old(sessions)[id].user == user && old(sessions)[id].status == Active
      ensures r.Success? ==> r.value == Ended(old(sessions)[id], now)
      ensures r.Success? ==> r.value == old(sessions)[id].(status := Stopped, endedAt := Some(now))
      ensures r.Success? ==> sessions == old(sessions)[id := r.value] && calls == old(calls) + StopCalls(nodes, r.value)
      ensures r.Failure? ==> r.error == SessionNotFound && sessions == old(sessions) && calls == old(calls)
    {
      if id !in sessions || sessions[id].user != user || sessions[id].status != Active {
        return Failure(SessionNotFound);
      }
      var session := sessions[id].(status := Stopped, endedAt := Some(now));
      sessions := sessions[id := session];
      if session.node in nodes {
        calls := calls + [Unregister(nodes[session.node].address, session.token)];
      }
      if session.backup.Some? && session.backup.value in nodes {
        calls := calls + [Unregister(nodes[session.backup.value].address, session.token)];
      }
      r := Success(session);
    }
  }
}
