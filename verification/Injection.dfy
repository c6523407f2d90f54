/** The WinDivert client's receive threads, which inject the responses as raw packets. Each thread
    keeps its own set of seen numbers, so duplicates are dropped within a path only.

    The connection that a response is routed to is the first entry of a map in no particular order;
    it comes with the arrival.
 */
module Injection {
  import opened Bits
  import opened Text
  import opened PlgProtocol
  import opened UdpProxy
  import D = Dedup
  import P = PacketBuilder
  import Downstream

  datatype Route = Route(localIp: u32, localPort: u16, remoteIp: u32, remotePort: u16)

  /** The packet to pass on, if any, and the thread's set after it. */
  function Accepts(seen: set<u32>, data: seq<u8>): (set<u32>, Option<PlgPacket>) {
    match Parse(data)
    case None => (seen, None)
    case Some(packet) =>
      if IsKeepalive(packet) then (seen, None) else
      var (after, isNew) := D.Offer(seen, packet.seqNumber);
      (after, if isNew then Some(packet) else None)
  }

  class ReceiveThread {
    var seenSeqs: set<u32>

    constructor ()
      ensures seenSeqs == {}
    {
      seenSeqs := {};
    }

    /** One iteration: what is injected comes from the game server to the local application, as
        the capture thread's parser reads it. */
    method Receive(data: seq<u8>, route: Option<Route>) returns (raw: Option<seq<u8>>)
      modifies this
      ensures seenSeqs == Accepts(old(seenSeqs), data).0
      ensures var accepted := Accepts(old(seenSeqs), data).1;
        && (raw.Some? <==> accepted.Some? && route.Some?)
        && (raw.Some? ==>
              P.ParseCaptured(raw.value) == P.Datagram(route.value.remoteIp, route.value.localIp,
                route.value.remotePort, route.value.localPort, accepted.value.payload))
    {
      raw := None;
      var parsed := Parse(data);
      if parsed.None? || IsKeepalive(parsed.value) { return; }
      var packet := parsed.value;
      if packet.seqNumber in seenSeqs { return; }
      seenSeqs := seenSeqs + {packet.seqNumber};
      if |seenSeqs| > 10000 {
        seenSeqs := {};
      }
      if route.Some? {
        var r := route.value;
        var built := P.BuildUdpResponse(r.remoteIp, r.localIp, r.remotePort, r.localPort, packet.payload);
        raw := Some(built);
      }
    }
  }

  // ---------------------------------------------------------------- runs of both threads

  datatype Arrival = Arrival(path: Path, data: seq<u8>, route: Option<Route>)

  /** The set of a thread, and how many packets it has injected. */
  datatype Thread = Thread(seen: set<u32>, injected: nat)

  datatype State = State(primary: Thread, backup: Thread)

  function Of(s: State, path: Path): Thread { if path == Primary then s.primary else s.backup }

  function ThreadStep(t: Thread, a: Arrival): Thread {
    var (seen, accepted) := Accepts(t.seen, a.data);
    Thread(seen, t.injected + if accepted.Some? && a.route.Some? then 1 else 0)
  }

  function Step(s: State, a: Arrival): State {
    if a.path == Primary then s.(primary := ThreadStep(s.primary, a)) else s.(backup := ThreadStep(s.backup, a))
  }

  function Exec(run: seq<Arrival>): State {
    if run == [] then State(Thread({}, 0), Thread({}, 0)) else Step(Exec(run[..|run| - 1]), run[|run| - 1])
  }

  /** The numbers that a path offers to its thread's set. */
  function Offered(run: seq<Arrival>, path: Path): seq<u32> {
    if run == [] then [] else
    var before, a := Offered(run[..|run| - 1], path), run[|run| - 1];
    if a.path != path || Parse(a.data).None? || IsKeepalive(Parse(a.data).value) then before
    else before + [Parse(a.data).value.seqNumber]
  }

  lemma OfferAccepts(t: Thread, a: Arrival, offered: seq<u32>)
    requires t.seen == D.Run(offered).seen && t.injected <= |D.Run(offered).accepted|
    requires Parse(a.data).Some? && !IsKeepalive(Parse(a.data).value)
    ensures var h := D.Run(offered + [Parse(a.data).value.seqNumber]);
      ThreadStep(t, a).seen == h.seen && ThreadStep(t, a).injected <= |h.accepted|
  {
    D.RunNext(offered, Parse(a.data).value.seqNumber);
  }

  /** The threads do not touch each other: the set of each is the bounded set of its own path, and
      it injects at most what that accepts. */
  lemma {:induction false} PathsAreSeparate(run: seq<Arrival>, path: Path)
    ensures var t, h := Of(Exec(run), path), D.Run(Offered(run, path));
      t.seen == h.seen && t.injected <= |h.accepted|
  {
    if run == [] {
    } else {
      var before, a := run[..|run| - 1], run[|run| - 1];
      PathsAreSeparate(before, path);
      if a.path == path && Parse(a.data).Some? && !IsKeepalive(Parse(a.data).value) {
        OfferAccepts(Of(Exec(before), path), a, Offered(before, path));
      }
    }
  }

  ghost predicate OnlyResponses(run: seq<Arrival>) {
    forall i :: 0 <= i < |run| ==> Downstream.IsResponse(run[i].data)
  }

  /** The first arrival on a path. */
  function First(run: seq<Arrival>, path: Path): Option<Arrival> {
    if run == [] then None else
    var before, last := First(run[..|run| - 1], path), run[|run| - 1];
    if before.Some? then before else if last.path == path then Some(last) else None
  }

  predicate FirstIsRouted(run: seq<Arrival>, path: Path) {
    First(run, path).Some? && First(run, path).value.route.Some?
  }

  /** A response is accepted by a thread that has seen no number, and by no thread that has seen 0. */
  lemma ResponseAccepted(data: seq<u8>)
    requires Downstream.IsResponse(data)
    ensures Accepts({}, data).0 == {0} && Accepts({}, data).1.Some?
    ensures Accepts({0}, data) == ({0}, None)
  {
    Downstream.ResponseParses(Primary, data);
    assert {} + {0 as u32} == {0} && |{0 as u32}| == 1;
  }

  /** When all arrivals are responses of relays, a thread injects exactly the first on its path, if
      that finds a connection; so with two paths at most two responses reach the application. */
  lemma {:induction false} OneResponseInjectedPerPath(run: seq<Arrival>, path: Path)
    requires OnlyResponses(run)
    ensures Of(Exec(run), path) ==
      Thread(if First(run, path).None? then {} else {0}, if FirstIsRouted(run, path) then 1 else 0)
  {
    if run == [] {
    } else {
      OneResponseInjectedPerPath(run[..|run| - 1], path);
      ResponseAccepted(run[|run| - 1].data);
    }
  }

  /** Two do: the same response over both paths is injected twice. */
  lemma BothPathsInject(token: u32, payload: seq<u8>, route: Route)
    ensures var data := Wire(Downstream.RelayTables.ResponsePacket(token, payload));
      var run := [Arrival(Primary, data, Some(route))] + [Arrival(Backup, data, Some(route))];
      OnlyResponses(run) && Exec(run).primary.injected == 1 && Exec(run).backup.injected == 1
  {
    var data := Wire(Downstream.RelayTables.ResponsePacket(token, payload));
    var first, second := Arrival(Primary, data, Some(route)), Arrival(Backup, data, Some(route));
    assert Downstream.IsResponse(data);
    ResponseAccepted(data);
    assert ([first] + [second])[..1] == [first] && [first][..0] == [];
    assert Exec([first]) == Step(Exec([]), first);
  }
}
