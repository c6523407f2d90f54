/** The relay's response path and the client's receive path together, over every interleaving of
    either.

    A relay numbers every response 0, and the client drops numbers it has seen: of all the
    responses that a run brings over either path, the client accepts one. What is carried, either
    way, is carried byte for byte.
 */
module Downstream {
  import opened Bits
  import opened Text
  import opened Net
  import opened PlgProtocol
  import D = Dedup
  import R = RelaySteps
  import U = UdpProxy
  import C = ProxyRuns
  import ProxyTraffic
  import RelayIsolation
  import RelayTables

  /** The datagram is a response that some relay listener can have sent. */
  ghost predicate IsResponse(data: seq<u8>) {
    exists token, payload :: data == Wire(RelayTables.ResponsePacket(token, payload))
  }

  /** Every datagram that reaches the client was sent by a relay; it may be late, lost or repeated. */
  ghost predicate OnlyReplies(es: seq<C.Event>, replies: seq<R.Reply>) {
    forall i :: 0 <= i < |es| && es[i].Arrival? ==>
      exists j :: 0 <= j < |replies| && R.Datagram(replies[j]) == es[i].data
  }

  ghost predicate OnlyResponses(es: seq<C.Event>) {
    forall i :: 0 <= i < |es| && es[i].Arrival? ==> IsResponse(es[i].data)
  }

  lemma RepliesAreResponses(es: seq<C.Event>, replies: seq<R.Reply>)
    requires OnlyReplies(es, replies)
    ensures OnlyResponses(es)
  {
  }

  /** A response is no keepalive and has the number 0. */
  lemma ResponseParses(path: U.Path, data: seq<u8>)
    requires IsResponse(data)
    ensures U.Received(path, data).Parsed? && U.Received(path, data).packet.seqNumber == 0
  {
  }

  // ---------------------------------------------------------------- the client's run

  predicate AllZero(xs: seq<u32>) { forall i :: 0 <= i < |xs| ==> xs[i] == 0 }

  /** A receive task with a response in hand. */
  predicate ZeroPhase(phase: U.ReceivePhase) {
    !phase.KeepaliveBack? && (phase.Parsed? ==> phase.packet.seqNumber == 0)
  }

  predicate OnlyZeros(s: C.State) {
    AllZero(s.log.offered) && ZeroPhase(s.primary) && ZeroPhase(s.backup) && s.client.stats.lastRtt.None?
  }

  lemma ReceiveKeepsZeros(s: C.State, path: U.Path, now: int)
    requires OnlyZeros(s) && C.DoReceive(s, path, now).Some?
    ensures OnlyZeros(C.DoReceive(s, path, now).value)
  {
  }

  lemma StepKeepsZeros(s: C.State, e: C.Event)
    requires OnlyZeros(s) && C.Step(s, e).Some? && (e.Arrival? ==> IsResponse(e.data))
    ensures OnlyZeros(C.Step(s, e).value)
  {
    match e
    case GameDatagram(_, _) =>
    case Arrival(path, data) => ResponseParses(path, data);
    case Game =>
    case Keepalives(_) =>
    case Receive(path, now) => ReceiveKeepsZeros(s, path, now);
  }

  lemma {:induction false} RunKeepsZeros(p: C.Setup, es: seq<C.Event>)
    requires C.Exec(p, es).Some? && OnlyResponses(es)
    ensures OnlyZeros(C.Exec(p, es).value)
  {
    if es == [] {
    } else {
      RunKeepsZeros(p, es[..|es| - 1]);
      StepKeepsZeros(C.Exec(p, es[..|es| - 1]).value, es[|es| - 1]);
    }
  }

  /** Of any number of zeros one is accepted, and the set is never wiped. */
  lemma {:induction false} ZerosAcceptedOnce(xs: seq<u32>)
    requires AllZero(xs)
    ensures D.Run(xs) == if xs == [] then D.History({}, 0, []) else D.History({0}, 0, [0])
  {
    if xs == [] {
    } else {
      ZerosAcceptedOnce(xs[..|xs| - 1]);
      assert {} + {0 as u32} == {0};
      assert |{0 as u32}| == 1;
    }
  }

  lemma {:induction false} CountsAll(payloads: seq<seq<u8>>)
    ensures C.CountOf(payloads, None) == |payloads|
  {
    if payloads == [] {
    } else {
      CountsAll(payloads[..|payloads| - 1]);
    }
  }

  /** When all that reaches the proxy was sent by relays, over either path and in any run of relays
      and client, one response is accepted and all others count as duplicates; the set is never
      wiped, and no round-trip time is ever measured. The game gets exactly that one response,
      unless it is in flight, or was lost because the game had sent nothing when its address was
      looked for. */
  lemma AtMostOneResponseDelivered(cfg: R.Config, run: seq<R.Event>, backupCfg: R.Config, backupRun: seq<R.Event>,
                                   p: C.Setup, es: seq<C.Event>)
    requires R.Exec(cfg, run).Some? && R.Exec(backupCfg, backupRun).Some? && C.Exec(p, es).Some?
    requires OnlyReplies(es, R.Exec(cfg, run).value.log.replies + R.Exec(backupCfg, backupRun).value.log.replies)
    ensures var s := C.Exec(p, es).value;
      && C.Delivered(s.log.out, None) <= 1
      && C.Delivered(s.log.out, None) + C.InFlight(s, None) + |s.log.lost| == (if s.log.offered == [] then 0 else 1)
      && s.client.seen <= {0}
      && D.Run(s.log.offered).wipes == 0
      && s.client.duplicates == (if s.log.offered == [] then 0 else |s.log.offered| - 1)
      && s.client.stats.lastRtt.None?
  {
    var s := C.Exec(p, es).value;
    RepliesAreResponses(es, R.Exec(cfg, run).value.log.replies + R.Exec(backupCfg, backupRun).value.log.replies);
    RunKeepsZeros(p, es);
    ZerosAcceptedOnce(s.log.offered);
    C.RunDeduplicates(p, es);
    C.RunAccounts(p, es, None);
    CountsAll(s.log.accepted);
    CountsAll(s.log.lost);
  }

  /** With all datagrams handled, the game got a response exactly if there was one and none was
      lost. Only a response whose address was looked for before the game's first datagram, the k-th
      event, was lost: by then it had been accepted and was in flight no more. */
  lemma ResponseDeliveredExactly(p: C.Setup, es: seq<C.Event>, k: nat)
    requires C.Exec(p, es).Some? && OnlyResponses(es)
    requires k < |es| && es[k].GameDatagram? && forall i :: 0 <= i < k ==> !es[i].GameDatagram?
    requires C.InFlight(C.Exec(p, es).value, None) == 0
    ensures C.Exec(p, es[..k]).Some?
    ensures var s, first := C.Exec(p, es).value, C.Exec(p, es[..k]).value;
      C.Delivered(s.log.out, None) == 1 <==>
        s.log.offered != [] && (first.log.offered == [] || C.InFlight(first, None) == 1)
  {
    C.DeliveredExactly(p, es, k, None);
    var s, first := C.Exec(p, es).value, C.Exec(p, es[..k]).value;
    OneAccepted(p, es);
    OneAccepted(p, es[..k]);
    C.RunAccounts(p, es, None);
    C.RunAccounts(p, es[..k], None);
  }

  lemma OneAccepted(p: C.Setup, es: seq<C.Event>)
    requires C.Exec(p, es).Some? && OnlyResponses(es)
    ensures var s := C.Exec(p, es).value;
      C.CountOf(s.log.accepted, None) == if s.log.offered == [] then 0 else 1
  {
    RunKeepsZeros(p, es);
    ZerosAcceptedOnce(C.Exec(p, es).value.log.offered);
    C.RunDeduplicates(p, es);
    CountsAll(C.Exec(p, es).value.log.accepted);
  }

  // ---------------------------------------------------------------- the bytes of the game server

  /** The game server sent this to a relay in the run. */
  ghost predicate Responded(run: seq<R.Event>, payload: seq<u8>) {
    exists i :: 0 <= i < |run| && run[i].Respond? && run[i].payload == payload
  }

  ghost predicate AllResponded(run: seq<R.Event>, replies: seq<R.Reply>) {
    forall i :: 0 <= i < |replies| ==> Responded(run, replies[i].payload)
  }

  lemma RespondedStays(run: seq<R.Event>, e: R.Event, payload: seq<u8>)
    requires Responded(run, payload)
    ensures Responded(run + [e], payload)
  {
    var i :| 0 <= i < |run| && run[i].Respond? && run[i].payload == payload;
    assert (run + [e])[i] == run[i];
  }

  lemma NextResponded(run: seq<R.Event>, e: R.Event, replies: seq<R.Reply>, replies': seq<R.Reply>)
    requires AllResponded(run, replies)
    requires replies' == replies || (e.Respond? && |replies'| == |replies| + 1 && replies'[..|replies|] == replies
                                     && replies'[|replies|].payload == e.payload)
    ensures AllResponded(run + [e], replies')
  {
    assert (run + [e])[|run|] == e;
    forall i | 0 <= i < |replies'|
      ensures Responded(run + [e], replies'[i].payload)
    {
      if i < |replies| {
        assert replies'[i] == replies[i];
        RespondedStays(run, e, replies[i].payload);
      }
    }
  }

  /** Every reply of a relay carries what the game server sent in some datagram of the run. */
  lemma {:induction false} RepliesCarryResponses(cfg: R.Config, run: seq<R.Event>)
    requires R.Exec(cfg, run).Some?
    ensures AllResponded(run, R.Exec(cfg, run).value.log.replies)
  {
    if run == [] {
    } else {
      var before, e := run[..|run| - 1], run[|run| - 1];
      RepliesCarryResponses(cfg, before);
      RelayIsolation.ReplyGoesToRecordedClient(cfg, R.Exec(cfg, before).value, e);
      NextResponded(before, e, R.Exec(cfg, before).value.log.replies, R.Exec(cfg, run).value.log.replies);
      assert before + [e] == run;
    }
  }

  /** On the wire a reply is a header of ten bytes, with the session's token, number 0 and no flags,
      and then the payload. */
  lemma ReplyOnWire(r: R.Reply)
    ensures R.Datagram(r)[10..] == r.payload
    ensures Parse(R.Datagram(r)) == Some(PlgPacket(r.token, 0, 0, 0, r.payload))
  {
    ParseWire(PlgPacket(r.token, 0, 0, 0, r.payload));
    WireLayout(PlgPacket(r.token, 0, 0, 0, r.payload));
  }

  lemma ArrivedWasReplied(es: seq<C.Event>, replies: seq<R.Reply>, payload: seq<u8>) returns (j: nat)
    requires OnlyReplies(es, replies) && ProxyTraffic.Arrived(es, payload)
    ensures j < |replies| && replies[j].payload == payload
  {
    var k :| 0 <= k < |es| && es[k].Arrival? && |es[k].data| >= 10 && es[k].data[10..] == payload;
    j :| 0 <= j < |replies| && R.Datagram(replies[j]) == es[k].data;
    ReplyOnWire(replies[j]);
  }

  /** What the game receives over relays is byte for byte what the game server sent to one of them. */
  lemma GameGetsServersBytes(cfg: R.Config, run: seq<R.Event>, backupCfg: R.Config, backupRun: seq<R.Event>,
                             p: C.Setup, es: seq<C.Event>, i: nat)
    requires R.Exec(cfg, run).Some? && R.Exec(backupCfg, backupRun).Some? && C.Exec(p, es).Some?
    requires OnlyReplies(es, R.Exec(cfg, run).value.log.replies + R.Exec(backupCfg, backupRun).value.log.replies)
    requires i < |C.Exec(p, es).value.log.out| && C.Exec(p, es).value.log.out[i].ToGame?
    ensures var payload := C.Exec(p, es).value.log.out[i].payload;
      Responded(run, payload) || Responded(backupRun, payload)
  {
    var payload := C.Exec(p, es).value.log.out[i].payload;
    ProxyTraffic.DeliveredHasArrived(p, es);
    assert ProxyTraffic.OutputArrived(es, C.Exec(p, es).value.log.out[i]);
    var a, b := R.Exec(cfg, run).value.log.replies, R.Exec(backupCfg, backupRun).value.log.replies;
    var j := ArrivedWasReplied(es, a + b, payload);
    if j < |a| {
      RepliesCarryResponses(cfg, run);
      assert Responded(run, a[j].payload);
    } else {
      RepliesCarryResponses(backupCfg, backupRun);
      assert Responded(backupRun, b[j - |a|].payload);
    }
  }

  // ---------------------------------------------------------------- the bytes of the game

  /** Any data packet that the proxy sends, on either path, is forwarded byte for byte by a relay that
      knows its session and has a target for it. */
  lemma GamesBytesAreForwarded(p: C.Setup, es: seq<C.Event>, i: nat, sessions: RelayTables.Sessions, addr: SocketAddr, now: int)
    requires C.Exec(p, es).Some? && i < |C.Exec(p, es).value.log.out|
    requires var o := C.Exec(p, es).value.log.out[i]; o.ToRelay? && o.packet.flags < 2
    requires p.token in sessions && sessions[p.token].target.Some?
    ensures var packet := C.Exec(p, es).value.log.out[i].packet;
      RelayTables.Classify(sessions, Wire(packet), addr, now).0
      == RelayTables.Forward(sessions[p.token].forwardPort, sessions[p.token].target.value, packet.payload)
  {
    var o := C.Exec(p, es).value.log.out[i];
    ProxyTraffic.RunIsWellFormed(p, es);
    assert ProxyTraffic.WellFormed(p, o);
    RelayTables.DataIsForwarded(sessions, o.packet, addr, now);
  }
}
