/** What the proxy sends and counts, over every interleaving of its tasks: the bytes on the wire
    against the events of the run.
 */
module ProxyTraffic {
  import opened Bits
  import opened Text
  import opened Net
  import opened PlgProtocol
  import opened UdpProxy
  import opened ProxyRuns

  // ---------------------------------------------------------------- the form of the packets

  /** A packet to a relay carries the session's token, and is data, an empty keepalive or the control
      packet with the target; only data on the backup path is marked, with flag and path. */
  predicate WellFormed(p: Setup, o: Output) {
    o.ToRelay? ==>
      && o.packet.sessionId == p.token
      && (|| (o.packet.flags == 0 && o.packet.pathId == 0 && o.path == Primary)
          || (o.packet.flags == 1 && o.packet.pathId == 1 && o.path == Backup)
          || (o.packet.flags == 2 && o.packet.pathId == 0 && o.packet.payload == [])
          || (o.packet.flags == 4 && o.packet.pathId == 0 && o.packet.payload == p.target))
  }

  /** The packet of a game's datagram, before it is marked for the backup path. */
  predicate PlainData(p: Setup, packet: PlgPacket) {
    packet.sessionId == p.token && packet.flags == 0 && packet.pathId == 0
  }

  predicate PendingForm(p: Setup, s: State) {
    && s.client.token == p.token
    && (s.game.Numbered? ==> PlainData(p, s.game.packet))
    && (s.game.SentPrimary? ==> PlainData(p, s.game.packet))
  }

  /** The first packets are the control packets, one on each path, and there are no others. */
  predicate Opening(p: Setup, out: seq<Output>) {
    var n := if p.multipath then 2 else 1;
    && |out| >= n
    && out[0] == ToRelay(Primary, PlgPacket(p.token, 0, 4, 0, p.target))
    && (p.multipath ==> out[1] == ToRelay(Backup, PlgPacket(p.token, 1, 4, 0, p.target)))
    && forall i :: n <= i < |out| && out[i].ToRelay? ==> out[i].packet.flags != 4
  }

  predicate FormInv(p: Setup, s: State) {
    && PendingForm(p, s) && Opening(p, s.log.out)
    && forall i :: 0 <= i < |s.log.out| ==> WellFormed(p, s.log.out[i])
  }

  lemma MoreOutput(p: Setup, out: seq<Output>, more: seq<Output>)
    requires Opening(p, out) && forall i :: 0 <= i < |out| ==> WellFormed(p, out[i])
    requires |more| <= 1 && (more != [] ==> WellFormed(p, more[0]) && (more[0].ToRelay? ==> more[0].packet.flags != 4))
    ensures Opening(p, out + more) && forall i :: 0 <= i < |out + more| ==> WellFormed(p, (out + more)[i])
  {
  }

  lemma MarkedData(packet: PlgPacket)
    requires packet.flags == 0
    ensures WithMultipath(packet, 1).flags == 1
  {
    OrOne(0);
  }

  lemma GameKeepsForm(p: Setup, s: State)
    requires FormInv(p, s) && DoGame(s).Some?
    ensures FormInv(p, DoGame(s).value)
  {
    match s.game
    case HasDatagram(_) => MoreOutput(p, s.log.out, []);
    case Numbered(packet) => MoreOutput(p, s.log.out, [ToRelay(Primary, packet)]);
    case SentPrimary(packet) =>
      MarkedData(packet);
      MoreOutput(p, s.log.out, [ToRelay(Backup, WithMultipath(packet, 1))]);
    case SentAll(_) => MoreOutput(p, s.log.out, []);
  }

  lemma KeepalivesKeepForm(p: Setup, s: State, now: int)
    requires FormInv(p, s)
    ensures FormInv(p, DoKeepalives(s, now))
  {
    MoreOutput(p, s.log.out, KeepaliveStep(s.client, s.keepalive, now).2);
  }

  lemma ReceiveKeepsForm(p: Setup, s: State, path: Path, now: int)
    requires FormInv(p, s) && DoReceive(s, path, now).Some?
    ensures FormInv(p, DoReceive(s, path, now).value)
  {
    MoreOutput(p, s.log.out, ReceiveStep(s.client, PhaseOf(s, path), now).2);
  }

  lemma StepKeepsForm(p: Setup, s: State, e: Event)
    requires FormInv(p, s) && Step(s, e).Some?
    ensures FormInv(p, Step(s, e).value)
  {
    match e
    case GameDatagram(_, _) =>
    case Arrival(_, _) =>
    case Game => GameKeepsForm(p, s);
    case Keepalives(now) => KeepalivesKeepForm(p, s, now);
    case Receive(path, now) => ReceiveKeepsForm(p, s, path, now);
  }

  /** In every interleaving, all that goes to the relays has one of these forms. */
  lemma {:induction false} RunIsWellFormed(p: Setup, es: seq<Event>)
    requires Exec(p, es).Some?
    ensures FormInv(p, Exec(p, es).value)
  {
    if es == [] {
    } else {
      RunIsWellFormed(p, es[..|es| - 1]);
      StepKeepsForm(p, Exec(p, es[..|es| - 1]).value, es[|es| - 1]);
    }
  }

  // ---------------------------------------------------------------- what the game sends

  /** The payloads of the game's datagrams, in order. */
  function GamePayloads(es: seq<Event>): seq<seq<u8>> {
    if es == [] then [] else
    var last := es[|es| - 1];
    GamePayloads(es[..|es| - 1]) + if last.GameDatagram? then [last.payload] else []
  }

  /** The payloads of the data packets on the primary path, in order. */
  function PrimaryPayloads(out: seq<Output>): seq<seq<u8>> {
    if out == [] then [] else
    var last := out[|out| - 1];
    PrimaryPayloads(out[..|out| - 1])
    + if last.ToRelay? && last.path == Primary && last.packet.flags == 0 then [last.packet.payload] else []
  }

  /** The datagram that the send task has not sent yet. */
  function InHand(phase: GamePhase): seq<seq<u8>> {
    match phase
    case HasDatagram(payload) => [payload]
    case Numbered(packet) => [packet.payload]
    case _ => []
  }

  lemma PrimaryNext(out: seq<Output>, more: seq<Output>)
    requires |more| <= 1
    ensures PrimaryPayloads(out + more) == PrimaryPayloads(out)
      + if more != [] && more[0].ToRelay? && more[0].path == Primary && more[0].packet.flags == 0
        then [more[0].packet.payload] else []
  {
    if more == [] {
      assert out + more == out;
    } else {
      assert (out + more)[..|out|] == out;
    }
  }

  predicate Carries(s: State, payloads: seq<seq<u8>>) {
    payloads == PrimaryPayloads(s.log.out) + InHand(s.game)
  }

  lemma GameKeepsCarrying(p: Setup, s: State, payloads: seq<seq<u8>>)
    requires PendingForm(p, s) && Carries(s, payloads) && DoGame(s).Some?
    ensures Carries(DoGame(s).value, payloads)
  {
    PrimaryNext(s.log.out, GameStep(s.client, s.game).2);
  }

  lemma OtherOutputCarries(s: State, s': State, out: seq<Output>, payloads: seq<seq<u8>>)
    requires Carries(s, payloads) && s'.game == s.game && s'.log.out == s.log.out + out
    requires |out| <= 1 && (out != [] && out[0].ToRelay? ==> out[0].packet.flags != 0)
    ensures Carries(s', payloads)
  {
    PrimaryNext(s.log.out, out);
  }

  lemma StepCarries(p: Setup, s: State, e: Event, payloads: seq<seq<u8>>)
    requires PendingForm(p, s) && Carries(s, payloads) && Step(s, e).Some?
    ensures Carries(Step(s, e).value, payloads + if e.GameDatagram? then [e.payload] else [])
  {
    assert payloads + [] == payloads;
    match e
    case GameDatagram(_, _) =>
    case Arrival(_, _) =>
    case Game => GameKeepsCarrying(p, s, payloads);
    case Keepalives(now) => OtherOutputCarries(s, DoKeepalives(s, now), KeepaliveStep(s.client, s.keepalive, now).2, payloads);
    case Receive(path, now) =>
      OtherOutputCarries(s, DoReceive(s, path, now).value, ReceiveStep(s.client, PhaseOf(s, path), now).2, payloads);
  }

  /** In every interleaving, the data packets on the primary path carry exactly the payloads of the
      game's datagrams, in order, but for the one in hand. */
  lemma {:induction false} GameIsCarried(p: Setup, es: seq<Event>)
    requires Exec(p, es).Some?
    ensures GamePayloads(es) == PrimaryPayloads(Exec(p, es).value.log.out) + InHand(Exec(p, es).value.game)
  {
    if es == [] {
      var out := Started(p.token, p.multipath, p.target).1;
      PrimaryNext(out[..1], out[1..]);
      PrimaryNext([], out[..1]);
      assert out == out[..1] + out[1..] && out[..1] == [] + out[..1];
    } else {
      GameIsCarried(p, es[..|es| - 1]);
      RunIsWellFormed(p, es[..|es| - 1]);
      StepCarries(p, Exec(p, es[..|es| - 1]).value, es[|es| - 1], GamePayloads(es[..|es| - 1]));
    }
  }

  // ---------------------------------------------------------------- statistics

  function TotalLength(payloads: seq<seq<u8>>): nat {
    if payloads == [] then 0 else TotalLength(payloads[..|payloads| - 1]) + |payloads[|payloads| - 1]|
  }

  /** The statistics count every datagram that the send task has dealt with; the last may be in work. */
  predicate SentCounted(s: State, payloads: seq<seq<u8>>) {
    if s.game.Idle?
    then s.client.stats.packetsSent == |payloads| && s.client.stats.bytesSent == TotalLength(payloads)
    else
      && payloads != []
      && s.client.stats.packetsSent == |payloads| - 1
      && s.client.stats.bytesSent == TotalLength(payloads[..|payloads| - 1])
      && InWork(s.game, payloads[|payloads| - 1])
  }

  predicate InWork(phase: GamePhase, payload: seq<u8>) {
    match phase
    case Idle => false
    case HasDatagram(p) => p == payload
    case Numbered(packet) => packet.payload == payload
    case SentPrimary(packet) => packet.payload == payload
    case SentAll(length) => length == |payload|
  }

  lemma ArrivalCounted(s: State, e: Event, payloads: seq<seq<u8>>)
    requires SentCounted(s, payloads) && e.GameDatagram? && Step(s, e).Some?
    ensures SentCounted(Step(s, e).value, payloads + [e.payload])
  {
    assert (payloads + [e.payload])[..|payloads|] == payloads;
  }

  lemma GameKeepsCounted(s: State, payloads: seq<seq<u8>>)
    requires SentCounted(s, payloads) && DoGame(s).Some?
    ensures SentCounted(DoGame(s).value, payloads)
  {
  }

  lemma OthersLeaveSent(s: State, e: Event)
    requires Step(s, e).Some? && !e.GameDatagram? && !e.Game?
    ensures var s' := Step(s, e).value;
      && s'.game == s.game
      && s'.client.stats.packetsSent == s.client.stats.packetsSent && s'.client.stats.bytesSent == s.client.stats.bytesSent
  {
    match e
    case Arrival(_, _) =>
    case Keepalives(_) =>
    case Receive(_, _) =>
  }

  /** In every interleaving, packets and bytes sent are those of the game's datagrams, but for the
      one that the send task has in work. */
  lemma {:induction false} SentIsCounted(p: Setup, es: seq<Event>)
    requires Exec(p, es).Some?
    ensures SentCounted(Exec(p, es).value, GamePayloads(es))
  {
    if es == [] {
    } else {
      var before, e := es[..|es| - 1], es[|es| - 1];
      SentIsCounted(p, before);
      assert GamePayloads(before) + [] == GamePayloads(before);
      match e
      case GameDatagram(_, _) => ArrivalCounted(Exec(p, before).value, e, GamePayloads(before));
      case Game => GameKeepsCounted(Exec(p, before).value, GamePayloads(before));
      case _ => OthersLeaveSent(Exec(p, before).value, e);
    }
  }

  function DeliveredBytes(out: seq<Output>): nat {
    if out == [] then 0 else
    var last := out[|out| - 1];
    DeliveredBytes(out[..|out| - 1]) + if last.ToGame? then |last.payload| else 0
  }

  /** A packet handed over and not counted yet. */
  function Uncounted(phase: ReceivePhase): nat { if phase.HandedOver? then 1 else 0 }

  function UncountedBytes(phase: ReceivePhase): nat { if phase.HandedOver? then phase.length else 0 }

  predicate ReceivedCounted(s: State) {
    && Delivered(s.log.out, None) == s.client.stats.packetsReceived + Uncounted(s.primary) + Uncounted(s.backup)
    && DeliveredBytes(s.log.out) == s.client.stats.bytesReceived + UncountedBytes(s.primary) + UncountedBytes(s.backup)
  }

  lemma BytesNext(out: seq<Output>, more: seq<Output>)
    requires |more| <= 1
    ensures DeliveredBytes(out + more)
         == DeliveredBytes(out) + if more != [] && more[0].ToGame? then |more[0].payload| else 0
  {
    if more == [] {
      assert out + more == out;
    } else {
      assert (out + more)[..|out|] == out;
    }
  }

  lemma HandOverKeepsReceived(s: State, path: Path, now: int)
    requires ReceivedCounted(s) && PhaseOf(s, path).Addressed?
    ensures ReceivedCounted(DoReceive(s, path, now).value)
  {
    var phase := PhaseOf(s, path);
    HandedOverNext(s.log.out, phase.addr, phase.payload);
  }

  lemma HandedOverNext(out: seq<Output>, addr: SocketAddr, payload: seq<u8>)
    ensures Delivered(out + [ToGame(addr, payload)], None) == Delivered(out, None) + 1
    ensures DeliveredBytes(out + [ToGame(addr, payload)]) == DeliveredBytes(out) + |payload|
  {
    DeliveredNext(out, [ToGame(addr, payload)], None);
    BytesNext(out, [ToGame(addr, payload)]);
  }

  lemma SilentStep(s: State, path: Path, now: int)
    requires DoReceive(s, path, now).Some? && !PhaseOf(s, path).Addressed?
    ensures DoReceive(s, path, now).value.log.out == s.log.out
  {
    assert s.log.out + [] == s.log.out;
  }

  lemma ReceiveKeepsReceived(s: State, path: Path, now: int)
    requires ReceivedCounted(s) && DoReceive(s, path, now).Some?
    ensures ReceivedCounted(DoReceive(s, path, now).value)
  {
    if PhaseOf(s, path).Addressed? {
      HandOverKeepsReceived(s, path, now);
    } else {
      SilentStep(s, path, now);
    }
  }

  lemma SendsKeepReceived(s: State, s': State, out: seq<Output>)
    requires ReceivedCounted(s) && |out| <= 1 && (out != [] ==> out[0].ToRelay?) && s'.log.out == s.log.out + out
    requires s'.primary == s.primary && s'.backup == s.backup
    requires s'.client.stats.packetsReceived == s.client.stats.packetsReceived
    requires s'.client.stats.bytesReceived == s.client.stats.bytesReceived
    ensures ReceivedCounted(s')
  {
    DeliveredNext(s.log.out, out, None);
    BytesNext(s.log.out, out);
  }

  lemma StepKeepsReceived(s: State, e: Event)
    requires ReceivedCounted(s) && Step(s, e).Some?
    ensures ReceivedCounted(Step(s, e).value)
  {
    match e
    case GameDatagram(_, _) =>
    case Arrival(_, _) =>
    case Game => SendsKeepReceived(s, DoGame(s).value, GameStep(s.client, s.game).2);
    case Keepalives(now) => SendsKeepReceived(s, DoKeepalives(s, now), KeepaliveStep(s.client, s.keepalive, now).2);
    case Receive(path, now) => ReceiveKeepsReceived(s, path, now);
  }

  /** In every interleaving, packets and bytes received are those handed over to the game, but for
      those not counted yet. */
  lemma {:induction false} ReceivedIsCounted(p: Setup, es: seq<Event>)
    requires Exec(p, es).Some?
    ensures ReceivedCounted(Exec(p, es).value)
  {
    if es == [] {
      var out := Started(p.token, p.multipath, p.target).1;
      DeliveredNext(out[..1], out[1..], None);
      DeliveredNext([], out[..1], None);
      BytesNext(out[..1], out[1..]);
      BytesNext([], out[..1]);
      assert out == out[..1] + out[1..] && out[..1] == [] + out[..1];
    } else {
      ReceivedIsCounted(p, es[..|es| - 1]);
      StepKeepsReceived(Exec(p, es[..|es| - 1]).value, es[|es| - 1]);
    }
  }

  // ---------------------------------------------------------------- keepalives

  function KeepalivesOn(out: seq<Output>, path: Path): nat {
    if out == [] then 0 else
    var last := out[|out| - 1];
    KeepalivesOn(out[..|out| - 1], path) + if last.ToRelay? && last.path == path && last.packet.flags == 2 then 1 else 0
  }

  /** The steps that the keepalive task has taken. */
  function StepsTaken(es: seq<Event>): nat {
    if es == [] then 0 else StepsTaken(es[..|es| - 1]) + if es[|es| - 1].Keepalives? then 1 else 0
  }

  /** The task is a cycle of four steps, or of six with a backup. */
  function Position(phase: KeepalivePhase, multipath: bool): nat {
    match phase
    case Waiting => 0
    case NumberedFirst(_) => 1
    case Remembered(_) => 2
    case SentFirst => 3
    case NumberedSecond(_) => 4
    case SentLast => if multipath then 5 else 3
  }

  /** How many keepalives are due after so many steps: one to the primary relay in the third step of
      each cycle, and one to the backup in the fifth. */
  function Due(steps: nat, path: Path, multipath: bool): nat {
    if multipath then (if path == Primary then (steps + 3) / 6 else (steps + 1) / 6)
    else if path == Primary then (steps + 1) / 4 else 0
  }

  /** After so many steps of the task: where it is, and what it has sent. */
  predicate OnSchedule(s: State, steps: nat, multipath: bool) {
    && s.client.multipath == multipath
    && (!multipath ==> !s.keepalive.SentFirst? && !s.keepalive.NumberedSecond?)
    && Position(s.keepalive, multipath) == steps % (if multipath then 6 else 4)
    && KeepalivesOn(s.log.out, Primary) == Due(steps, Primary, multipath)
    && KeepalivesOn(s.log.out, Backup) == Due(steps, Backup, multipath)
  }

  /** The next number has the next remainder, and the next quotient after the last remainder. */
  lemma NextQuotient(n: nat, m: nat)
    requires m > 1
    ensures (n + 1) % m == (if n % m == m - 1 then 0 else n % m + 1)
    ensures (n + 1) / m == n / m + (if n % m == m - 1 then 1 else 0)
  {
    if n % m == m - 1 {
      DivModUnique(n + 1, m, n / m + 1, 0);
    } else {
      DivModUnique(n + 1, m, n / m, n % m + 1);
    }
  }

  lemma DueNextSingle(steps: nat)
    ensures Due(steps + 1, Primary, false) == Due(steps, Primary, false) + (if steps % 4 == 2 then 1 else 0)
    ensures Due(steps + 1, Backup, false) == Due(steps, Backup, false)
  {
    NextQuotient(steps, 4);
    NextQuotient(steps + 1, 4);
  }

  lemma DueNextDouble(steps: nat)
    ensures Due(steps + 1, Primary, true) == Due(steps, Primary, true) + (if steps % 6 == 2 then 1 else 0)
    ensures Due(steps + 1, Backup, true) == Due(steps, Backup, true) + (if steps % 6 == 4 then 1 else 0)
  {
    NextQuotient(steps, 6);
    NextQuotient(steps + 1, 6);
    NextQuotient(steps + 2, 6);
    NextQuotient(steps + 3, 6);
  }

  lemma KeepalivesNext(out: seq<Output>, more: seq<Output>, path: Path)
    requires |more| <= 1
    ensures KeepalivesOn(out + more, path) == KeepalivesOn(out, path)
      + if more != [] && more[0].ToRelay? && more[0].path == path && more[0].packet.flags == 2 then 1 else 0
  {
    if more == [] {
      assert out + more == out;
    } else {
      assert (out + more)[..|out|] == out;
    }
  }

  /** One step of the task: it moves on in its cycle, and sends in the third and fifth position. */
  lemma TickMoves(s: State, now: int)
    requires !s.client.multipath ==> !s.keepalive.SentFirst? && !s.keepalive.NumberedSecond?
    ensures var s', multipath := DoKeepalives(s, now), s.client.multipath;
      var at, cycle := Position(s.keepalive, multipath), if multipath then 6 else 4;
      && s'.client.multipath == multipath
      && (!multipath ==> !s'.keepalive.SentFirst? && !s'.keepalive.NumberedSecond?)
      && Position(s'.keepalive, multipath) == (if at == cycle - 1 then 0 else at + 1)
      && KeepalivesOn(s'.log.out, Primary) == KeepalivesOn(s.log.out, Primary) + (if at == 2 then 1 else 0)
      && KeepalivesOn(s'.log.out, Backup) == KeepalivesOn(s.log.out, Backup) + (if at == 4 then 1 else 0)
  {
    var out := KeepaliveStep(s.client, s.keepalive, now).2;
    KeepalivesNext(s.log.out, out, Primary);
    KeepalivesNext(s.log.out, out, Backup);
  }

  lemma TickKeepsSchedule(s: State, now: int, steps: nat, multipath: bool)
    requires OnSchedule(s, steps, multipath)
    ensures OnSchedule(DoKeepalives(s, now), steps + 1, multipath)
  {
    TickMoves(s, now);
    NextQuotient(steps, if multipath then 6 else 4);
    if multipath { DueNextDouble(steps); } else { DueNextSingle(steps); }
  }

  /** What the other tasks send is no keepalive. */
  lemma OtherOutput(s: State, s': State, out: seq<Output>)
    requires s'.log.out == s.log.out + out
    requires |out| <= 1 && (out != [] && out[0].ToRelay? ==> out[0].packet.flags != 2)
    ensures forall path :: KeepalivesOn(s'.log.out, path) == KeepalivesOn(s.log.out, path)
  {
    KeepalivesNext(s.log.out, out, Primary);
    KeepalivesNext(s.log.out, out, Backup);
    forall path
      ensures KeepalivesOn(s'.log.out, path) == KeepalivesOn(s.log.out, path)
    {
      if path == Primary { } else { assert path == Backup; }
    }
  }

  lemma GameLeavesKeepalives(p: Setup, s: State)
    requires PendingForm(p, s) && DoGame(s).Some?
    ensures var s' := DoGame(s).value;
      && s'.keepalive == s.keepalive && s'.client.multipath == s.client.multipath
      && forall path :: KeepalivesOn(s'.log.out, path) == KeepalivesOn(s.log.out, path)
  {
    if s.game.SentPrimary? { MarkedData(s.game.packet); }
    OtherOutput(s, DoGame(s).value, GameStep(s.client, s.game).2);
  }

  lemma ReceiveLeavesKeepalives(s: State, path: Path, now: int)
    requires DoReceive(s, path, now).Some?
    ensures var s' := DoReceive(s, path, now).value;
      && s'.keepalive == s.keepalive && s'.client.multipath == s.client.multipath
      && forall on :: KeepalivesOn(s'.log.out, on) == KeepalivesOn(s.log.out, on)
  {
    OtherOutput(s, DoReceive(s, path, now).value, ReceiveStep(s.client, PhaseOf(s, path), now).2);
  }

  lemma OthersKeepSchedule(p: Setup, s: State, e: Event, steps: nat)
    requires OnSchedule(s, steps, p.multipath) && PendingForm(p, s) && Step(s, e).Some? && !e.Keepalives?
    ensures OnSchedule(Step(s, e).value, steps, p.multipath)
  {
    match e
    case GameDatagram(_, _) =>
    case Arrival(_, _) =>
    case Game => GameLeavesKeepalives(p, s);
    case Receive(path, now) => ReceiveLeavesKeepalives(s, path, now);
  }

  /** In every interleaving, each cycle of the keepalive task sends one keepalive on each path, and
      no other task sends any. */
  lemma {:induction false} KeepalivesOnSchedule(p: Setup, es: seq<Event>)
    requires Exec(p, es).Some?
    ensures OnSchedule(Exec(p, es).value, StepsTaken(es), p.multipath)
  {
    if es == [] {
      var out := Started(p.token, p.multipath, p.target).1;
      assert out == [] + out[..1] + out[1..];
      KeepalivesNext([], out[..1], Primary);
      KeepalivesNext([], out[..1], Backup);
      KeepalivesNext([] + out[..1], out[1..], Primary);
      KeepalivesNext([] + out[..1], out[1..], Backup);
    } else {
      var s, e := Exec(p, es[..|es| - 1]).value, es[|es| - 1];
      KeepalivesOnSchedule(p, es[..|es| - 1]);
      RunIsWellFormed(p, es[..|es| - 1]);
      if e.Keepalives? {
        TickKeepsSchedule(s, e.now, StepsTaken(es[..|es| - 1]), p.multipath);
      } else {
        OthersKeepSchedule(p, s, e, StepsTaken(es[..|es| - 1]));
      }
    }
  }

  // ---------------------------------------------------------------- round-trip times

  /** The big-endian number in bytes 4 to 7. */
  function NumberOf(data: seq<u8>): int
    requires |data| >= 8
  {
    data[4] as int * 0x100_0000 + data[5] as int * 0x1_0000 + data[6] as int * 0x100 + data[7]
  }

  /** What becomes of any datagram of a relay, byte by byte: less than a header is ignored; bit 1 of
      the ninth byte is the answer to a keepalive, which the primary's task looks up by its number and
      the backup's ignores; all else is a packet with that number and the bytes after the header. */
  lemma ArrivalExactly(s: State, e: Event)
    requires e.Arrival? && Step(s, e).Some?
    ensures var s' := Step(s, e).value;
      var data, phase := e.data, PhaseOf(s', e.path);
      && s' == WithPhase(s, e.path, phase)
      && if |data| < 10 then phase == Listening
         else if data[8] as int / 2 % 2 == 1
         then phase == if e.path == Primary then KeepaliveBack(NumberOf(data)) else Listening
         else phase.Parsed? && phase.packet.seqNumber == NumberOf(data) && phase.packet.payload == data[10..]
  {
    if |e.data| >= 10 {
      KindBits(Parse(e.data).value);
      BigEndianValue(e.data[4..8]);
    }
  }

  /** When a keepalive was remembered, if it is. */
  function Since(c: Client, n: u32): Option<int> { if n in c.keepaliveSent then Some(c.keepaliveSent[n]) else None }

  /** What a step does to a number: a keepalive to the primary relay is remembered under it at that
      time; an answer gives the time gone by since then, and it is forgotten; a tick's last step keeps
      it for less than a minute; and nothing else changes it. */
  lemma RoundTripExactly(s: State, e: Event, n: u32)
    requires Step(s, e).Some?
    ensures var c, c' := s.client, Step(s, e).value.client;
      if e.Receive? && PhaseOf(s, e.path) == KeepaliveBack(n)
      then Since(c', n).None? && (Since(c, n).Some? ==> c'.stats.lastRtt == Some(e.now - Since(c, n).value))
      else if e.Keepalives? && s.keepalive == NumberedFirst(n) then Since(c', n) == Some(e.now)
      else if e.Keepalives? && s.keepalive.SentLast? && Since(c, n).Some? && e.now - Since(c, n).value >= 60_000
      then Since(c', n).None?
      else Since(c', n) == Since(c, n)
  {
    match e
    case GameDatagram(_, _) =>
    case Arrival(_, _) =>
    case Game =>
    case Keepalives(_) =>
    case Receive(_, _) =>
  }

  /** In every run, only an answer on the primary path to a remembered keepalive gives a round-trip
      time. */
  lemma MeasuredExactly(p: Setup, es: seq<Event>, e: Event)
    requires Exec(p, es).Some? && Step(Exec(p, es).value, e).Some?
    ensures var s := Exec(p, es).value;
      Step(s, e).value.client.stats.lastRtt != s.client.stats.lastRtt ==>
        && e.Receive? && e.path == Primary
        && s.primary.KeepaliveBack? && s.primary.number in s.client.keepaliveSent
  {
    BackupIgnoresKeepalives(p, es);
    match e
    case GameDatagram(_, _) =>
    case Arrival(_, _) =>
    case Game =>
    case Keepalives(_) =>
    case Receive(_, _) =>
  }

  lemma {:induction false} BackupIgnoresKeepalives(p: Setup, es: seq<Event>)
    requires Exec(p, es).Some?
    ensures !Exec(p, es).value.backup.KeepaliveBack?
  {
    if es == [] {
    } else {
      BackupIgnoresKeepalives(p, es[..|es| - 1]);
      StepIgnoresKeepalives(Exec(p, es[..|es| - 1]).value, es[|es| - 1]);
    }
  }

  lemma StepIgnoresKeepalives(s: State, e: Event)
    requires Step(s, e).Some? && !s.backup.KeepaliveBack?
    ensures !Step(s, e).value.backup.KeepaliveBack?
  {
    match e
    case GameDatagram(_, _) =>
    case Arrival(_, _) => ArrivalExactly(s, e);
    case Game =>
    case Keepalives(_) =>
    case Receive(_, _) =>
  }

  /** Every packet counted as received also brings the reported duplicates up to date. */
  lemma DuplicatesReported(s: State, e: Event)
    requires Step(s, e).Some?
    ensures var st, st' := s.client.stats, Step(s, e).value.client.stats;
      st'.duplicatesDropped == if st'.packetsReceived > st.packetsReceived then s.client.duplicates else st.duplicatesDropped
  {
    match e
    case GameDatagram(_, _) =>
    case Arrival(_, _) =>
    case Game =>
    case Keepalives(_) =>
    case Receive(_, _) =>
  }

  // ---------------------------------------------------------------- what the game receives

  /** Where the game's last datagram came from. */
  function LatestGame(es: seq<Event>): Option<SocketAddr> {
    if es == [] then None
    else if es[|es| - 1].GameDatagram? then Some(es[|es| - 1].src)
    else LatestGame(es[..|es| - 1])
  }

  /** In every interleaving, the address known is that of the game's last datagram, so an accepted
      payload goes there, if there is one, and is lost else. */
  lemma {:induction false} GoesToLatest(p: Setup, es: seq<Event>)
    requires Exec(p, es).Some?
    ensures var s := Exec(p, es).value;
      && s.client.gameAddr == LatestGame(es)
      && forall path, now :: PhaseOf(s, path).Accepted? ==>
          var s' := DoReceive(s, path, now);
          && s'.Some?
          && PhaseOf(s'.value, path) == if LatestGame(es).None? then Listening
                                        else Addressed(LatestGame(es).value, PhaseOf(s, path).payload)
  {
    if es == [] {
    } else {
      GoesToLatest(p, es[..|es| - 1]);
      KnownGame(Exec(p, es[..|es| - 1]).value, es[|es| - 1]);
    }
  }

  lemma KnownGame(s: State, e: Event)
    requires Step(s, e).Some?
    ensures Step(s, e).value.client.gameAddr == if e.GameDatagram? then Some(e.src) else s.client.gameAddr
  {
    match e
    case GameDatagram(_, _) =>
    case Arrival(_, _) =>
    case Game =>
    case Keepalives(_) =>
    case Receive(_, _) =>
  }

  /** The payload came in a datagram of the run, after its ten header bytes. */
  ghost predicate Arrived(es: seq<Event>, payload: seq<u8>) {
    exists i :: 0 <= i < |es| && es[i].Arrival? && |es[i].data| >= 10 && es[i].data[10..] == payload
  }

  /** The game sent a datagram from this address. */
  ghost predicate IsGame(es: seq<Event>, addr: SocketAddr) {
    exists i :: 0 <= i < |es| && es[i].GameDatagram? && es[i].src == addr
  }

  ghost predicate PhaseArrived(es: seq<Event>, phase: ReceivePhase) {
    match phase
    case Parsed(packet) => Arrived(es, packet.payload)
    case Accepted(payload) => Arrived(es, payload)
    case Addressed(addr, payload) => IsGame(es, addr) && Arrived(es, payload)
    case _ => true
  }

  ghost predicate OutputArrived(es: seq<Event>, o: Output) { o.ToGame? ==> IsGame(es, o.addr) && Arrived(es, o.payload) }

  ghost predicate ArrivedInv(es: seq<Event>, s: State) {
    && PhaseArrived(es, s.primary) && PhaseArrived(es, s.backup)
    && (s.client.gameAddr.Some? ==> IsGame(es, s.client.gameAddr.value))
    && forall i :: 0 <= i < |s.log.out| ==> OutputArrived(es, s.log.out[i])
  }

  lemma ArrivedStays(es: seq<Event>, e: Event, payload: seq<u8>)
    requires Arrived(es, payload)
    ensures Arrived(es + [e], payload)
  {
    var i :| 0 <= i < |es| && es[i].Arrival? && |es[i].data| >= 10 && es[i].data[10..] == payload;
    assert (es + [e])[i] == es[i];
  }

  lemma GameStays(es: seq<Event>, e: Event, addr: SocketAddr)
    requires IsGame(es, addr)
    ensures IsGame(es + [e], addr)
  {
    var i :| 0 <= i < |es| && es[i].GameDatagram? && es[i].src == addr;
    assert (es + [e])[i] == es[i];
  }

  lemma PhaseStays(es: seq<Event>, e: Event, phase: ReceivePhase)
    requires PhaseArrived(es, phase)
    ensures PhaseArrived(es + [e], phase)
  {
    match phase
    case Parsed(packet) => ArrivedStays(es, e, packet.payload);
    case Accepted(payload) => ArrivedStays(es, e, payload);
    case Addressed(addr, payload) =>
      GameStays(es, e, addr);
      ArrivedStays(es, e, payload);
    case _ =>
  }

  lemma LaterInv(es: seq<Event>, e: Event, s: State)
    requires ArrivedInv(es, s)
    ensures ArrivedInv(es + [e], s)
  {
    PhaseStays(es, e, s.primary);
    PhaseStays(es, e, s.backup);
    if s.client.gameAddr.Some? { GameStays(es, e, s.client.gameAddr.value); }
    forall i | 0 <= i < |s.log.out|
      ensures OutputArrived(es + [e], s.log.out[i])
    {
      assert OutputArrived(es, s.log.out[i]);
      if s.log.out[i].ToGame? {
        GameStays(es, e, s.log.out[i].addr);
        ArrivedStays(es, e, s.log.out[i].payload);
      }
    }
  }

  lemma ArrivalHasArrived(es: seq<Event>, s: State, path: Path, data: seq<u8>)
    requires ArrivedInv(es, s) && es != [] && es[|es| - 1] == Arrival(path, data) && Step(s, Arrival(path, data)).Some?
    ensures ArrivedInv(es, Step(s, Arrival(path, data)).value)
  {
    if Received(path, data).Parsed? {
      assert Received(path, data).packet.payload == data[10..];
      assert Arrived(es, data[10..]);
    }
  }

  lemma ReceiveHasArrived(es: seq<Event>, s: State, path: Path, now: int)
    requires ArrivedInv(es, s) && DoReceive(s, path, now).Some?
    ensures ArrivedInv(es, DoReceive(s, path, now).value)
  {
    var phase := PhaseOf(s, path);
    assert PhaseArrived(es, phase);
  }

  lemma StepHasArrived(es: seq<Event>, s: State, e: Event)
    requires ArrivedInv(es, s) && es != [] && es[|es| - 1] == e && Step(s, e).Some?
    ensures ArrivedInv(es, Step(s, e).value)
  {
    match e
    case GameDatagram(src, _) => assert IsGame(es, src);
    case Arrival(path, data) => ArrivalHasArrived(es, s, path, data);
    case Game =>
    case Keepalives(_) =>
    case Receive(path, now) => ReceiveHasArrived(es, s, path, now);
  }

  /** In every interleaving, what is handed over to the game came in a relay's datagram, without its
      header, and goes to an address that the game sent from. */
  lemma {:induction false} DeliveredHasArrived(p: Setup, es: seq<Event>)
    requires Exec(p, es).Some?
    ensures ArrivedInv(es, Exec(p, es).value)
  {
    if es == [] {
    } else {
      var before, e := es[..|es| - 1], es[|es| - 1];
      DeliveredHasArrived(p, before);
      assert before + [e] == es;
      LaterInv(before, e, Exec(p, before).value);
      StepHasArrived(es, Exec(p, before).value, e);
    }
  }
}
