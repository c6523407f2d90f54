/** The sequence numbers that the proxy's tasks send, over every interleaving.

    Taking a number and sending the packet are two steps, so a packet of another task can overtake
    it. Packets of one kind come from one task and keep their order.
 */
module ProxyNumbers {
  import opened Bits
  import opened Text
  import opened Net
  import opened PlgProtocol
  import opened UdpProxy
  import opened ProxyRuns

  /** Packets of one kind on one path carry increasing numbers. */
  predicate KindIncreasing(out: seq<Output>) {
    forall i, j :: 0 <= i < j < |out| && SamePath(out[i], out[j]) && IsKeepalive(out[i].packet) == IsKeepalive(out[j].packet) ==>
      out[i].packet.seqNumber < out[j].packet.seqNumber
  }

  predicate SamePath(a: Output, b: Output) { a.ToRelay? && b.ToRelay? && a.path == b.path }

  predicate Distinct(out: seq<Output>) {
    forall i, j :: 0 <= i < j < |out| && SamePath(out[i], out[j]) ==> out[i].packet.seqNumber != out[j].packet.seqNumber
  }

  /** The number was taken, and by the send task exactly if the packet is no keepalive. */
  predicate Known(log: Log, packet: PlgPacket) {
    packet.seqNumber < log.taken && (IsKeepalive(packet) <==> packet.seqNumber !in log.data)
  }

  predicate AllKnown(log: Log) {
    && (forall n :: n in log.data ==> n < log.taken)
    && (forall i :: 0 <= i < |log.out| && log.out[i].ToRelay? ==> Known(log, log.out[i].packet))
  }

  /** The packets of this kind sent on this path have smaller numbers. */
  predicate Below(out: seq<Output>, path: Path, keepalive: bool, n: u32) {
    forall i :: 0 <= i < |out| && out[i].ToRelay? && out[i].path == path && IsKeepalive(out[i].packet) == keepalive ==>
      out[i].packet.seqNumber < n
  }

  predicate PendingGame(log: Log, phase: GamePhase) {
    match phase
    case Numbered(packet) =>
      && Known(log, packet) && !IsKeepalive(packet)
      && Below(log.out, Primary, false, packet.seqNumber) && Below(log.out, Backup, false, packet.seqNumber)
    case SentPrimary(packet) =>
      Known(log, packet) && !IsKeepalive(packet) && Below(log.out, Backup, false, packet.seqNumber)
    case _ => true
  }

  predicate PendingKeepalive(log: Log, phase: KeepalivePhase) {
    match phase
    case NumberedFirst(n) => n < log.taken && n !in log.data && Below(log.out, Primary, true, n)
    case Remembered(n) => n < log.taken && n !in log.data && Below(log.out, Primary, true, n)
    case NumberedSecond(n) => n < log.taken && n !in log.data && Below(log.out, Backup, true, n)
    case _ => true
  }

  predicate NumbersInv(s: State) {
    && s.client.nextSeq == s.log.taken
    && AllKnown(s.log) && KindIncreasing(s.log.out)
    && PendingGame(s.log, s.game) && PendingKeepalive(s.log, s.keepalive)
  }

  lemma Kinds(token: u32, n: u32, payload: seq<u8>)
    ensures !IsKeepalive(Data(token, n, payload)) && !IsControl(Data(token, n, payload))
    ensures !IsKeepalive(Control(token, n, payload)) && IsControl(Control(token, n, payload))
    ensures IsKeepalive(Keepalive(token, n))
  {
  }

  // ---------------------------------------------------------------- single sends

  lemma SendIncreases(out: seq<Output>, path: Path, packet: PlgPacket)
    requires KindIncreasing(out) && Below(out, path, IsKeepalive(packet), packet.seqNumber)
    ensures KindIncreasing(out + [ToRelay(path, packet)])
  {
  }

  lemma SendKeepsKnown(log: Log, path: Path, packet: PlgPacket)
    requires AllKnown(log) && Known(log, packet)
    ensures AllKnown(log.(out := log.out + [ToRelay(path, packet)]))
  {
  }

  lemma SendKeepsBelow(out: seq<Output>, path: Path, packet: PlgPacket, path': Path, keepalive: bool, n: u32)
    requires Below(out, path', keepalive, n)
    requires path == path' && IsKeepalive(packet) == keepalive ==> packet.seqNumber < n
    ensures Below(out + [ToRelay(path, packet)], path', keepalive, n)
  {
  }

  /** The phase of the keepalive task is not affected by a packet of the send task. */
  lemma GameSendLeavesKeepalive(log: Log, path: Path, packet: PlgPacket, phase: KeepalivePhase)
    requires PendingKeepalive(log, phase) && !IsKeepalive(packet)
    ensures PendingKeepalive(log.(out := log.out + [ToRelay(path, packet)]), phase)
  {
  }

  lemma KeepaliveSendLeavesGame(log: Log, path: Path, packet: PlgPacket, phase: GamePhase)
    requires PendingGame(log, phase) && IsKeepalive(packet)
    ensures PendingGame(log.(out := log.out + [ToRelay(path, packet)]), phase)
  {
  }

  // ---------------------------------------------------------------- steps

  lemma GameNumbers(s: State)
    requires NumbersInv(s) && s.game.HasDatagram? && s.log.taken + 1 < U32
    ensures NumbersInv(DoGame(s).value)
  {
  }

  lemma GameSendsPrimary(s: State)
    requires NumbersInv(s) && s.game.Numbered?
    ensures NumbersInv(DoGame(s).value)
  {
    var packet := s.game.packet;
    SendIncreases(s.log.out, Primary, packet);
    SendKeepsKnown(s.log, Primary, packet);
    SendKeepsBelow(s.log.out, Primary, packet, Backup, false, packet.seqNumber);
    GameSendLeavesKeepalive(s.log, Primary, packet, s.keepalive);
  }

  lemma GameSendsBackup(s: State)
    requires NumbersInv(s) && s.game.SentPrimary?
    ensures NumbersInv(DoGame(s).value)
  {
    var packet := WithMultipath(s.game.packet, 1);
    MultipathKeepsKind(s.game.packet, 1);
    SendIncreases(s.log.out, Backup, packet);
    SendKeepsKnown(s.log, Backup, packet);
    GameSendLeavesKeepalive(s.log, Backup, packet, s.keepalive);
  }

  lemma KeepaliveNumbers(s: State, now: int)
    requires NumbersInv(s) && (s.keepalive.Waiting? || s.keepalive.SentFirst?) && s.log.taken + 1 < U32
    ensures NumbersInv(DoKeepalives(s, now))
  {
  }

  lemma KeepaliveSends(s: State, now: int)
    requires NumbersInv(s) && (s.keepalive.Remembered? || s.keepalive.NumberedSecond?)
    ensures NumbersInv(DoKeepalives(s, now))
  {
    var packet, path := Keepalive(s.client.token, s.keepalive.number), if s.keepalive.Remembered? then Primary else Backup;
    Kinds(s.client.token, packet.seqNumber, []);
    SendIncreases(s.log.out, path, packet);
    SendKeepsKnown(s.log, path, packet);
    KeepaliveSendLeavesGame(s.log, path, packet, s.game);
  }

  lemma GameKeepsNumbers(s: State)
    requires NumbersInv(s) && DoGame(s).Some? && DoGame(s).value.log.taken < U32
    ensures NumbersInv(DoGame(s).value)
  {
    match s.game
    case HasDatagram(_) => GameNumbers(s);
    case Numbered(_) => GameSendsPrimary(s);
    case SentPrimary(_) => GameSendsBackup(s);
    case SentAll(_) => assert s.log.out + [] == s.log.out;
  }

  lemma KeepalivesKeepNumbers(s: State, now: int)
    requires NumbersInv(s) && DoKeepalives(s, now).log.taken < U32
    ensures NumbersInv(DoKeepalives(s, now))
  {
    match s.keepalive
    case Waiting => KeepaliveNumbers(s, now);
    case SentFirst => KeepaliveNumbers(s, now);
    case Remembered(_) => KeepaliveSends(s, now);
    case NumberedSecond(_) => KeepaliveSends(s, now);
    case NumberedFirst(_) => assert s.log.out + [] == s.log.out;
    case SentLast => assert s.log.out + [] == s.log.out;
  }

  /** A receive step takes no number and sends nothing to a relay. */
  lemma ReceiveSendsNothing(s: State, path: Path, now: int)
    requires DoReceive(s, path, now).Some?
    ensures var s' := DoReceive(s, path, now).value;
      && s'.game == s.game && s'.keepalive == s.keepalive && s'.log.taken == s.log.taken && s'.log.data == s.log.data
      && s'.client.nextSeq == s.client.nextSeq && s'.client.multipath == s.client.multipath
      && (s'.log.out == s.log.out || exists o: Output :: o.ToGame? && s'.log.out == s.log.out + [o])
  {
  }

  lemma ReceiveKeepsNumbers(s: State, path: Path, now: int)
    requires NumbersInv(s) && DoReceive(s, path, now).Some?
    ensures NumbersInv(DoReceive(s, path, now).value)
  {
    ReceiveSendsNothing(s, path, now);
  }

  lemma StepKeepsNumbers(s: State, e: Event)
    requires NumbersInv(s) && Step(s, e).Some? && Step(s, e).value.log.taken < U32
    ensures NumbersInv(Step(s, e).value)
  {
    match e
    case GameDatagram(_, _) =>
    case Arrival(_, _) =>
    case Game => GameKeepsNumbers(s);
    case Keepalives(now) => KeepalivesKeepNumbers(s, now);
    case Receive(path, now) => ReceiveKeepsNumbers(s, path, now);
  }

  // ---------------------------------------------------------------- runs

  lemma TakenGrows(s: State, e: Event)
    requires Step(s, e).Some?
    ensures s.log.taken <= Step(s, e).value.log.taken
  {
  }

  lemma StartNumbers(p: Setup)
    ensures NumbersInv(Init(p.token, p.multipath, p.target))
  {
  }

  lemma {:induction false} RunKeepsNumbers(p: Setup, es: seq<Event>)
    requires Exec(p, es).Some? && Exec(p, es).value.log.taken < U32
    ensures NumbersInv(Exec(p, es).value)
  {
    if es == [] {
      StartNumbers(p);
    } else {
      TakenGrows(Exec(p, es[..|es| - 1]).value, es[|es| - 1]);
      RunKeepsNumbers(p, es[..|es| - 1]);
      StepKeepsNumbers(Exec(p, es[..|es| - 1]).value, es[|es| - 1]);
    }
  }

  /** As long as the counter does not wrap, the numbers on either path are distinct, and those of
      keepalives and of all other packets each increase: only a keepalive and a packet of another
      kind can overtake each other. */
  lemma RunNumbers(p: Setup, es: seq<Event>)
    requires Exec(p, es).Some? && Exec(p, es).value.log.taken < U32
    ensures var out := Exec(p, es).value.log.out; KindIncreasing(out) && Distinct(out)
  {
    RunKeepsNumbers(p, es);
    var log := Exec(p, es).value.log;
    forall i, j | 0 <= i < j < |log.out| && SamePath(log.out[i], log.out[j])
      ensures log.out[i].packet.seqNumber != log.out[j].packet.seqNumber
    {
      assert Known(log, log.out[i].packet) && Known(log, log.out[j].packet);
    }
  }

  /** Overtaking happens: a keepalive takes its number, and the send task takes the next one and
      sends first. */
  lemma Overtaking(p: Setup, src: SocketAddr, payload: seq<u8>) returns (es: seq<Event>, n: u32)
    ensures Exec(p, es).Some?
    ensures var start, out := Started(p.token, p.multipath, p.target).1, Exec(p, es).value.log.out;
      n + 1 < U32
      && out == start + [ToRelay(Primary, Data(p.token, n + 1, payload))] + [ToRelay(Primary, Keepalive(p.token, n))]
  {
    var s;
    es, s, n := DatagramOvertakes(p, src, payload);
    es, s := Then(p, es, s, Keepalives(0));
    es, s := Then(p, es, s, Keepalives(0));
  }

  lemma KeepaliveNumbered(p: Setup) returns (es: seq<Event>, s: State, n: u32)
    ensures Exec(p, es) == Some(s) && n + 1 < U32 && s.keepalive == NumberedFirst(n)
    ensures s.client.nextSeq == n + 1 && s.client.token == p.token && s.game.Idle?
    ensures s.log.out == Started(p.token, p.multipath, p.target).1
  {
    n := if p.multipath then 2 else 1;
    es, s := [], Init(p.token, p.multipath, p.target);
    assert s.log.out + [] == s.log.out;
    es, s := Then(p, es, s, Keepalives(0));
  }

  lemma BothNumbered(p: Setup, src: SocketAddr, payload: seq<u8>) returns (es: seq<Event>, s: State, n: u32)
    ensures Exec(p, es) == Some(s) && n + 1 < U32 && s.keepalive == NumberedFirst(n) && s.client.token == p.token
    ensures s.game == Numbered(Data(p.token, n + 1, payload))
    ensures s.log.out == Started(p.token, p.multipath, p.target).1
  {
    es, s, n := KeepaliveNumbered(p);
    assert s.log.out + [] == s.log.out;
    es, s := Then(p, es, s, GameDatagram(src, payload));
    es, s := Then(p, es, s, Game);
  }

  lemma DatagramOvertakes(p: Setup, src: SocketAddr, payload: seq<u8>) returns (es: seq<Event>, s: State, n: u32)
    ensures Exec(p, es) == Some(s) && n + 1 < U32 && s.keepalive == NumberedFirst(n) && s.client.token == p.token
    ensures s.log.out == Started(p.token, p.multipath, p.target).1 + [ToRelay(Primary, Data(p.token, n + 1, payload))]
  {
    es, s, n := BothNumbered(p, src, payload);
    es, s := Then(p, es, s, Game);
  }

  // ---------------------------------------------------------------- copies

  predicate IsData(o: Output, path: Path) {
    o.ToRelay? && o.path == path && !IsKeepalive(o.packet) && !IsControl(o.packet)
  }

  /** Some packet sent before on the primary path is the original of this one. */
  predicate HasOriginal(out: seq<Output>, i: int)
    requires 0 <= i < |out| && out[i].ToRelay?
  {
    exists j :: 0 <= j < i && IsData(out[j], Primary) && out[i].packet == WithMultipath(out[j].packet, 1)
  }

  predicate HasCopy(out: seq<Output>, j: int)
    requires 0 <= j < |out| && out[j].ToRelay?
  {
    exists i :: j < i < |out| && out[i] == ToRelay(Backup, WithMultipath(out[j].packet, 1))
  }

  predicate WasSent(out: seq<Output>, packet: PlgPacket) {
    exists j :: 0 <= j < |out| && out[j] == ToRelay(Primary, packet)
  }

  /** Every data packet on the backup path is the marked copy of one sent before on the primary; and
      with a backup path, every data packet of the primary has its copy, but for the one whose copy
      is still to be sent. */
  predicate Mirrored(s: State) {
    && (forall i :: 0 <= i < |s.log.out| && IsData(s.log.out[i], Backup) ==> HasOriginal(s.log.out, i))
    && (s.client.multipath ==> forall j :: 0 <= j < |s.log.out| && IsData(s.log.out[j], Primary) ==>
          HasCopy(s.log.out, j) || s.game == SentPrimary(s.log.out[j].packet))
  }

  /** Without a backup path nothing is sent there. */
  predicate SinglePath(s: State) {
    !s.client.multipath ==>
      && !s.game.SentPrimary? && !s.keepalive.SentFirst? && !s.keepalive.NumberedSecond?
      && forall i :: 0 <= i < |s.log.out| && s.log.out[i].ToRelay? ==> s.log.out[i].path == Primary
  }

  predicate Plain(packet: PlgPacket) { !IsKeepalive(packet) && !IsControl(packet) }

  predicate PendingCopy(s: State) {
    && (s.game.Numbered? ==> Plain(s.game.packet))
    && (s.game.SentPrimary? ==> Plain(s.game.packet) && WasSent(s.log.out, s.game.packet))
  }

  predicate CopiesInv(s: State) { Mirrored(s) && SinglePath(s) && PendingCopy(s) }

  lemma MoreKeepsOriginals(out: seq<Output>, o: Output)
    requires forall i :: 0 <= i < |out| && IsData(out[i], Backup) ==> HasOriginal(out, i)
    requires IsData(o, Backup) ==> exists j :: 0 <= j < |out| && IsData(out[j], Primary) && o.packet == WithMultipath(out[j].packet, 1)
    ensures forall i :: 0 <= i < |out + [o]| && IsData((out + [o])[i], Backup) ==> HasOriginal(out + [o], i)
  {
    var more := out + [o];
    forall i | 0 <= i < |more| && IsData(more[i], Backup)
      ensures HasOriginal(more, i)
    {
      assert i < |out| ==> more[i] == out[i];
      var j :| 0 <= j < (if i < |out| then i else |out|) && IsData(out[j], Primary)
        && more[i].packet == WithMultipath(out[j].packet, 1);
      assert more[j] == out[j];
    }
  }

  lemma MoreKeepsCopies(out: seq<Output>, o: Output, j: nat)
    requires j < |out| && out[j].ToRelay? && HasCopy(out, j)
    ensures HasCopy(out + [o], j)
  {
    var i :| j < i < |out| && out[i] == ToRelay(Backup, WithMultipath(out[j].packet, 1));
    assert (out + [o])[i] == out[i];
  }

  /** An output that is no data packet. */
  lemma OtherOutputMirrored(s: State, s': State, o: Output)
    requires Mirrored(s) && !IsData(o, Primary) && !IsData(o, Backup)
    requires s'.log.out == s.log.out + [o] && s'.game == s.game && s'.client.multipath == s.client.multipath
    ensures Mirrored(s')
  {
    MoreKeepsOriginals(s.log.out, o);
    forall j | 0 <= j < |s.log.out| && s.log.out[j].ToRelay? && HasCopy(s.log.out, j)
      ensures HasCopy(s'.log.out, j)
    {
      MoreKeepsCopies(s.log.out, o, j);
    }
  }

  lemma PrimaryMirrored(s: State)
    requires CopiesInv(s) && s.game.Numbered?
    ensures Mirrored(DoGame(s).value)
  {
    var o, s' := ToRelay(Primary, s.game.packet), DoGame(s).value;
    MoreKeepsOriginals(s.log.out, o);
    forall j | 0 <= j < |s.log.out| && s.log.out[j].ToRelay? && HasCopy(s.log.out, j)
      ensures HasCopy(s'.log.out, j)
    {
      MoreKeepsCopies(s.log.out, o, j);
    }
  }

  lemma BackupMirrored(s: State)
    requires CopiesInv(s) && s.game.SentPrimary?
    ensures Mirrored(DoGame(s).value)
  {
    var o, s' := ToRelay(Backup, WithMultipath(s.game.packet, 1)), DoGame(s).value;
    MoreKeepsOriginals(s.log.out, o);
    forall j | 0 <= j < |s.log.out| && IsData(s.log.out[j], Primary)
      ensures s.client.multipath ==> HasCopy(s'.log.out, j)
    {
      if HasCopy(s.log.out, j) {
        MoreKeepsCopies(s.log.out, o, j);
      } else {
        assert s'.log.out[|s.log.out|] == o && s'.log.out[j] == s.log.out[j];
      }
    }
  }

  lemma GameKeepsCopies(s: State)
    requires CopiesInv(s) && DoGame(s).Some?
    ensures CopiesInv(DoGame(s).value)
  {
    match s.game
    case HasDatagram(payload) =>
      Kinds(s.client.token, s.client.nextSeq, payload);
      assert s.log.out + [] == s.log.out;
    case Numbered(packet) =>
      PrimaryMirrored(s);
      assert DoGame(s).value.log.out[|s.log.out|] == ToRelay(Primary, packet);
    case SentPrimary(_) => BackupMirrored(s);
    case SentAll(_) => assert s.log.out + [] == s.log.out;
  }

  lemma SentStays(out: seq<Output>, o: Output, packet: PlgPacket)
    requires WasSent(out, packet)
    ensures WasSent(out + [o], packet)
  {
    var j :| 0 <= j < |out| && out[j] == ToRelay(Primary, packet);
    assert (out + [o])[j] == out[j];
  }

  lemma KeepaliveSendKeepsCopies(s: State, now: int)
    requires CopiesInv(s) && (s.keepalive.Remembered? || s.keepalive.NumberedSecond?)
    ensures CopiesInv(DoKeepalives(s, now))
  {
    var o := ToRelay(if s.keepalive.Remembered? then Primary else Backup, Keepalive(s.client.token, s.keepalive.number));
    Kinds(s.client.token, s.keepalive.number, []);
    OtherOutputMirrored(s, DoKeepalives(s, now), o);
    if s.game.SentPrimary? {
      SentStays(s.log.out, o, s.game.packet);
    }
  }

  lemma KeepalivesKeepCopies(s: State, now: int)
    requires CopiesInv(s)
    ensures CopiesInv(DoKeepalives(s, now))
  {
    if s.keepalive.Remembered? || s.keepalive.NumberedSecond? {
      KeepaliveSendKeepsCopies(s, now);
    } else {
      assert s.log.out + [] == s.log.out;
    }
  }

  lemma ReceiveKeepsCopies(s: State, path: Path, now: int)
    requires CopiesInv(s) && DoReceive(s, path, now).Some?
    ensures CopiesInv(DoReceive(s, path, now).value)
  {
    ReceiveSendsNothing(s, path, now);
    var s' := DoReceive(s, path, now).value;
    if s'.log.out != s.log.out {
      var o: Output :| o.ToGame? && s'.log.out == s.log.out + [o];
      OtherOutputMirrored(s, s', o);
      if s.game.SentPrimary? {
        SentStays(s.log.out, o, s.game.packet);
      }
    }
  }

  lemma StepKeepsCopies(s: State, e: Event)
    requires CopiesInv(s) && Step(s, e).Some?
    ensures CopiesInv(Step(s, e).value)
  {
    match e
    case GameDatagram(_, _) =>
    case Arrival(_, _) =>
    case Game => GameKeepsCopies(s);
    case Keepalives(now) => KeepalivesKeepCopies(s, now);
    case Receive(path, now) => ReceiveKeepsCopies(s, path, now);
  }

  lemma StartCopies(p: Setup)
    ensures CopiesInv(Init(p.token, p.multipath, p.target))
  {
  }

  /** In every interleaving, wrapping counter or not, the backup path carries just the marked copies
      of the primary's data packets, each after its original. */
  lemma {:induction false} RunMirrors(p: Setup, es: seq<Event>)
    requires Exec(p, es).Some?
    ensures CopiesInv(Exec(p, es).value)
  {
    if es == [] {
      StartCopies(p);
    } else {
      RunMirrors(p, es[..|es| - 1]);
      StepKeepsCopies(Exec(p, es[..|es| - 1]).value, es[|es| - 1]);
    }
  }
}
