/** The client's UDP proxy: the sequence counter, duplicate sending over two paths, and the two
    receive tasks that share one set of numbers.

    Each task is a sequential program with local state, its phase. A step is one access to shared
    state or one datagram sent, and the steps of all tasks interleave freely; `ProxyRuns` says what
    holds then. Times are milliseconds and come with the steps.
 */
module UdpProxy {
  import opened Bits
  import opened Text
  import opened Net
  import opened PlgProtocol
  import D = Dedup

  const KEEPALIVE_MEMORY: nat := 60_000

  datatype Path = Primary | Backup

  datatype Stats = Stats(packetsSent: nat, packetsReceived: nat, bytesSent: nat, bytesReceived: nat,
                         lastRtt: Option<int>, duplicatesDropped: nat)

  /** What the tasks share. */
  datatype Client = Client(
    token: u32,
    multipath: bool,
    nextSeq: u32,
    seen: set<u32>,
    duplicates: nat,
    keepaliveSent: map<u32, int>,
    gameAddr: Option<SocketAddr>,
    stats: Stats)

  datatype Output = ToRelay(path: Path, packet: PlgPacket) | ToGame(addr: SocketAddr, payload: seq<u8>)

  // ---------------------------------------------------------------- the phases of the tasks

  /** The send task, which waits for the game in phase `Idle`. */
  datatype GamePhase =
    | Idle
    | HasDatagram(payload: seq<u8>)
    | Numbered(packet: PlgPacket)
    | SentPrimary(packet: PlgPacket)
    | SentAll(length: nat)

  /** The keepalive task, which waits for its timer in phase `Waiting`. */
  datatype KeepalivePhase =
    | Waiting
    | NumberedFirst(number: u32)
    | Remembered(number: u32)
    | SentFirst
    | NumberedSecond(number: u32)
    | SentLast

  /** A receive task, which waits for its relay in phase `Listening`. */
  datatype ReceivePhase =
    | Listening
    | KeepaliveBack(number: u32)
    | Parsed(packet: PlgPacket)
    | Accepted(payload: seq<u8>)
    | Addressed(addr: SocketAddr, payload: seq<u8>)
    | HandedOver(length: nat)

  // ---------------------------------------------------------------- steps on values

  /** `fetch_add` on the counter, which wraps. */
  function Next(n: u32): u32 { (n + 1) % U32 }

  /** The control packets of `start`: one to each relay, each with its own number. */
  function Started(token: u32, multipath: bool, target: seq<u8>): (Client, seq<Output>) {
    (Client(token, multipath, if multipath then 2 else 1, {}, 0, map[], None, Stats(0, 0, 0, 0, None, 0)),
     [ToRelay(Primary, Control(token, 0, target))]
       + if multipath then [ToRelay(Backup, Control(token, 1, target))] else [])
  }

  function GameStep(c: Client, phase: GamePhase): (Client, GamePhase, seq<Output>)
    requires !phase.Idle?
  {
    match phase
    case HasDatagram(payload) =>
      (c.(nextSeq := Next(c.nextSeq)), Numbered(Data(c.token, c.nextSeq, payload)), [])
    case Numbered(packet) =>
      (c, if c.multipath then SentPrimary(packet) else SentAll(|packet.payload|), [ToRelay(Primary, packet)])
    case SentPrimary(packet) =>
      (c, SentAll(|packet.payload|), [ToRelay(Backup, WithMultipath(packet, 1))])
    case SentAll(length) =>
      (c.(stats := c.stats.(packetsSent := c.stats.packetsSent + 1, bytesSent := c.stats.bytesSent + length)), Idle, [])
  }

  /** Only keepalives to the primary relay are remembered. */
  function KeepaliveStep(c: Client, phase: KeepalivePhase, now: int): (Client, KeepalivePhase, seq<Output>) {
    match phase
    case Waiting => (c.(nextSeq := Next(c.nextSeq)), NumberedFirst(c.nextSeq), [])
    case NumberedFirst(n) => (c.(keepaliveSent := c.keepaliveSent[n := now]), Remembered(n), [])
    case Remembered(n) =>
      (c, if c.multipath then SentFirst else SentLast, [ToRelay(Primary, Keepalive(c.token, n))])
    case SentFirst => (c.(nextSeq := Next(c.nextSeq)), NumberedSecond(c.nextSeq), [])
    case NumberedSecond(n) => (c, SentLast, [ToRelay(Backup, Keepalive(c.token, n))])
    case SentLast =>
      (c.(keepaliveSent := map n | n in c.keepaliveSent && now - c.keepaliveSent[n] < KEEPALIVE_MEMORY :: c.keepaliveSent[n]),
       Waiting, [])
  }

  /** What a task does with a datagram of its relay. Keepalives are ignored on the backup path. */
  function Received(path: Path, data: seq<u8>): ReceivePhase {
    match Parse(data)
    case None => Listening
    case Some(packet) =>
      if !IsKeepalive(packet) then Parsed(packet)
      else if path == Primary then KeepaliveBack(packet.seqNumber) else Listening
  }

  function ReceiveStep(c: Client, phase: ReceivePhase, now: int): (Client, ReceivePhase, seq<Output>)
    requires !phase.Listening?
  {
    match phase
    case KeepaliveBack(n) =>
      if n !in c.keepaliveSent then (c, Listening, []) else
      (c.(keepaliveSent := c.keepaliveSent - {n}, stats := c.stats.(lastRtt := Some(now - c.keepaliveSent[n]))), Listening, [])
    case Parsed(packet) =>
      var (seen, isNew) := D.Offer(c.seen, packet.seqNumber);
      if isNew then (c.(seen := seen), Accepted(packet.payload), [])
      else (c.(duplicates := c.duplicates + 1), Listening, [])
    case Accepted(payload) =>
      (c, if c.gameAddr.None? then Listening else Addressed(c.gameAddr.value, payload), [])
    case Addressed(addr, payload) => (c, HandedOver(|payload|), [ToGame(addr, payload)])
    case HandedOver(length) =>
      (c.(stats := c.stats.(packetsReceived := c.stats.packetsReceived + 1,
                            bytesReceived := c.stats.bytesReceived + length,
                            duplicatesDropped := c.duplicates)), Listening, [])
  }

  // ---------------------------------------------------------------- the tasks

  class Proxy {
    const token: u32
    const multipath: bool

    var seqCounter: u32
    var seenSeqs: set<u32>
    var duplicatesDropped: nat
    var keepaliveSent: map<u32, int>
    var gameAddr: Option<SocketAddr>
    var stats: Stats

    ghost function View(): Client
      reads this
    {
      Client(token, multipath, seqCounter, seenSeqs, duplicatesDropped, keepaliveSent, gameAddr, stats)
    }

    /** Mirrors `start`, as far as it sends: `out` is what it sends to the relays. */
    constructor (token: u32, multipath: bool)
      ensures forall target :: View() == Started(token, multipath, target).0
    {
      this.token, this.multipath := token, multipath;
      seqCounter := if multipath then 2 else 1;
      seenSeqs, duplicatesDropped, keepaliveSent, gameAddr := {}, 0, map[], None;
      stats := Stats(0, 0, 0, 0, None, 0);
    }

    /** The next step of the send task. */
    method AdvanceGame(phase: GamePhase) returns (next: GamePhase, out: seq<Output>)
      requires !phase.Idle?
      modifies this`seqCounter, this`stats
      ensures (View(), next, out) == GameStep(old(View()), phase)
    {
      out := [];
      match phase {
        case HasDatagram(payload) =>
          next := Numbered(Data(token, seqCounter, payload));
          seqCounter := Next(seqCounter);
        case Numbered(packet) =>
          out := [ToRelay(Primary, packet)];
          next := if multipath then SentPrimary(packet) else SentAll(|packet.payload|);
        case SentPrimary(packet) =>
          out := [ToRelay(Backup, WithMultipath(packet, 1))];
          next := SentAll(|packet.payload|);
        case SentAll(length) =>
          stats := stats.(packetsSent := stats.packetsSent + 1);
          stats := stats.(bytesSent := stats.bytesSent + length);
          next := Idle;
      }
    }

    /** The next step of the keepalive task. */
    method AdvanceKeepalive(phase: KeepalivePhase, now: int) returns (next: KeepalivePhase, out: seq<Output>)
      modifies this`seqCounter, this`keepaliveSent
      ensures (View(), next, out) == KeepaliveStep(old(View()), phase, now)
    {
      out := [];
      match phase {
        case Waiting =>
          next := NumberedFirst(seqCounter);
          seqCounter := Next(seqCounter);
        case NumberedFirst(n) =>
          keepaliveSent := keepaliveSent[n := now];
          next := Remembered(n);
        case Remembered(n) =>
          out := [ToRelay(Primary, Keepalive(token, n))];
          next := if multipath then SentFirst else SentLast;
        case SentFirst =>
          next := NumberedSecond(seqCounter);
          seqCounter := Next(seqCounter);
        case NumberedSecond(n) =>
          out := [ToRelay(Backup, Keepalive(token, n))];
          next := SentLast;
        case SentLast =>
          keepaliveSent := map n | n in keepaliveSent && now - keepaliveSent[n] < 60_000 :: keepaliveSent[n];
          next := Waiting;
      }
    }

    /** The next step of either receive task. */
    method AdvanceReceive(phase: ReceivePhase, now: int) returns (next: ReceivePhase, out: seq<Output>)
      requires !phase.Listening?
      modifies this`seenSeqs, this`duplicatesDropped, this`keepaliveSent, this`stats
      ensures (View(), next, out) == ReceiveStep(old(View()), phase, now)
    {
      next, out := Listening, [];
      match phase {
        case KeepaliveBack(n) =>
          if n in keepaliveSent {
            var sentTime := keepaliveSent[n];
            keepaliveSent := keepaliveSent - {n};
            stats := stats.(lastRtt := Some(now - sentTime));
          }
        case Parsed(packet) =>
          if packet.seqNumber in seenSeqs {
            duplicatesDropped := duplicatesDropped + 1;
          } else {
            seenSeqs := seenSeqs + {packet.seqNumber};
            if |seenSeqs| > 10000 {
              seenSeqs := {};
            }
            next := Accepted(packet.payload);
          }
        case Accepted(payload) =>
          if gameAddr.Some? {
            next := Addressed(gameAddr.value, payload);
          }
        case Addressed(addr, payload) =>
          out := [ToGame(addr, payload)];
          next := HandedOver(|payload|);
        case HandedOver(length) =>
          stats := stats.(packetsReceived := stats.packetsReceived + 1);
          stats := stats.(bytesReceived := stats.bytesReceived + length);
          stats := stats.(duplicatesDropped := duplicatesDropped);
      }
    }
  }
}
