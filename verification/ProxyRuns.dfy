/** The proxy over every interleaving of its four tasks: what the relays and the game are sent.

    Fields under `log` are history: no step reads them.
 */
module ProxyRuns {
  import opened Bits
  import opened Text
  import opened Net
  import opened UdpProxy
  import D = Dedup

  datatype Log = Log(
    out: seq<Output>,
    taken: nat,                      // how often the counter was incremented
    data: set<u32>,                  // the numbers of packets that are no keepalives
    offered: seq<u32>,               // the numbers offered to the set of seen numbers
    accepted: seq<seq<u8>>,          // the payloads of those that were new
    lost: seq<seq<u8>>)              // the payloads for which there was no address yet

  datatype State = State(
    client: Client,
    game: GamePhase,
    keepalive: KeepalivePhase,
    primary: ReceivePhase,
    backup: ReceivePhase,
    log: Log)

  datatype Event =
    | GameDatagram(src: SocketAddr, payload: seq<u8>)
    | Arrival(path: Path, data: seq<u8>)
    | Game
    | Keepalives(now: int)
    | Receive(path: Path, now: int)

  function Init(token: u32, multipath: bool, target: seq<u8>): State {
    var (client, out) := Started(token, multipath, target);
    State(client, Idle, Waiting, Listening, Listening,
          Log(out, |out|, if multipath then {0, 1} else {0}, [], [], []))
  }

  function PhaseOf(s: State, path: Path): ReceivePhase { if path == Primary then s.primary else s.backup }

  function WithPhase(s: State, path: Path, phase: ReceivePhase): State {
    if path == Primary then s.(primary := phase) else s.(backup := phase)
  }

  // ---------------------------------------------------------------- the steps

  function DoGame(s: State): Option<State> {
    if s.game.Idle? then None else
    var (client, phase, out) := GameStep(s.client, s.game);
    var numbers := s.game.HasDatagram?;
    Some(s.(client := client, game := phase,
            log := s.log.(out := s.log.out + out,
                          taken := s.log.taken + if numbers then 1 else 0,
                          data := s.log.data + if numbers then {s.client.nextSeq} else {})))
  }

  function DoKeepalives(s: State, now: int): State {
    var (client, phase, out) := KeepaliveStep(s.client, s.keepalive, now);
    var numbers := s.keepalive.Waiting? || s.keepalive.SentFirst?;
    s.(client := client, keepalive := phase,
       log := s.log.(out := s.log.out + out, taken := s.log.taken + if numbers then 1 else 0))
  }

  function LogReceive(s: State, before: ReceivePhase, after: ReceivePhase): Log {
    match before
    case Parsed(packet) =>
      s.log.(offered := s.log.offered + [packet.seqNumber],
             accepted := s.log.accepted + if after.Accepted? then [packet.payload] else [])
    case Accepted(payload) =>
      s.log.(lost := s.log.lost + if after.Listening? then [payload] else [])
    case _ => s.log
  }

  function DoReceive(s: State, path: Path, now: int): Option<State> {
    var before := PhaseOf(s, path);
    if before.Listening? then None else
    var (client, after, out) := ReceiveStep(s.client, before, now);
    var log := LogReceive(s, before, after);
    Some(WithPhase(s, path, after).(client := client, log := log.(out := log.out + out)))
  }

  function Step(s: State, e: Event): Option<State> {
    match e
    case GameDatagram(src, payload) =>
      if !s.game.Idle? then None
      else Some(s.(client := s.client.(gameAddr := Some(src)), game := HasDatagram(payload)))
    case Arrival(path, data) =>
      if !PhaseOf(s, path).Listening? || (path == Backup && !s.client.multipath) then None
      else Some(WithPhase(s, path, Received(path, data)))
    case Game => DoGame(s)
    case Keepalives(now) => Some(DoKeepalives(s, now))
    case Receive(path, now) => DoReceive(s, path, now)
  }

  datatype Setup = Setup(token: u32, multipath: bool, target: seq<u8>)

  /** The state after a run, if every event of the run can happen. */
  function Exec(p: Setup, es: seq<Event>): Option<State> {
    if es == [] then Some(Init(p.token, p.multipath, p.target)) else
    match Exec(p, es[..|es| - 1])
    case Some(s) => Step(s, es[|es| - 1])
    case None => None
  }

  lemma Then(p: Setup, es: seq<Event>, s: State, e: Event) returns (es': seq<Event>, s': State)
    requires Exec(p, es) == Some(s) && Step(s, e).Some?
    ensures es' == es + [e] && Step(s, e) == Some(s') && Exec(p, es') == Some(s')
  {
    es', s' := es + [e], Step(s, e).value;
    assert es'[..|es|] == es;
  }

  // ---------------------------------------------------------------- duplicates

  /** The proxy's set is the bounded set of `Dedup`, fed by both receive tasks: what that run accepts
      goes on, and every other packet is counted as a duplicate. */
  ghost predicate Deduplicates(s: State) {
    var h := D.Run(s.log.offered);
    && s.client.seen == h.seen
    && |s.log.accepted| == |h.accepted|
    && s.client.duplicates + |h.accepted| == |s.log.offered|
  }

  lemma OfferDeduplicates(s: State, path: Path, now: int)
    requires Deduplicates(s) && PhaseOf(s, path).Parsed?
    ensures Deduplicates(DoReceive(s, path, now).value)
  {
  }

  lemma OthersOfferNothing(s: State, e: Event)
    requires Step(s, e).Some? && !(e.Receive? && PhaseOf(s, e.path).Parsed?)
    ensures var s' := Step(s, e).value;
      && s'.client.seen == s.client.seen && s'.client.duplicates == s.client.duplicates
      && s'.log.offered == s.log.offered && s'.log.accepted == s.log.accepted
  {
  }

  lemma {:induction false} RunDeduplicates(p: Setup, es: seq<Event>)
    requires Exec(p, es).Some?
    ensures Deduplicates(Exec(p, es).value)
  {
    if es == [] {
    } else {
      var s, e := Exec(p, es[..|es| - 1]).value, es[|es| - 1];
      RunDeduplicates(p, es[..|es| - 1]);
      if e.Receive? && PhaseOf(s, e.path).Parsed? {
        OfferDeduplicates(s, e.path, e.now);
      } else {
        OthersOfferNothing(s, e);
      }
    }
  }

  // ---------------------------------------------------------------- deliveries

  /** What is counted: the packets with one payload, or all. */
  type Which = Option<seq<u8>>

  function One(payload: seq<u8>, which: Which): nat { if which.None? || which.value == payload then 1 else 0 }

  function CountOf(payloads: seq<seq<u8>>, which: Which): nat {
    if payloads == [] then 0 else CountOf(payloads[..|payloads| - 1], which) + One(payloads[|payloads| - 1], which)
  }

  /** The packets handed over to the game. */
  function Delivered(out: seq<Output>, which: Which): nat {
    if out == [] then 0 else
    var last := out[|out| - 1];
    Delivered(out[..|out| - 1], which) + if last.ToGame? then One(last.payload, which) else 0
  }

  function InPhase(phase: ReceivePhase, which: Which): nat {
    match phase
    case Accepted(payload) => One(payload, which)
    case Addressed(_, payload) => One(payload, which)
    case _ => 0
  }

  /** The packets between acceptance and hand-over: at most one in each receive task. */
  function InFlight(s: State, which: Which): (n: nat)
    ensures n <= 2
  {
    InPhase(s.primary, which) + InPhase(s.backup, which)
  }

  /** Every accepted packet was handed over, is in flight or was lost, and just one of these; none
      is handed over before the game's address is known. */
  ghost predicate Accounted(s: State, which: Which) {
    && CountOf(s.log.accepted, which) == Delivered(s.log.out, which) + InFlight(s, which) + CountOf(s.log.lost, which)
    && (s.client.gameAddr.None? ==> Delivered(s.log.out, which) == 0 && !s.primary.Addressed? && !s.backup.Addressed?)
  }

  lemma CountOfNext(payloads: seq<seq<u8>>, payload: seq<u8>, which: Which)
    ensures CountOf(payloads + [payload], which) == CountOf(payloads, which) + One(payload, which)
  {
  }

  lemma DeliveredNext(out: seq<Output>, more: seq<Output>, which: Which)
    requires |more| <= 1
    ensures Delivered(out + more, which)
         == Delivered(out, which) + if more != [] && more[0].ToGame? then One(more[0].payload, which) else 0
  {
    if more == [] {
      assert out + more == out;
    } else {
      assert (out + more)[..|out|] == out;
    }
  }

  /** A parsed packet is dropped, or accepted and put into flight. */
  lemma ParsedMoves(s: State, path: Path, now: int)
    requires PhaseOf(s, path).Parsed?
    ensures var s', payload := DoReceive(s, path, now).value, PhaseOf(s, path).packet.payload;
      && s'.log.out == s.log.out && s'.log.lost == s.log.lost && s'.client.gameAddr == s.client.gameAddr
      && (|| (s'.log.accepted == s.log.accepted && WithPhase(s', path, Listening) == s')
          || (s'.log.accepted == s.log.accepted + [payload] && WithPhase(s', path, Accepted(payload)) == s'))
      && (path == Primary ==> s'.backup == s.backup) && (path == Backup ==> s'.primary == s.primary)
  {
  }

  lemma ParsedAccounts(s: State, path: Path, now: int, which: Which)
    requires Accounted(s, which) && PhaseOf(s, path).Parsed?
    ensures Accounted(DoReceive(s, path, now).value, which)
  {
    ParsedMoves(s, path, now);
    CountOfNext(s.log.accepted, PhaseOf(s, path).packet.payload, which);
  }

  lemma AcceptedAccounts(s: State, path: Path, now: int, which: Which)
    requires Accounted(s, which) && PhaseOf(s, path).Accepted?
    ensures Accounted(DoReceive(s, path, now).value, which)
  {
    CountOfNext(s.log.lost, PhaseOf(s, path).payload, which);
    assert s.log.lost + [] == s.log.lost && s.log.out + [] == s.log.out;
  }

  lemma AddressedAccounts(s: State, path: Path, now: int, which: Which)
    requires Accounted(s, which) && PhaseOf(s, path).Addressed?
    ensures Accounted(DoReceive(s, path, now).value, which)
  {
  }

  lemma ReceiveAccounts(s: State, path: Path, now: int, which: Which)
    requires Accounted(s, which) && DoReceive(s, path, now).Some?
    ensures Accounted(DoReceive(s, path, now).value, which)
  {
    match PhaseOf(s, path)
    case Parsed(_) => ParsedAccounts(s, path, now, which);
    case Accepted(_) => AcceptedAccounts(s, path, now, which);
    case Addressed(_, _) => AddressedAccounts(s, path, now, which);
    case KeepaliveBack(_) => assert s.log.out + [] == s.log.out;
    case HandedOver(_) => assert s.log.out + [] == s.log.out;
  }

  lemma GameSendAccounts(s: State, which: Which)
    requires Accounted(s, which) && (s.game.Numbered? || s.game.SentPrimary?)
    ensures Accounted(DoGame(s).value, which)
  {
    DeliveredNext(s.log.out, GameStep(s.client, s.game).2, which);
  }

  lemma GameAccounts(s: State, which: Which)
    requires Accounted(s, which) && DoGame(s).Some?
    ensures Accounted(DoGame(s).value, which)
  {
    match s.game
    case HasDatagram(_) => assert s.log.out + [] == s.log.out;
    case Numbered(_) => GameSendAccounts(s, which);
    case SentPrimary(_) => GameSendAccounts(s, which);
    case SentAll(_) => assert s.log.out + [] == s.log.out;
  }

  lemma KeepalivesAccount(s: State, now: int, which: Which)
    requires Accounted(s, which)
    ensures Accounted(DoKeepalives(s, now), which)
  {
    DeliveredNext(s.log.out, KeepaliveStep(s.client, s.keepalive, now).2, which);
  }

  lemma StepAccounts(s: State, e: Event, which: Which)
    requires Accounted(s, which) && Step(s, e).Some?
    ensures Accounted(Step(s, e).value, which)
  {
    match e
    case GameDatagram(_, _) =>
    case Arrival(_, _) =>
    case Game => GameAccounts(s, which);
    case Keepalives(now) => KeepalivesAccount(s, now, which);
    case Receive(path, now) => ReceiveAccounts(s, path, now, which);
  }

  lemma StartAccounted(p: Setup, which: Which)
    ensures Accounted(Init(p.token, p.multipath, p.target), which)
  {
    var out := Started(p.token, p.multipath, p.target).1;
    DeliveredNext(out[..1], out[1..], which);
    assert out == out[..1] + out[1..] && out[..1] == [] + [out[0]];
    DeliveredNext([], [out[0]], which);
  }

  lemma {:induction false} RunAccounts(p: Setup, es: seq<Event>, which: Which)
    requires Exec(p, es).Some?
    ensures Accounted(Exec(p, es).value, which)
  {
    if es == [] {
      StartAccounted(p, which);
    } else {
      RunAccounts(p, es[..|es| - 1], which);
      StepAccounts(Exec(p, es[..|es| - 1]).value, es[|es| - 1], which);
    }
  }

  /** A step loses a packet exactly if it looks for the game's address before there is one. */
  lemma LostExactly(s: State, e: Event)
    requires Step(s, e).Some?
    ensures Step(s, e).value.log.lost
         == s.log.lost + (if e.Receive? && PhaseOf(s, e.path).Accepted? && s.client.gameAddr.None?
                          then [PhaseOf(s, e.path).payload] else [])
    ensures s.client.gameAddr.Some? || e.GameDatagram? <==> Step(s, e).value.client.gameAddr.Some?
  {
  }

  lemma {:induction false} NothingLostAfter(p: Setup, es: seq<Event>, k: nat)
    requires Exec(p, es).Some? && k < |es| && es[k].GameDatagram?
    ensures Exec(p, es[..k]).Some?
    ensures Exec(p, es).value.client.gameAddr.Some?
    ensures Exec(p, es).value.log.lost == Exec(p, es[..k]).value.log.lost
    decreases |es|
  {
    var before := es[..|es| - 1];
    LostExactly(Exec(p, before).value, es[|es| - 1]);
    if k == |es| - 1 {
    } else {
      NothingLostAfter(p, before, k);
      assert before[..k] == es[..k];
    }
  }

  lemma {:induction false} NoAddressBefore(p: Setup, es: seq<Event>)
    requires Exec(p, es).Some? && forall i :: 0 <= i < |es| ==> !es[i].GameDatagram?
    ensures Exec(p, es).value.client.gameAddr.None?
  {
    if es == [] {
    } else {
      NoAddressBefore(p, es[..|es| - 1]);
      LostExactly(Exec(p, es[..|es| - 1]).value, es[|es| - 1]);
    }
  }

  /** The game gets nothing before its first datagram, the k-th event. From then on it gets exactly
      the packets that are accepted, and those that were accepted before but in flight then; the
      packets in flight at the end are still to come. So it is for each payload, and in all. */
  lemma DeliveredExactly(p: Setup, es: seq<Event>, k: nat, which: Which)
    requires Exec(p, es).Some? && k <= |es| && forall i :: 0 <= i < k ==> !es[i].GameDatagram?
    requires k < |es| ==> es[k].GameDatagram?
    ensures Exec(p, es[..k]).Some?
    ensures var s, first := Exec(p, es).value, Exec(p, es[..k]).value;
      && Delivered(first.log.out, which) == 0
      && (k < |es| ==>
            Delivered(s.log.out, which) + InFlight(s, which)
            == CountOf(s.log.accepted, which) - CountOf(first.log.accepted, which) + InFlight(first, which))
  {
    if k < |es| {
      NothingLostAfter(p, es, k);
    } else {
      assert es[..k] == es;
    }
    NoAddressBefore(p, es[..k]);
    RunAccounts(p, es[..k], which);
    RunAccounts(p, es, which);
  }
}
