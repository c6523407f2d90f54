/** When the packets on a path leave in the order of their numbers.

    A task that has taken a number and not sent it yet holds that number for a path. The order is
    lost when the other task sends a larger one there in the meantime, and only then.
 */
module ProxyOrder {
  import opened Bits
  import opened Text
  import opened UdpProxy
  import opened ProxyRuns
  import opened ProxyNumbers

  /** The number that the send task still has to send on a path. */
  function GameHolds(s: State, path: Path): Option<u32> {
    match s.game
    case Numbered(packet) => if path == Primary || s.client.multipath then Some(packet.seqNumber) else None
    case SentPrimary(packet) => if path == Backup then Some(packet.seqNumber) else None
    case _ => None
  }

  /** The number that the keepalive task still has to send on a path. */
  function KeepaliveHolds(s: State, path: Path): Option<u32> {
    match s.keepalive
    case NumberedFirst(n) => if path == Primary then Some(n) else None
    case Remembered(n) => if path == Primary then Some(n) else None
    case NumberedSecond(n) => if path == Backup then Some(n) else None
    case _ => None
  }

  predicate OnPath(o: Output, path: Path) { o.ToRelay? && o.path == path }

  predicate SentBelow(out: seq<Output>, path: Path, n: u32) {
    forall i :: 0 <= i < |out| && OnPath(out[i], path) ==> out[i].packet.seqNumber < n
  }

  /** The numbers on a path increase. */
  predicate Increasing(out: seq<Output>, path: Path) {
    forall i, j :: 0 <= i < j < |out| && OnPath(out[i], path) && OnPath(out[j], path) ==>
      out[i].packet.seqNumber < out[j].packet.seqNumber
  }

  predicate HeldAbove(out: seq<Output>, path: Path, held: Option<u32>) {
    held.Some? ==> SentBelow(out, path, held.value)
  }

  /** The numbers sent on the path increase, and those held for it are still larger. */
  predicate PathInOrder(s: State, path: Path) {
    && Increasing(s.log.out, path)
    && HeldAbove(s.log.out, path, GameHolds(s, path))
    && HeldAbove(s.log.out, path, KeepaliveHolds(s, path))
  }

  predicate InOrder(s: State) { PathInOrder(s, Primary) && PathInOrder(s, Backup) }

  predicate Smaller(held: Option<u32>, n: u32) { held.Some? && held.value < n }

  /** What a step sends to the relays: nothing or one packet. */
  function Sent(s: State, e: Event): (out: seq<Output>)
    ensures |out| <= 1
  {
    match e
    case Game => if s.game.Idle? then [] else GameStep(s.client, s.game).2
    case Keepalives(now) => KeepaliveStep(s.client, s.keepalive, now).2
    case _ => []
  }

  /** What the other task holds for a path. */
  function OtherHolds(s: State, e: Event, path: Path): Option<u32> {
    if e.Game? then KeepaliveHolds(s, path) else GameHolds(s, path)
  }

  predicate OvertakesOn(s: State, e: Event, path: Path) {
    && Sent(s, e) != [] && OnPath(Sent(s, e)[0], path)
    && Smaller(OtherHolds(s, e, path), Sent(s, e)[0].packet.seqNumber)
  }

  /** The step sends a number while the other task holds a smaller one for that path. */
  predicate Overtakes(s: State, e: Event) { OvertakesOn(s, e, Primary) || OvertakesOn(s, e, Backup) }

  // ---------------------------------------------------------------- single outputs

  lemma SentBelowNext(out: seq<Output>, o: Output, path: Path, n: u32)
    ensures SentBelow(out + [o], path, n) <==>
      SentBelow(out, path, n) && (OnPath(o, path) ==> o.packet.seqNumber < n)
  {
    var more := out + [o];
    assert more[|out|] == o && forall i :: 0 <= i < |out| ==> more[i] == out[i];
  }

  lemma IncreasingNext(out: seq<Output>, o: Output, path: Path)
    ensures Increasing(out + [o], path) <==>
      Increasing(out, path) && (OnPath(o, path) ==> SentBelow(out, path, o.packet.seqNumber))
  {
    var more := out + [o];
    assert more[|out|] == o && forall i :: 0 <= i < |out| ==> more[i] == out[i];
  }

  /** Numbers held by the two tasks are different, as only one of them takes data numbers. */
  lemma HeldDiffer(s: State, path: Path)
    requires NumbersInv(s) && GameHolds(s, path).Some? && KeepaliveHolds(s, path).Some?
    ensures GameHolds(s, path) != KeepaliveHolds(s, path)
  {
  }

  /** All numbers sent were taken before, so a number taken now is above them. */
  lemma TakenIsAbove(s: State, path: Path)
    requires NumbersInv(s)
    ensures SentBelow(s.log.out, path, s.client.nextSeq)
  {
  }

  // ---------------------------------------------------------------- steps

  lemma GameOrder(s: State, path: Path)
    requires NumbersInv(s) && DoGame(s).Some? && PathInOrder(s, path)
    ensures PathInOrder(DoGame(s).value, path) <==> !OvertakesOn(s, Game, path)
  {
    var out := Sent(s, Game);
    if out == [] {
      assert s.log.out + [] == s.log.out;
      TakenIsAbove(s, path);
    } else {
      var o, own, held := out[0], GameHolds(s, path), KeepaliveHolds(s, path);
      IncreasingNext(s.log.out, o, path);
      if own.Some? {
        SentBelowNext(s.log.out, o, path, own.value);
      }
      if held.Some? {
        SentBelowNext(s.log.out, o, path, held.value);
        if own.Some? { HeldDiffer(s, path); }
      }
    }
  }

  lemma KeepaliveOrder(s: State, now: int, path: Path)
    requires NumbersInv(s) && PathInOrder(s, path)
    ensures PathInOrder(DoKeepalives(s, now), path) <==> !OvertakesOn(s, Keepalives(now), path)
  {
    var out := Sent(s, Keepalives(now));
    if out == [] {
      assert s.log.out + [] == s.log.out;
      TakenIsAbove(s, path);
    } else {
      var o, own, held := out[0], KeepaliveHolds(s, path), GameHolds(s, path);
      IncreasingNext(s.log.out, o, path);
      if own.Some? {
        SentBelowNext(s.log.out, o, path, own.value);
      }
      if held.Some? {
        SentBelowNext(s.log.out, o, path, held.value);
        if own.Some? { HeldDiffer(s, path); }
      }
    }
  }

  lemma ReceiveOrder(s: State, receiver: Path, now: int, path: Path)
    requires DoReceive(s, receiver, now).Some?
    ensures PathInOrder(DoReceive(s, receiver, now).value, path) <==> PathInOrder(s, path)
  {
    ReceiveSendsNothing(s, receiver, now);
    var s' := DoReceive(s, receiver, now).value;
    if s'.log.out != s.log.out {
      var o: Output :| o.ToGame? && s'.log.out == s.log.out + [o];
      IncreasingNext(s.log.out, o, path);
      forall n: u32
        ensures SentBelow(s'.log.out, path, n) <==> SentBelow(s.log.out, path, n)
      {
        SentBelowNext(s.log.out, o, path, n);
      }
    }
  }

  lemma PathOrderLostExactly(s: State, e: Event, path: Path)
    requires NumbersInv(s) && Step(s, e).Some? && PathInOrder(s, path)
    ensures PathInOrder(Step(s, e).value, path) <==> !OvertakesOn(s, e, path)
  {
    match e
    case Game => GameOrder(s, path);
    case Keepalives(now) => KeepaliveOrder(s, now, path);
    case Receive(receiver, now) => ReceiveOrder(s, receiver, now, path);
    case GameDatagram(_, _) =>
    case Arrival(_, _) =>
  }

  /** A step loses the order exactly if it overtakes. */
  lemma OrderLostExactly(s: State, e: Event)
    requires NumbersInv(s) && Step(s, e).Some? && InOrder(s)
    ensures InOrder(Step(s, e).value) <==> !Overtakes(s, e)
  {
    PathOrderLostExactly(s, e, Primary);
    PathOrderLostExactly(s, e, Backup);
  }

  lemma GameStaysLost(s: State, path: Path)
    requires DoGame(s).Some? && PathInOrder(DoGame(s).value, path)
    ensures PathInOrder(s, path)
  {
    var out := Sent(s, Game);
    if out == [] {
      assert s.log.out + [] == s.log.out;
    } else {
      IncreasingNext(s.log.out, out[0], path);
      forall n: u32
        ensures SentBelow(s.log.out + out, path, n) ==> SentBelow(s.log.out, path, n)
      {
        SentBelowNext(s.log.out, out[0], path, n);
      }
    }
  }

  lemma KeepaliveStaysLost(s: State, now: int, path: Path)
    requires PathInOrder(DoKeepalives(s, now), path)
    ensures PathInOrder(s, path)
  {
    var out := Sent(s, Keepalives(now));
    if out == [] {
      assert s.log.out + [] == s.log.out;
    } else {
      IncreasingNext(s.log.out, out[0], path);
      forall n: u32
        ensures SentBelow(s.log.out + out, path, n) ==> SentBelow(s.log.out, path, n)
      {
        SentBelowNext(s.log.out, out[0], path, n);
      }
    }
  }

  /** An order that is lost stays lost. */
  lemma LostOrderStays(s: State, e: Event, path: Path)
    requires Step(s, e).Some? && PathInOrder(Step(s, e).value, path)
    ensures PathInOrder(s, path)
  {
    match e
    case Game => GameStaysLost(s, path);
    case Keepalives(now) => KeepaliveStaysLost(s, now, path);
    case Receive(receiver, now) => ReceiveOrder(s, receiver, now, path);
    case GameDatagram(_, _) =>
    case Arrival(_, _) =>
  }

  // ---------------------------------------------------------------- runs

  predicate NeverOvertakes(p: Setup, es: seq<Event>) {
    forall n :: 0 <= n < |es| && Exec(p, es[..n]).Some? ==> !Overtakes(Exec(p, es[..n]).value, es[n])
  }

  lemma NeverOvertakesNext(p: Setup, es: seq<Event>)
    requires es != [] && Exec(p, es).Some?
    ensures var before := es[..|es| - 1];
      NeverOvertakes(p, es) <==> NeverOvertakes(p, before) && !Overtakes(Exec(p, before).value, es[|es| - 1])
  {
    var before := es[..|es| - 1];
    assert forall n :: 0 <= n <= |before| ==> es[..n] == before[..n];
    assert before[..|before|] == before;
    assert forall n :: 0 <= n < |before| ==> es[n] == before[n];
  }

  /** As long as the counter does not wrap, all is in order exactly if no step has overtaken. */
  lemma {:induction false} RunInOrderExactly(p: Setup, es: seq<Event>)
    requires Exec(p, es).Some? && Exec(p, es).value.log.taken < U32
    ensures InOrder(Exec(p, es).value) <==> NeverOvertakes(p, es)
  {
    if es == [] {
    } else {
      var before, e := es[..|es| - 1], es[|es| - 1];
      var s := Exec(p, before).value;
      TakenGrows(s, e);
      RunInOrderExactly(p, before);
      RunKeepsNumbers(p, before);
      NeverOvertakesNext(p, es);
      if InOrder(s) {
        OrderLostExactly(s, e);
      } else if InOrder(Step(s, e).value) {
        LostOrderStays(s, e, Primary);
        LostOrderStays(s, e, Backup);
      }
    }
  }

  predicate NothingHeld(s: State) {
    forall path :: GameHolds(s, path).None? && KeepaliveHolds(s, path).None?
  }

  /** When all numbers taken are sent, the packets on each path went out in the order of their
      numbers exactly if no step of the run sent one while the other task held a smaller. */
  lemma OrderedExactly(p: Setup, es: seq<Event>)
    requires Exec(p, es).Some? && Exec(p, es).value.log.taken < U32 && NothingHeld(Exec(p, es).value)
    ensures var out := Exec(p, es).value.log.out;
      Increasing(out, Primary) && Increasing(out, Backup) <==> NeverOvertakes(p, es)
  {
    RunInOrderExactly(p, es);
  }
}
