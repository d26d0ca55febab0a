/** Handler, relay, control engine and target in one system: what a forwarded transfer carries, end to end. */
module ForwardedTransfers {
  import F = ControlForwarding
  import S = ForwardingSafety
  import T = ControlTransfer
  import R = ResponsePackets

  type U8 = T.U8

  /**
   * One clock of the whole path. enable is the enumerator's ready: while it is low the control engine
   * is the enumerator's (others). The rest is what the AUX bus and the target's link do.
   */
  datatype Clock = Clock(
    bus: F.Bus, newSetup: F.Request, enable: bool, resyncValid: bool, resyncIndex: nat, maxPacket: nat,
    others: T.Option<T.Order>, othersPayload: seq<U8>, othersReady: bool, link: Link)

  datatype Link = Link(
    connected: bool, ready: bool, finish: bool, reply: T.Reply, arrives: bool, acked: bool,
    packets: seq<seq<U8>>, noise: seq<U8>, closing: T.Result)

  /** What the target did in the last forwarded transfer that succeeded: the SETUP it was sent, the
   *  bytes it answered with, the bytes it took. */
  datatype Origin = Origin(setup: seq<U8>, answered: seq<U8>, taken: seq<U8>)

  datatype Path = Path(s: S.System, w: T.World, origin: Origin)

  // ---- The wires --------------------------------------------------------------------------------

  /** bmRequestType: direction, kind and recipient. */
  function TypeByte(q: F.Request): U8 {
    (if q.isIn then 0x80 else 0) + q.kind % 4 * 0x20 + q.recipient % 0x20
  }

  function OrderOf(q: F.Request, maxPacket: nat): T.Order {
    T.Order(TypeByte(q), q.request, q.value, q.index, q.length, maxPacket)
  }

  predicate Streaming(w: T.World, k: Clock) {
    w.c.phase.Stream? && k.link.connected && w.c.data.streamIndex < |w.buffer|
  }

  /** Engine to relay. */
  function EngineOf(w: T.World, k: Clock): F.Engine {
    F.Engine(k.enable, k.resyncValid, k.resyncIndex, !w.c.phase.Idle?, w.c.report.done,
             w.c.report.status != T.Success, w.c.report.transferred,
             if Streaming(w, k) then F.Some(w.buffer[w.c.data.streamIndex]) else F.None)
  }

  function InputOf(p: Path, k: Clock): S.Input { S.Input(k.bus, k.newSetup, EngineOf(p.w, k)) }

  /** Relay to engine, by way of the enumerator's multiplexer. */
  function EventOf(p: Path, k: Clock): T.Event {
    var c, b, l := p.s.relay.control, p.s.relay.bounce, k.link;
    T.Event(
      if !k.enable then k.others
      else if F.Starts(c, EngineOf(p.w, k)) then T.Some(OrderOf(c.request, k.maxPacket)) else T.None,
      if k.enable then b.bytes else k.othersPayload, l.connected, l.ready,
      if k.enable then c.phase == F.Waiting && c.request.isIn && !b.gap else k.othersReady,
      l.finish, l.reply, l.arrives, l.acked, l.packets, l.noise, l.closing)
  }

  predicate Succeeds(p: Path) {
    p.s.relay.control.phase == F.Waiting && p.w.c.report.done && p.w.c.report.status == T.Success
  }

  function NextOrigin(p: Path): Origin {
    if !Succeeds(p) then p.origin
    else
      var d := p.w.device;
      Origin(d.request, if p.w.taken <= |d.packets| then T.Flat(d.packets, p.w.taken) else [], d.got)
  }

  function Next(p: Path, k: Clock): Path {
    Path(S.Next(p.s, InputOf(p, k)), T.Next(p.w, EventOf(p, k)), NextOrigin(p))
  }

  /** Field widths of a SETUP record. */
  predicate Wide(q: F.Request) {
    q.recipient < 0x20 && q.kind < 4 && q.value < 0x1_0000 && q.index < 0x1_0000 && q.length < 0x1_0000
  }

  /**
   * SETUP fields and packet sizes are as wide as their registers, other requests are as the enumerator
   * makes them, and the enumerator gives up ready only with the connection: a relay still waiting then
   * sees its transfer end.
   */
  predicate Civil(p: Path, k: Clock) {
    Wide(k.newSetup) && k.resyncIndex < 0x1_0000 && 1 <= k.maxPacket <= T.MAX_PACKET &&
    (k.others.Some? ==> T.Sound(k.others.value) && |k.othersPayload| >= k.others.value.length) &&
    (k.link.reply.Refuses? ==> k.link.reply.status != T.Success && k.link.reply.status != T.Nak) &&
    (p.s.relay.control.phase == F.Waiting && !k.enable ==> !k.link.connected)
  }

  // ---- The invariant ----------------------------------------------------------------------------

  /** The transfer under way is the relay's, and what it has handed on is what the relay has. */
  predicate Own(s: S.System, w: T.World) {
    var q, o := s.relay.control.request, w.c.order;
    o == OrderOf(q, o.maxPacket) && s.ledger.received == w.streamed && |w.streamed| <= q.length &&
    (F.HasOutData(q) ==> w.payload == s.relay.bounce.bytes)
  }

  /** The answer the relay holds is the target's. */
  predicate Answered(s: S.System, origin: Origin) {
    var q, l := s.relay.control.request, s.ledger;
    origin.setup == T.SetupBytes(OrderOf(q, 1)) && s.relay.answer.length <= F.BUFFER_BYTES &&
    (q.isIn ==> s.relay.answer.length == |l.received| && |l.received| <= q.length) &&
    (q.isIn && q.length > 0 ==> l.received == origin.answered) &&
    (F.HasOutData(q) ==> l.captured == origin.taken && |l.captured| == q.length)
  }

  predicate Joined(p: Path) {
    var s, w, c := p.s, p.w, p.s.relay.control;
    Wide(s.setup) && Wide(c.request) &&
    (c.phase == F.Waiting ==>
       |s.ledger.received| <= c.request.length && (w.c.phase.Idle? ==> w.c.report.done) &&
       (!w.c.phase.Idle? || w.c.report.status == T.Success ==> Own(s, w))) &&
    (c.phase == F.Complete && s.ledger.holder.Forward? && !s.relay.answer.error ==> Answered(s, p.origin))
  }

  predicate Inv(p: Path) { S.Inv(p.s) && T.Inv(p.w) && Joined(p) }

  // ---- Every clock keeps it -----------------------------------------------------------------------

  lemma EventIsFair(p: Path, k: Clock)
    requires Inv(p) && Civil(p, k)
    ensures T.Fair(EventOf(p, k))
  {
  }

  /** While the relay waits on a transfer under way. */
  lemma TransferGoesOn(p: Path, k: Clock)
    requires Inv(p) && Civil(p, k) && p.s.relay.control.phase == F.Waiting && !p.w.c.phase.Idle?
    ensures Joined(Next(p, k))
  {
  }

  /** The clock that shows the relay its transfer is done. */
  lemma TransferEnds(p: Path, k: Clock)
    requires Inv(p) && Civil(p, k) && p.s.relay.control.phase == F.Waiting && p.w.c.phase.Idle?
    ensures Joined(Next(p, k))
  {
  }

  lemma TransferStarts(p: Path, k: Clock)
    requires Inv(p) && Civil(p, k) && p.s.relay.control.phase == F.Issuing
    ensures Joined(Next(p, k))
  {
  }

  lemma RelayRests(p: Path, k: Clock)
    requires Inv(p) && Civil(p, k) && (p.s.relay.control.phase == F.Ready || p.s.relay.control.phase == F.Collecting)
    ensures Joined(Next(p, k))
  {
  }

  lemma AnswerStays(p: Path, k: Clock)
    requires Inv(p) && Civil(p, k) && p.s.relay.control.phase == F.Complete
    ensures Joined(Next(p, k))
  {
  }

  lemma NextKeepsInv(p: Path, k: Clock)
    requires Inv(p) && Civil(p, k)
    ensures Inv(Next(p, k))
  {
    EventIsFair(p, k);
    S.NextKeepsInv(p.s, InputOf(p, k));
    T.NextKeepsInv(p.w, EventOf(p, k));
    match p.s.relay.control.phase
    case Ready => RelayRests(p, k);
    case Collecting => RelayRests(p, k);
    case Issuing => TransferStarts(p, k);
    case Waiting => if p.w.c.phase.Idle? { TransferEnds(p, k); } else { TransferGoesOn(p, k); }
    case Complete => AnswerStays(p, k);
  }

  // ---- Whole runs ---------------------------------------------------------------------------------

  /** From reset, with the control engine at rest. */
  predicate IsRun(run: seq<Path>, ks: seq<Clock>) {
    |run| == |ks| + 1 && run[0].s == S.Reset() && T.Inv(run[0].w) && run[0].w.c.phase.Idle? &&
    forall n :: 0 <= n < |ks| ==> Civil(run[n], ks[n]) && run[n + 1] == Next(run[n], ks[n])
  }

  lemma {:induction false} InvOverRuns(run: seq<Path>, ks: seq<Clock>, n: nat)
    requires IsRun(run, ks) && n <= |ks|
    ensures Inv(run[n])
  {
    if n == 0 {
      S.ResetHolds();
    } else {
      InvOverRuns(run, ks, n - 1);
      NextKeepsInv(run[n - 1], ks[n - 1]);
    }
  }

  /** The bytes the engine hands on are buffered without loss or repeat, and the cursor stays within
   *  wLength and so within the buffer. */
  lemma ReceivedIsBuffered(run: seq<Path>, ks: seq<Clock>, n: nat)
    requires IsRun(run, ks) && n <= |ks|
    requires run[n].s.relay.control.phase == F.Waiting && run[n].s.relay.control.request.isIn
    ensures var s, w := run[n].s, run[n].w;
            s.relay.bounce.cursor == |s.ledger.received| <= s.relay.control.request.length <= F.BUFFER_BYTES &&
            |s.relay.bounce.bytes| == F.BUFFER_BYTES &&
            s.relay.bounce.bytes[..s.relay.bounce.cursor] == s.ledger.received &&
            (!w.c.phase.Idle? ==> s.ledger.received == w.streamed)
  {
    InvOverRuns(run, ks, n);
  }

  /**
   * Whatever SETUPs, timeouts, aborts, replays, losses and detaches came before: the bytes RESPOND
   * serves are exactly those the target answered to the eight bytes of the SETUP now latched, at most
   * wLength of them.
   */
  lemma ServedIsTheTargetsAnswer(run: seq<Path>, ks: seq<Clock>, n: nat)
    requires IsRun(run, ks) && n <= |ks| && run[n].s.handler.phase == F.Respond
    ensures var s, origin := run[n].s, run[n].origin;
            s.ledger.holder == S.Forward(s.serial) && s.relay.control.request == s.setup &&
            origin.setup == T.SetupBytes(OrderOf(s.setup, 1)) &&
            (s.setup.isIn ==> |S.Served(s)| == s.relay.answer.length <= s.setup.length) &&
            (s.setup.isIn && s.setup.length > 0 ==> S.Served(s) == origin.answered)
  {
    InvOverRuns(run, ks, n);
  }

  /** The target has taken exactly the payload captured from the PC, once each and in order. */
  lemma CapturedReachesTheTarget(run: seq<Path>, ks: seq<Clock>, n: nat)
    requires IsRun(run, ks) && n <= |ks| && run[n].s.handler.phase == F.Respond && F.HasOutData(run[n].s.setup)
    ensures var s, origin := run[n].s, run[n].origin;
            origin.setup == T.SetupBytes(OrderOf(s.setup, 1)) && |s.ledger.captured| == s.setup.length &&
            origin.taken == s.ledger.captured
  {
    InvOverRuns(run, ks, n);
  }

  /** And on to the PC: under any loss of packets and ACKs on its side it holds a prefix of the target's
   *  answer, and the whole of it when the data stage ends. */
  lemma AnswerReachesThePC(run: seq<Path>, ks: seq<Clock>, n: nat, packet: nat, xs: seq<R.Exchange>, m: nat)
    requires IsRun(run, ks) && n <= |ks| && run[n].s.handler.phase == F.Respond
    requires run[n].s.setup.isIn && run[n].s.setup.length > 0 && 0 < packet <= R.BUFFER_BYTES && m <= |xs|
    ensures var t := R.Transfer(S.Served(run[n].s), packet, run[n].s.setup.length);
            R.Sound(t) && R.Run(t, xs, m).host.got <= run[n].origin.answered &&
            (R.Run(t, xs, m).host.done ==> R.Run(t, xs, m).host.got == run[n].origin.answered)
  {
    ServedIsTheTargetsAnswer(run, ks, n);
    InvOverRuns(run, ks, n);
    R.Reassembles(R.Transfer(S.Served(run[n].s), packet, run[n].s.setup.length), xs, m);
  }
}
