/** The PC's OUT stage clock by clock: the relay's capture is what the PC's exchanges forward. */
module PayloadRuns {
  import opened ControlForwarding
  import F = ForwardedTransfers
  import S = ForwardingSafety
  import P = PayloadPackets

  /** The PC beside the clone: what it has to send, how far its exchanges have come, and the bytes shown so
   *  far of a packet whose start CAPTURE_OUT has seen. */
  datatype Pc = Pc(transfer: P.Transfer, stage: P.Stage, exchanges: seq<P.Exchange>, shown: seq<U8>)

  /** What a SETUP is followed by, and whether an ACK of this clock arrives. */
  datatype Sender = Sender(transfer: P.Transfer, ackArrives: bool)

  function Renewed(t: P.Transfer): Pc { Pc(t, P.START, [], []) }

  /** A packet is over. */
  function Closed(pc: Pc, x: P.Exchange): Pc {
    Pc(pc.transfer, P.Next(pc.transfer, pc.stage, x), pc.exchanges + [x], [])
  }

  predicate Opens(h: Handler, bus: Bus) { h.phase == CaptureOut && bus.packetStart && h.packetOk }

  predicate Ends(h: Handler, bus: Bus) { h.phase == CaptureOut && bus.rxReady && h.packetOk }

  function Fed(pc: Pc, h: Handler, bus: Bus): Pc {
    if ForwardsByte(h, bus) then pc.(shown := pc.shown + [bus.rxByte.value]) else pc
  }

  /** A new packet while one is open means that one was damaged; its good end gets the ACK. */
  function NextPc(pc: Pc, h: Handler, bus: Bus, x: Sender): Pc {
    if bus.received then Renewed(x.transfer)
    else if Opens(h, bus) then Fed(Closed(pc, P.Damaged(pc.shown)), h, bus)
    else if Ends(h, bus) then Closed(pc, P.Good(x.ackArrives))
    else Fed(pc, h, bus)
  }

  /**
   * A SETUP with OUT data is followed by that many bytes. Packets come one after the other, and only while
   * the PC has something left; one that passes its checksum is the PC's next.
   */
  predicate Civil(s: S.System, pc: Pc, i: S.Input, x: Sender) {
    var h, bus := s.handler, i.bus;
    (bus.received ==>
       P.Sound(x.transfer) && (HasOutData(i.newSetup) ==> |x.transfer.payload| == i.newSetup.length)) &&
    (bus.rxReady ==> !bus.packetStart && bus.rxByte.None?) &&
    (h.phase == CaptureOut && (bus.packetStart || bus.rxByte.Some? || bus.rxReady) ==>
       P.Sending(pc.transfer, pc.stage)) &&
    (Ends(h, bus) ==>
       pc.stage.base <= |pc.transfer.payload| && pc.shown == P.Packet(pc.transfer, pc.stage.base))
  }

  // ---- The invariant --------------------------------------------------------------------------

  /** Everything forwarded for the SETUP under way. */
  function Total(pc: Pc): seq<U8> { pc.stage.forwarded + pc.shown }

  /** The first wLength bytes of it. */
  function Taken(pc: Pc): seq<U8> {
    if |Total(pc)| < |pc.transfer.payload| then Total(pc) else Total(pc)[..|pc.transfer.payload|]
  }

  predicate Fresh(pc: Pc) { pc.stage == P.START && pc.exchanges == [] && pc.shown == [] }

  predicate Logged(pc: Pc) {
    P.Sound(pc.transfer) && pc.stage == P.Run(pc.transfer, pc.exchanges, |pc.exchanges|)
  }

  /** An oversized request fails at once; otherwise the relay has captured what was forwarded. */
  predicate Captures(s: S.System, pc: Pc) {
    var c, l := s.relay.control, s.ledger;
    if c.request.length > BUFFER_BYTES then c.phase == Complete && s.relay.answer.error
    else
      l.captured == Taken(pc) && (c.phase == Collecting <==> |Total(pc)| < |pc.transfer.payload|)
  }

  predicate PhaseInv(s: S.System, pc: Pc) {
    var h := s.handler;
    match h.phase
    case CaptureOut =>
      pc.stage.capturing && (!h.packetOk ==> pc.shown == []) && h.outCursor == |Total(pc)| % OUT_CURSOR_MODULUS &&
      Captures(s, pc)
    case Awaiting => HasOutData(s.setup) ==> pc.shown == [] && Captures(s, pc)
    case Respond => HasOutData(s.setup) ==> pc.shown == [] && Captures(s, pc)
    case WaitRelay => Fresh(pc)
    case Dispatch => IsClass(s.setup) ==> Fresh(pc)
    case Drain => h.setupPending ==> Fresh(pc)
    case _ => true
  }

  predicate Inv(s: S.System, pc: Pc) {
    S.Inv(s) && Logged(pc) && (HasOutData(s.setup) ==> |pc.transfer.payload| == s.setup.length) && PhaseInv(s, pc)
  }

  // ---- Every clock keeps it -------------------------------------------------------------------

  lemma ClosedIsLogged(pc: Pc, x: P.Exchange)
    requires Logged(pc)
    ensures Logged(Closed(pc, x))
  {
    var t, xs := pc.transfer, pc.exchanges + [x];
    RunPrefix(t, pc.exchanges, x, |pc.exchanges|);
    assert P.Run(t, xs, |xs|) == P.Next(t, P.Run(t, xs, |pc.exchanges|), xs[|pc.exchanges|]);
  }

  lemma {:induction false} RunPrefix(t: P.Transfer, xs: seq<P.Exchange>, x: P.Exchange, n: nat)
    requires n <= |xs|
    ensures P.Run(t, xs + [x], n) == P.Run(t, xs, n)
    decreases n
  {
    if n > 0 {
      RunPrefix(t, xs, x, n - 1);
      assert (xs + [x])[n - 1] == xs[n - 1];
    }
  }

  lemma LogKept(pc: Pc, h: Handler, bus: Bus, x: Sender)
    requires Logged(pc) && (bus.received ==> P.Sound(x.transfer))
    ensures Logged(NextPc(pc, h, bus, x))
  {
    ClosedIsLogged(pc, P.Damaged(pc.shown));
    ClosedIsLogged(pc, P.Good(x.ackArrives));
  }

  /** What a clock of CAPTURE_OUT adds to what has been forwarded. */
  lemma TotalGrows(s: S.System, pc: Pc, i: S.Input, x: Sender)
    requires Inv(s, pc) && Civil(s, pc, i, x) && s.handler.phase == CaptureOut && !i.bus.received
    ensures var q := NextPc(pc, s.handler, i.bus, x);
            q.transfer == pc.transfer &&
            Total(q) == Total(pc) + (if ForwardsByte(s.handler, i.bus) then [i.bus.rxByte.value] else []) &&
            (q.stage.capturing <==>
               Ends(s.handler, i.bus) ==> |Total(pc)| % OUT_CURSOR_MODULUS < |pc.transfer.payload|) &&
            (Ends(s.handler, i.bus) ==> q.shown == []) &&
            (!s.handler.packetOk && !i.bus.packetStart ==> q.shown == [])
  {
    var h, bus := s.handler, i.bus;
    if Opens(h, bus) {
      assert Total(Closed(pc, P.Damaged(pc.shown))) == Total(pc);
    }
  }

  /** One clock of the relay's capture. */
  lemma CaptureGrows(s: S.System, pc: Pc, i: S.Input, x: Sender)
    requires Inv(s, pc) && Civil(s, pc, i, x) && s.handler.phase == CaptureOut && !i.bus.received
    requires s.handler.timer != TIMEOUT_CYCLES
    ensures Captures(S.Next(s, i), NextPc(pc, s.handler, i.bus, x))
  {
    TotalGrows(s, pc, i, x);
    var q := NextPc(pc, s.handler, i.bus, x);
    if |Total(pc)| >= |pc.transfer.payload| {
      assert Total(q)[..|pc.transfer.payload|] == Total(pc)[..|pc.transfer.payload|];
    }
  }

  lemma CapturingKept(s: S.System, pc: Pc, i: S.Input, x: Sender)
    requires Inv(s, pc) && Civil(s, pc, i, x) && s.handler.phase == CaptureOut && !i.bus.received
    ensures PhaseInv(S.Next(s, i), NextPc(pc, s.handler, i.bus, x))
  {
    if s.handler.timer != TIMEOUT_CYCLES {
      TotalGrows(s, pc, i, x);
      CaptureGrows(s, pc, i, x);
    }
  }

  lemma ReceivedKept(s: S.System, pc: Pc, i: S.Input, x: Sender)
    requires Inv(s, pc) && Civil(s, pc, i, x) && i.bus.received
    ensures PhaseInv(S.Next(s, i), NextPc(pc, s.handler, i.bus, x))
  {
  }

  lemma OfferingKept(s: S.System, pc: Pc, i: S.Input, x: Sender)
    requires Inv(s, pc) && Civil(s, pc, i, x) && !i.bus.received
    requires s.handler.phase == WaitRelay || s.handler.phase == Dispatch
    ensures PhaseInv(S.Next(s, i), NextPc(pc, s.handler, i.bus, x))
  {
  }

  lemma AnsweringKept(s: S.System, pc: Pc, i: S.Input, x: Sender)
    requires Inv(s, pc) && Civil(s, pc, i, x) && !i.bus.received
    requires s.handler.phase == Awaiting || s.handler.phase == Respond
    ensures PhaseInv(S.Next(s, i), NextPc(pc, s.handler, i.bus, x))
  {
  }

  lemma RestingKept(s: S.System, pc: Pc, i: S.Input, x: Sender)
    requires Inv(s, pc) && Civil(s, pc, i, x) && !i.bus.received
    requires s.handler.phase == Idle || s.handler.phase == Stall || s.handler.phase == Drain
    ensures PhaseInv(S.Next(s, i), NextPc(pc, s.handler, i.bus, x))
  {
  }

  lemma NextKeepsInv(s: S.System, pc: Pc, i: S.Input, x: Sender)
    requires Inv(s, pc) && Civil(s, pc, i, x)
    ensures Inv(S.Next(s, i), NextPc(pc, s.handler, i.bus, x))
  {
    S.NextKeepsInv(s, i);
    LogKept(pc, s.handler, i.bus, x);
    if i.bus.received {
      ReceivedKept(s, pc, i, x);
    } else {
      match s.handler.phase
      case CaptureOut => CapturingKept(s, pc, i, x);
      case WaitRelay => OfferingKept(s, pc, i, x);
      case Dispatch => OfferingKept(s, pc, i, x);
      case Awaiting => AnsweringKept(s, pc, i, x);
      case Respond => AnsweringKept(s, pc, i, x);
      case _ => RestingKept(s, pc, i, x);
    }
  }

  // ---- Whole runs -----------------------------------------------------------------------------

  /** The clone and the PC. */
  datatype World = World(s: S.System, pc: Pc)

  datatype Clock = Clock(i: S.Input, x: Sender)

  function NextWorld(w: World, k: Clock): World {
    World(S.Next(w.s, k.i), NextPc(w.pc, w.s.handler, k.i.bus, k.x))
  }

  function ResetWorld(): World { World(S.Reset(), Renewed(P.Transfer([], 8))) }

  predicate IsRun(run: seq<World>, ks: seq<Clock>) {
    |run| == |ks| + 1 && run[0] == ResetWorld() &&
    forall n :: 0 <= n < |ks| ==> Civil(run[n].s, run[n].pc, ks[n].i, ks[n].x) && run[n + 1] == NextWorld(run[n], ks[n])
  }

  lemma {:induction false} RunKeepsInv(run: seq<World>, ks: seq<Clock>, n: nat)
    requires IsRun(run, ks) && n <= |ks|
    ensures Inv(run[n].s, run[n].pc)
    decreases n
  {
    if n == 0 {
      S.ResetHolds();
    } else {
      RunKeepsInv(run, ks, n - 1);
      NextKeepsInv(run[n - 1].s, run[n - 1].pc, ks[n - 1].i, ks[n - 1].x);
    }
  }

  /** The PC's exchanges, and what they put into the relay. */
  predicate CapturedFrom(captured: seq<U8>, pc: Pc) {
    var t, xs := pc.transfer, pc.exchanges;
    P.Sound(t) && captured == P.Captured(t, P.Run(t, xs, |xs|)) && |captured| == |t.payload| &&
    (P.Orderly(t, xs, |xs|) ==> captured == t.payload)
  }

  lemma AnsweredIsCaptured(s: S.System, pc: Pc)
    requires Inv(s, pc) && s.handler.phase == Respond && HasOutData(s.setup)
    ensures CapturedFrom(s.ledger.captured, pc) && |pc.transfer.payload| == s.setup.length
  {
    var t, xs := pc.transfer, pc.exchanges;
    assert Total(pc) == pc.stage.forwarded;
    if P.Orderly(t, xs, |xs|) {
      P.OrderlyInOrder(t, xs, |xs|);
    }
  }

  /**
   * Over every run: when a forward with OUT data succeeds, what the relay captured is the first wLength
   * bytes of what the PC's exchanges forwarded, and the PC's payload if they were orderly.
   */
  lemma CapturedIsForwarded(run: seq<World>, ks: seq<Clock>, n: nat)
    requires IsRun(run, ks) && n <= |ks| && run[n].s.handler.phase == Respond && HasOutData(run[n].s.setup)
    ensures CapturedFrom(run[n].s.ledger.captured, run[n].pc)
    ensures |run[n].pc.transfer.payload| == run[n].s.setup.length
  {
    RunKeepsInv(run, ks, n);
    AnsweredIsCaptured(run[n].s, run[n].pc);
  }

  /** A run of the whole path, with the PC beside it. */
  predicate Beside(run: seq<F.Path>, ks: seq<F.Clock>, pcs: seq<Pc>, xs: seq<Sender>) {
    F.IsRun(run, ks) && |pcs| == |run| && |xs| == |ks| && pcs[0] == ResetWorld().pc &&
    forall n :: 0 <= n < |ks| ==>
      Civil(run[n].s, pcs[n], F.InputOf(run[n], ks[n]), xs[n]) &&
      pcs[n + 1] == NextPc(pcs[n], run[n].s.handler, ks[n].bus, xs[n])
  }

  lemma {:induction false} BesideKeepsInv(
    run: seq<F.Path>, ks: seq<F.Clock>, pcs: seq<Pc>, xs: seq<Sender>, n: nat)
    requires Beside(run, ks, pcs, xs) && n <= |ks|
    ensures Inv(run[n].s, pcs[n])
    decreases n
  {
    if n == 0 {
      S.ResetHolds();
    } else {
      BesideKeepsInv(run, ks, pcs, xs, n - 1);
      NextKeepsInv(run[n - 1].s, pcs[n - 1], F.InputOf(run[n - 1], ks[n - 1]), xs[n - 1]);
    }
  }

  /** And on to the target: what it has taken is what the exchanges forwarded, the PC's payload if they
   *  were orderly. */
  lemma PayloadReachesTheTarget(run: seq<F.Path>, ks: seq<F.Clock>, pcs: seq<Pc>, xs: seq<Sender>, n: nat)
    requires Beside(run, ks, pcs, xs) && n <= |ks|
    requires run[n].s.handler.phase == Respond && HasOutData(run[n].s.setup)
    ensures CapturedFrom(run[n].origin.taken, pcs[n]) && |pcs[n].transfer.payload| == run[n].s.setup.length
  {
    BesideKeepsInv(run, ks, pcs, xs, n);
    AnsweredIsCaptured(run[n].s, pcs[n]);
    F.CapturedReachesTheTarget(run, ks, n);
  }

  // ---- From reset to wrong bytes --------------------------------------------------------------

  lemma Extended(run: seq<World>, ks: seq<Clock>, k: Clock) returns (longer: seq<World>, more: seq<Clock>)
    requires IsRun(run, ks) && Civil(run[|ks|].s, run[|ks|].pc, k.i, k.x)
    ensures IsRun(longer, more) && more == ks + [k] && longer == run + [NextWorld(run[|ks|], k)]
  {
    longer, more := run + [NextWorld(run[|ks|], k)], ks + [k];
  }

  function Quiet(): Bus { Bus(false, false, false, false, false, None) }

  function EngineSays(busy: bool, done: bool): Engine { Engine(true, false, 0, busy, done, false, 0, None) }

  /** SET_REPORT to interface 0. */
  function SetReport(length: nat): Request { Request(1, CLASS, false, 9, 0x200, 0, length) }

  /** The SETUP of t; its bytes, the first of a packet or not; a packet's good end. */
  function Announces(t: P.Transfer): Clock {
    Clock(S.Input(Quiet().(received := true), SetReport(|t.payload|), EngineSays(true, false)), Sender(t, false))
  }

  function Shows(t: P.Transfer, first: bool, byte: U8): Clock {
    Clock(S.Input(Quiet().(packetStart := first, rxByte := Some(byte)), NO_REQUEST, EngineSays(true, false)),
          Sender(t, false))
  }

  function Passes(t: P.Transfer, ackArrives: bool): Clock {
    Clock(S.Input(Quiet().(rxReady := true), NO_REQUEST, EngineSays(true, false)), Sender(t, ackArrives))
  }

  function Waits(t: P.Transfer, busy: bool, done: bool): Clock {
    Clock(S.Input(Quiet(), NO_REQUEST, EngineSays(busy, done)), Sender(t, false))
  }

  /** Capturing, the control engine taken, and early enough. */
  predicate Capturing(w: World, pc: Pc, packetOk: bool, clocks: nat) {
    w.pc == pc && w.s.setup == SetReport(|pc.transfer.payload|) && w.s.handler.phase == CaptureOut &&
    w.s.handler.packetOk == packetOk && w.s.handler.timer <= clocks &&
    (w.s.relay.control.phase == Collecting || w.s.relay.control.phase == Issuing) &&
    w.s.relay.control.request == w.s.setup
  }

  lemma Begins(t: P.Transfer) returns (run: seq<World>, ks: seq<Clock>)
    requires P.Sound(t) && 0 < |t.payload| <= BUFFER_BYTES
    ensures IsRun(run, ks) && Capturing(run[|ks|], Renewed(t), false, 0)
  {
    run, ks := Extended([ResetWorld()], [], Announces(t));
  }

  /** The PC's record once a packet opens. */
  function Opened(pc: Pc, packetOk: bool): Pc { if packetOk then Closed(pc, P.Damaged(pc.shown)) else pc }

  lemma ShowsFirst(run: seq<World>, ks: seq<Clock>, pc: Pc, byte: U8, packetOk: bool, clocks: nat)
    returns (longer: seq<World>, more: seq<Clock>)
    requires IsRun(run, ks) && Capturing(run[|ks|], pc, packetOk, clocks) && clocks < 1000
    requires P.Sending(pc.transfer, pc.stage) && (!packetOk ==> pc.shown == [])
    ensures IsRun(longer, more)
    ensures Capturing(longer[|more|], Opened(pc, packetOk).(shown := [byte]), true, clocks + 1)
  {
    longer, more := Extended(run, ks, Shows(pc.transfer, true, byte));
  }

  lemma ShowsNext(run: seq<World>, ks: seq<Clock>, pc: Pc, byte: U8, clocks: nat)
    returns (longer: seq<World>, more: seq<Clock>)
    requires IsRun(run, ks) && Capturing(run[|ks|], pc, true, clocks) && clocks < 1000
    requires P.Sending(pc.transfer, pc.stage)
    ensures IsRun(longer, more)
    ensures Capturing(longer[|more|], pc.(shown := pc.shown + [byte]), true, clocks + 1)
  {
    longer, more := Extended(run, ks, Shows(pc.transfer, false, byte));
  }

  /** A packet's bytes, whatever comes of it. */
  lemma ShowsPacket(run: seq<World>, ks: seq<Clock>, pc: Pc, bytes: seq<U8>, packetOk: bool, clocks: nat)
    returns (longer: seq<World>, more: seq<Clock>)
    requires IsRun(run, ks) && Capturing(run[|ks|], pc, packetOk, clocks)
    requires bytes != [] && clocks + |bytes| < 1000 && P.Sending(pc.transfer, pc.stage)
    requires !packetOk ==> pc.shown == []
    ensures IsRun(longer, more)
    ensures Capturing(longer[|more|], Opened(pc, packetOk).(shown := bytes), true, clocks + |bytes|)
  {
    var open := Opened(pc, packetOk);
    longer, more := ShowsFirst(run, ks, pc, bytes[0], packetOk, clocks);
    assert bytes[..1] == [bytes[0]];
    for k := 1 to |bytes|
      invariant IsRun(longer, more)
      invariant Capturing(longer[|more|], open.(shown := bytes[..k]), true, clocks + k)
    {
      longer, more := ShowsNext(longer, more, open.(shown := bytes[..k]), bytes[k], clocks + k);
      assert bytes[..k] + [bytes[k]] == bytes[..k + 1];
    }
    assert bytes[..|bytes|] == bytes;
  }

  /** Its good end, before the capture is over or as it is. */
  lemma PassesPacket(run: seq<World>, ks: seq<Clock>, pc: Pc, ackArrives: bool, clocks: nat)
    returns (longer: seq<World>, more: seq<Clock>)
    requires IsRun(run, ks) && Capturing(run[|ks|], pc, true, clocks) && clocks < 1000
    requires P.Sending(pc.transfer, pc.stage)
    requires pc.shown == P.Packet(pc.transfer, pc.stage.base)
    ensures IsRun(longer, more) && longer[|more|].s.setup == SetReport(|pc.transfer.payload|)
    ensures var closed, h := Closed(pc, P.Good(ackArrives)), longer[|more|].s.handler;
            if closed.stage.capturing then Capturing(longer[|more|], closed, false, clocks + 1)
            else Serving(longer[|more|], closed, longer[|more|].s.setup, Issuing) && h.timer == 0
  {
    RunKeepsInv(run, ks, |ks|);
    longer, more := Extended(run, ks, Passes(pc.transfer, ackArrives));
    RunKeepsInv(longer, more, |more|);
  }

  /** Waiting for the target, the relay as given. */
  predicate Serving(w: World, pc: Pc, setup: Request, phase: RelayPhase) {
    w.pc == pc && w.s.setup == setup && w.s.handler.phase == Awaiting && w.s.handler.timer < 10 &&
    w.s.relay.control.phase == phase && !w.s.relay.control.resyncActive &&
    (phase == Complete ==> !w.s.relay.answer.error)
  }

  lemma EngineStarts(run: seq<World>, ks: seq<Clock>, pc: Pc, setup: Request)
    returns (longer: seq<World>, more: seq<Clock>)
    requires IsRun(run, ks) && Serving(run[|ks|], pc, setup, Issuing) && run[|ks|].s.handler.timer < 5
    ensures IsRun(longer, more) && Serving(longer[|more|], pc, setup, Waiting) && longer[|more|].s.handler.timer < 6
  {
    longer, more := Extended(run, ks, Waits(pc.transfer, false, false));
  }

  lemma EngineEnds(run: seq<World>, ks: seq<Clock>, pc: Pc, setup: Request)
    returns (longer: seq<World>, more: seq<Clock>)
    requires IsRun(run, ks) && Serving(run[|ks|], pc, setup, Waiting) && run[|ks|].s.handler.timer < 6
    ensures IsRun(longer, more) && Serving(longer[|more|], pc, setup, Complete)
  {
    longer, more := Extended(run, ks, Waits(pc.transfer, true, true));
  }

  lemma HandlerResponds(run: seq<World>, ks: seq<Clock>, pc: Pc, setup: Request)
    returns (longer: seq<World>, more: seq<Clock>)
    requires IsRun(run, ks) && Serving(run[|ks|], pc, setup, Complete)
    ensures IsRun(longer, more) && longer[|more|].pc == pc && longer[|more|].s.setup == setup
    ensures longer[|more|].s.handler.phase == Respond
  {
    longer, more := Extended(run, ks, Waits(pc.transfer, true, false));
  }

  /** The engine falls free and the target takes what was captured. */
  lemma Succeeds(run: seq<World>, ks: seq<Clock>, pc: Pc) returns (longer: seq<World>, more: seq<Clock>)
    requires IsRun(run, ks) && HasOutData(run[|ks|].s.setup) && Serving(run[|ks|], pc, run[|ks|].s.setup, Issuing)
    requires run[|ks|].s.handler.timer == 0
    ensures IsRun(longer, more) && longer[|more|].pc == pc && longer[|more|].s.handler.phase == Respond
    ensures longer[|more|].s.ledger.captured == P.Captured(pc.transfer, pc.stage)
  {
    var setup := run[|ks|].s.setup;
    longer, more := EngineStarts(run, ks, pc, setup);
    longer, more := EngineEnds(longer, more, pc, setup);
    longer, more := HandlerResponds(longer, more, pc, setup);
    RunKeepsInv(longer, more, |more|);
    AnsweredIsCaptured(longer[|more|].s, pc);
  }

  /** One byte of damage before the good packet: the PC sees every packet acknowledged and the transfer
   *  succeed, and the target is given 7 for its 9. */
  lemma DamagedPacketIsForwarded() returns (run: seq<World>, ks: seq<Clock>)
    ensures IsRun(run, ks) && run[|ks|].s.handler.phase == Respond
    ensures run[|ks|].pc.transfer.payload == [9] && run[|ks|].pc.stage.base == 1
    ensures run[|ks|].s.ledger.captured == [7]
  {
    var t := P.Transfer([9], 8);
    var pc := Renewed(t);
    run, ks := Begins(t);
    run, ks := ShowsPacket(run, ks, pc, [7], false, 0);
    pc := Pc(t, P.START, [], [7]);
    run, ks := ShowsPacket(run, ks, pc, [9], true, 1);
    pc := Pc(t, P.Stage(true, [7], 0), [P.Damaged([7])], [9]);
    assert P.Packet(t, 0) == [9];
    run, ks := PassesPacket(run, ks, pc, true, 2);
    pc := Closed(pc, P.Good(true));
    assert pc.stage.forwarded == [7, 9];
    run, ks := Succeeds(run, ks, pc);
  }

  function Nine(): seq<U8> { [1, 2, 3, 4, 5, 6, 7, 8, 9] }

  lemma NineTwice(t: P.Transfer)
    requires t == P.Transfer(Nine(), 8)
    ensures P.Packet(t, 0) == Nine()[..8]
    ensures P.Captured(t, P.Stage(false, Nine()[..8] + Nine()[..8], 8)) == [1, 2, 3, 4, 5, 6, 7, 8, 1]
  {
  }

  /** The ACK of the first packet is lost: the target takes that packet twice, and never the second. */
  lemma RepeatedPacketIsForwarded() returns (run: seq<World>, ks: seq<Clock>)
    ensures IsRun(run, ks) && run[|ks|].s.handler.phase == Respond
    ensures run[|ks|].pc.transfer.payload == [1, 2, 3, 4, 5, 6, 7, 8, 9]
    ensures run[|ks|].pc.exchanges == [P.Good(false), P.Good(true)]
    ensures run[|ks|].s.ledger.captured == [1, 2, 3, 4, 5, 6, 7, 8, 1]
  {
    var t, first := P.Transfer(Nine(), 8), Nine()[..8];
    NineTwice(t);
    var pc := Renewed(t);
    run, ks := Begins(t);
    run, ks := ShowsPacket(run, ks, pc, first, false, 0);
    run, ks := PassesPacket(run, ks, pc.(shown := first), false, 8);
    pc := Pc(t, P.Stage(true, first, 0), [P.Good(false)], []);
    run, ks := ShowsPacket(run, ks, pc, first, false, 9);
    run, ks := PassesPacket(run, ks, pc.(shown := first), true, 17);
    pc := Pc(t, P.Stage(false, first + first, 8), [P.Good(false), P.Good(true)], []);
    run, ks := Succeeds(run, ks, pc);
  }
}
