/** What forwarding guarantees over every interleaving of SETUPs, timeouts, aborts and replays. */
module ForwardingSafety {
  import opened ControlForwarding

  // ---- The two machines together ------------------------------------------------------------

  /** Whose request the relay holds. */
  datatype Holder = Nobody | Forward(serial: nat) | Resync

  /** What the composition remembers beside the registers: who was forwarded, and the bytes moved. */
  datatype Ledger = Ledger(holder: Holder, forwarded: seq<nat>, captured: seq<U8>, received: seq<U8>)

  /** serial counts SETUP packets; setup is the last one's record. */
  datatype System = System(serial: nat, setup: Request, handler: Handler, relay: Relay, ledger: Ledger)

  datatype Input = Input(bus: Bus, newSetup: Request, engine: Engine)

  function ResetRelay(): Relay {
    Relay(RelayControl(Ready, NO_REQUEST, false, false), RelayAnswer(false, 0, false, false, false),
          Bounce(seq(BUFFER_BYTES, i => 0), 0, false))
  }

  function Reset(): System {
    System(0, NO_REQUEST, Handler(Idle, false, false, 0, 0), ResetRelay(), Ledger(Nobody, [], [], []))
  }

  function Setup(s: System, i: Input): Request {
    if i.bus.received then i.newSetup else s.setup
  }

  function Serial(s: System, i: Input): nat {
    if i.bus.received then s.serial + 1 else s.serial
  }

  function DriveOf(s: System, i: Input): Drive {
    Driven(s.handler, Setup(s, i), i.bus, ViewOf(s.relay, i.engine))
  }

  function NextLedger(l: Ledger, serial: nat, c: RelayControl, b: Bounce, d: Drive, e: Engine): Ledger {
    if Takes(c, d, e) then
      if d.offer then Ledger(Forward(serial), l.forwarded + [serial], [], [])
      else Ledger(Resync, l.forwarded, [], [])
    else if c.phase == Complete && (c.resyncActive || d.ack) then
      Ledger(Nobody, l.forwarded, l.captured, l.received)
    else
      Ledger(l.holder, l.forwarded,
             if c.phase == Collecting && d.outByte.Some? then l.captured + [d.outByte.value] else l.captured,
             if Receives(c, b, e) then l.received + [e.data.value] else l.received)
  }

  function Next(s: System, i: Input): System {
    var q, d := Setup(s, i), DriveOf(s, i);
    System(
      Serial(s, i), q,
      NextHandler(s.handler, q, i.bus, ViewOf(s.relay, i.engine)),
      NextRelay(s.relay, d, i.engine),
      NextLedger(s.ledger, Serial(s, i), s.relay.control, s.relay.bounce, d, i.engine))
  }

  // ---- Invariant ----------------------------------------------------------------------------

  function Last(l: Ledger): int {
    if l.forwarded == [] then -1 else l.forwarded[|l.forwarded| - 1]
  }

  predicate Rising(f: seq<nat>) {
    forall j, k :: 0 <= j < k < |f| ==> f[j] < f[k]
  }

  /** The relay's registers agree with who holds it. */
  predicate ControlInv(c: RelayControl, l: Ledger) {
    (c.phase == Ready <==> l.holder == Nobody) &&
    (c.requestPending <==> c.phase != Ready) &&
    (c.resyncActive <==> l.holder == Resync) &&
    (l.holder != Nobody ==> IsClass(c.request)) &&
    (c.phase == Collecting ==> l.holder.Forward? && HasOutData(c.request)) &&
    (c.phase == Collecting || c.phase == Issuing || c.phase == Waiting ==> c.request.length <= BUFFER_BYTES)
  }

  predicate Holds(b: Bounce, prefix: seq<U8>) {
    |b.bytes| == BUFFER_BYTES && |prefix| <= BUFFER_BYTES && b.bytes[..|prefix|] == prefix
  }

  /** The bounce buffer holds the OUT bytes captured, then the IN bytes received. */
  predicate BounceInv(c: RelayControl, b: Bounce, l: Ledger) {
    |b.bytes| == BUFFER_BYTES &&
    (c.phase == Collecting ==>
       b.cursor == |l.captured| < c.request.length && Holds(b, l.captured)) &&
    ((c.phase == Issuing || c.phase == Waiting) && HasOutData(c.request) ==>
       |l.captured| == c.request.length && Holds(b, l.captured)) &&
    (c.phase == Collecting || c.phase == Issuing ==> l.received == []) &&
    (c.phase == Issuing ==> b.cursor == 0) &&
    (c.phase == Waiting && c.request.isIn && |l.received| <= BUFFER_BYTES ==> b.cursor == |l.received|) &&
    ((c.phase == Waiting || c.phase == Complete) && c.request.isIn && |l.received| <= BUFFER_BYTES ==>
       Holds(b, l.received))
  }

  /** What each handler state may rely on. */
  predicate HandlerInv(s: System) {
    var h, c, l := s.handler, s.relay.control, s.ledger;
    match h.phase
    case Idle => !l.holder.Forward? && !h.setupPending
    case Stall => !l.holder.Forward? && !h.setupPending
    case WaitRelay =>
      !l.holder.Forward? && !h.setupPending && IsClass(s.setup) && Last(l) < s.serial && h.outCursor == 0
    case Dispatch =>
      !l.holder.Forward? && (h.setupPending <==> IsClass(s.setup)) &&
      (IsClass(s.setup) ==> Last(l) < s.serial)
    case CaptureOut =>
      l.holder == Forward(s.serial) && c.request == s.setup && HasOutData(s.setup) && !h.setupPending &&
      (c.phase == Collecting ==> h.outCursor == s.relay.bounce.cursor < s.setup.length)
    case Awaiting =>
      l.holder == Forward(s.serial) && c.request == s.setup && c.phase != Collecting && !h.setupPending
    case Respond =>
      l.holder == Forward(s.serial) && c.request == s.setup && c.phase == Complete &&
      !s.relay.answer.error && !h.setupPending
    case Drain =>
      c.phase != Collecting && (h.setupPending <==> IsClass(s.setup) && Last(l) < s.serial)
  }

  predicate LedgerInv(s: System) {
    Rising(s.ledger.forwarded) && Last(s.ledger) <= s.serial &&
    (s.ledger.holder.Forward? ==> s.ledger.holder.serial == Last(s.ledger))
  }

  predicate Inv(s: System) {
    ControlInv(s.relay.control, s.ledger) &&
    BounceInv(s.relay.control, s.relay.bounce, s.ledger) &&
    HandlerInv(s) && LedgerInv(s)
  }

  // ---- Every step keeps it ------------------------------------------------------------------

  lemma ResetHolds()
    ensures Inv(Reset())
  {
  }

  /** Only class requests are ever offered. */
  lemma OffersAreClass(s: System, i: Input)
    requires HandlerInv(s)
    requires DriveOf(s, i).offer
    ensures IsClass(Setup(s, i)) && DriveOf(s, i).request == Setup(s, i)
    ensures s.handler.phase == Idle || s.handler.phase == WaitRelay || s.handler.phase == Dispatch
    ensures Last(s.ledger) <= s.serial ==> Last(s.ledger) < Serial(s, i)
  {
  }

  lemma ControlKept(c: RelayControl, b: Bounce, l: Ledger, serial: nat, d: Drive, e: Engine)
    requires ControlInv(c, l)
    requires d.offer ==> IsClass(d.request)
    ensures ControlInv(NextControl(c, b, d, e), NextLedger(l, serial, c, b, d, e))
  {
  }

  lemma WriteExtends(b: Bounce, prefix: seq<U8>, value: U8)
    requires Holds(b, prefix) && |prefix| < BUFFER_BYTES && b.cursor == |prefix|
    ensures Holds(Bounce(Written(b.bytes, b.cursor, value), b.cursor, b.gap), prefix + [value])
  {
    var w := Written(b.bytes, b.cursor, value);
    assert w[..|prefix| + 1] == prefix + [value];
  }

  lemma BounceKept(c: RelayControl, b: Bounce, l: Ledger, serial: nat, d: Drive, e: Engine)
    requires ControlInv(c, l) && BounceInv(c, b, l)
    ensures BounceInv(NextControl(c, b, d, e), NextBounce(c, b, d, e), NextLedger(l, serial, c, b, d, e))
  {
    if c.phase == Collecting && d.outByte.Some? {
      WriteExtends(b, l.captured, d.outByte.value);
    }
    if Receives(c, b, e) && |l.received| < BUFFER_BYTES {
      WriteExtends(b, l.received, e.data.value);
    }
  }

  lemma RestingKept(s: System, i: Input)
    requires Inv(s) && (s.handler.phase == Idle || s.handler.phase == Stall)
    ensures HandlerInv(Next(s, i))
  {
  }

  lemma OfferingKept(s: System, i: Input)
    requires Inv(s) && (s.handler.phase == WaitRelay || s.handler.phase == Dispatch)
    ensures HandlerInv(Next(s, i))
  {
  }

  lemma CapturingKept(s: System, i: Input)
    requires Inv(s) && s.handler.phase == CaptureOut
    ensures HandlerInv(Next(s, i))
  {
  }

  lemma AnsweringKept(s: System, i: Input)
    requires Inv(s) && (s.handler.phase == Awaiting || s.handler.phase == Respond)
    ensures HandlerInv(Next(s, i))
  {
  }

  lemma DrainingKept(s: System, i: Input)
    requires Inv(s) && s.handler.phase == Drain
    ensures HandlerInv(Next(s, i))
  {
  }

  lemma HandlerKept(s: System, i: Input)
    requires Inv(s)
    ensures HandlerInv(Next(s, i))
  {
    match s.handler.phase
    case Idle => RestingKept(s, i);
    case Stall => RestingKept(s, i);
    case WaitRelay => OfferingKept(s, i);
    case Dispatch => OfferingKept(s, i);
    case CaptureOut => CapturingKept(s, i);
    case Awaiting => AnsweringKept(s, i);
    case Respond => AnsweringKept(s, i);
    case Drain => DrainingKept(s, i);
  }

  lemma LedgerKept(s: System, i: Input)
    requires Inv(s)
    ensures LedgerInv(Next(s, i))
  {
  }

  lemma NextKeepsInv(s: System, i: Input)
    requires Inv(s)
    ensures Inv(Next(s, i))
  {
    if DriveOf(s, i).offer {
      OffersAreClass(s, i);
    }
    var d := DriveOf(s, i);
    ControlKept(s.relay.control, s.relay.bounce, s.ledger, Serial(s, i), d, i.engine);
    BounceKept(s.relay.control, s.relay.bounce, s.ledger, Serial(s, i), d, i.engine);
    HandlerKept(s, i);
    LedgerKept(s, i);
  }

  // ---- Whole runs ---------------------------------------------------------------------------

  /** The state after the first n cycles. */
  function Run(s: System, inputs: seq<Input>, n: nat): System
    requires n <= |inputs|
  {
    if n == 0 then s else Next(Run(s, inputs, n - 1), inputs[n - 1])
  }

  lemma {:induction false} RunKeepsInv(inputs: seq<Input>, n: nat)
    requires n <= |inputs|
    ensures Inv(Run(Reset(), inputs, n))
    decreases n
  {
    if n == 0 {
      ResetHolds();
    } else {
      RunKeepsInv(inputs, n - 1);
      NextKeepsInv(Run(Reset(), inputs, n - 1), inputs[n - 1]);
    }
  }

  /** The bytes RESPOND reads out of the buffer. */
  function Served(s: System): seq<U8> {
    var n := if s.relay.answer.length > BUFFER_BYTES then BUFFER_BYTES else s.relay.answer.length;
    if n <= |s.relay.bounce.bytes| then s.relay.bounce.bytes[..n] else []
  }

  /**
   * Over every interleaving of SETUPs, timeouts, aborts and replays: a response is served only for
   * the SETUP now latched, forwarded as received, and its bytes are the ones the relay received for it
   * if the engine counted as many; that it does is proved with the engine, in ForwardedTransfers.
   */
  lemma ResponseIsCurrent(inputs: seq<Input>, n: nat)
    requires n <= |inputs| && Run(Reset(), inputs, n).handler.phase == Respond
    ensures var s := Run(Reset(), inputs, n);
            ResponseValid(s.relay.control) && !s.relay.answer.error &&
            s.ledger.holder == Forward(s.serial) && s.relay.control.request == s.setup &&
            (s.setup.isIn && s.relay.answer.length == |s.ledger.received| <= BUFFER_BYTES ==>
               Served(s) == s.ledger.received)
  {
    RunKeepsInv(inputs, n);
  }

  /** In IDLE and STALL the relay holds none of the handler's requests. */
  lemma RestingHoldsNothing(inputs: seq<Input>, n: nat)
    requires n <= |inputs|
    ensures var s := Run(Reset(), inputs, n);
            s.handler.phase == Idle || s.handler.phase == Stall ==>
              !s.ledger.holder.Forward? && !ResponseValid(s.relay.control)
  {
    RunKeepsInv(inputs, n);
  }

  /** A replay in flight never has the handler waiting on its answer. */
  lemma ReplayIsInvisible(inputs: seq<Input>, n: nat)
    requires n <= |inputs|
    ensures var s := Run(Reset(), inputs, n);
            s.relay.control.resyncActive ==>
              !ResponseValid(s.relay.control) && s.handler.phase != CaptureOut &&
              s.handler.phase != Awaiting && s.handler.phase != Respond
  {
    RunKeepsInv(inputs, n);
  }

  /** Each SETUP is forwarded at most once, and only class requests ever reach the target. */
  lemma ForwardedOnce(inputs: seq<Input>, n: nat)
    requires n <= |inputs|
    ensures var s := Run(Reset(), inputs, n);
            (forall j, k :: 0 <= j < k < |s.ledger.forwarded| ==> s.ledger.forwarded[j] != s.ledger.forwarded[k]) &&
            (forall k :: 0 <= k < |s.ledger.forwarded| ==> s.ledger.forwarded[k] <= s.serial) &&
            (s.relay.control.phase != Ready ==> IsClass(s.relay.control.request))
  {
    RunKeepsInv(inputs, n);
  }

  /** While the engine runs an OUT transfer, the payload it indexes is the captured bytes, in order. */
  lemma PayloadIsCaptured(inputs: seq<Input>, n: nat, index: nat)
    requires n <= |inputs|
    requires Run(Reset(), inputs, n).relay.control.phase == Waiting
    requires HasOutData(Run(Reset(), inputs, n).relay.control.request)
    requires index < Run(Reset(), inputs, n).relay.control.request.length
    ensures var s := Run(Reset(), inputs, n);
            |s.ledger.captured| == s.relay.control.request.length &&
            OutPayload(s.relay.bounce, index) == s.ledger.captured[index]
  {
    RunKeepsInv(inputs, n);
    var s := Run(Reset(), inputs, n);
    assert s.relay.bounce.bytes[index] == s.relay.bounce.bytes[..|s.ledger.captured|][index];
  }

  /** Draining waits only on the engine or on a replay that completes by itself. */
  lemma DrainWaitsOnlyForTheEngine(s: System, i: Input)
    requires Inv(s) && s.handler.phase == Drain && Next(s, i).handler.phase == Drain
    ensures var c := s.relay.control;
            c.phase == Issuing || c.phase == Waiting || (c.phase == Complete && c.resyncActive)
    ensures s.relay.control.phase == Issuing ==>
              (!i.engine.enable <==> Next(s, i).relay.control.phase == Complete) &&
              (Starts(s.relay.control, i.engine) <==> Next(s, i).relay.control.phase == Waiting)
    ensures s.relay.control.phase == Waiting ==>
              (i.engine.done <==> Next(s, i).relay.control.phase == Complete)
  {
  }

  /** A class SETUP nobody has forwarded yet. */
  predicate Owed(s: System) {
    IsClass(s.setup) && Last(s.ledger) < s.serial
  }

  /** The handler still means to forward it. */
  predicate Remembered(s: System) {
    Owed(s) && ((s.handler.phase == Drain && s.handler.setupPending) ||
                s.handler.phase == Dispatch || s.handler.phase == WaitRelay)
  }

  /** A class SETUP is never dropped: on arrival it is forwarded, remembered, or -- only because the
   *  relay was busy in IDLE with a request other than these two -- refused with a STALL. */
  lemma ArrivalIsKept(s: System, i: Input)
    requires Inv(s) && i.bus.received && IsClass(i.newSetup)
    ensures var t := Next(s, i);
            Last(t.ledger) == t.serial || Remembered(t) ||
            (t.handler.phase == Stall && s.handler.phase == Idle && !WaitsForRelay(i.newSetup) &&
             !RequestReady(s.relay.control, i.engine.enable))
  {
    NextKeepsInv(s, i);
  }

  /** A remembered SETUP stays so until it is forwarded, superseded, or STALLed: on dispatch to a busy
   *  relay, or when its wait runs out. */
  lemma RememberedIsKept(s: System, i: Input)
    requires Inv(s) && Remembered(s) && !i.bus.received
    ensures var t := Next(s, i);
            t.setup == s.setup && t.serial == s.serial &&
            (Last(t.ledger) == t.serial || Remembered(t) ||
             (t.handler.phase == Stall && !RequestReady(s.relay.control, i.engine.enable) &&
              ((s.handler.phase == Dispatch && !WaitsForRelay(s.setup)) ||
               (s.handler.phase == WaitRelay && s.handler.timer == TIMEOUT_CYCLES))))
  {
    NextKeepsInv(s, i);
  }

  /** The snoop pulse: exactly a forward the target completed without error, its request still held. */
  lemma ForwardOkMeansForwarded(s: System, i: Input)
    requires Inv(s)
    ensures var t := Next(s, i);
            t.relay.answer.forwardOk <==>
            s.relay.control.phase == Waiting && i.engine.done && !i.engine.failed &&
            t.ledger.holder.Forward? && s.ledger.holder == t.ledger.holder
    ensures Next(s, i).relay.answer.forwardOk ==>
              Next(s, i).relay.control.request == s.relay.control.request &&
              Next(s, i).relay.control.phase == Complete
  {
  }
}
