/** EP0 class-request forwarding: the handler on the clone's side and the relay behind it. */
module ControlForwarding {
  type U8 = x: int | 0 <= x < 0x100

  datatype Option<T> = None | Some(value: T)

  const CLASS: nat := 1
  const SET_IDLE: U8 := 0x0a
  const SET_PROTOCOL: U8 := 0x0b
  const REPORT_PROTOCOL: nat := 1

  const BUFFER_BYTES: nat := 64
  const CURSOR_MODULUS: nat := 128
  const OUT_CURSOR_MODULUS: nat := 0x1_0000

  /** 20 ms at 60 MHz, and the width Signal(range(TIMEOUT_CYCLES + 1)) gives its counter. */
  const TIMEOUT_CYCLES: nat := 1_200_000
  const TIMER_MODULUS: nat := 0x20_0000

  /** A control request; recipient, kind and isIn are the three parts of bmRequestType. */
  datatype Request = Request(
    recipient: nat, kind: nat, isIn: bool, request: U8, value: nat, index: nat, length: nat)

  const NO_REQUEST := Request(0, 0, false, 0, 0, 0, 0)

  predicate IsClass(q: Request) { q.kind == CLASS }

  /** A busy relay is waited for only by these two. */
  predicate WaitsForRelay(q: Request) { q.request == SET_IDLE || q.request == SET_PROTOCOL }

  predicate HasOutData(q: Request) { !q.isIn && q.length > 0 }

  function Replay(index: nat): Request {
    Request(1, CLASS, false, SET_PROTOCOL, REPORT_PROTOCOL, index, 0)
  }

  // ---- The relay ----------------------------------------------------------------------------

  datatype RelayPhase = Ready | Collecting | Issuing | Waiting | Complete

  datatype RelayControl = RelayControl(
    phase: RelayPhase, request: Request, requestPending: bool, resyncActive: bool)

  datatype RelayAnswer = RelayAnswer(error: bool, length: nat, overflow: bool, forwardOk: bool, resyncDone: bool)

  datatype Bounce = Bounce(bytes: seq<U8>, cursor: nat, gap: bool)

  datatype Relay = Relay(control: RelayControl, answer: RelayAnswer, bounce: Bounce)

  /** What the handler drives into the relay on one cycle. */
  datatype Drive = Drive(offer: bool, request: Request, outByte: Option<U8>, abort: bool, ack: bool)

  /** What the enumerator, the resync source and the control engine drive into it. */
  datatype Engine = Engine(
    enable: bool, resyncValid: bool, resyncIndex: nat, busy: bool, done: bool, failed: bool,
    transferred: nat, data: Option<U8>)

  predicate RequestReady(c: RelayControl, enable: bool) { c.phase == Ready && enable }

  predicate ResponseValid(c: RelayControl) { c.phase == Complete && !c.resyncActive }

  predicate Takes(c: RelayControl, d: Drive, e: Engine) {
    c.phase == Ready && e.enable && (d.offer || e.resyncValid)
  }

  /** The handler's request wins over the resync's. */
  function Offered(d: Drive, e: Engine): Request {
    if d.offer then d.request else Replay(e.resyncIndex)
  }

  function Arrivals(d: Drive): nat { if d.outByte.Some? then 1 else 0 }

  predicate Collected(c: RelayControl, b: Bounce, d: Drive) {
    b.cursor + Arrivals(d) >= c.request.length
  }

  predicate Starts(c: RelayControl, e: Engine) { c.phase == Issuing && e.enable && !e.busy }

  /** The relay is ready for an IN byte and the engine has one. */
  predicate Receives(c: RelayControl, b: Bounce, e: Engine) {
    c.phase == Waiting && c.request.isIn && !b.gap && e.data.Some?
  }

  function NextRelayPhase(c: RelayControl, b: Bounce, d: Drive, e: Engine): RelayPhase {
    match c.phase
    case Ready =>
      if !Takes(c, d, e) then Ready
      else
        var q := Offered(d, e);
        if q.length > BUFFER_BYTES then Complete
        else if q.isIn || q.length == 0 then Issuing
        else Collecting
    case Collecting => if d.abort then Complete else if Collected(c, b, d) then Issuing else Collecting
    case Issuing => if !e.enable then Complete else if !e.busy then Waiting else Issuing
    case Waiting => if e.done then Complete else Waiting
    case Complete => if c.resyncActive || d.ack then Ready else Complete
  }

  function NextControl(c: RelayControl, b: Bounce, d: Drive, e: Engine): RelayControl {
    var phase := NextRelayPhase(c, b, d, e);
    if Takes(c, d, e) then RelayControl(phase, Offered(d, e), true, !d.offer)
    else if c.phase == Complete && phase == Ready then RelayControl(Ready, c.request, false, false)
    else RelayControl(phase, c.request, c.requestPending, c.resyncActive)
  }

  function NextAnswer(c: RelayControl, a: RelayAnswer, d: Drive, e: Engine): RelayAnswer {
    if Takes(c, d, e) then
      var over := Offered(d, e).length > BUFFER_BYTES;
      RelayAnswer(over, 0, over, false, false)
    else if (c.phase == Collecting && d.abort) || (c.phase == Issuing && !e.enable) then
      RelayAnswer(true, a.length, a.overflow, false, false)
    else if c.phase == Waiting && e.done then
      RelayAnswer(e.failed, e.transferred, a.overflow, !e.failed && !c.resyncActive, false)
    else RelayAnswer(a.error, a.length, a.overflow, false, c.phase == Complete && c.resyncActive)
  }

  /** A memory write through a cursor one bit wider than the address. */
  function Written(bytes: seq<U8>, cursor: nat, value: U8): seq<U8> {
    if |bytes| == BUFFER_BYTES then bytes[cursor % BUFFER_BYTES := value] else bytes
  }

  function NextBounce(c: RelayControl, b: Bounce, d: Drive, e: Engine): Bounce {
    if Takes(c, d, e) then Bounce(b.bytes, 0, false)
    else if c.phase == Collecting then
      var bytes := if d.outByte.Some? then Written(b.bytes, b.cursor, d.outByte.value) else b.bytes;
      if d.abort || Collected(c, b, d) then Bounce(bytes, 0, b.gap)
      else Bounce(bytes, (b.cursor + Arrivals(d)) % CURSOR_MODULUS, b.gap)
    else if Receives(c, b, e) then
      Bounce(Written(b.bytes, b.cursor, e.data.value), (b.cursor + 1) % CURSOR_MODULUS, true)
    else if c.phase == Waiting && (!c.request.isIn || b.gap) then Bounce(b.bytes, b.cursor, false)
    else b
  }

  function NextRelay(r: Relay, d: Drive, e: Engine): Relay {
    Relay(NextControl(r.control, r.bounce, d, e), NextAnswer(r.control, r.answer, d, e),
          NextBounce(r.control, r.bounce, d, e))
  }

  /** The byte the engine reads as OUT payload, zero past the buffer. */
  function OutPayload(b: Bounce, index: nat): U8 {
    if index < BUFFER_BYTES && index < |b.bytes| then b.bytes[index] else 0
  }

  // ---- The handler --------------------------------------------------------------------------

  datatype HandlerPhase =
    | Idle | CaptureOut | WaitRelay | Awaiting | Respond | Drain | Dispatch | Stall

  type OutCursor = x: int | 0 <= x < OUT_CURSOR_MODULUS
  type Timer = x: int | 0 <= x < TIMER_MODULUS

  datatype Handler = Handler(
    phase: HandlerPhase, setupPending: bool, packetOk: bool, outCursor: OutCursor, timer: Timer)

  function Moved(cursor: OutCursor): OutCursor {
    if cursor == OUT_CURSOR_MODULUS - 1 then 0 else cursor + 1
  }

  function Tock(timer: Timer): Timer {
    if timer == TIMER_MODULUS - 1 then 0 else timer + 1
  }

  /** What the AUX bus shows on one cycle; on a received cycle the setup fields are already new. */
  datatype Bus = Bus(
    received: bool, dataRequested: bool, statusRequested: bool, rxReady: bool, packetStart: bool,
    rxByte: Option<U8>)

  /** What the relay shows the handler on one cycle. */
  datatype View = View(ready: bool, valid: bool, error: bool, pending: bool)

  function ViewOf(r: Relay, e: Engine): View {
    View(RequestReady(r.control, e.enable), ResponseValid(r.control), r.answer.error,
         r.control.requestPending)
  }

  /** The states that hand the latched SETUP to dispatch() on this cycle. */
  predicate Dispatches(h: Handler, q: Request, bus: Bus) {
    IsClass(q) && ((h.phase == Idle && bus.received) || (h.phase == Dispatch && !bus.received))
  }

  predicate Offers(h: Handler, q: Request, bus: Bus, v: View) {
    (Dispatches(h, q, bus) && v.ready) || (h.phase == WaitRelay && !bus.received)
  }

  /** A new SETUP abandons whatever any state but IDLE and DRAIN_THEN_STALL was doing. */
  predicate Abandons(h: Handler, bus: Bus) {
    bus.received && h.phase != Idle && h.phase != Drain
  }

  predicate ForwardsByte(h: Handler, bus: Bus) {
    h.phase == CaptureOut && (h.packetOk || bus.packetStart) && bus.rxByte.Some?
  }

  predicate Acks(h: Handler, bus: Bus, v: View) {
    (h.phase == Awaiting && v.valid && v.error) || (h.phase == Respond && bus.statusRequested) ||
    (h.phase == Drain && v.valid)
  }

  function Driven(h: Handler, q: Request, bus: Bus, v: View): Drive {
    Drive(Offers(h, q, bus, v), q, if ForwardsByte(h, bus) then bus.rxByte else None,
          Abandons(h, bus) || (h.phase == CaptureOut && h.timer == TIMEOUT_CYCLES),
          Acks(h, bus, v))
  }

  function StageOf(q: Request): HandlerPhase {
    if q.isIn || q.length == 0 then Awaiting else CaptureOut
  }

  function Dispatched(q: Request, v: View): HandlerPhase {
    if v.ready then StageOf(q) else if WaitsForRelay(q) then WaitRelay else Stall
  }

  predicate CaptureDone(h: Handler, q: Request, bus: Bus) {
    bus.rxReady && h.packetOk && h.outCursor >= q.length
  }

  function NextPhase(h: Handler, q: Request, bus: Bus, v: View): HandlerPhase {
    if Abandons(h, bus) then Drain
    else
      match h.phase
      case Idle => if Dispatches(h, q, bus) then Dispatched(q, v) else Idle
      case CaptureOut =>
        if h.timer == TIMEOUT_CYCLES then Drain
        else if CaptureDone(h, q, bus) then Awaiting else CaptureOut
      case WaitRelay =>
        if v.ready then StageOf(q) else if h.timer == TIMEOUT_CYCLES then Stall else WaitRelay
      case Awaiting =>
        if v.valid then if v.error then Stall else Respond
        else if h.timer == TIMEOUT_CYCLES then Drain else Awaiting
      case Respond => if bus.statusRequested then Idle else Respond
      case Drain =>
        if !v.valid && v.pending then Drain
        else if h.setupPending || (bus.received && IsClass(q)) then Dispatch else Idle
      case Dispatch => if IsClass(q) then Dispatched(q, v) else Idle
      case Stall =>
        if bus.dataRequested || bus.statusRequested || bus.rxReady then Idle else Stall
  }

  function NextPending(h: Handler, q: Request, bus: Bus): bool {
    if Abandons(h, bus) || (h.phase == Drain && bus.received) then IsClass(q)
    else if Dispatches(h, q, bus) then false
    else h.setupPending
  }

  function NextPacketOk(h: Handler, q: Request, bus: Bus): bool {
    if Dispatches(h, q, bus) then false
    else if h.phase == CaptureOut then !bus.rxReady && (h.packetOk || bus.packetStart)
    else h.packetOk
  }

  function NextOutCursor(h: Handler, bus: Bus): OutCursor {
    if h.phase == Idle || h.phase == Dispatch then 0
    else if ForwardsByte(h, bus) then Moved(h.outCursor)
    else h.outCursor
  }

  function NextTimer(h: Handler, q: Request, bus: Bus): Timer {
    if h.phase == Idle || h.phase == Dispatch || (h.phase == CaptureOut && CaptureDone(h, q, bus)) then 0
    else if h.phase == CaptureOut || h.phase == WaitRelay || h.phase == Awaiting
    then Tock(h.timer)
    else h.timer
  }

  function NextHandler(h: Handler, q: Request, bus: Bus, v: View): Handler {
    Handler(NextPhase(h, q, bus, v), NextPending(h, q, bus), NextPacketOk(h, q, bus),
            NextOutCursor(h, bus), NextTimer(h, q, bus))
  }

  /** CAPTURE_OUT's own cycle. */
  lemma CaptureOutStep(h: Handler, q: Request, bus: Bus, v: View)
    requires h.phase == CaptureOut
    ensures var late, done := h.timer == TIMEOUT_CYCLES, CaptureDone(h, q, bus);
            NextHandler(h, q, bus, v) ==
            Handler(if bus.received || late then Drain else if done then Awaiting else CaptureOut,
                    if bus.received then IsClass(q) else h.setupPending,
                    !bus.rxReady && (h.packetOk || bus.packetStart), NextOutCursor(h, bus),
                    if done then 0 else Tock(h.timer)) &&
            Driven(h, q, bus, v) ==
            Drive(false, q, if ForwardsByte(h, bus) then bus.rxByte else None, bus.received || late, false)
  {
  }

  // ---- The registers ------------------------------------------------------------------------

  class ControlRelay {
    var control: RelayControl
    var answer: RelayAnswer
    const buffer: array<U8>
    var cursor: nat
    var gap: bool

    constructor ()
      ensures Valid() && fresh(buffer)
      ensures State().control == RelayControl(Ready, NO_REQUEST, false, false)
    {
      buffer := new U8[BUFFER_BYTES];
      control := RelayControl(Ready, NO_REQUEST, false, false);
      answer := RelayAnswer(false, 0, false, false, false);
      cursor, gap := 0, false;
    }

    ghost predicate Valid() { buffer.Length == BUFFER_BYTES }

    function State(): Relay
      reads this, buffer
    {
      Relay(control, answer, Bounce(buffer[..], cursor, gap))
    }

    method Write(value: U8)
      requires Valid()
      modifies buffer
      ensures buffer[..] == Written(old(buffer[..]), cursor, value)
    {
      buffer[cursor % BUFFER_BYTES] := value;
    }

    /** IDLE on a cycle that takes a request. */
    method Accept(q: Request, resync: bool)
      requires Valid()
      modifies `control, `answer, `cursor, `gap
      ensures cursor == 0 && !gap
      ensures answer == RelayAnswer(q.length > BUFFER_BYTES, 0, q.length > BUFFER_BYTES, false, false)
      ensures control == RelayControl(
                           if q.length > BUFFER_BYTES then Complete
                           else if q.isIn || q.length == 0 then Issuing else Collecting, q, true, resync)
    {
      var over := q.length > BUFFER_BYTES;
      var phase := Collecting;
      if over {
        phase := Complete;
      } else if q.isIn || q.length == 0 {
        phase := Issuing;
      }
      control := RelayControl(phase, q, true, resync);
      answer := RelayAnswer(over, 0, over, false, false);
      cursor, gap := 0, false;
    }

    /** CAPTURE_OUT: the byte is written even on the cycle that leaves the state. */
    method Collect(d: Drive, e: Engine)
      requires Valid() && control.phase == Collecting
      modifies `control, `answer, `cursor, buffer
      ensures State() == NextRelay(old(State()), d, e)
    {
      var next := cursor + Arrivals(d);
      if d.outByte.Some? {
        Write(d.outByte.value);
      }
      cursor := next % CURSOR_MODULUS;
      answer := answer.(forwardOk := false, resyncDone := false);
      if d.abort {
        cursor := 0;
        answer := answer.(error := true);
        control := control.(phase := Complete);
      } else if next >= control.request.length {
        cursor := 0;
        control := control.(phase := Issuing);
      }
    }

    method TickReady(d: Drive, e: Engine)
      requires Valid() && control.phase == Ready
      modifies `control, `answer, `cursor, `gap
      ensures State() == NextRelay(old(State()), d, e)
    {
      if e.enable && (d.offer || e.resyncValid) {
        Accept(if d.offer then d.request else Replay(e.resyncIndex), !d.offer);
      } else {
        answer := answer.(forwardOk := false, resyncDone := false);
      }
    }

    method TickIssuing(d: Drive, e: Engine)
      requires Valid() && control.phase == Issuing
      modifies `control, `answer
      ensures State() == NextRelay(old(State()), d, e)
    {
      answer := answer.(forwardOk := false, resyncDone := false);
      if !e.enable {
        answer := answer.(error := true);
        control := control.(phase := Complete);
      } else if !e.busy {
        control := control.(phase := Waiting);
      }
    }

    method TickWaiting(d: Drive, e: Engine)
      requires Valid() && control.phase == Waiting
      modifies `control, `answer, `cursor, `gap, buffer
      ensures State() == NextRelay(old(State()), d, e)
    {
      if !gap && control.request.isIn {
        if e.data.Some? {
          Write(e.data.value);
          cursor, gap := (cursor + 1) % CURSOR_MODULUS, true;
        }
      } else {
        gap := false;
      }
      answer := answer.(forwardOk := false, resyncDone := false);
      if e.done {
        answer := RelayAnswer(
          e.failed, e.transferred, answer.overflow, !e.failed && !control.resyncActive, false);
        control := control.(phase := Complete);
      }
    }

    method TickComplete(d: Drive, e: Engine)
      requires Valid() && control.phase == Complete
      modifies `control, `answer
      ensures State() == NextRelay(old(State()), d, e)
    {
      answer := answer.(forwardOk := false, resyncDone := control.resyncActive);
      if control.resyncActive {
        control := RelayControl(Ready, control.request, false, false);
      } else if d.ack {
        control := RelayControl(Ready, control.request, false, false);
      }
    }

    method Tick(d: Drive, e: Engine)
      requires Valid()
      modifies this, buffer
      ensures State() == NextRelay(old(State()), d, e)
    {
      match control.phase {
        case Ready => TickReady(d, e);
        case Collecting => Collect(d, e);
        case Issuing => TickIssuing(d, e);
        case Waiting => TickWaiting(d, e);
        case Complete => TickComplete(d, e);
      }
    }
  }

  class HIDClassRequestHandler {
    var phase: HandlerPhase
    var setupPending: bool
    var packetOk: bool
    var outCursor: OutCursor
    var timer: Timer

    constructor ()
      ensures State() == Handler(Idle, false, false, 0, 0)
    {
      phase, setupPending, packetOk, outCursor, timer := Idle, false, false, 0, 0;
    }

    function State(): Handler
      reads this
    {
      Handler(phase, setupPending, packetOk, outCursor, timer)
    }

    method Restart()
      modifies `outCursor, `timer
      ensures outCursor == 0 && timer == 0
    {
      outCursor, timer := 0, 0;
    }

    /** Start handling the latched SETUP. */
    method Begin(q: Request, v: View) returns (offer: bool)
      modifies `phase, `setupPending, `packetOk
      ensures offer == v.ready && !setupPending && !packetOk
      ensures phase == Dispatched(q, v)
    {
      setupPending, packetOk, offer := false, false, v.ready;
      if v.ready {
        phase := if q.isIn || q.length == 0 then Awaiting else CaptureOut;
      } else if q.request == SET_IDLE || q.request == SET_PROTOCOL {
        phase := WaitRelay;
      } else {
        phase := Stall;
      }
    }

    /** A new SETUP overrides wherever the state was going. */
    method Abandon(q: Request, bus: Bus) returns (abort: bool)
      modifies `setupPending, `phase
      ensures abort == bus.received
      ensures setupPending == if bus.received then IsClass(q) else old(setupPending)
      ensures phase == if bus.received then Drain else old(phase)
    {
      abort := bus.received;
      if bus.received {
        setupPending, phase := IsClass(q), Drain;
      }
    }

    method TickIdle(q: Request, bus: Bus, v: View) returns (d: Drive)
      requires phase == Idle
      modifies this
      ensures d == Driven(old(State()), q, bus, v)
      ensures State() == NextHandler(old(State()), q, bus, v)
    {
      var offer := false;
      Restart();
      if bus.received && IsClass(q) {
        offer := Begin(q, v);
      }
      d := Drive(offer, q, None, false, false);
    }

    /** A byte exists only on the cycle it is shown, and only packets that started here count. */
    method TakeByte(bus: Bus) returns (outByte: Option<U8>)
      requires phase == CaptureOut
      modifies `outCursor
      ensures outByte == if ForwardsByte(old(State()), bus) then bus.rxByte else None
      ensures outCursor == NextOutCursor(old(State()), bus)
    {
      outByte := None;
      if (packetOk || bus.packetStart) && bus.rxByte.Some? {
        outByte, outCursor := bus.rxByte, Moved(outCursor);
      }
    }

    /** ACK each packet, but leave only once all wLength bytes are in. */
    method EndPacket(q: Request, bus: Bus, captured: OutCursor) returns (done: bool)
      requires phase == CaptureOut
      modifies `packetOk, `timer
      ensures done == (bus.rxReady && old(packetOk) && captured >= q.length)
      ensures packetOk == (!bus.rxReady && (old(packetOk) || bus.packetStart))
      ensures timer == if done then 0 else Tock(old(timer))
    {
      timer, done := Tock(timer), false;
      if bus.rxReady {
        if packetOk && captured >= q.length {
          timer, done := 0, true;
        }
        packetOk := false;
      } else {
        packetOk := packetOk || bus.packetStart;
      }
    }

    method TickCaptureOut(q: Request, bus: Bus, v: View) returns (d: Drive)
      requires phase == CaptureOut
      modifies this
      ensures d == Driven(old(State()), q, bus, v)
      ensures State() == NextHandler(old(State()), q, bus, v)
    {
      ghost var h := State();
      var late, captured := timer == TIMEOUT_CYCLES, outCursor;
      var outByte := TakeByte(bus);
      var done := EndPacket(q, bus, captured);
      if late {
        phase := Drain;
      } else if done {
        phase := Awaiting;
      }
      var abort := Abandon(q, bus);
      d := Drive(false, q, outByte, abort || late, false);
      CaptureOutStep(h, q, bus, v);
    }

    method TickWaitRelay(q: Request, bus: Bus, v: View) returns (d: Drive)
      requires phase == WaitRelay
      modifies this
      ensures d == Driven(old(State()), q, bus, v)
      ensures State() == NextHandler(old(State()), q, bus, v)
    {
      if !bus.received {
        if v.ready {
          phase := if q.isIn || q.length == 0 then Awaiting else CaptureOut;
        } else if timer == TIMEOUT_CYCLES {
          phase := Stall;
        }
      }
      timer := Tock(timer);
      var abort := Abandon(q, bus);
      d := Drive(!bus.received, q, None, abort, false);
    }

    method TickAwaiting(q: Request, bus: Bus, v: View) returns (d: Drive)
      requires phase == Awaiting
      modifies this
      ensures d == Driven(old(State()), q, bus, v)
      ensures State() == NextHandler(old(State()), q, bus, v)
    {
      var ack := false;
      if v.valid && !v.error {
        phase := Respond;
      } else if v.valid {
        ack, phase := true, Stall;
      } else if timer == TIMEOUT_CYCLES {
        phase := Drain;
      }
      timer := Tock(timer);
      var abort := Abandon(q, bus);
      d := Drive(false, q, None, abort, ack);
    }

    method TickRespond(q: Request, bus: Bus, v: View) returns (d: Drive)
      requires phase == Respond
      modifies this
      ensures d == Driven(old(State()), q, bus, v)
      ensures State() == NextHandler(old(State()), q, bus, v)
    {
      var ack := false;
      if bus.statusRequested {
        ack, phase := true, Idle;
      }
      var abort := Abandon(q, bus);
      d := Drive(false, q, None, abort, ack);
    }

    method TickDrain(q: Request, bus: Bus, v: View) returns (d: Drive)
      requires phase == Drain
      modifies this
      ensures d == Driven(old(State()), q, bus, v)
      ensures State() == NextHandler(old(State()), q, bus, v)
    {
      if v.valid || !v.pending {
        phase := if setupPending || (bus.received && IsClass(q)) then Dispatch else Idle;
      }
      if bus.received {
        setupPending := IsClass(q);
      }
      d := Drive(false, q, None, false, v.valid);
    }

    method TickDispatch(q: Request, bus: Bus, v: View) returns (d: Drive)
      requires phase == Dispatch
      modifies this
      ensures d == Driven(old(State()), q, bus, v)
      ensures State() == NextHandler(old(State()), q, bus, v)
    {
      var offer := false;
      Restart();
      if !bus.received {
        if IsClass(q) {
          offer := Begin(q, v);
        } else {
          phase := Idle;
        }
      }
      var abort := Abandon(q, bus);
      d := Drive(offer, q, None, abort, false);
    }

    method TickStall(q: Request, bus: Bus, v: View) returns (d: Drive)
      requires phase == Stall
      modifies this
      ensures d == Driven(old(State()), q, bus, v)
      ensures State() == NextHandler(old(State()), q, bus, v)
    {
      if bus.dataRequested || bus.statusRequested || bus.rxReady {
        phase := Idle;
      }
      var abort := Abandon(q, bus);
      d := Drive(false, q, None, abort, false);
    }

    method Tick(q: Request, bus: Bus, v: View) returns (d: Drive)
      modifies this
      ensures d == Driven(old(State()), q, bus, v)
      ensures State() == NextHandler(old(State()), q, bus, v)
    {
      match phase {
        case Idle => d := TickIdle(q, bus, v);
        case CaptureOut => d := TickCaptureOut(q, bus, v);
        case WaitRelay => d := TickWaitRelay(q, bus, v);
        case Awaiting => d := TickAwaiting(q, bus, v);
        case Respond => d := TickRespond(q, bus, v);
        case Drain => d := TickDrain(q, bus, v);
        case Dispatch => d := TickDispatch(q, bus, v);
        case Stall => d := TickStall(q, bus, v);
      }
    }
  }
}
