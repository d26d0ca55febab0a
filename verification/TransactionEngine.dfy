/** One USB transaction at a time: token, data, response, acknowledgement (section 8.5 of USB 2.0). */
module TransactionEngine {
  type U8 = x: int | 0 <= x < 0x100

  datatype Option<T> = None | Some(value: T)

  const MEMORY_BYTES: nat := 64

  // The 60 MHz timings: a 1 ms response window, and the same plus a longest packet's wire time.
  const RESPONSE_CYCLES: nat := 60_000
  const DEADLINE_CYCLES: nat := 63_192
  const FULL_SPEED_GAP: nat := 200
  const HIGH_SPEED_GAP: nat := 12

  datatype Status = Success | Nak | Stall | Timeout | CrcError | Overflow | Disconnected

  datatype Token = Sof | In | Out | Setup

  datatype Pid = Data0 | Data1 | Other

  datatype Phase =
    | Idle | TokenStart | TokenSend | DataGap | SendData | AwaitResponse | AckGap | SendAck | AckDrain | SofDrain

  datatype Job = Job(token: Token, toggle: bool, length: nat)

  datatype Tx = Tx(index: nat, complete: bool, started: bool)

  datatype Rx = Rx(count: nat, overflow: bool, duplicate: bool, started: bool, quiet: nat, deadline: nat)

  datatype Report = Report(done: bool, status: Status, length: nat, duplicate: bool, toggle: bool)

  datatype Engine = Engine(phase: Phase, job: Job, tx: Tx, rx: Rx, gap: nat, report: Report, memory: seq<U8>)

  /**
   * What the engine sees on one clock: the request, the packet generators' and detectors' strobes and
   * the speed. byte is a received payload byte with its packet's identifier.
   */
  datatype Wire = Wire(
    start: Option<Job>, connected: bool, highSpeed: bool, tokenDone: bool, dataReady: bool, dataValid: bool,
    nak: bool, stall: bool, ack: bool, crcBad: bool, complete: Option<Pid>, byte: Option<(Pid, U8)>,
    rxActive: bool, turnaround: bool, ackValid: bool)

  /** A SETUP's data packet is always DATA0. */
  function Latched(j: Job): Job { Job(j.token, if j.token == Setup then false else j.toggle, j.length) }

  function Expected(j: Job): Pid { if j.toggle then Data1 else Data0 }

  function GapCycles(w: Wire): nat { if w.highSpeed then HIGH_SPEED_GAP else FULL_SPEED_GAP }

  /** A payload byte goes out this clock. */
  predicate Sends(e: Engine, w: Wire) {
    e.phase == SendData && w.connected && e.job.length != 0 && !e.tx.complete && w.dataReady
  }

  predicate LastByte(e: Engine) { e.tx.index == e.job.length - 1 }

  /** What ends the wait for a response before any timer does. */
  function Answer(e: Engine, w: Wire): Option<Status> {
    if w.nak then Some(Nak)
    else if w.stall then Some(Stall)
    else if w.ack && e.job.token != In then Some(Success)
    else if e.job.token != In then None
    else if w.crcBad then Some(CrcError)
    else if w.complete.None? then None
    else if e.rx.overflow then Some(Overflow)
    else if w.complete.value == Other then Some(CrcError)
    else None
  }

  /** A good data packet has arrived. */
  predicate Arrives(e: Engine, w: Wire) {
    e.phase == AwaitResponse && w.connected && Answer(e, w).None? && e.job.token == In && w.complete.Some?
  }

  /** The wait goes on for another clock, unless the quiet timer ends it. */
  predicate Listens(e: Engine, w: Wire) {
    e.phase == AwaitResponse && w.connected && Answer(e, w).None? && !Arrives(e, w) &&
    e.rx.deadline != DEADLINE_CYCLES - 1
  }

  predicate QuietTimeout(e: Engine, w: Wire) {
    !w.rxActive && !e.rx.started && e.rx.quiet == RESPONSE_CYCLES - 1
  }

  predicate Drained(e: Engine, w: Wire) { e.gap >= GapCycles(w) - 1 }

  /** The status this clock ends the transaction with. */
  function Ends(e: Engine, w: Wire): Option<Status> {
    if e.phase == Idle then None
    else if !w.connected then Some(Disconnected)
    else
      match e.phase
      case AwaitResponse =>
        if Answer(e, w).Some? then Answer(e, w)
        else if Arrives(e, w) || (Listens(e, w) && !QuietTimeout(e, w)) then None
        else Some(Timeout)
      case AckDrain => if Drained(e, w) then Some(Success) else None
      case SofDrain => if Drained(e, w) then Some(Success) else None
      case _ => None
  }

  predicate Begins(e: Engine, w: Wire) { e.phase == Idle && w.start.Some? && w.connected }

  function NextPhase(e: Engine, w: Wire): Phase {
    if Ends(e, w).Some? then Idle
    else
      match e.phase
      case Idle => if Begins(e, w) then TokenStart else Idle
      case TokenStart => TokenSend
      case TokenSend =>
        if !w.tokenDone then TokenSend
        else if e.job.token == Sof then SofDrain
        else if e.job.token == In then AwaitResponse else DataGap
      case DataGap => if Drained(e, w) then SendData else DataGap
      case SendData => if e.tx.started && !w.dataValid then AwaitResponse else SendData
      case AwaitResponse => if Arrives(e, w) then AckGap else AwaitResponse
      case AckGap => if w.turnaround then SendAck else AckGap
      case SendAck => if e.tx.started && !w.ackValid then AckDrain else SendAck
      case AckDrain => AckDrain
      case SofDrain => SofDrain
  }

  /** started is data_started or ack_started, whichever state is sending. */
  function NextTx(e: Engine, w: Wire): Tx {
    var t := e.tx;
    if Begins(e, w) then Tx(0, false, t.started)
    else if !w.connected then t
    else
      match e.phase
      case DataGap => Tx(t.index, t.complete, if Drained(e, w) then false else t.started)
      case SendData =>
        Tx(if Sends(e, w) && !LastByte(e) then t.index + 1 else t.index,
           t.complete || (Sends(e, w) && LastByte(e)), t.started || w.dataValid)
      case AckGap => Tx(t.index, t.complete, if w.turnaround then false else t.started)
      case SendAck => Tx(t.index, t.complete, t.started || w.ackValid)
      case _ => t
  }

  predicate Stores(e: Engine, w: Wire) {
    Listens(e, w) && e.job.token == In && w.byte.Some? && e.rx.count < MEMORY_BYTES
  }

  function NextRx(e: Engine, w: Wire): Rx {
    var r := e.rx;
    if Begins(e, w) then Rx(0, false, false, false, r.quiet, r.deadline)
    else if !w.connected then r
    else if (e.phase == TokenSend && w.tokenDone) || (e.phase == SendData && NextPhase(e, w) == AwaitResponse)
    then Rx(r.count, r.overflow, r.duplicate, false, 0, 0)
    else if Arrives(e, w) then
      Rx(r.count, r.overflow, w.complete.value != Expected(e.job), r.started, r.quiet, r.deadline)
    else if Listens(e, w) then
      var heard := e.job.token == In && w.byte.Some?;
      Rx(if Stores(e, w) then r.count + 1 else r.count, r.overflow || (heard && !Stores(e, w)), r.duplicate,
         w.rxActive,
         if w.rxActive || r.started then 0 else if QuietTimeout(e, w) then r.quiet else r.quiet + 1,
         r.deadline + 1)
    else r
  }

  function NextGap(e: Engine, w: Wire): nat {
    if !w.connected then e.gap
    else if e.phase == TokenSend && w.tokenDone && e.job.token != In then 0
    else if e.phase == SendAck && NextPhase(e, w) == AckDrain then 0
    else if (e.phase == DataGap || e.phase == AckDrain || e.phase == SofDrain) && !Drained(e, w) then e.gap + 1
    else e.gap
  }

  function NextReport(e: Engine, w: Wire): Report {
    var r := e.report;
    if e.phase == Idle && w.start.Some? then
      if w.connected then Report(false, r.status, 0, false, r.toggle)
      else Report(true, Disconnected, 0, false, r.toggle)
    else if Ends(e, w).Some? then
      var acked := w.connected && e.phase == AckDrain;
      var kept := w.connected && e.phase != AwaitResponse;
      Report(true, Ends(e, w).value, if kept then r.length else 0, acked && e.rx.duplicate, r.toggle)
    else if w.connected && e.phase == TokenSend && w.tokenDone && e.job.token == Sof then
      Report(false, r.status, 0, false, r.toggle)
    else if Arrives(e, w) then Report(false, r.status, r.length, false, w.complete.value == Data1)
    else if e.phase == SendAck && NextPhase(e, w) == AckDrain then
      Report(false, r.status, if e.rx.duplicate then 0 else e.rx.count, false, r.toggle)
    else Report(false, r.status, r.length, false, r.toggle)
  }

  /** Only a packet with the expected identifier is written. */
  function NextMemory(e: Engine, w: Wire): seq<U8> {
    if Stores(e, w) && w.byte.value.0 == Expected(e.job) && e.rx.count < |e.memory|
    then e.memory[e.rx.count := w.byte.value.1] else e.memory
  }

  function Next(e: Engine, w: Wire): Engine {
    Engine(NextPhase(e, w), if Begins(e, w) then Latched(w.start.value) else e.job, NextTx(e, w), NextRx(e, w),
           NextGap(e, w), NextReport(e, w), NextMemory(e, w))
  }

  class USBHostTransactionEngine {
    var phase: Phase
    var job: Job
    var tx: Tx
    var rx: Rx
    var gap: nat
    var report: Report
    const memory: array<U8>

    constructor ()
      ensures Valid() && State().phase == Idle && fresh(memory) && !report.done
    {
      phase, job, tx := Idle, Job(Sof, false, 0), Tx(0, false, false);
      rx, gap, report := Rx(0, false, false, false, 0, 0), 0, Report(false, Success, 0, false, false);
      memory := new U8[MEMORY_BYTES](_ => 0);
    }

    ghost predicate Valid() { memory.Length == MEMORY_BYTES }

    function State(): Engine
      reads this, memory
    {
      Engine(phase, job, tx, rx, gap, report, memory[..])
    }

    method Finish(status: Status, length: nat, duplicate: bool)
      modifies `phase, `report
      ensures phase == Idle && report == Report(true, status, length, duplicate, old(report.toggle))
    {
      phase, report := Idle, Report(true, status, length, duplicate, report.toggle);
    }

    method TickIdle(w: Wire)
      requires phase == Idle
      modifies `phase, `job, `tx, `rx, `report
      ensures State() == Next(old(State()), w)
    {
      report := Report(false, report.status, report.length, false, report.toggle);
      if w.start.Some? {
        if !w.connected {
          report := Report(true, Disconnected, 0, false, report.toggle);
        } else {
          phase, job, tx := TokenStart, Latched(w.start.value), Tx(0, false, tx.started);
          rx := Rx(0, false, false, false, rx.quiet, rx.deadline);
          report := Report(false, report.status, 0, false, report.toggle);
        }
      }
    }

    method TickToken(w: Wire)
      requires w.connected && (phase == TokenStart || phase == TokenSend)
      modifies `phase, `rx, `gap, `report
      ensures State() == Next(old(State()), w)
    {
      report := Report(false, report.status, report.length, false, report.toggle);
      if phase == TokenStart {
        phase := TokenSend;
      } else if w.tokenDone {
        rx := Rx(rx.count, rx.overflow, rx.duplicate, false, 0, 0);
        if job.token == Sof {
          phase, gap, report := SofDrain, 0, Report(false, report.status, 0, false, report.toggle);
        } else if job.token == In {
          phase := AwaitResponse;
        } else {
          phase, gap := DataGap, 0;
        }
      }
    }

    method TickData(w: Wire)
      requires w.connected && (phase == DataGap || phase == SendData)
      modifies `phase, `tx, `rx, `gap, `report
      ensures State() == Next(old(State()), w)
    {
      report := Report(false, report.status, report.length, false, report.toggle);
      if phase == DataGap {
        if gap >= GapCycles(w) - 1 {
          phase, tx := SendData, Tx(tx.index, tx.complete, false);
        } else {
          gap := gap + 1;
        }
      } else {
        var started := tx.started;
        var index, complete := tx.index, tx.complete;
        if !complete && w.dataReady && job.length != 0 {
          if index == job.length - 1 {
            complete := true;
          } else {
            index := index + 1;
          }
        }
        tx := Tx(index, complete, started || w.dataValid);
        if started && !w.dataValid {
          phase, rx := AwaitResponse, Rx(rx.count, rx.overflow, rx.duplicate, false, 0, 0);
        }
      }
    }

    /** WAIT_RESPONSE on a clock that brings no answer and is not the last: bytes and timers. */
    method Listen(w: Wire)
      requires Valid() && phase == AwaitResponse && w.connected && Listens(State(), w)
      modifies `phase, `rx, `report, memory
      ensures State() == Next(old(State()), w)
    {
      var count, overflow := rx.count, rx.overflow;
      if job.token == In && w.byte.Some? {
        if count < MEMORY_BYTES {
          if w.byte.value.0 == Expected(job) {
            memory[count] := w.byte.value.1;
          }
          count := count + 1;
        } else {
          overflow := true;
        }
      }
      report := Report(false, report.status, report.length, false, report.toggle);
      if w.rxActive || rx.started {
        rx := Rx(count, overflow, rx.duplicate, w.rxActive, 0, rx.deadline + 1);
      } else if rx.quiet == RESPONSE_CYCLES - 1 {
        rx := Rx(count, overflow, rx.duplicate, false, rx.quiet, rx.deadline + 1);
        Finish(Timeout, 0, false);
      } else {
        rx := Rx(count, overflow, rx.duplicate, false, rx.quiet + 1, rx.deadline + 1);
      }
    }

    method TickResponse(w: Wire)
      requires Valid() && w.connected && phase == AwaitResponse
      modifies `phase, `rx, `report, memory
      ensures State() == Next(old(State()), w)
    {
      var answer := Answer(State(), w);
      if answer.Some? {
        Finish(answer.value, 0, false);
      } else if job.token == In && w.complete.Some? {
        var pid := w.complete.value;
        rx := Rx(rx.count, rx.overflow, pid != Expected(job), rx.started, rx.quiet, rx.deadline);
        phase, report := AckGap, Report(false, report.status, report.length, false, pid == Data1);
      } else if rx.deadline == DEADLINE_CYCLES - 1 {
        Finish(Timeout, 0, false);
      } else {
        Listen(w);
      }
    }

    method TickAck(w: Wire)
      requires w.connected && (phase == AckGap || phase == SendAck)
      modifies `phase, `tx, `gap, `report
      ensures State() == Next(old(State()), w)
    {
      report := Report(false, report.status, report.length, false, report.toggle);
      if phase == AckGap {
        if w.turnaround {
          phase, tx := SendAck, Tx(tx.index, tx.complete, false);
        }
      } else {
        var started := tx.started;
        tx := Tx(tx.index, tx.complete, started || w.ackValid);
        if started && !w.ackValid {
          var length := if rx.duplicate then 0 else rx.count;
          phase, gap, report := AckDrain, 0, Report(false, report.status, length, false, report.toggle);
        }
      }
    }

    method TickDrain(w: Wire)
      requires w.connected && (phase == AckDrain || phase == SofDrain)
      modifies `phase, `gap, `report
      ensures State() == Next(old(State()), w)
    {
      if gap >= GapCycles(w) - 1 {
        Finish(Success, report.length, phase == AckDrain && rx.duplicate);
      } else {
        gap, report := gap + 1, Report(false, report.status, report.length, false, report.toggle);
      }
    }

    /** One clock. */
    method Tick(w: Wire)
      requires Valid()
      modifies this, memory
      ensures State() == Next(old(State()), w)
    {
      if phase == Idle {
        TickIdle(w);
      } else if !w.connected {
        Finish(Disconnected, 0, false);
      } else {
        match phase
        case AwaitResponse => TickResponse(w);
        case DataGap => TickData(w);
        case SendData => TickData(w);
        case AckGap => TickAck(w);
        case SendAck => TickAck(w);
        case AckDrain => TickDrain(w);
        case SofDrain => TickDrain(w);
        case TokenStart => TickToken(w);
        case TokenSend => TickToken(w);
      }
    }
  }
}
