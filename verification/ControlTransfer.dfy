/** Control transfers on endpoint zero: SETUP, data and status stages over one packet transaction at a time. */
module ControlTransfer {
  type U8 = x: int | 0 <= x < 0x100

  datatype Option<T> = None | Some(value: T)

  /** control_nak_timeout_cycles: half a second at 60 MHz. */
  const NAK_LIMIT: nat := 30_000_000
  const MAX_PACKET: nat := 64

  datatype Status = Success | Nak | Stall | Timeout | CrcError | Overflow | Disconnected

  datatype Stage = Setup | Read | Write | Closing

  datatype Phase = Idle | Issue(stage: Stage) | Wait(stage: Stage) | Stream

  datatype Order = Order(requestType: U8, request: U8, value: nat, index: nat, length: nat, maxPacket: nat)

  /** The widths of the latched fields, and a packet size the enumerator accepts. */
  predicate Sound(o: Order) {
    o.value < 0x1_0000 && o.index < 0x1_0000 && o.length < 0x1_0000 && 1 <= o.maxPacket <= MAX_PACKET
  }

  predicate IsIn(o: Order) { o.requestType >= 0x80 }

  predicate Reads(o: Order) { o.length != 0 && IsIn(o) }

  predicate Writes(o: Order) { o.length != 0 && !IsIn(o) }

  predicate SetsAddress(o: Order) { o.requestType == 0 && o.request == 5 && o.value < 128 }

  /** The eight bytes of the SETUP packet, section 9.3 of USB 2.0. */
  function SetupBytes(o: Order): seq<U8> {
    [o.requestType, o.request, o.value % 0x100, o.value / 0x100 % 0x100, o.index % 0x100,
     o.index / 0x100 % 0x100, o.length % 0x100, o.length / 0x100 % 0x100]
  }

  // ---- The engine ---------------------------------------------------------------------------

  datatype Progress = Progress(toggle: bool, offset: nat, packetLength: nat, streamIndex: nat, final: bool)

  datatype NakTimer = NakTimer(active: bool, count: nat)

  datatype Report = Report(done: bool, status: Status, transferred: nat, setAddress: bool)

  datatype Control = Control(phase: Phase, order: Order, data: Progress, nak: NakTimer, report: Report)

  /** What the transaction engine reports with its done pulse. */
  datatype Result = Result(status: Status, length: nat, duplicate: bool)

  datatype Input = Input(
    start: Option<Order>, connected: bool, ready: bool, result: Option<Result>, dataReady: bool)

  /** A 16-bit subtraction. */
  function Remaining(c: Control): nat {
    if c.data.offset <= c.order.length then c.order.length - c.data.offset
    else (c.order.length - c.data.offset) % 0x1_0000
  }

  function WriteLength(c: Control): nat {
    if Remaining(c) > c.order.maxPacket then c.order.maxPacket else Remaining(c)
  }

  /** What a result means to the stage waiting for it. */
  datatype Meaning = Again | Fresh | Fails(status: Status)

  function MeaningOf(c: Control, stage: Stage, r: Result): Meaning {
    if r.status == Nak then Again
    else if r.status != Success then Fails(r.status)
    else if stage == Read then
      if r.duplicate then Again
      else if r.length > Remaining(c) || r.length > c.order.maxPacket then Fails(Overflow)
      else Fresh
    else if stage == Closing && !Reads(c.order) then
      if r.duplicate then Again else if r.length != 0 then Fails(Overflow) else Fresh
    else Fresh
  }

  predicate Timed(c: Control) { c.phase.Issue? || c.phase.Wait? }

  predicate NakTimeout(c: Control) { Timed(c) && c.nak.active && c.nak.count >= NAK_LIMIT - 1 }

  /** The answer the waiting stage acts on this clock. */
  function Heard(c: Control, i: Input): Option<Meaning> {
    if c.phase.Wait? && i.result.Some? && i.connected && !NakTimeout(c)
    then Some(MeaningOf(c, c.phase.stage, i.result.value)) else None
  }

  /** The failure this clock ends the transfer with. */
  function Ends(c: Control, i: Input): Option<Status> {
    if c.phase.Idle? then None
    else if !i.connected then Some(Disconnected)
    else if NakTimeout(c) then Some(Timeout)
    else if Heard(c, i).Some? && Heard(c, i).value.Fails? then Some(Heard(c, i).value.status)
    else None
  }

  predicate Begins(c: Control, i: Input) { c.phase.Idle? && i.start.Some? && i.connected }

  predicate Hears(c: Control, i: Input, stage: Stage) {
    c.phase == Wait(stage) && Heard(c, i) == Some(Fresh)
  }

  predicate Streams(c: Control, i: Input) { c.phase.Stream? && i.connected && i.dataReady }

  predicate LastByte(c: Control) { c.data.streamIndex == c.data.packetLength - 1 }

  /** The stage after a fresh answer. */
  function Following(c: Control, stage: Stage, r: Result): Phase {
    match stage
    case Setup => Issue(if c.order.length == 0 then Closing else if IsIn(c.order) then Read else Write)
    case Read => if r.length == 0 then Issue(Closing) else Stream
    case Write => Issue(if WriteLength(c) == Remaining(c) then Closing else Write)
    case Closing => Idle
  }

  function NextPhase(c: Control, i: Input): Phase {
    if Ends(c, i).Some? then Idle
    else
      match c.phase
      case Idle => if Begins(c, i) then Issue(Setup) else Idle
      case Issue(s) => if i.ready then Wait(s) else Issue(s)
      case Wait(s) =>
        if Heard(c, i).None? then Wait(s)
        else if Heard(c, i).value == Fresh then Following(c, s, i.result.value)
        else Issue(s)
      case Stream =>
        if Streams(c, i) && LastByte(c) then Issue(if c.data.final then Closing else Read) else Stream
  }

  function NextProgress(c: Control, i: Input): Progress {
    var d := c.data;
    if Begins(c, i) then Progress(true, 0, d.packetLength, d.streamIndex, d.final)
    else if Hears(c, i, Read) then
      var n := i.result.value.length;
      if n == 0 then Progress(!d.toggle, d.offset, d.packetLength, d.streamIndex, d.final)
      else Progress(!d.toggle, d.offset, n, 0, n < c.order.maxPacket || n == Remaining(c))
    else if Hears(c, i, Write) then
      Progress(!d.toggle, d.offset + WriteLength(c), d.packetLength, d.streamIndex, d.final)
    else if Streams(c, i) then
      if LastByte(c) then Progress(d.toggle, d.offset + d.packetLength, d.packetLength, d.streamIndex, d.final)
      else Progress(d.toggle, d.offset, d.packetLength, d.streamIndex + 1, d.final)
    else d
  }

  function NextNak(c: Control, i: Input): NakTimer {
    var n := c.nak;
    var count := if Timed(c) && n.active && !NakTimeout(c) then n.count + 1 else n.count;
    if Begins(c, i) || (Heard(c, i) == Some(Fresh) && c.phase.stage != Closing) then NakTimer(false, 0)
    else if Heard(c, i) == Some(Again) && i.result.value.status == Nak then NakTimer(true, count)
    else NakTimer(n.active, count)
  }

  function NextReport(c: Control, i: Input): Report {
    var p := c.report;
    if c.phase.Idle? && i.start.Some? then
      if i.connected then Report(false, p.status, 0, false) else Report(true, Disconnected, 0, false)
    else if Ends(c, i).Some? then Report(true, Ends(c, i).value, p.transferred, false)
    else if Hears(c, i, Closing) then Report(true, Success, p.transferred, SetsAddress(c.order))
    else if Hears(c, i, Write) then
      Report(false, p.status, c.data.offset + WriteLength(c), false)
    else if Streams(c, i) && LastByte(c) then
      Report(false, p.status, c.data.offset + c.data.packetLength, false)
    else Report(false, p.status, p.transferred, false)
  }

  function NextControl(c: Control, i: Input): Control {
    Control(NextPhase(c, i), if Begins(c, i) then i.start.value else c.order, NextProgress(c, i),
            NextNak(c, i), NextReport(c, i))
  }

  class USBControlTransferEngine {
    var phase: Phase
    var order: Order
    var data: Progress
    var nak: NakTimer
    var report: Report

    constructor ()
      ensures State() == Control(Idle, Order(0, 0, 0, 0, 0, 1), Progress(false, 0, 0, 0, false),
                                 NakTimer(false, 0), Report(false, Success, 0, false))
    {
      phase, order := Idle, Order(0, 0, 0, 0, 0, 1);
      data, nak := Progress(false, 0, 0, 0, false), NakTimer(false, 0);
      report := Report(false, Success, 0, false);
    }

    function State(): Control
      reads this
    {
      Control(phase, order, data, nak, report)
    }

    method Finish(status: Status)
      modifies `phase, `report
      ensures phase == Idle && report == Report(true, status, old(report.transferred), false)
    {
      phase, report := Idle, Report(true, status, report.transferred, false);
    }

    /** A stage's own transaction has answered. */
    method Answered(stage: Stage, r: Result)
      requires phase == Wait(stage) && !NakTimeout(State())
      modifies this
      ensures State() == NextControl(old(State()), Input(None, true, false, Some(r), false))
    {
      var meaning := MeaningOf(State(), stage, r);
      report := Report(false, report.status, report.transferred, false);
      if nak.active {
        nak := NakTimer(true, nak.count + 1);
      }
      match meaning
      case Fails(status) =>
        Finish(status);
      case Again =>
        if r.status == Nak {
          nak := NakTimer(true, nak.count);
        }
        phase := Issue(stage);
      case Fresh =>
        phase := Following(State(), stage, r);
        match stage {
          case Setup =>
            nak := NakTimer(false, 0);
          case Read =>
            nak := NakTimer(false, 0);
            data := Progress(!data.toggle, data.offset, data.packetLength, data.streamIndex, data.final);
            if r.length != 0 {
              data := Progress(data.toggle, data.offset, r.length, 0,
                               r.length < order.maxPacket || r.length == Remaining(State()));
            }
          case Write =>
            nak := NakTimer(false, 0);
            var sent := data.offset + WriteLength(State());
            data := Progress(!data.toggle, sent, data.packetLength, data.streamIndex, data.final);
            report := Report(false, report.status, sent, false);
          case Closing =>
            report := Report(true, Success, report.transferred, SetsAddress(order));
        }
    }

    method Accept(i: Input)
      requires phase.Idle?
      modifies this
      ensures State() == NextControl(old(State()), i)
    {
      report := Report(false, report.status, report.transferred, false);
      if i.start.Some? {
        if !i.connected {
          report := Report(true, Disconnected, 0, false);
        } else {
          phase, order := Issue(Setup), i.start.value;
          data := Progress(true, 0, data.packetLength, data.streamIndex, data.final);
          nak, report := NakTimer(false, 0), Report(false, report.status, 0, false);
        }
      }
    }

    method HandOn(i: Input)
      requires phase.Stream?
      modifies this
      ensures State() == NextControl(old(State()), i)
    {
      report := Report(false, report.status, report.transferred, false);
      if !i.connected {
        Finish(Disconnected);
      } else if i.dataReady {
        if data.streamIndex == data.packetLength - 1 {
          var total := data.offset + data.packetLength;
          data := Progress(data.toggle, total, data.packetLength, data.streamIndex, data.final);
          report := Report(false, report.status, total, false);
          phase := Issue(if data.final then Closing else Read);
        } else {
          data := Progress(data.toggle, data.offset, data.packetLength, data.streamIndex + 1, data.final);
        }
      }
    }

    /** One clock. */
    method Tick(i: Input)
      modifies this
      ensures State() == NextControl(old(State()), i)
    {
      match phase
      case Idle => Accept(i);
      case Stream => HandOn(i);
      case Issue(s) =>
        var late := NakTimeout(State());
        report := Report(false, report.status, report.transferred, false);
        if nak.active && !late {
          nak := NakTimer(true, nak.count + 1);
        }
        if !i.connected {
          Finish(Disconnected);
        } else if late {
          Finish(Timeout);
        } else if i.ready {
          phase := Wait(s);
        }
      case Wait(s) =>
        var late := NakTimeout(State());
        if i.connected && !late && i.result.Some? {
          Answered(s, i.result.value);
        } else {
          report := Report(false, report.status, report.transferred, false);
          if nak.active && !late {
            nak := NakTimer(true, nak.count + 1);
          }
          if !i.connected {
            Finish(Disconnected);
          } else if late {
            Finish(Timeout);
          }
        }
    }
  }

  // ---- The link and the device --------------------------------------------------------------

  /**
   * The target's side of the current transfer. packets is what it answers IN tokens with, sent the
   * packets whose ACK it has seen, got the OUT bytes it has taken since the SETUP.
   */
  datatype Device = Device(
    request: seq<U8>, toggle: bool, got: seq<U8>, packets: seq<seq<U8>>, sent: nat)

  datatype Job = Job(stage: Stage, toggle: bool)

  /**
   * payload is what the OUT data stage indexes, buffer the receive buffer, streamed the bytes handed
   * on since the transfer began, taken the packets they come from.
   */
  datatype World = World(
    c: Control, job: Option<Job>, result: Option<Result>, device: Device, payload: seq<U8>,
    buffer: seq<U8>, streamed: seq<U8>, taken: nat)

  datatype Reply = Answers | Naks | Refuses(status: Status)

  /**
   * One clock of everything around the engine. finish ends the transaction in flight; arrives says
   * its data packet gets through, acked that the handshake after it does. packets is what the device
   * will answer a SETUP with; noise is what an abandoned transaction carries; closing is what a
   * status stage reports.
   */
  datatype Event = Event(
    start: Option<Order>, payload: seq<U8>, connected: bool, ready: bool, dataReady: bool,
    finish: bool, reply: Reply, arrives: bool, acked: bool, packets: seq<seq<U8>>, noise: seq<U8>,
    closing: Result)

  predicate Fair(e: Event) {
    (e.start.Some? ==> Sound(e.start.value) && |e.payload| >= e.start.value.length) &&
    (e.reply.Refuses? ==> e.reply.status != Success && e.reply.status != Nak)
  }

  function InputOf(w: World, e: Event): Input {
    Input(e.start, e.connected, e.ready && w.job.None?, w.result, e.dataReady)
  }

  /** The data an OUT or SETUP transaction carries: the engine supplies it live until it lets go. */
  function Carried(w: World, e: Event): seq<U8> {
    var c := w.c;
    if c.phase == Wait(Setup) then SetupBytes(c.order)
    else if c.phase == Wait(Write) && c.data.offset + WriteLength(c) <= |w.payload|
    then w.payload[c.data.offset..c.data.offset + WriteLength(c)]
    else e.noise
  }

  /** What the device is after the transaction in flight. */
  function DeviceAfter(w: World, e: Event): Device
    requires w.job.Some?
  {
    var d := w.device;
    if !e.reply.Answers? || !e.arrives then d
    else
      match w.job.value.stage
      case Setup => Device(Carried(w, e), true, [], e.packets, 0)
      case Write =>
        if d.toggle == w.job.value.toggle
        then Device(d.request, !d.toggle, d.got + Carried(w, e), d.packets, d.sent) else d
      case Read =>
        if d.sent < |d.packets| && |d.packets[d.sent]| <= MAX_PACKET && e.acked
        then Device(d.request, !d.toggle, d.got, d.packets, d.sent + 1) else d
      case Closing => d
  }

  /** What the transaction engine reports for it: a repeated packet has length zero and is marked. */
  function ResultOf(w: World, e: Event): Result
    requires w.job.Some?
  {
    var d := w.device;
    var lost := Result(Timeout, 0, false);
    if e.reply.Naks? then Result(Nak, 0, false)
    else if e.reply.Refuses? then Result(e.reply.status, 0, false)
    else if w.job.value.stage == Closing then e.closing
    else if !e.arrives then lost
    else if w.job.value.stage != Read then if e.acked then Result(Success, 0, false) else lost
    else if d.sent >= |d.packets| then lost
    else if |d.packets[d.sent]| > MAX_PACKET then Result(Overflow, 0, false)
    else if d.toggle != w.job.value.toggle then Result(Success, 0, true)
    else Result(Success, |d.packets[d.sent]|, false)
  }

  /** The receive buffer is written by packets with the expected toggle only. */
  function BufferAfter(w: World, e: Event): seq<U8>
    requires w.job.Some?
  {
    var d := w.device;
    if w.job.value.stage == Read && ResultOf(w, e).status == Success && !ResultOf(w, e).duplicate &&
       d.sent < |d.packets|
    then d.packets[d.sent] else w.buffer
  }

  predicate Launches(w: World, e: Event) {
    w.c.phase.Issue? && Ends(w.c, InputOf(w, e)).None? && InputOf(w, e).ready
  }

  predicate Finishes(w: World, e: Event) { w.job.Some? && e.finish }

  function JobToggle(c: Control, stage: Stage): bool {
    match stage case Setup => false case Closing => true case _ => c.data.toggle
  }

  function StreamedAfter(w: World, i: Input): seq<U8> {
    if Begins(w.c, i) then []
    else if Streams(w.c, i) && w.c.data.streamIndex < |w.buffer|
    then w.streamed + [w.buffer[w.c.data.streamIndex]] else w.streamed
  }

  function Next(w: World, e: Event): World {
    var i := InputOf(w, e);
    var over := Finishes(w, e);
    World(NextControl(w.c, i),
          if Launches(w, e) then Some(Job(w.c.phase.stage, JobToggle(w.c, w.c.phase.stage)))
          else if over then None else w.job,
          if over then Some(ResultOf(w, e)) else None,
          if over then DeviceAfter(w, e) else w.device,
          if Begins(w.c, i) then e.payload else w.payload,
          if over then BufferAfter(w, e) else w.buffer,
          StreamedAfter(w, i),
          if Begins(w.c, i) then 0 else if Hears(w.c, i, Read) then w.taken + 1 else w.taken)
  }

  // ---- The invariant ------------------------------------------------------------------------

  /** The bytes of the first n packets. */
  function Flat(packets: seq<seq<U8>>, n: nat): seq<U8>
    requires n <= |packets|
  {
    if n == 0 then [] else Flat(packets, n - 1) + packets[n - 1]
  }

  /** The first n packets are full: more had to follow each. */
  predicate Full(packets: seq<seq<U8>>, n: nat, size: nat) {
    n <= |packets| && forall k :: 0 <= k < n ==> |packets[k]| == size
  }

  /** n packets make a whole data stage: all but the last full, the last short or the total asked for. */
  predicate Complete(packets: seq<seq<U8>>, n: nat, o: Order) {
    0 < n <= |packets| && Full(packets, n - 1, o.maxPacket) && |Flat(packets, n)| <= o.length &&
    (|packets[n - 1]| < o.maxPacket || |Flat(packets, n)| == o.length)
  }

  /** Toggles agree, or the device has yet to see the ACK of the last packet taken. */
  predicate InStep(d: Device, toggle: bool, taken: nat) {
    taken <= |d.packets| && d.toggle == (if d.sent == taken then toggle else !toggle) &&
    (d.sent == taken || d.sent + 1 == taken)
  }

  /** The data stage's packets taken so far are all full and all handed on, and more is wanted. */
  predicate ReadSoFar(w: World) {
    var c, d := w.c, w.device;
    Reads(c.order) && w.taken <= |d.packets| && Full(d.packets, w.taken, c.order.maxPacket) &&
    w.streamed == Flat(d.packets, w.taken) && c.data.offset == |w.streamed| < c.order.length &&
    c.report.transferred == c.data.offset
  }

  /** A packet heard but not yet acted on. */
  predicate HeardPacket(w: World) {
    var d := w.device;
    w.result.Some? && w.taken < |d.packets| && w.buffer == d.packets[w.taken] && w.result.value.length == |w.buffer| &&
    |w.buffer| <= MAX_PACKET &&
    d.toggle == (if d.sent == w.taken then w.c.data.toggle else !w.c.data.toggle) &&
    (d.sent == w.taken || d.sent == w.taken + 1)
  }

  predicate ReadInv(w: World) {
    ReadSoFar(w) &&
    (if w.c.phase.Wait? && w.result.Some? && w.result.value.status == Success && !w.result.value.duplicate
     then HeardPacket(w) else InStep(w.device, w.c.data.toggle, w.taken))
  }

  predicate StreamInv(w: World) {
    var c, d, p := w.c, w.device, w.c.data;
    Reads(c.order) && 0 < w.taken <= |d.packets| && Full(d.packets, w.taken - 1, c.order.maxPacket) &&
    w.buffer == d.packets[w.taken - 1] && p.packetLength == |w.buffer| && p.streamIndex < |w.buffer| &&
    w.streamed == Flat(d.packets, w.taken - 1) + w.buffer[..p.streamIndex] &&
    p.offset == |Flat(d.packets, w.taken - 1)| && c.report.transferred == p.offset &&
    p.offset + |w.buffer| <= c.order.length && |w.buffer| <= c.order.maxPacket &&
    p.final == (|w.buffer| < c.order.maxPacket || p.offset + |w.buffer| == c.order.length) &&
    InStep(d, p.toggle, w.taken)
  }

  predicate WriteInv(w: World) {
    var c, d, p := w.c, w.device, w.c.data;
    Writes(c.order) && p.offset < c.order.length <= |w.payload| && c.report.transferred == p.offset &&
    (if c.phase.Wait? && w.result.Some? && w.result.value.status == Success
     then d.toggle != p.toggle && d.got == w.payload[..p.offset + WriteLength(c)]
     else if c.phase.Wait? && w.result.Some? && w.result.value.status != Nak then true
     else d.toggle == p.toggle && d.got == w.payload[..p.offset])
  }

  /** What a successful transfer has done, known from the end of its data stage on. */
  predicate Delivered(w: World) {
    var o, d := w.c.order, w.device;
    if Reads(o) then
      Complete(d.packets, w.taken, o) && w.streamed == Flat(d.packets, w.taken) &&
      w.c.report.transferred == |w.streamed|
    else if Writes(o) then
      o.length <= |w.payload| && d.got == w.payload[..o.length] && w.c.report.transferred == o.length
    else w.streamed == [] && d.got == [] && w.c.report.transferred == 0
  }

  predicate SetupInv(w: World) {
    var c, d := w.c, w.device;
    c.data.offset == 0 && c.data.toggle && w.streamed == [] && w.taken == 0 &&
    c.report.transferred == 0 && c.order.length <= |w.payload| &&
    (c.phase.Wait? && w.result.Some? && w.result.value.status == Success ==>
       d.request == SetupBytes(c.order) && d.toggle && d.got == [] && d.sent == 0)
  }

  /** A waiting stage has its own transaction in flight, or its result up this clock. */
  predicate Owned(w: World) {
    match w.c.phase
    case Wait(s) => w.job == (if w.result.Some? then None else Some(Job(s, JobToggle(w.c, s))))
    case Issue(s) => s == Setup || w.job.None?
    case Stream => w.job.None?
    case Idle => true
  }

  predicate StageInv(w: World) {
    match w.c.phase
    case Idle => w.c.report.done && w.c.report.status == Success ==>
                   w.device.request == SetupBytes(w.c.order) && Delivered(w)
    case Stream => w.device.request == SetupBytes(w.c.order) && StreamInv(w)
    case _ =>
      match w.c.phase.stage
      case Setup => SetupInv(w)
      case Read => w.device.request == SetupBytes(w.c.order) && ReadInv(w)
      case Write => w.device.request == SetupBytes(w.c.order) && WriteInv(w)
      case Closing => w.device.request == SetupBytes(w.c.order) && Delivered(w)
  }

  predicate Inv(w: World) {
    Sound(w.c.order) && w.c.nak.count < NAK_LIMIT && (!w.c.phase.Idle? ==> !w.c.report.done) &&
    (w.c.report.setAddress <==>
       w.c.report.done && w.c.report.status == Success && SetsAddress(w.c.order)) &&
    Owned(w) && StageInv(w)
  }

  lemma IdleStep(w: World, e: Event)
    requires Inv(w) && Fair(e) && w.c.phase.Idle?
    ensures Inv(Next(w, e))
  {
  }

  lemma SetupStep(w: World, e: Event)
    requires Inv(w) && Fair(e) && (w.c.phase == Issue(Setup) || w.c.phase == Wait(Setup))
    ensures Inv(Next(w, e))
  {
  }

  lemma AskStep(w: World, e: Event)
    requires Inv(w) && Fair(e) && w.c.phase == Issue(Read)
    ensures Inv(Next(w, e))
  {
  }

  /** The transaction ends, or goes on: the device may move before the engine hears of it. */
  lemma FlightStep(w: World, e: Event)
    requires Inv(w) && Fair(e) && w.c.phase == Wait(Read) && w.result.None?
    ensures Inv(Next(w, e))
  {
  }

  lemma HearFreshStep(w: World, e: Event)
    requires Inv(w) && Fair(e) && Hears(w.c, InputOf(w, e), Read)
    ensures Inv(Next(w, e))
  {
    var d := w.device;
    assert HeardPacket(w);
    assert Flat(d.packets, w.taken + 1) == w.streamed + w.buffer;
    var v := Next(w, e);
    assert v.device == d && v.buffer == w.buffer && v.streamed == w.streamed && v.job.None?;
  }

  lemma HearOtherStep(w: World, e: Event)
    requires Inv(w) && Fair(e) && w.c.phase == Wait(Read) && w.result.Some?
    requires !Hears(w.c, InputOf(w, e), Read)
    ensures Inv(Next(w, e))
  {
    var v := Next(w, e);
    assert v.device == w.device && v.taken == w.taken && v.streamed == w.streamed && v.job.None?;
    assert v.result.None? && v.c.data == w.c.data && v.c.order == w.c.order;
  }

  lemma LastByteStep(w: World, e: Event)
    requires Inv(w) && Fair(e) && w.c.phase.Stream? && LastByte(w.c)
    ensures Inv(Next(w, e))
  {
    var v := Next(w, e);
    assert v.device == w.device && v.buffer == w.buffer && v.job.None?;
    if Streams(w.c, InputOf(w, e)) {
      assert v.streamed == Flat(w.device.packets, w.taken);
    }
  }

  lemma InnerByteStep(w: World, e: Event)
    requires Inv(w) && Fair(e) && w.c.phase.Stream? && !LastByte(w.c)
    ensures Inv(Next(w, e))
  {
    var v := Next(w, e);
    assert v.device == w.device && v.buffer == w.buffer && v.job.None?;
  }

  lemma OutFlightStep(w: World, e: Event)
    requires Inv(w) && Fair(e) && w.result.None? && (w.c.phase == Issue(Write) || w.c.phase == Wait(Write))
    ensures Inv(Next(w, e))
  {
    var n := w.c.data.offset + WriteLength(w.c);
    assert w.payload[..w.c.data.offset] + w.payload[w.c.data.offset..n] == w.payload[..n];
  }

  lemma OutHearStep(w: World, e: Event)
    requires Inv(w) && Fair(e) && w.result.Some? && (w.c.phase == Issue(Write) || w.c.phase == Wait(Write))
    ensures Inv(Next(w, e))
  {
    var v := Next(w, e);
    assert v.device == w.device && v.payload == w.payload;
  }

  lemma ClosingStep(w: World, e: Event)
    requires Inv(w) && Fair(e) && (w.c.phase == Issue(Closing) || w.c.phase == Wait(Closing))
    ensures Inv(Next(w, e))
  {
  }

  lemma NextKeepsInv(w: World, e: Event)
    requires Inv(w) && Fair(e)
    ensures Inv(Next(w, e))
  {
    match w.c.phase
    case Idle => IdleStep(w, e);
    case Stream => if LastByte(w.c) { LastByteStep(w, e); } else { InnerByteStep(w, e); }
    case Issue(s) =>
      match s {
        case Setup => SetupStep(w, e);
        case Read => AskStep(w, e);
        case Write => if w.result.None? { OutFlightStep(w, e); } else { OutHearStep(w, e); }
        case Closing => ClosingStep(w, e);
      }
    case Wait(s) =>
      match s {
        case Setup => SetupStep(w, e);
        case Read =>
          if w.result.None? { FlightStep(w, e); }
          else if Hears(w.c, InputOf(w, e), Read) { HearFreshStep(w, e); }
          else { HearOtherStep(w, e); }
        case Write => if w.result.None? { OutFlightStep(w, e); } else { OutHearStep(w, e); }
        case Closing => ClosingStep(w, e);
      }
  }
}
