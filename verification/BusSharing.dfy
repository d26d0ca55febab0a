/** One transaction engine, many clients: who owns it, whose result it is, and who waits how long. */
module BusSharing {
  datatype Option<T> = None | Some(value: T)

  // ---- The arbiter --------------------------------------------------------------------------

  datatype Client = Control | Sof | Poller(index: nat)

  datatype Arbiter = Arbiter(rotate: nat, owner: nat, ownerValid: bool)

  /** What the arbiter sees on one clock. starts says which pollers would start a transaction if pointed at. */
  datatype Lines = Lines(
    busy: bool, done: bool, doneBefore: bool, pollerBusy: bool, controlPhase: bool, controlStart: bool,
    sofStart: bool, starts: seq<bool>)

  predicate ControlOwns(l: Lines) { l.controlPhase && !l.pollerBusy }

  predicate ControlGrant(l: Lines) { ControlOwns(l) && l.controlStart && !l.busy }

  predicate SofGrant(l: Lines) { l.sofStart && !l.busy && !l.done && !l.doneBefore && !ControlGrant(l) }

  predicate PollFree(l: Lines) { !l.controlPhase && !l.sofStart && !l.busy && !l.pollerBusy }

  predicate Points(a: Arbiter, l: Lines) { a.rotate < |l.starts| && l.starts[a.rotate] }

  predicate PollerGrant(a: Arbiter, l: Lines) { PollFree(l) && Points(a, l) }

  /** Whose port the engine's inputs are connected to. */
  function Source(a: Arbiter, l: Lines): Client {
    if ControlOwns(l) then Control else Poller(if l.pollerBusy then a.owner else a.rotate)
  }

  /** The done poller port k sees. */
  predicate PortDone(a: Arbiter, l: Lines, k: nat) { l.done && a.ownerValid && a.owner == k }

  function After(index: nat, count: nat): nat { if index + 1 >= count then 0 else index + 1 }

  function NextArbiter(a: Arbiter, l: Lines, count: nat): Arbiter {
    if PollerGrant(a, l) then Arbiter(a.rotate, a.rotate, true)
    else if a.ownerValid && l.done then Arbiter(After(a.owner, count), a.owner, false)
    else if PollFree(l) && !Points(a, l) then Arbiter(After(a.rotate, count), a.owner, a.ownerValid)
    else a
  }

  function Granted(a: Arbiter, l: Lines): Option<Client> {
    if ControlGrant(l) then Some(Control)
    else if SofGrant(l) then Some(Sof)
    else if PollerGrant(a, l) then Some(Poller(a.rotate))
    else None
  }

  class USBHostTransactionArbiter {
    const count: nat
    var rotate: nat
    var pollerOwner: nat
    var ownerValid: bool

    constructor (count: nat)
      ensures this.count == count && State() == Arbiter(0, 0, false)
    {
      this.count := count;
      rotate, pollerOwner, ownerValid := 0, 0, false;
    }

    function State(): Arbiter
      reads this
    {
      Arbiter(rotate, pollerOwner, ownerValid)
    }

    method Tick(l: Lines) returns (granted: Option<Client>)
      modifies this
      ensures granted == Granted(old(State()), l)
      ensures State() == NextArbiter(old(State()), l, count)
    {
      var controlOwns := l.controlPhase && !l.pollerBusy;
      var pollBusFree := !l.controlPhase && !l.sofStart && !l.busy && !l.pollerBusy;
      var selectedStart := rotate < |l.starts| && l.starts[rotate];
      granted := None;
      if controlOwns && l.controlStart && !l.busy {
        granted := Some(Control);
      } else if l.sofStart && !l.busy && !l.done && !l.doneBefore {
        granted := Some(Sof);
      } else if selectedStart && pollBusFree {
        granted := Some(Poller(rotate));
      }
      if selectedStart && pollBusFree {
        pollerOwner, ownerValid := rotate, true;
      } else if ownerValid && l.done {
        ownerValid := false;
        rotate := if pollerOwner + 1 >= count then 0 else pollerOwner + 1;
      } else if pollBusFree && !selectedStart {
        rotate := if rotate + 1 >= count then 0 else rotate + 1;
      }
    }
  }

  // ---- The engine and its clients -----------------------------------------------------------

  /** A transaction: who started it, and a number no other has. */
  datatype Ticket = Ticket(client: Client, id: nat)

  /** The transaction in flight, or the one whose done pulse is up this clock. */
  datatype Engine = Engine(busy: Option<Ticket>, done: Option<Ticket>, doneBefore: bool)

  /** The control engine: asking for a transaction, waiting for its done, or handing on its bytes. */
  datatype ControlPhase = Resting | Asking | Waiting(id: nat) | Streaming

  /** forRelay: its transfer is the relay's and not the enumerator's. nakked: the NAK timer runs. */
  datatype ControlEngine = ControlEngine(phase: ControlPhase, done: bool, forRelay: bool, nakked: bool)

  /** Of the relay, whether it holds the control engine: to start a transfer, or until its done. */
  datatype RelayHold = Away | Issuing | Awaiting

  /** The poller that is active: polling until it has seen its done, or copying its report. */
  datatype Poll = Poll(index: nat, id: nat, copying: bool)

  datatype Bus = Bus(
    arbiter: Arbiter, engine: Engine, active: Option<Poll>, control: ControlEngine, relay: RelayHold, serial: nat)

  /** What the control engine makes of its transaction's done. */
  datatype Verdict = Nak | Duplicate | MoveOn | Stream | Finish

  /**
   * What one clock brings: the connection, the enumerator and its requests, the relay's requests, the
   * NAK timer's end, what control makes of a done, the end of its stream, SOFs and polls falling due,
   * the end of the engine's transaction, and for the active poller its enable falling, whether a done
   * brings a report, and the end of its copy.
   */
  datatype Input = Input(
    connected: bool, ready: bool, enumerates: bool, asks: bool, expired: bool, verdict: Verdict, streamed: bool,
    sofStart: bool, starts: seq<bool>, finish: bool, disabled: bool, reports: bool, copied: bool)

  /** The enumerator's, or the relay's while it works the control engine. */
  predicate ControlPhaseUp(b: Bus, i: Input) { !i.ready || b.relay != Away }

  predicate NakTimeout(b: Bus, i: Input) { b.control.nakked && i.expired }

  function LinesOf(b: Bus, i: Input): Lines {
    Lines(b.engine.busy.Some?, b.engine.done.Some?, b.engine.doneBefore, b.active.Some?, ControlPhaseUp(b, i),
          b.control.phase == Asking && i.connected && !NakTimeout(b, i), i.sofStart && i.connected,
          seq(|i.starts|, k requires 0 <= k < |i.starts| => i.starts[k] && i.connected))
  }

  function GrantedTo(b: Bus, i: Input): Option<Client> { Granted(b.arbiter, LinesOf(b, i)) }

  /** The transaction in flight ends on this clock: by itself, or with the connection. */
  predicate Ends(b: Bus, i: Input) { b.engine.busy.Some? && (i.finish || !i.connected) }

  function NextEngine(b: Bus, i: Input): Engine {
    var e, g := b.engine, GrantedTo(b, i);
    Engine(if g.Some? then Some(Ticket(g.value, b.serial)) else if Ends(b, i) then None else e.busy,
           if Ends(b, i) then e.busy else None, e.done.Some?)
  }

  /** A transfer that ends for want of connection or of anything but NAKs, whatever is in flight. */
  predicate ControlGivesUp(b: Bus, i: Input) {
    !i.connected || ((b.control.phase == Asking || b.control.phase.Waiting?) && NakTimeout(b, i))
  }

  function NextControl(b: Bus, i: Input): ControlEngine {
    var c := b.control;
    match c.phase
    case Resting =>
      var relayed := i.ready && b.relay == Issuing;
      if relayed || (!i.ready && i.enumerates) then
        ControlEngine(if i.connected then Asking else Resting, !i.connected, relayed, false)
      else ControlEngine(Resting, false, c.forRelay, c.nakked)
    case Asking =>
      if ControlGivesUp(b, i) then ControlEngine(Resting, true, c.forRelay, c.nakked)
      else if GrantedTo(b, i) == Some(Control) then ControlEngine(Waiting(b.serial), false, c.forRelay, c.nakked)
      else ControlEngine(Asking, false, c.forRelay, c.nakked)
    case Waiting(id) =>
      if ControlGivesUp(b, i) then ControlEngine(Resting, true, c.forRelay, c.nakked)
      else if b.engine.done.None? then ControlEngine(c.phase, false, c.forRelay, c.nakked)
      else
        (match i.verdict
         case Nak => ControlEngine(Asking, false, c.forRelay, true)
         case Duplicate => ControlEngine(Asking, false, c.forRelay, c.nakked)
         case MoveOn => ControlEngine(Asking, false, c.forRelay, false)
         case Stream => ControlEngine(Streaming, false, c.forRelay, false)
         case Finish => ControlEngine(Resting, true, c.forRelay, c.nakked))
    case Streaming =>
      if ControlGivesUp(b, i) then ControlEngine(Resting, true, c.forRelay, c.nakked)
      else ControlEngine(if i.streamed then Asking else Streaming, false, c.forRelay, c.nakked)
  }

  function NextRelay(b: Bus, i: Input): RelayHold {
    match b.relay
    case Away => if i.asks then Issuing else Away
    case Issuing => if !i.ready then Away else if b.control.phase == Resting then Awaiting else Issuing
    case Awaiting => if b.control.done then Away else Awaiting
  }

  /** A poller stays active until it has seen its done and copied its report, or is disabled. */
  function NextActive(b: Bus, i: Input): Option<Poll> {
    if PollerGrant(b.arbiter, LinesOf(b, i)) then Some(Poll(b.arbiter.rotate, b.serial, false))
    else if b.active.None? || !i.connected || i.disabled then None
    else
      var p := b.active.value;
      if p.copying then if i.copied then None else b.active
      else if PortDone(b.arbiter, LinesOf(b, i), p.index) then
        if i.reports then Some(Poll(p.index, p.id, true)) else None
      else b.active
  }

  function Next(b: Bus, i: Input, count: nat): Bus {
    Bus(NextArbiter(b.arbiter, LinesOf(b, i), count), NextEngine(b, i), NextActive(b, i), NextControl(b, i),
        NextRelay(b, i), b.serial + 1)
  }

  // ---- The invariant ------------------------------------------------------------------------

  /** The transaction in flight or just done. */
  function Current(e: Engine): Option<Ticket> { if e.busy.Some? then e.busy else e.done }

  predicate Quiet(e: Engine) { e.busy.None? || e.busy.value.client == Sof }

  predicate EngineInv(b: Bus, count: nat) {
    var a, e := b.arbiter, b.engine;
    a.rotate < count && a.owner < count && !(e.busy.Some? && e.done.Some?) &&
    (Current(e).Some? ==> Current(e).value.id < b.serial) &&
    (Current(e).Some? && Current(e).value.client.Poller? ==>
       a.ownerValid && Current(e).value.client.index == a.owner) &&
    (a.ownerValid ==>
       a.owner == a.rotate && Current(e).Some? && Current(e).value.client == Poller(a.owner))
  }

  /** A poller polls for its own transaction, and copies with none but a SOF in flight. */
  predicate ActiveInv(b: Bus) {
    b.active.Some? ==>
      var p := b.active.value;
      p.index == b.arbiter.owner && p.id < b.serial &&
      if p.copying then Quiet(b.engine) else Current(b.engine) == Some(Ticket(Poller(p.index), p.id))
  }

  /** Control waits for its own transaction, and streams with none but a SOF in flight. */
  predicate ControlInv(b: Bus) {
    var c := b.control;
    (c.done ==> c.phase == Resting) &&
    (c.phase != Resting && c.forRelay ==> b.relay == Awaiting) &&
    (c.phase.Waiting? ==> b.active.None? && Current(b.engine) == Some(Ticket(Control, c.phase.id))) &&
    (c.phase == Streaming ==> b.active.None? && Quiet(b.engine))
  }

  predicate Inv(b: Bus, count: nat) { EngineInv(b, count) && ActiveInv(b) && ControlInv(b) }

  /** There is a line a poller, and the enumerator is ready only with no request of its own under way. */
  predicate Civil(b: Bus, i: Input, count: nat) {
    |i.starts| == count && (b.control.phase != Resting && !b.control.forRelay ==> !i.ready)
  }

  lemma EngineKept(b: Bus, i: Input, count: nat)
    requires Inv(b, count) && Civil(b, i, count)
    ensures EngineInv(Next(b, i, count), count)
  {
  }

  lemma ActiveKept(b: Bus, i: Input, count: nat)
    requires Inv(b, count) && Civil(b, i, count)
    ensures ActiveInv(Next(b, i, count))
  {
  }

  lemma ControlKept(b: Bus, i: Input, count: nat)
    requires Inv(b, count) && Civil(b, i, count)
    ensures ControlInv(Next(b, i, count))
  {
  }

  lemma NextKeepsInv(b: Bus, i: Input, count: nat)
    requires Inv(b, count) && Civil(b, i, count)
    ensures Inv(Next(b, i, count), count)
  {
    EngineKept(b, i, count);
    ActiveKept(b, i, count);
    ControlKept(b, i, count);
  }

  function Reset(): Bus {
    Bus(Arbiter(0, 0, false), Engine(None, None, false), None, ControlEngine(Resting, false, false, false), Away, 0)
  }

  predicate Step(b: Bus, i: Input, c: Bus, count: nat) { Civil(b, i, count) && c == Next(b, i, count) }

  /** A run from reset. */
  predicate IsRun(run: seq<Bus>, inputs: seq<Input>, count: nat) {
    |run| == |inputs| + 1 && count > 0 && run[0] == Reset() &&
    forall n :: 0 <= n < |inputs| ==> Step(run[n], inputs[n], run[n + 1], count)
  }

  lemma {:induction false} RunKeepsInv(run: seq<Bus>, inputs: seq<Input>, n: nat, count: nat)
    requires IsRun(run, inputs, count) && n <= |inputs|
    ensures Inv(run[n], count)
    decreases n
  {
    if n > 0 {
      RunKeepsInv(run, inputs, n - 1, count);
      assert Step(run[n - 1], inputs[n - 1], run[n], count);
      NextKeepsInv(run[n - 1], inputs[n - 1], count);
    }
  }

  // ---- Whose inputs the engine has, and who acts on its done ----------------------------------

  /** The client still waits for this transaction. */
  predicate Attends(b: Bus, t: Ticket) {
    match t.client
    case Control => b.control.phase == Waiting(t.id)
    case Poller(k) => b.active == Some(Poll(k, t.id, false))
    case Sof => true
  }

  /** The engine's inputs are its transaction's own: its starter's port is connected, and the starter drives it. */
  predicate OwnInputs(b: Bus, i: Input, t: Ticket) {
    Source(b.arbiter, LinesOf(b, i)) == t.client && Attends(b, t)
  }

  /** The client of this transaction gives it up on this clock. */
  predicate GivesUp(b: Bus, i: Input, t: Ticket) {
    !i.connected ||
    match t.client
    case Control => NakTimeout(b, i)
    case Poller(_) => i.disabled
    case Sof => false
  }

  /** An attended transaction has its starter's port; one given up keeps it exactly while the control
   *  phase is the starter's, up for control and down for a poller. */
  lemma PortOf(b: Bus, i: Input, t: Ticket, count: nat)
    requires Inv(b, count) && Civil(b, i, count) && b.engine.busy == Some(t) && t.client != Sof
    ensures Source(b.arbiter, LinesOf(b, i)) == t.client <==>
            Attends(b, t) || (t.client == Control <==> ControlPhaseUp(b, i))
  {
  }

  /** From its first clock the starter attends its transaction, and its port is connected already. */
  lemma StartsAttended(b: Bus, i: Input, count: nat)
    requires Inv(b, count) && Civil(b, i, count) && GrantedTo(b, i).Some?
    ensures var t := Ticket(GrantedTo(b, i).value, b.serial);
            i.connected && Next(b, i, count).engine.busy == Some(t) && Attends(Next(b, i, count), t) &&
            (t.client != Sof ==> Source(b.arbiter, LinesOf(b, i)) == t.client)
  {
  }

  /** And attends it until it gives it up or has heard its done. */
  lemma StaysAttended(b: Bus, i: Input, t: Ticket, count: nat)
    requires Inv(b, count) && Civil(b, i, count) && b.engine.busy == Some(t) && t.client != Sof
    requires Current(Next(b, i, count).engine) == Some(t)
    ensures Attends(Next(b, i, count), t) <==> Attends(b, t) && !GivesUp(b, i, t)
  {
  }

  lemma {:induction false} SerialIsClock(run: seq<Bus>, inputs: seq<Input>, n: nat, count: nat)
    requires IsRun(run, inputs, count) && n <= |inputs|
    ensures run[n].serial == n
    decreases n
  {
    if n > 0 {
      SerialIsClock(run, inputs, n - 1, count);
      assert Step(run[n - 1], inputs[n - 1], run[n], count);
    }
  }

  /** A transaction's number is the clock it was granted on; since then it has been in flight. */
  lemma {:induction false} GrantedOnItsClock(run: seq<Bus>, inputs: seq<Input>, n: nat, t: Ticket, count: nat)
    requires IsRun(run, inputs, count) && n <= |inputs| && Current(run[n].engine) == Some(t)
    ensures t.id < n && GrantedTo(run[t.id], inputs[t.id]) == Some(t.client)
    ensures t.id + 1 < n ==> run[n - 1].engine.busy == Some(t)
    decreases n
  {
    assert n > 0;
    assert Step(run[n - 1], inputs[n - 1], run[n], count);
    SerialIsClock(run, inputs, n - 1, count);
    RunKeepsInv(run, inputs, n - 1, count);
    if run[n - 1].engine.busy == Some(t) {
      GrantedOnItsClock(run, inputs, n - 1, t, count);
    }
  }

  lemma AttendedAtFirst(run: seq<Bus>, inputs: seq<Input>, n: nat, t: Ticket, count: nat)
    requires IsRun(run, inputs, count) && t.id + 1 == n <= |inputs| && Current(run[n].engine) == Some(t)
    ensures Attends(run[n], t)
  {
    GrantedOnItsClock(run, inputs, n, t, count);
    RunKeepsInv(run, inputs, t.id, count);
    SerialIsClock(run, inputs, t.id, count);
    assert Step(run[t.id], inputs[t.id], run[n], count);
    StartsAttended(run[t.id], inputs[t.id], count);
  }

  lemma AttendedNext(run: seq<Bus>, inputs: seq<Input>, n: nat, t: Ticket, count: nat)
    requires IsRun(run, inputs, count) && n < |inputs| && run[n].engine.busy == Some(t) && t.client != Sof
    requires Current(run[n + 1].engine) == Some(t)
    ensures Attends(run[n + 1], t) <==> Attends(run[n], t) && !GivesUp(run[n], inputs[n], t)
  {
    RunKeepsInv(run, inputs, n, count);
    assert Step(run[n], inputs[n], run[n + 1], count);
    StaysAttended(run[n], inputs[n], t, count);
  }

  lemma {:induction false} AttendedUnlessGivenUp(run: seq<Bus>, inputs: seq<Input>, n: nat, t: Ticket, count: nat)
    requires IsRun(run, inputs, count) && n <= |inputs| && Current(run[n].engine) == Some(t) && t.client != Sof
    ensures Attends(run[n], t) <==> forall j :: t.id < j < n ==> !GivesUp(run[j], inputs[j], t)
    decreases n
  {
    GrantedOnItsClock(run, inputs, n, t, count);
    if t.id + 1 < n {
      AttendedUnlessGivenUp(run, inputs, n - 1, t, count);
      AttendedNext(run, inputs, n - 1, t, count);
    } else {
      AttendedAtFirst(run, inputs, n, t, count);
    }
  }

  /**
   * Over every run from reset: the engine's inputs stay its starter's until the transaction is over if
   * and only if the starter does not give it up: control by a NAK time-out, a poller by being disabled,
   * either with the connection. t.id is the clock the transaction was granted on.
   */
  lemma InputsStayWithStarter(run: seq<Bus>, inputs: seq<Input>, n: nat, t: Ticket, count: nat)
    requires IsRun(run, inputs, count) && n < |inputs| && run[n].engine.busy == Some(t) && t.client != Sof
    ensures OwnInputs(run[n], inputs[n], t) <==> forall j :: t.id < j < n ==> !GivesUp(run[j], inputs[j], t)
    ensures Source(run[n].arbiter, LinesOf(run[n], inputs[n])) == t.client <==>
            (forall j :: t.id < j < n ==> !GivesUp(run[j], inputs[j], t)) ||
            (t.client == Control <==> ControlPhaseUp(run[n], inputs[n]))
  {
    AttendedUnlessGivenUp(run, inputs, n, t, count);
    RunKeepsInv(run, inputs, n, count);
    assert Step(run[n], inputs[n], run[n + 1], count);
    PortOf(run[n], inputs[n], t, count);
  }

  /** A done is acted on by its own starter, if and only if that has not given the transaction up. */
  lemma DoneIsHeard(run: seq<Bus>, inputs: seq<Input>, n: nat, t: Ticket, count: nat)
    requires IsRun(run, inputs, count) && n <= |inputs| && run[n].engine.done == Some(t) && t.client != Sof
    ensures Attends(run[n], t) <==> forall j :: t.id < j < n ==> !GivesUp(run[j], inputs[j], t)
  {
    RunKeepsInv(run, inputs, n, count);
    AttendedUnlessGivenUp(run, inputs, n, t, count);
  }

  /** With pollers disabled only as the connection goes, as the host wires them, a poller's inputs never leave. */
  lemma PollersKeepTheirInputs(run: seq<Bus>, inputs: seq<Input>, n: nat, t: Ticket, count: nat)
    requires IsRun(run, inputs, count) && n < |inputs| && run[n].engine.busy == Some(t) && t.client.Poller?
    requires forall j :: 0 <= j < |inputs| && inputs[j].disabled ==> !inputs[j].connected
    ensures OwnInputs(run[n], inputs[n], t)
  {
    InputsStayWithStarter(run, inputs, n, t, count);
    forall j | t.id < j < n
      ensures inputs[j].connected
    {
      InFlightSince(run, inputs, j, n, t, count);
      assert Step(run[j], inputs[j], run[j + 1], count);
    }
  }

  lemma {:induction false} InFlightSince(
    run: seq<Bus>, inputs: seq<Input>, j: nat, n: nat, t: Ticket, count: nat)
    requires IsRun(run, inputs, count) && n <= |inputs| && run[n].engine.busy == Some(t) && t.id < j < n
    ensures run[j].engine.busy == Some(t) && run[j + 1].engine.busy == Some(t)
    decreases n
  {
    GrantedOnItsClock(run, inputs, n, t, count);
    if j + 1 < n {
      InFlightSince(run, inputs, j, n - 1, t, count);
    }
  }

  /** Nobody else acts on it: control, shown every done, acts only while it waits, and a poller only while
   *  it polls; and each then waits for the very transaction that is done. */
  lemma OnlyOwnDoneActs(run: seq<Bus>, inputs: seq<Input>, n: nat, count: nat)
    requires IsRun(run, inputs, count) && n < |inputs| && run[n].engine.done.Some?
    ensures run[n].control.phase.Waiting? ==>
              run[n].engine.done == Some(Ticket(Control, run[n].control.phase.id))
    ensures var p, l := run[n].active, LinesOf(run[n], inputs[n]);
            p.Some? && !p.value.copying ==>
              PortDone(run[n].arbiter, l, p.value.index) &&
              run[n].engine.done == Some(Ticket(Poller(p.value.index), p.value.id))
  {
    RunKeepsInv(run, inputs, n, count);
  }

  /** A poller port's done is its own transaction's, and every poller transaction's done reaches its port. */
  lemma DoneIsRouted(b: Bus, i: Input, k: nat, count: nat)
    requires Inv(b, count)
    ensures PortDone(b.arbiter, LinesOf(b, i), k) <==>
            b.engine.done.Some? && b.engine.done.value.client == Poller(k)
  {
  }

  /** No grant overlaps a transaction, given up or not, and none but a SOF's a copy or a stream. */
  lemma NothingOverlaps(run: seq<Bus>, inputs: seq<Input>, n: nat, count: nat)
    requires IsRun(run, inputs, count) && n < |inputs| && GrantedTo(run[n], inputs[n]).Some?
    ensures run[n].engine.busy.None?
    ensures run[n].active.Some? || run[n].control.phase == Streaming ==> GrantedTo(run[n], inputs[n]) == Some(Sof)
  {
    RunKeepsInv(run, inputs, n, count);
    assert Step(run[n], inputs[n], run[n + 1], count);
  }

  /** While a poller copies or control streams its bytes out of the receive buffer, nothing but a SOF is in
   *  flight: what a transaction given up still receives is never copied. */
  lemma BufferIsHeld(run: seq<Bus>, inputs: seq<Input>, n: nat, count: nat)
    requires IsRun(run, inputs, count) && n < |run|
    requires run[n].control.phase == Streaming || (run[n].active.Some? && run[n].active.value.copying)
    ensures run[n].engine.busy.None? || run[n].engine.busy.value.client == Sof
  {
    RunKeepsInv(run, inputs, n, count);
  }

  // ---- Runs in which the inputs leave their starter -------------------------------------------

  lemma Extended(run: seq<Bus>, inputs: seq<Input>, i: Input, count: nat)
    returns (longer: seq<Bus>, more: seq<Input>)
    requires IsRun(run, inputs, count) && Civil(run[|inputs|], i, count)
    ensures IsRun(longer, more, count)
    ensures more == inputs + [i] && longer == run + [Next(run[|inputs|], i, count)]
  {
    longer, more := run + [Next(run[|inputs|], i, count)], inputs + [i];
  }

  /** Connected and enumerated, nothing happens; one poller, not due. */
  function Still(): Input {
    Input(true, true, false, false, false, Nak, false, false, [false], false, false, false, false)
  }

  /** A control transfer of the relay's in flight for the second time, after a NAK. */
  lemma Retried() returns (run: seq<Bus>, inputs: seq<Input>)
    ensures IsRun(run, inputs, 1) && |inputs| == 6
    ensures run[6].engine == Engine(Some(Ticket(Control, 5)), None, false) && run[6].active.None?
    ensures run[6].control == ControlEngine(Waiting(5), false, true, true) && run[6].relay == Awaiting
    ensures run[6].arbiter == Arbiter(0, 0, false)
  {
    run, inputs := [Reset()], [];
    run, inputs := Extended(run, inputs, Still().(asks := true), 1);
    run, inputs := Extended(run, inputs, Still(), 1);
    run, inputs := Extended(run, inputs, Still(), 1);
    run, inputs := Extended(run, inputs, Still().(finish := true), 1);
    run, inputs := Extended(run, inputs, Still(), 1);
    run, inputs := Extended(run, inputs, Still(), 1);
  }

  /** The NAK timer ends in mid-retry: control rests and the relay lets go, with the transaction in flight. */
  lemma GivenUp() returns (run: seq<Bus>, inputs: seq<Input>)
    ensures IsRun(run, inputs, 1) && |inputs| == 8
    ensures run[8] == Bus(Arbiter(0, 0, false), Engine(Some(Ticket(Control, 5)), None, false), None,
                          ControlEngine(Resting, false, true, true), Away, 8)
  {
    run, inputs := Retried();
    SerialIsClock(run, inputs, 6, 1);
    run, inputs := Extended(run, inputs, Still().(expired := true), 1);
    run, inputs := Extended(run, inputs, Still(), 1);
  }

  /** It is then fed from a poller's port. */
  lemma ControlInputsLeave() returns (run: seq<Bus>, inputs: seq<Input>)
    ensures IsRun(run, inputs, 1) && |inputs| == 9 && run[8].engine.busy == Some(Ticket(Control, 5))
    ensures Source(run[8].arbiter, LinesOf(run[8], inputs[8])) == Poller(0)
  {
    run, inputs := GivenUp();
    run, inputs := Extended(run, inputs, Still(), 1);
  }

  /** And the next transfer starts on that transaction's own done clock, without taking it for its own. */
  lemma StartsOnAnotherDone() returns (run: seq<Bus>, inputs: seq<Input>)
    ensures IsRun(run, inputs, 1) && |inputs| == 12
    ensures run[11].engine.done == Some(Ticket(Control, 5)) && GrantedTo(run[11], inputs[11]) == Some(Control)
    ensures run[12].control.phase == Waiting(11) && run[12].engine == Engine(Some(Ticket(Control, 11)), None, true)
  {
    run, inputs := GivenUp();
    run, inputs := Extended(run, inputs, Still().(asks := true), 1);
    run, inputs := Extended(run, inputs, Still(), 1);
    run, inputs := Extended(run, inputs, Still().(finish := true), 1);
    run, inputs := Extended(run, inputs, Still(), 1);
  }

  /** A poller disabled in mid-transaction, the relay asking meanwhile: control's port feeds it. */
  lemma PollerInputsLeave() returns (run: seq<Bus>, inputs: seq<Input>)
    ensures IsRun(run, inputs, 1) && |inputs| == 3
    ensures run[2].engine.busy == Some(Ticket(Poller(0), 0))
    ensures Source(run[2].arbiter, LinesOf(run[2], inputs[2])) == Control
  {
    run, inputs := [Reset()], [];
    run, inputs := Extended(run, inputs, Still().(starts := [true], asks := true), 1);
    run, inputs := Extended(run, inputs, Still().(disabled := true), 1);
    run, inputs := Extended(run, inputs, Still(), 1);
  }

  // ---- Fairness -----------------------------------------------------------------------------

  /** Slots the pointer has to pass before it reaches k. */
  function Distance(rotate: nat, k: nat, count: nat): nat
    requires rotate < count && k < count
  {
    if rotate <= k then k - rotate else k + count - rotate
  }

  predicate Polls(b: Bus, i: Input) { PollerGrant(b.arbiter, LinesOf(b, i)) }

  /** A poller that gave its transaction up is granted another on that one's done clock: the pointer stays. */
  predicate Restarts(b: Bus, i: Input) { Polls(b, i) && b.arbiter.ownerValid }

  predicate Due(b: Bus, i: Input, k: nat) { k < |LinesOf(b, i).starts| && LinesOf(b, i).starts[k] }

  /** From clock m on poller k is due, and not granted. */
  predicate Waits(run: seq<Bus>, inputs: seq<Input>, m: nat, k: nat, count: nat) {
    IsRun(run, inputs, count) && m <= |inputs| && k < count &&
    (run[m].arbiter.ownerValid ==> run[m].arbiter.owner != k) &&
    forall n :: m <= n < |inputs| ==> Due(run[n], inputs[n], k) && GrantedTo(run[n], inputs[n]) != Some(Poller(k))
  }

  /** Grants to pollers from clock m to n, and those of them that are restarts. */
  function Grants(run: seq<Bus>, inputs: seq<Input>, m: nat, n: nat): nat
    requires m <= n <= |inputs| <= |run|
  {
    if m == n then 0 else Grants(run, inputs, m, n - 1) + if Polls(run[n - 1], inputs[n - 1]) then 1 else 0
  }

  function GrantsAgain(run: seq<Bus>, inputs: seq<Input>, m: nat, n: nat): nat
    requires m <= n <= |inputs| <= |run|
  {
    if m == n then 0 else GrantsAgain(run, inputs, m, n - 1) + if Restarts(run[n - 1], inputs[n - 1]) then 1 else 0
  }

  /** A transaction under way whose end will move the pointer on. */
  function Underway(a: Arbiter): nat { if a.ownerValid then 1 else 0 }

  /** How a clock moves the pointer towards k. */
  predicate Closer(a: Arbiter, c: Arbiter, granted: nat, k: nat, count: nat) {
    a.rotate < count && c.rotate < count && k < count && (c.ownerValid ==> c.owner != k) &&
    granted + Distance(c.rotate, k, count) <= Distance(a.rotate, k, count) + Underway(c) - Underway(a)
  }

  lemma OneStepCloser(b: Bus, i: Input, k: nat, count: nat)
    requires EngineInv(b, count) && k < count && |i.starts| == count && Due(b, i, k)
    requires GrantedTo(b, i) != Some(Poller(k)) && (b.arbiter.ownerValid ==> b.arbiter.owner != k)
    ensures Closer(b.arbiter, Next(b, i, count).arbiter, if Polls(b, i) && !Restarts(b, i) then 1 else 0, k, count)
  {
  }

  lemma CloserAt(run: seq<Bus>, inputs: seq<Input>, m: nat, k: nat, count: nat, n: nat)
    requires Waits(run, inputs, m, k, count) && m <= n < |inputs|
    requires run[n].arbiter.ownerValid ==> run[n].arbiter.owner != k
    ensures Closer(run[n].arbiter, run[n + 1].arbiter,
                   if Polls(run[n], inputs[n]) && !Restarts(run[n], inputs[n]) then 1 else 0, k, count)
  {
    RunKeepsInv(run, inputs, n, count);
    assert Step(run[n], inputs[n], run[n + 1], count);
    OneStepCloser(run[n], inputs[n], k, count);
  }

  /** The grants from m to n that are not restarts. */
  function Turns(run: seq<Bus>, inputs: seq<Input>, m: nat, n: nat): int
    requires m <= n <= |inputs| <= |run|
  {
    Grants(run, inputs, m, n) - GrantsAgain(run, inputs, m, n)
  }

  lemma {:induction false} GrantsBounded(run: seq<Bus>, inputs: seq<Input>, m: nat, k: nat, count: nat, n: nat)
    requires Waits(run, inputs, m, k, count) && m <= n <= |inputs|
    ensures run[m].arbiter.rotate < count && run[n].arbiter.rotate < count
    ensures run[n].arbiter.ownerValid ==> run[n].arbiter.owner != k
    ensures Turns(run, inputs, m, n) + Distance(run[n].arbiter.rotate, k, count) <=
            Distance(run[m].arbiter.rotate, k, count) + Underway(run[n].arbiter) - Underway(run[m].arbiter)
    decreases n
  {
    if n > m {
      GrantsBounded(run, inputs, m, k, count, n - 1);
      CloserAt(run, inputs, m, k, count, n - 1);
    } else {
      RunKeepsInv(run, inputs, m, count);
    }
  }

  /** However long control and SOF hold it off, and whatever they give up, a due poller waits for at most
   *  count - 1 grants to other pollers, beside restarts. */
  lemma AtMostOneRound(run: seq<Bus>, inputs: seq<Input>, m: nat, k: nat, count: nat)
    requires Waits(run, inputs, m, k, count)
    ensures Grants(run, inputs, m, |inputs|) <= count - 1 + GrantsAgain(run, inputs, m, |inputs|)
  {
    var n := |inputs|;
    GrantsBounded(run, inputs, m, k, count, n);
    RunKeepsInv(run, inputs, n, count);
    if run[n].arbiter.ownerValid {
      assert run[n].arbiter.rotate != k;
    }
  }

  /** A restart needs a poller disabled in mid-transaction. */
  lemma RestartNeedsDisabling(run: seq<Bus>, inputs: seq<Input>, n: nat, count: nat) returns (j: nat)
    requires IsRun(run, inputs, count) && n < |inputs| && Restarts(run[n], inputs[n])
    ensures j < n && run[j].engine.busy.Some? && run[j].engine.busy == run[n].engine.done
    ensures run[j].engine.busy.value.client == Poller(run[n].arbiter.rotate)
    ensures inputs[j].disabled || !inputs[j].connected
  {
    RunKeepsInv(run, inputs, n, count);
    var t := run[n].engine.done.value;
    DoneIsHeard(run, inputs, n, t, count);
    assert !Attends(run[n], t);
    GrantedOnItsClock(run, inputs, n, t, count);
    j :| t.id < j < n && GivesUp(run[j], inputs[j], t);
    if j < n - 1 {
      InFlightSince(run, inputs, j, n - 1, t, count);
    }
  }

  // ---- The merge of the pollers' report streams ---------------------------------------------

  /** A report byte offered by a source, with its last flag. */
  datatype Word = Word(data: int, last: bool)

  datatype Mux = Mux(sel: nat, locked: bool)

  /** What each source has still to hand on of the report in its buffer; empty when it has none. */
  type Sources = seq<seq<Word>>

  /** The first source with a report, searching round from sel. */
  function FirstValid(sources: Sources, sel: nat, tried: nat): (k: Option<nat>)
    requires sel < |sources| && tried <= |sources|
    ensures k.Some? ==> k.value < |sources| && sources[k.value] != []
    decreases |sources| - tried
  {
    if tried == |sources| then None
    else
      var k := if sel + tried < |sources| then sel + tried else sel + tried - |sources|;
      if sources[k] != [] then Some(k) else FirstValid(sources, sel, tried + 1)
  }

  /** The word leaving the multiplexer this cycle, if it is taken. */
  function Emitted(m: Mux, sources: Sources, ready: bool): Option<Word> {
    if m.locked && ready && m.sel < |sources| && sources[m.sel] != [] then Some(sources[m.sel][0]) else None
  }

  function NextMux(m: Mux, sources: Sources, ready: bool): (n: Mux)
    requires m.sel < |sources|
    ensures n.sel < |sources|
  {
    if !m.locked then
      var k := FirstValid(sources, m.sel, 0);
      if k.Some? then Mux(k.value, true) else m
    else if sources[m.sel] == [] then Mux(m.sel, false)
    else if ready && sources[m.sel][0].last then Mux(After(m.sel, |sources|), false)
    else m
  }

  method TickMux(m: Mux, sources: Sources, ready: bool) returns (next: Mux, word: Option<Word>)
    requires m.sel < |sources|
    ensures next == NextMux(m, sources, ready) && word == Emitted(m, sources, ready)
  {
    word, next := None, m;
    if !m.locked {
      var tried := 0;
      while tried < |sources|
        invariant tried <= |sources|
        invariant next == m && FirstValid(sources, m.sel, 0) == FirstValid(sources, m.sel, tried)
      {
        var k := if m.sel + tried < |sources| then m.sel + tried else m.sel + tried - |sources|;
        if sources[k] != [] {
          return Mux(k, true), None;
        }
        tried := tried + 1;
      }
    } else if sources[m.sel] == [] {
      next := Mux(m.sel, false);
    } else if ready {
      word := Some(sources[m.sel][0]);
      if sources[m.sel][0].last {
        next := Mux(if m.sel + 1 >= |sources| then 0 else m.sel + 1, false);
      }
    }
  }

  /** A report in a poller's buffer: its last flag on its last word only. */
  predicate Report(r: seq<Word>) {
    r != [] && forall n :: 0 <= n < |r| ==> (r[n].last <==> n == |r| - 1)
  }

  /**
   * The reports emitted whole, with their source, and the start of the one being emitted; whole is
   * what its source held when it was chosen.
   */
  datatype Merged = Merged(done: seq<(nat, seq<Word>)>, open: seq<Word>, whole: seq<Word>)

  function NextMerged(g: Merged, m: Mux, sources: Sources, ready: bool): Merged
    requires m.sel < |sources|
  {
    var w := Emitted(m, sources, ready);
    if w.Some? then
      if w.value.last then Merged(g.done + [(m.sel, g.open + [w.value])], [], [])
      else Merged(g.done, g.open + [w.value], g.whole)
    else if NextMux(m, sources, ready).locked && !m.locked then
      Merged(g.done, [], sources[NextMux(m, sources, ready).sel])
    else if !NextMux(m, sources, ready).locked then Merged(g.done, [], [])
    else g
  }

  /** The chosen source's buffer loses exactly the word taken, or is cleared by a failure; the others
   *  keep theirs, or fill or clear theirs freely. */
  predicate SourceStep(before: Sources, after: Sources, m: Mux, taken: bool) {
    |before| == |after| && m.sel < |before| &&
    (m.locked && before[m.sel] != [] ==>
       after[m.sel] == [] || after[m.sel] == if taken then before[m.sel][1..] else before[m.sel]) &&
    (forall k :: 0 <= k < |before| && !(m.locked && k == m.sel) && before[k] != [] ==>
       after[k] == [] || after[k] == before[k]) &&
    (forall k :: 0 <= k < |after| && !(m.locked && k == m.sel && before[k] != []) && after[k] != [] ==>
       Report(after[k]) || after[k] == before[k])
  }

  predicate MuxInv(m: Mux, sources: Sources, g: Merged) {
    m.sel < |sources| &&
    (forall k :: 0 <= k < |sources| && sources[k] != [] && !(m.locked && k == m.sel) ==> Report(sources[k])) &&
    (m.locked && sources[m.sel] != [] ==> Report(g.whole) && g.whole == g.open + sources[m.sel]) &&
    (forall n :: 0 <= n < |g.done| ==> Report(g.done[n].1))
  }

  /** Under any fills, clears and back-pressure, only whole reports have ever been emitted. */
  lemma MuxInvKept(m: Mux, sources: Sources, g: Merged, ready: bool, after: Sources)
    requires MuxInv(m, sources, g) && SourceStep(sources, after, m, Emitted(m, sources, ready).Some?)
    ensures MuxInv(NextMux(m, sources, ready), after, NextMerged(g, m, sources, ready))
  {
    var w := Emitted(m, sources, ready);
    var next := NextMerged(g, m, sources, ready);
    if w.Some? {
      assert g.open + sources[m.sel] == g.open + [w.value] + sources[m.sel][1..];
      if w.value.last {
        EmitsWholeReports(m, sources, g, ready);
      }
    }
  }

  /** A report that ends has been emitted whole, from one source, exactly as that source held it. */
  lemma EmitsWholeReports(m: Mux, sources: Sources, g: Merged, ready: bool)
    requires MuxInv(m, sources, g)
    requires Emitted(m, sources, ready).Some? && Emitted(m, sources, ready).value.last
    ensures NextMerged(g, m, sources, ready).done == g.done + [(m.sel, g.whole)] && |sources[m.sel]| == 1
  {
    var rest := sources[m.sel];
    assert g.whole[|g.open|] == rest[0];
    assert |g.whole| == |g.open| + 1;
    assert rest == [rest[0]];
  }
}
