/** Each stage of a transaction, told from the wires alone: how long it lasts and what it ends in. */
module TransactionStages {
  import opened TransactionEngine

  /** Clocks of the engine from any state. */
  predicate IsRun(run: seq<Engine>, wires: seq<Wire>) {
    |run| == |wires| + 1 && forall n :: 0 <= n < |wires| ==> Follows(run, wires, n)
  }

  predicate Follows(run: seq<Engine>, wires: seq<Wire>, n: nat)
    requires n < |wires| && n + 1 < |run|
  {
    run[n + 1] == Next(run[n], wires[n])
  }

  predicate Connected(wires: seq<Wire>, a: nat, n: nat)
    requires n <= |wires|
  {
    forall j :: a <= j < n ==> wires[j].connected
  }

  /** A transaction that ends: what the client is told. */
  predicate Done(e: Engine, status: Status, length: nat, duplicate: bool) {
    e.phase == Idle && e.report.done && e.report.status == status && e.report.length == length &&
    e.report.duplicate == duplicate
  }

  /** The wait for a response has just begun. */
  predicate Fresh(e: Engine) {
    e.phase == AwaitResponse && e.rx == Rx(0, false, false, false, 0, 0) && !e.report.done
  }

  // ---- Starting and losing the connection -----------------------------------------------------

  lemma Starts(e: Engine, w: Wire)
    requires e.phase == Idle && w.start.Some?
    ensures var j, n := w.start.value, Next(e, w);
            if w.connected then
              n.phase == TokenStart && n.job == Job(j.token, j.toggle && j.token != Setup, j.length) &&
              !n.report.done && n.tx.index == 0 && !n.tx.complete && n.report.length == 0 &&
              n.rx.count == 0 && !n.rx.overflow && !n.rx.duplicate
            else Done(n, Disconnected, 0, false)
  {
  }

  /** A lost connection ends any transaction at once. */
  lemma Disconnects(e: Engine, w: Wire)
    requires e.phase != Idle && !w.connected
    ensures Done(Next(e, w), Disconnected, 0, false)
  {
  }

  /** The done pulse lasts one clock, and the engine rests until it is started. */
  lemma Rests(e: Engine, w: Wire)
    requires e.phase == Idle && w.start.None?
    ensures Next(e, w).phase == Idle && !Next(e, w).report.done
    ensures Next(e, w).report.status == e.report.status && Next(e, w).report.length == e.report.length
  {
  }

  // ---- The token ------------------------------------------------------------------------------

  /** The token packet is out on clock t and not before. */
  predicate TokenOut(wires: seq<Wire>, a: nat, t: nat) {
    a < t < |wires| && wires[t].tokenDone && forall j :: a < j < t ==> !wires[j].tokenDone
  }

  lemma TokenStep(e: Engine, w: Wire)
    requires e.phase == TokenSend && w.connected && !e.report.done
    ensures var n := Next(e, w);
            n.job == e.job && n.tx == e.tx && !n.report.done &&
            if !w.tokenDone then n.phase == TokenSend && n.rx == e.rx && n.report.length == e.report.length
            else
              n.rx == Rx(e.rx.count, e.rx.overflow, e.rx.duplicate, false, 0, 0) &&
              (e.job.token == In ==> n.phase == AwaitResponse) &&
              (e.job.token == Sof ==> n.phase == SofDrain && n.gap == 0 && n.report.length == 0) &&
              (e.job.token == Out || e.job.token == Setup ==> n.phase == DataGap && n.gap == 0)
  {
  }

  lemma {:induction false} TokenWaits(run: seq<Engine>, wires: seq<Wire>, a: nat, t: nat, n: nat)
    requires IsRun(run, wires) && TokenOut(wires, a, t) && a < n <= t && Connected(wires, a, n)
    requires run[a].phase == TokenStart && !run[a].report.done
    ensures run[n].phase == TokenSend && run[n].job == run[a].job && run[n].tx == run[a].tx
    ensures run[n].rx == run[a].rx && !run[n].report.done && run[n].report.length == run[a].report.length
    decreases n
  {
    assert Follows(run, wires, n - 1);
    if n > a + 1 {
      TokenWaits(run, wires, a, t, n - 1);
      TokenStep(run[n - 1], wires[n - 1]);
    }
  }

  /** An IN then waits for its packet; a SOF drains; an OUT or SETUP keeps the gap before its data. */
  lemma TokenLeadsOn(run: seq<Engine>, wires: seq<Wire>, a: nat, t: nat)
    requires IsRun(run, wires) && TokenOut(wires, a, t) && Connected(wires, a, t + 1)
    requires run[a].phase == TokenStart && !run[a].report.done && run[a].rx.count == 0
    requires !run[a].rx.overflow && !run[a].rx.duplicate
    ensures run[t + 1].job == run[a].job && run[t + 1].tx == run[a].tx && !run[t + 1].report.done
    ensures run[a].job.token == In ==> Fresh(run[t + 1])
    ensures run[a].job.token == Sof ==>
              run[t + 1].phase == SofDrain && run[t + 1].gap == 0 && run[t + 1].report.length == 0
    ensures run[a].job.token == Out || run[a].job.token == Setup ==>
              run[t + 1].phase == DataGap && run[t + 1].gap == 0 &&
              run[t + 1].rx == Rx(0, false, false, false, 0, 0)
  {
    TokenWaits(run, wires, a, t, t);
    assert Follows(run, wires, t);
    TokenStep(run[t], wires[t]);
  }

  // ---- The gaps -------------------------------------------------------------------------------

  /** Clocks a packet is given to drain at this speed. */
  function Gap(highSpeed: bool): nat { if highSpeed then 12 else 200 }

  predicate Draining(e: Engine) { e.phase == DataGap || e.phase == AckDrain || e.phase == SofDrain }

  predicate AtSpeed(wires: seq<Wire>, a: nat, n: nat, highSpeed: bool)
    requires n <= |wires|
  {
    forall j :: a <= j < n ==> wires[j].connected && wires[j].highSpeed == highSpeed
  }

  lemma GapStep(e: Engine, w: Wire)
    requires Draining(e) && w.connected && !e.report.done
    ensures var n := Next(e, w);
            n.job == e.job && n.rx == e.rx &&
            if e.gap < Gap(w.highSpeed) - 1 then
              n.phase == e.phase && n.gap == e.gap + 1 && n.report == e.report.(duplicate := false) && n.tx == e.tx
            else if e.phase == DataGap then
              n.phase == SendData && !n.report.done && n.tx == Tx(e.tx.index, e.tx.complete, false)
            else Done(n, Success, e.report.length, e.phase == AckDrain && e.rx.duplicate)
  {
  }

  lemma {:induction false} GapCounts(run: seq<Engine>, wires: seq<Wire>, a: nat, k: nat, highSpeed: bool)
    requires IsRun(run, wires) && a + k <= |wires| && AtSpeed(wires, a, a + k, highSpeed) && k < Gap(highSpeed)
    requires Draining(run[a]) && run[a].gap == 0 && !run[a].report.done
    ensures run[a + k].phase == run[a].phase && run[a + k].gap == k && run[a + k].job == run[a].job
    ensures run[a + k].rx == run[a].rx && run[a + k].tx == run[a].tx && !run[a + k].report.done
    ensures run[a + k].report.length == run[a].report.length
    decreases k
  {
    if k > 0 {
      GapCounts(run, wires, a, k - 1, highSpeed);
      assert Follows(run, wires, a + k - 1);
      GapStep(run[a + k - 1], wires[a + k - 1]);
    }
  }

  /** Each gap lasts exactly 200 clocks at Full Speed and 12 at High Speed. The gap before data ends in
   *  sending it, the others in success: of a SOF, or of an IN with the length and duplicate flag it has. */
  lemma GapEnds(run: seq<Engine>, wires: seq<Wire>, a: nat, highSpeed: bool)
    requires var n := a + Gap(highSpeed);
             IsRun(run, wires) && n <= |wires| && AtSpeed(wires, a, n, highSpeed)
    requires Draining(run[a]) && run[a].gap == 0 && !run[a].report.done
    ensures var e := run[a + Gap(highSpeed)];
            if run[a].phase == DataGap then
              e.phase == SendData && e.job == run[a].job && e.rx == run[a].rx && !e.report.done &&
              e.tx == Tx(run[a].tx.index, run[a].tx.complete, false)
            else Done(e, Success, run[a].report.length, run[a].phase == AckDrain && run[a].rx.duplicate)
  {
    var k := Gap(highSpeed) - 1;
    GapCounts(run, wires, a, k, highSpeed);
    assert Follows(run, wires, a + k);
    GapStep(run[a + k], wires[a + k]);
  }

  // ---- Data -----------------------------------------------------------------------------------

  predicate Seen(wires: seq<Wire>, a: nat, n: nat)
    requires n <= |wires|
  {
    exists j :: a <= j < n && wires[j].dataValid
  }

  /** The data packet has begun and is out on clock s, and on none before. */
  predicate DataOut(wires: seq<Wire>, a: nat, s: nat) {
    a <= s < |wires| && Seen(wires, a, s) && !wires[s].dataValid &&
    forall j :: a <= j < s && Seen(wires, a, j) ==> wires[j].dataValid
  }

  /** Clocks on which the generator is ready for a byte. */
  function Readies(wires: seq<Wire>, a: nat, n: nat): nat
    requires a <= n <= |wires|
  {
    if a == n then 0 else Readies(wires, a, n - 1) + if wires[n - 1].dataReady then 1 else 0
  }

  /** Bytes taken so far. */
  function Taken(e: Engine): nat { if e.tx.complete then e.job.length else e.tx.index }

  predicate Sending(e: Engine, job: Job, started: bool, taken: nat) {
    e.phase == SendData && e.job == job && e.tx.started == started && Taken(e) == taken && !e.report.done &&
    (if e.tx.complete then job.length > 0 else e.tx.index < job.length || job.length == 0 == e.tx.index) &&
    e.rx.count == 0 && !e.rx.overflow && !e.rx.duplicate
  }

  lemma SendStep(e: Engine, w: Wire, job: Job, started: bool, taken: nat)
    requires Sending(e, job, started, taken) && w.connected
    ensures var more := if w.dataReady && taken < job.length then taken + 1 else taken;
            if started && !w.dataValid then Fresh(Next(e, w)) && Next(e, w).job == job && Taken(Next(e, w)) == more
            else Sending(Next(e, w), job, started || w.dataValid, more)
  {
  }

  function Least(a: nat, b: nat): nat { if a < b then a else b }

  lemma {:induction false} SendsOn(run: seq<Engine>, wires: seq<Wire>, a: nat, s: nat, n: nat)
    requires IsRun(run, wires) && DataOut(wires, a, s) && a <= n <= s && Connected(wires, a, n)
    requires Sending(run[a], run[a].job, false, 0)
    ensures Sending(run[n], run[a].job, Seen(wires, a, n), Least(Readies(wires, a, n), run[a].job.length))
    decreases n
  {
    if n > a {
      SendsOn(run, wires, a, s, n - 1);
      assert Follows(run, wires, n - 1);
      SendStep(run[n - 1], wires[n - 1], run[a].job, Seen(wires, a, n - 1),
               Least(Readies(wires, a, n - 1), run[a].job.length));
      assert Seen(wires, a, n) <==> Seen(wires, a, n - 1) || wires[n - 1].dataValid;
    }
  }

  /** Data is sent until its packet has ended, a byte on every clock the generator is ready until there are no
   *  more; then the wait for the handshake begins. */
  lemma DataEnds(run: seq<Engine>, wires: seq<Wire>, a: nat, s: nat)
    requires IsRun(run, wires) && DataOut(wires, a, s) && Connected(wires, a, s + 1)
    requires Sending(run[a], run[a].job, false, 0)
    ensures Fresh(run[s + 1]) && run[s + 1].job == run[a].job
    ensures Taken(run[s + 1]) == Least(Readies(wires, a, s + 1), run[a].job.length)
  {
    SendsOn(run, wires, a, s, s);
    assert Follows(run, wires, s);
    SendStep(run[s], wires[s], run[a].job, true, Least(Readies(wires, a, s), run[a].job.length));
  }

  // ---- The response -----------------------------------------------------------------------------

  datatype Verdict = Undecided | Fails(status: Status) | Acked | Packet(pid: Pid)

  /** Payload bytes heard. */
  function Heard(wires: seq<Wire>, a: nat, n: nat): nat
    requires a <= n <= |wires|
  {
    if a == n then 0 else Heard(wires, a, n - 1) + if wires[n - 1].byte.Some? then 1 else 0
  }

  /** Nothing on the line for 60,000 clocks, a clock more for the detectors after each burst. */
  predicate Silent(wires: seq<Wire>, a: nat, n: nat)
    requires a <= n < |wires|
  {
    !wires[n].rxActive &&
    ((n - a == 59_999 && forall j :: a <= j < n ==> !wires[j].rxActive) ||
     (n - a >= 60_001 && wires[n - 60_001].rxActive && forall j :: n - 60_001 < j < n ==> !wires[j].rxActive))
  }

  /** What clock n makes of a wait begun on clock a: handshakes first, then the packet, then the timers. */
  function Judge(wires: seq<Wire>, isIn: bool, a: nat, n: nat): Verdict
    requires a <= n < |wires|
  {
    var w := wires[n];
    if w.nak then Fails(Nak)
    else if w.stall then Fails(Stall)
    else if !isIn && w.ack then Acked
    else if isIn && w.crcBad then Fails(CrcError)
    else if isIn && w.complete.Some? then
      if Heard(wires, a, n) > 64 then Fails(Overflow)
      else if w.complete.value == Other then Fails(CrcError)
      else Packet(w.complete.value)
    else if n - a >= 63_191 || Silent(wires, a, n) then Fails(Timeout)
    else Undecided
  }

  /** The wait goes on after clock n. */
  predicate Open(wires: seq<Wire>, isIn: bool, a: nat, n: nat)
    requires a <= n < |wires|
  {
    Judge(wires, isIn, a, n) == Undecided
  }

  predicate AllOpen(wires: seq<Wire>, isIn: bool, a: nat, n: nat)
    requires n <= |wires|
  {
    forall j :: a <= j < n ==> Open(wires, isIn, a, j)
  }

  /** Clocks since the line was last active, as the quiet timer has them: None right after activity. */
  predicate Quieted(wires: seq<Wire>, a: nat, n: nat, started: bool, quiet: nat)
    requires a <= n <= |wires|
  {
    if started then n > a && wires[n - 1].rxActive && quiet == 0
    else if n - a == quiet then forall j :: a <= j < n ==> !wires[j].rxActive
    else
      n - a >= quiet + 2 && wires[n - quiet - 2].rxActive &&
      forall j :: n - quiet - 2 < j < n ==> !wires[j].rxActive
  }

  predicate Waiting(e: Engine, job: Job, wires: seq<Wire>, a: nat, n: nat)
    requires a <= n <= |wires|
  {
    var isIn := job.token == In;
    e.phase == AwaitResponse && e.job == job && !e.report.done && !e.rx.duplicate &&
    e.rx.deadline == n - a && Quieted(wires, a, n, e.rx.started, e.rx.quiet) && e.rx.quiet < 60_000 &&
    e.rx.count == (if isIn then Least(Heard(wires, a, n), 64) else 0) &&
    (e.rx.overflow <==> isIn && Heard(wires, a, n) > 64)
  }

  /** What the engine does with the verdict. */
  predicate Obeys(e: Engine, job: Job, wires: seq<Wire>, a: nat, n: nat)
    requires a <= n < |wires|
  {
    match Judge(wires, job.token == In, a, n)
    case Undecided => Waiting(e, job, wires, a, n + 1)
    case Fails(status) => Done(e, status, 0, false)
    case Acked => Done(e, Success, 0, false)
    case Packet(pid) =>
      e.phase == AckGap && e.job == job && !e.report.done && e.rx.count == Heard(wires, a, n) &&
      e.rx.duplicate == (pid != if job.toggle then Data1 else Data0) && e.report.toggle == (pid == Data1)
  }

  lemma SilenceIsQuiet(wires: seq<Wire>, a: nat, n: nat, started: bool, quiet: nat)
    requires a <= n < |wires| && Quieted(wires, a, n, started, quiet) && quiet < 60_000
    ensures Silent(wires, a, n) <==> !wires[n].rxActive && !started && quiet == 59_999
    ensures Quieted(wires, a, n + 1, wires[n].rxActive,
                    if wires[n].rxActive || started then 0 else quiet + 1)
  {
  }

  lemma JudgeIn(e: Engine, job: Job, wires: seq<Wire>, a: nat, n: nat)
    requires a <= n < |wires| && n - a <= 63_191 && Waiting(e, job, wires, a, n) && wires[n].connected
    requires job.token == In
    ensures Obeys(Next(e, wires[n]), job, wires, a, n)
  {
    SilenceIsQuiet(wires, a, n, e.rx.started, e.rx.quiet);
  }

  lemma JudgeOut(e: Engine, job: Job, wires: seq<Wire>, a: nat, n: nat)
    requires a <= n < |wires| && n - a <= 63_191 && Waiting(e, job, wires, a, n) && wires[n].connected
    requires job.token != In
    ensures Obeys(Next(e, wires[n]), job, wires, a, n)
  {
    SilenceIsQuiet(wires, a, n, e.rx.started, e.rx.quiet);
  }

  lemma JudgeStepAt(run: seq<Engine>, wires: seq<Wire>, job: Job, a: nat, n: nat)
    requires IsRun(run, wires) && a <= n < |wires| && n - a <= 63_191 && wires[n].connected
    requires Waiting(run[n], job, wires, a, n)
    ensures Obeys(run[n + 1], job, wires, a, n)
  {
    assert Follows(run, wires, n);
    if job.token == In {
      JudgeIn(run[n], job, wires, a, n);
    } else {
      JudgeOut(run[n], job, wires, a, n);
    }
  }

  lemma {:induction false} WaitsOn(run: seq<Engine>, wires: seq<Wire>, a: nat, n: nat)
    requires IsRun(run, wires) && a <= n <= |wires| && Connected(wires, a, n) && Fresh(run[a])
    requires AllOpen(wires, run[a].job.token == In, a, n)
    ensures Waiting(run[n], run[a].job, wires, a, n)
    decreases n
  {
    if n > a {
      WaitsOn(run, wires, a, n - 1);
      assert Open(wires, run[a].job.token == In, a, n - 1);
      JudgeStepAt(run, wires, run[a].job, a, n - 1);
    }
  }

  /** The first clock with a verdict ends the wait, and the wait ends with that verdict. */
  lemma WaitEnds(run: seq<Engine>, wires: seq<Wire>, a: nat, n: nat)
    requires IsRun(run, wires) && a <= n < |wires| && Connected(wires, a, n + 1) && Fresh(run[a])
    requires AllOpen(wires, run[a].job.token == In, a, n)
    ensures Obeys(run[n + 1], run[a].job, wires, a, n)
  {
    WaitsOn(run, wires, a, n);
    if n > a {
      assert Open(wires, run[a].job.token == In, a, n - 1);
    }
    JudgeStepAt(run, wires, run[a].job, a, n);
  }

  // ---- The acknowledgement ----------------------------------------------------------------------

  predicate AckSeen(wires: seq<Wire>, a: nat, n: nat)
    requires n <= |wires|
  {
    exists j :: a <= j < n && wires[j].ackValid
  }

  /** The turnaround is over on clock u, the ACK out on clock x. */
  predicate AckOut(wires: seq<Wire>, a: nat, u: nat, x: nat) {
    a <= u < x < |wires| && wires[u].turnaround && (forall j :: a <= j < u ==> !wires[j].turnaround) &&
    AckSeen(wires, u + 1, x) && !wires[x].ackValid &&
    forall j :: u < j < x && AckSeen(wires, u + 1, j) ==> wires[j].ackValid
  }

  predicate Acking(e: Engine, from: Engine, phase: Phase) {
    e.phase == phase && e.job == from.job && e.rx == from.rx && !e.report.done && e.report.toggle == from.report.toggle
  }

  lemma {:induction false} TurnsAround(run: seq<Engine>, wires: seq<Wire>, a: nat, u: nat, n: nat)
    requires IsRun(run, wires) && a <= n <= u < |wires| && Connected(wires, a, n)
    requires run[a].phase == AckGap && !run[a].report.done && forall j :: a <= j < u ==> !wires[j].turnaround
    ensures Acking(run[n], run[a], AckGap)
    decreases n
  {
    if n > a {
      TurnsAround(run, wires, a, u, n - 1);
      assert Follows(run, wires, n - 1);
    }
  }

  lemma AckStep(e: Engine, w: Wire, from: Engine)
    requires w.connected && (Acking(e, from, SendAck) || (Acking(e, from, AckGap) && w.turnaround))
    ensures var n, goes := Next(e, w), e.phase == SendAck && e.tx.started && !w.ackValid;
            Acking(n, from, if goes then AckDrain else SendAck) &&
            (!goes ==> (n.tx.started <==> e.phase == SendAck && (e.tx.started || w.ackValid))) &&
            (goes ==> n.gap == 0 && n.report.length == if from.rx.duplicate then 0 else from.rx.count)
  {
  }

  lemma {:induction false} AcksOn(run: seq<Engine>, wires: seq<Wire>, a: nat, u: nat, x: nat, n: nat)
    requires IsRun(run, wires) && AckOut(wires, a, u, x) && u < n <= x && Connected(wires, a, n)
    requires run[a].phase == AckGap && !run[a].report.done
    ensures Acking(run[n], run[a], SendAck) && (run[n].tx.started <==> AckSeen(wires, u + 1, n))
    decreases n
  {
    if n == u + 1 {
      TurnsAround(run, wires, a, u, u);
    } else {
      AcksOn(run, wires, a, u, x, n - 1);
      assert AckSeen(wires, u + 1, n) <==> AckSeen(wires, u + 1, n - 1) || wires[n - 1].ackValid;
    }
    assert Follows(run, wires, n - 1);
    AckStep(run[n - 1], wires[n - 1], run[a]);
  }

  /** A packet is acknowledged after the turnaround, and its ACK left to drain with the length to report. */
  lemma AckEnds(run: seq<Engine>, wires: seq<Wire>, a: nat, u: nat, x: nat)
    requires IsRun(run, wires) && AckOut(wires, a, u, x) && Connected(wires, a, x + 1)
    requires run[a].phase == AckGap && !run[a].report.done
    ensures Acking(run[x + 1], run[a], AckDrain) && run[x + 1].gap == 0
    ensures run[x + 1].report.length == if run[a].rx.duplicate then 0 else run[a].rx.count
  {
    AcksOn(run, wires, a, u, x, x);
    assert Follows(run, wires, x);
    AckStep(run[x], wires[x], run[a]);
  }
}
