/** What a control transfer has done when it says so, and when it is bound to end. */
module ControlGuarantees {
  import opened ControlTransfer

  predicate IsRun(run: seq<World>, es: seq<Event>) {
    |run| == |es| + 1 && Inv(run[0]) &&
    forall n :: 0 <= n < |es| ==> Fair(es[n]) && run[n + 1] == Next(run[n], es[n])
  }

  lemma {:induction false} InvOverRuns(run: seq<World>, es: seq<Event>, n: nat)
    requires IsRun(run, es) && n <= |es|
    ensures Inv(run[n])
  {
    if n > 0 {
      InvOverRuns(run, es, n - 1);
      NextKeepsInv(run[n - 1], es[n - 1]);
    }
  }

  /** Whatever was lost, repeated or refused on the way, a transfer that reports success has given the
   *  device its eight SETUP bytes and carried its data stage exactly. */
  lemma SuccessDelivers(run: seq<World>, es: seq<Event>, n: nat)
    requires IsRun(run, es) && n <= |es|
    requires run[n].c.report.done && run[n].c.report.status == Success
    ensures run[n].device.request == SetupBytes(run[n].c.order) && Delivered(run[n])
  {
    InvOverRuns(run, es, n);
  }

  /** The device's new address takes effect exactly when its SET_ADDRESS has succeeded, status stage and all. */
  lemma AddressFollowsSuccess(run: seq<World>, es: seq<Event>, n: nat)
    requires IsRun(run, es) && n <= |es|
    ensures run[n].c.report.setAddress <==>
            run[n].c.report.done && run[n].c.report.status == Success && SetsAddress(run[n].c.order)
  {
    InvOverRuns(run, es, n);
  }

  /** What is handed on is at every moment a prefix of what the device answers. */
  lemma StreamedIsPrefix(run: seq<World>, es: seq<Event>, n: nat)
    requires IsRun(run, es) && n <= |es|
    requires run[n].c.phase.Stream? || run[n].c.phase == Issue(Read) || run[n].c.phase == Wait(Read)
    ensures run[n].taken <= |run[n].device.packets|
    ensures run[n].streamed <= Flat(run[n].device.packets, run[n].taken)
  {
    InvOverRuns(run, es, n);
  }

  // ---- A device that answers as it should ---------------------------------------------------

  /** The packets split a response, the last one short unless all that was asked for is there. */
  predicate Splits(packets: seq<seq<U8>>, response: seq<U8>, o: Order) {
    0 < |packets| && Flat(packets, |packets|) == response && |response| <= o.length &&
    Full(packets, |packets| - 1, o.maxPacket) &&
    (|packets[|packets| - 1]| < o.maxPacket || |response| == o.length)
  }

  lemma {:induction false} FlatGrows(packets: seq<seq<U8>>, m: nat, n: nat)
    requires m <= n <= |packets|
    ensures Flat(packets, m) <= Flat(packets, n)
    decreases n
  {
    if m < n {
      FlatGrows(packets, m, n - 1);
    }
  }

  lemma WholeResponse(packets: seq<seq<U8>>, response: seq<U8>, n: nat, o: Order)
    requires Splits(packets, response, o) && Complete(packets, n, o)
    ensures Flat(packets, n) == response
  {
    FlatGrows(packets, n, |packets|);
  }

  /** So a read that succeeds has handed on the device's whole response and not a byte more. */
  lemma ReadsWholeResponse(run: seq<World>, es: seq<Event>, n: nat, response: seq<U8>)
    requires IsRun(run, es) && n <= |es|
    requires run[n].c.report.done && run[n].c.report.status == Success && Reads(run[n].c.order)
    requires Splits(run[n].device.packets, response, run[n].c.order)
    ensures run[n].streamed == response && run[n].c.report.transferred == |response|
  {
    SuccessDelivers(run, es, n);
    WholeResponse(run[n].device.packets, response, run[n].taken, run[n].c.order);
  }

  // ---- Every transfer makes finitely much progress ------------------------------------------

  /** Falls with every fresh answer and every packet handed on. */
  function Rank(c: Control): nat {
    match c.phase
    case Idle => 0
    case Stream => 2 * Remaining(c) + 1
    case _ =>
      match c.phase.stage
      case Setup => 2 * c.order.length + 3
      case Closing => 1
      case _ => 2 * Remaining(c) + 2
  }

  lemma RankFalls(w: World, e: Event)
    requires Inv(w) && !w.c.phase.Idle?
    ensures var v := Next(w, e); var heard := Heard(w.c, InputOf(w, e));
            Rank(v.c) <= Rank(w.c) && (heard == Some(Fresh) ==> Rank(v.c) < Rank(w.c))
  {
  }

  // ---- The NAK bound, and what escapes it ---------------------------------------------------

  /** Clocks m to n of one stage, asking and waiting, without a fresh answer or an end. */
  predicate Stretch(run: seq<World>, es: seq<Event>, m: nat, n: nat) {
    IsRun(run, es) && m <= n <= |es| && Timed(run[m].c) &&
    forall k :: m <= k < n ==>
      Heard(run[k].c, InputOf(run[k], es[k])) != Some(Fresh) && Ends(run[k].c, InputOf(run[k], es[k])).None?
  }

  lemma {:induction false} TimerRuns(run: seq<World>, es: seq<Event>, m: nat, n: nat)
    requires Stretch(run, es, m, n) && run[m].c.nak.active
    ensures Timed(run[n].c) && run[n].c.nak == NakTimer(true, run[m].c.nak.count + n - m)
    decreases n
  {
    if m < n {
      TimerRuns(run, es, m, n - 1);
      assert run[n] == Next(run[n - 1], es[n - 1]);
    }
  }

  /** Once a device has answered NAK, the stage ends or moves on within the bound. */
  lemma NakStretchIsBounded(run: seq<World>, es: seq<Event>, m: nat, n: nat)
    requires Stretch(run, es, m, n) && run[m].c.nak.active
    ensures n - m < NAK_LIMIT
  {
    TimerRuns(run, es, m, n);
    InvOverRuns(run, es, n);
  }

  lemma {:induction false} StaysTimed(run: seq<World>, es: seq<Event>, m: nat, n: nat)
    requires Stretch(run, es, m, n)
    ensures Timed(run[n].c)
    decreases n
  {
    if m < n {
      StaysTimed(run, es, m, n - 1);
      assert run[n] == Next(run[n - 1], es[n - 1]);
    }
  }

  /** The only answer that neither ends the stage, nor moves it on, nor starts the bound running. */
  predicate OnlyRepeats(w: World) {
    w.c.phase.Wait? && w.result.Some? ==> w.result.value.status == Success && w.result.value.duplicate
  }

  /** A stage can outlast the bound only if, until the bound's length from its end, every answer it
   *  heard repeated the packet before. */
  lemma OutlastingIsRepeats(run: seq<World>, es: seq<Event>, m: nat, n: nat, k: nat)
    requires Stretch(run, es, m, n) && m <= k && k + NAK_LIMIT < n
    ensures !run[k].c.nak.active && OnlyRepeats(run[k])
  {
    StaysTimed(run, es, m, k);
    StaysTimed(run, es, m, k + 1);
    assert run[k + 1] == Next(run[k], es[k]);
    if run[k].c.nak.active {
      NakStretchIsBounded(run, es, k, n);
    }
    if run[k + 1].c.nak.active {
      NakStretchIsBounded(run, es, k + 1, n);
    }
  }

  /** About to ask a device that missed the last ACK and will repeat its packet. */
  predicate Repeating(w: World) {
    w.c.phase == Issue(Read) && !w.c.nak.active && w.job.None? && w.result.None? &&
    w.device.toggle != w.c.data.toggle && w.device.sent < |w.device.packets| &&
    |w.device.packets[w.device.sent]| <= MAX_PACKET
  }

  function Deaf(ready: bool, finish: bool): Event {
    Event(None, [], true, ready, true, finish, Answers, true, false, [], [], Result(Success, 0, false))
  }

  lemma RepeatsAgain(w: World)
    requires Repeating(w)
    ensures var v := Next(w, Deaf(true, false)); var u := Next(v, Deaf(false, true));
            var t := Next(u, Deaf(false, false));
            v.c.phase == Wait(Read) && u.c.phase == Wait(Read) && Repeating(t)
  {
  }

  lemma Extended(run: seq<World>, es: seq<Event>, e: Event) returns (longer: seq<World>, more: seq<Event>)
    requires IsRun(run, es) && Fair(e)
    ensures longer == run + [Next(run[|es|], e)] && more == es + [e] && IsRun(longer, more)
  {
    longer, more := run + [Next(run[|es|], e)], es + [e];
  }

  predicate AllReading(run: seq<World>) {
    forall n :: 0 <= n < |run| ==> run[n].c.phase == Issue(Read) || run[n].c.phase == Wait(Read)
  }

  lemma OneRoundMore(run: seq<World>, es: seq<Event>) returns (run': seq<World>, es': seq<Event>)
    requires IsRun(run, es) && Inv(run[|es|]) && Repeating(run[|es|]) && AllReading(run)
    ensures IsRun(run', es') && |es'| == |es| + 3 && run'[0] == run[0]
    ensures Inv(run'[|es'|]) && Repeating(run'[|es'|]) && AllReading(run')
  {
    RepeatsAgain(run[|es|]);
    run', es' := Extended(run, es, Deaf(true, false));
    run', es' := Extended(run', es', Deaf(false, true));
    run', es' := Extended(run', es', Deaf(false, false));
  }

  /** With a device that never sees an ACK the transfer goes on for ever: nothing bounds it. */
  lemma {:induction false} RepeatsNeverEnd(w: World, rounds: nat) returns (run: seq<World>, es: seq<Event>)
    requires Inv(w) && Repeating(w)
    ensures IsRun(run, es) && |es| == 3 * rounds && run[0] == w && Repeating(run[|es|])
    ensures AllReading(run)
  {
    run, es := [w], [];
    for n := 0 to rounds
      invariant IsRun(run, es) && |es| == 3 * n && run[0] == w && AllReading(run)
      invariant Inv(run[|es|]) && Repeating(run[|es|])
    {
      run, es := OneRoundMore(run, es);
    }
  }

  /** Handing on a full packet whose ACK was lost. */
  predicate Missed(w: World) {
    w.c.phase.Stream? && !w.c.data.final && !w.c.nak.active && w.job.None? && w.result.None? &&
    w.device.toggle != w.c.data.toggle && w.device.sent < |w.device.packets| &&
    |w.device.packets[w.device.sent]| <= MAX_PACKET && w.c.data.streamIndex < w.c.data.packetLength
  }

  lemma HandsOn(w: World)
    requires Missed(w)
    ensures var v := Next(w, Deaf(false, false));
            if LastByte(w.c) then Repeating(v)
            else Missed(v) && v.c.data.packetLength == w.c.data.packetLength &&
                 v.c.data.streamIndex == w.c.data.streamIndex + 1
  {
  }

  /** A read of 16 bytes from a device with 8-byte packets. */
  const ORDER := Order(0x80, 6, 0x100, 0, 16, 8)
  const ZEROES: seq<U8> := [0, 0, 0, 0, 0, 0, 0, 0]
  const ATTACHED := World(
    Control(Idle, ORDER, Progress(false, 0, 0, 0, false), NakTimer(false, 0), Report(false, Success, 0, false)),
    None, None, Device([], false, [], [], 0), [], [], [], 0)

  function Asked(): Event { Deaf(false, false).(start := Some(ORDER), payload := ZEROES + ZEROES) }

  function SetUp(): Event { Deaf(false, true).(acked := true, packets := [ZEROES, ZEROES]) }

  /** A moment of that read before its first byte is handed on. */
  function Moment(
    phase: Phase, toggle: bool, packet: nat, job: Option<Job>, result: Option<Result>, device: Device,
    buffer: seq<U8>, taken: nat): World
  {
    World(Control(phase, ORDER, Progress(toggle, 0, packet, 0, false), NakTimer(false, 0),
                  Report(false, Success, 0, false)),
          job, result, device, ZEROES + ZEROES, buffer, [], taken)
  }

  function Configured(): Device { Device(SetupBytes(ORDER), true, [], [ZEROES, ZEROES], 0) }

  lemma SetsUp() returns (run: seq<World>, es: seq<Event>)
    ensures IsRun(run, es) && run[0] == ATTACHED
    ensures run[|es|] == Moment(Wait(Setup), true, 0, Some(Job(Setup, false)), None, ATTACHED.device, [], 0)
  {
    run, es := Extended([ATTACHED], [], Asked());
    run, es := Extended(run, es, Deaf(true, false));
  }

  lemma AsksFirst() returns (run: seq<World>, es: seq<Event>)
    ensures IsRun(run, es) && run[0] == ATTACHED
    ensures run[|es|] == Moment(Issue(Read), true, 0, None, None, Configured(), [], 0)
  {
    run, es := SetsUp();
    run, es := Extended(run, es, SetUp());
    run, es := Extended(run, es, Deaf(false, false));
  }

  lemma HearsFirst() returns (run: seq<World>, es: seq<Event>)
    ensures IsRun(run, es) && run[0] == ATTACHED
    ensures run[|es|] == Moment(Wait(Read), true, 0, None, Some(Result(Success, 8, false)), Configured(), ZEROES, 0)
  {
    run, es := AsksFirst();
    run, es := Extended(run, es, Deaf(true, false));
    run, es := Extended(run, es, Deaf(false, true));
  }

  lemma LosesFirstAck() returns (run: seq<World>, es: seq<Event>)
    ensures IsRun(run, es) && run[0] == ATTACHED && Missed(run[|es|])
  {
    run, es := HearsFirst();
    run, es := Extended(run, es, Deaf(false, false));
  }

  /** And losing one ACK, then every ACK, is all it takes to get there. */
  lemma {:induction false} RepeatingIsReached() returns (run: seq<World>, es: seq<Event>)
    ensures IsRun(run, es) && run[0] == ATTACHED && Repeating(run[|es|])
  {
    run, es := LosesFirstAck();
    while !LastByte(run[|es|].c)
      invariant IsRun(run, es) && run[0] == ATTACHED && Missed(run[|es|])
      decreases run[|es|].c.data.packetLength - run[|es|].c.data.streamIndex
    {
      HandsOn(run[|es|]);
      run, es := Extended(run, es, Deaf(false, false));
    }
    HandsOn(run[|es|]);
    run, es := Extended(run, es, Deaf(false, false));
  }
}
