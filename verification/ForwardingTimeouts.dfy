/** The handler's 20 ms bound on a forward, and the one acceptance that escapes it. */
module ForwardingTimeouts {
  import opened ControlForwarding
  import opened ForwardingSafety

  /** The states that count towards the bound. */
  predicate Counting(phase: HandlerPhase) { phase == WaitRelay || phase == CaptureOut || phase == Awaiting }

  /** The timer has not run past the value it is compared with. */
  predicate InBound(h: Handler) { Counting(h.phase) ==> h.timer <= TIMEOUT_CYCLES }

  /** The relay takes the request on the very cycle WAIT_RELAY would have given up. */
  predicate LateAcceptance(h: Handler, bus: Bus, v: View) {
    h.phase == WaitRelay && h.timer == TIMEOUT_CYCLES && !bus.received && v.ready
  }

  /** The bound is kept from cycle to cycle exactly unless an acceptance is late, with or without OUT data. */
  lemma BoundIsKept(h: Handler, q: Request, bus: Bus, v: View)
    requires InBound(h)
    ensures InBound(NextHandler(h, q, bus, v)) <==> !LateAcceptance(h, bus, v)
  {
  }

  /** A cycle that ends neither the capture of OUT data nor the wait for the target. */
  predicate Silent(phase: HandlerPhase, bus: Bus, v: View) {
    !bus.received && if phase == CaptureOut then !bus.rxReady else !v.valid
  }

  /** How many silent cycles CAPTURE_OUT and AWAITING_TARGET hold out: the timer compares for equality. */
  function Patience(timer: Timer): nat {
    if timer <= TIMEOUT_CYCLES then TIMEOUT_CYCLES - timer
    else TIMER_MODULUS - timer + TIMEOUT_CYCLES
  }

  function Later(timer: Timer, n: nat): Timer
    requires n <= Patience(timer)
  {
    if timer + n < TIMER_MODULUS then timer + n else timer + n - TIMER_MODULUS
  }

  function Wait(h: Handler, q: Request, buses: seq<Bus>, views: seq<View>, n: nat): Handler
    requires n <= |buses| == |views|
  {
    if n == 0 then h else NextHandler(Wait(h, q, buses, views, n - 1), q, buses[n - 1], views[n - 1])
  }

  lemma {:induction false} HoldsOut(h: Handler, q: Request, buses: seq<Bus>, views: seq<View>, n: nat)
    requires n <= |buses| == |views|
    requires (h.phase == Awaiting || h.phase == CaptureOut) && n <= Patience(h.timer)
    requires forall k :: 0 <= k < |buses| ==> Silent(h.phase, buses[k], views[k])
    ensures var w := Wait(h, q, buses, views, n); w.phase == h.phase && w.timer == Later(h.timer, n)
    decreases n
  {
    if n > 0 {
      HoldsOut(h, q, buses, views, n - 1);
      assert Silent(h.phase, buses[n - 1], views[n - 1]);
    }
  }

  /** A silent wait, for OUT data or for the target, is given up after exactly Patience(timer) + 1 cycles. */
  lemma WaitGivesUp(h: Handler, q: Request, buses: seq<Bus>, views: seq<View>)
    requires h.phase == Awaiting || h.phase == CaptureOut
    requires |buses| == |views| == Patience(h.timer) + 1
    requires forall k :: 0 <= k < |buses| ==> Silent(h.phase, buses[k], views[k])
    ensures Wait(h, q, buses, views, |buses| - 1).phase == h.phase
    ensures Wait(h, q, buses, views, |buses|).phase == Drain
  {
    HoldsOut(h, q, buses, views, |buses| - 1);
    assert Silent(h.phase, buses[|buses| - 1], views[|buses| - 1]);
  }

  /**
   * After a late acceptance the equality test is missed, and the wait lasts until the counter wraps:
   * in all more than 3,000,000 cycles, past the 50 ms of section 9.2.6.4 of USB 2.0 at 60 MHz.
   */
  lemma LateAcceptanceOutlastsBound(h: Handler, q: Request, bus: Bus, v: View)
    requires LateAcceptance(h, bus, v)
    ensures var t := NextHandler(h, q, bus, v);
            t.phase == StageOf(q) && t.timer == TIMEOUT_CYCLES + 1 &&
            TIMEOUT_CYCLES + Patience(t.timer) > 3_000_000
  {
  }

  // ---- From reset to a late acceptance ----------------------------------------------------------

  const STILL: Bus := Bus(false, false, false, false, false, None)

  function Arriving(q: Request): Input { Input(STILL.(received := true), q, Busy()) }

  /** Nothing on the AUX bus; the control engine taken. */
  function Busy(): Engine { Engine(true, false, 0, true, false, false, 0, None) }

  function Doing(e: Engine): Input { Input(STILL, NO_REQUEST, e) }

  lemma {:induction false} RunPrefix(s: System, inputs: seq<Input>, i: Input, n: nat)
    requires n <= |inputs|
    ensures Run(s, inputs + [i], n) == Run(s, inputs, n)
    decreases n
  {
    if n > 0 {
      RunPrefix(s, inputs, i, n - 1);
    }
  }

  lemma Extended(inputs: seq<Input>, i: Input) returns (more: seq<Input>)
    ensures more == inputs + [i]
    ensures Run(Reset(), more, |more|) == Next(Run(Reset(), inputs, |inputs|), i)
  {
    more := inputs + [i];
    RunPrefix(Reset(), inputs, i, |inputs|);
  }

  /** A replay stuck behind a busy control engine, and the request waiting for the relay. */
  predicate Stuck(s: System, q: Request, phase: RelayPhase, timer: nat) {
    s.setup == q && s.handler.phase == WaitRelay && s.handler.timer == timer &&
    s.relay.control.phase == phase && s.relay.control.resyncActive
  }

  lemma GetsStuck(q: Request) returns (inputs: seq<Input>)
    requires IsClass(q) && WaitsForRelay(q)
    ensures Stuck(Run(Reset(), inputs, |inputs|), q, Issuing, 0)
  {
    inputs := Extended([], Doing(Busy().(resyncValid := true)));
    inputs := Extended(inputs, Arriving(q));
  }

  lemma StaysStuck(q: Request, until: nat) returns (inputs: seq<Input>)
    requires IsClass(q) && WaitsForRelay(q) && until <= TIMEOUT_CYCLES
    ensures Stuck(Run(Reset(), inputs, |inputs|), q, Issuing, until)
  {
    inputs := GetsStuck(q);
    for timer := 0 to until
      invariant Stuck(Run(Reset(), inputs, |inputs|), q, Issuing, timer)
    {
      inputs := Extended(inputs, Doing(Busy()));
    }
  }

  /** The engine falls free, finishes the replay, and the relay acknowledges it by itself. */
  lemma ReplayEnds(s: System, q: Request, timer: nat)
    requires Stuck(s, q, Issuing, timer) && timer + 3 <= TIMEOUT_CYCLES
    ensures var a := Next(s, Doing(Busy().(busy := false)));
            Stuck(a, q, Waiting, timer + 1) && Stuck(Next(a, Doing(Busy().(done := true))), q, Complete, timer + 2)
  {
  }

  lemma TakenAtLast(s: System, q: Request)
    requires Stuck(s, q, Complete, TIMEOUT_CYCLES - 1)
    ensures var t := Next(Next(s, Doing(Busy())), Doing(Busy()));
            t.setup == q && t.handler.phase == StageOf(q) && t.handler.timer == TIMEOUT_CYCLES + 1
  {
  }

  /** Any SET_IDLE or SET_PROTOCOL, with or without OUT data, can be accepted late. */
  lemma LateAcceptanceIsReached(q: Request) returns (inputs: seq<Input>)
    requires IsClass(q) && WaitsForRelay(q)
    ensures var s := Run(Reset(), inputs, |inputs|);
            s.setup == q && s.handler.phase == StageOf(q) && s.handler.timer == TIMEOUT_CYCLES + 1
  {
    inputs := StaysStuck(q, TIMEOUT_CYCLES - 3);
    ReplayEnds(Run(Reset(), inputs, |inputs|), q, TIMEOUT_CYCLES - 3);
    inputs := Extended(inputs, Doing(Busy().(busy := false)));
    inputs := Extended(inputs, Doing(Busy().(done := true)));
    TakenAtLast(Run(Reset(), inputs, |inputs|), q);
    inputs := Extended(inputs, Doing(Busy()));
    inputs := Extended(inputs, Doing(Busy()));
  }
}
