/** What becomes of a forwarded request, to the clock: served, stalled or given up. */
module ForwardOutcome {
  import opened ControlForwarding
  import S = ForwardingSafety

  predicate IsRun(run: seq<S.System>, xs: seq<S.Input>) {
    |run| == |xs| + 1 && forall n :: 0 <= n < |xs| ==> Follows(run, xs, n)
  }

  predicate Follows(run: seq<S.System>, xs: seq<S.Input>, n: nat)
    requires n < |xs| && n + 1 < |run|
  {
    run[n + 1] == S.Next(run[n], xs[n])
  }

  /** No new SETUP, and the enumerator keeps the relay enabled. */
  predicate Calm(xs: seq<S.Input>, a: nat, n: nat)
    requires n <= |xs|
  {
    forall j :: a <= j < n ==> !xs[j].bus.received && xs[j].engine.enable
  }

  // ---- Offering -------------------------------------------------------------------------------

  /** The handler has just put this request to the relay, which has just taken it. */
  predicate Offered(s: S.System, q: Request) {
    s.setup == q && s.handler.phase == Awaiting && s.handler.timer == 0 && s.relay.control.request == q &&
    !s.relay.control.resyncActive && !s.relay.answer.resyncDone &&
    if q.length > 64 then s.relay.control.phase == Complete && s.relay.answer.error
    else s.relay.control.phase == Issuing && !s.relay.answer.error
  }

  /** A class SETUP that arrives at rest, the relay free: one without OUT data is offered at once, and with OUT
   *  data its bytes are collected first. */
  lemma SetupIsOffered(s: S.System, i: S.Input)
    requires s.handler.phase == Idle && i.bus.received && i.newSetup.kind == 1
    requires s.relay.control.phase == Ready && i.engine.enable
    ensures var t, q := S.Next(s, i), i.newSetup;
            if q.isIn || q.length == 0 then Offered(t, q)
            else
              t.setup == q && t.handler.phase == CaptureOut && t.handler.timer == 0 && t.handler.outCursor == 0 &&
              !t.handler.packetOk && t.relay.control.request == q && !t.relay.control.resyncActive &&
              t.relay.control.phase == (if q.length > 64 then Complete else Collecting)
  {
  }

  /** With the relay taken, SET_IDLE and SET_PROTOCOL wait for it; any other class request is refused; and a SETUP
   *  that is no class request is none of the handler's business. */
  lemma SetupMeetsBusyRelay(s: S.System, i: S.Input)
    requires s.handler.phase == Idle && i.bus.received
    requires i.newSetup.kind == 1 ==> s.relay.control.phase != Ready || !i.engine.enable
    ensures var t, q := S.Next(s, i), i.newSetup;
            if q.kind != 1 then t.handler.phase == Idle
            else
              t.handler.timer == 0 &&
              t.handler.phase == if q.request == 0x0a || q.request == 0x0b then WaitRelay else Stall
  {
  }

  /** The wait for the relay: over with the relay, or after 20 ms. */
  lemma WaitsForTheRelay(s: S.System, i: S.Input)
    requires s.handler.phase == WaitRelay && !i.bus.received
    ensures var t, q := S.Next(s, i), s.setup;
            if s.relay.control.phase == Ready && i.engine.enable then
              t.relay.control.request == q && !t.relay.control.resyncActive &&
              t.handler.phase == if q.isIn || q.length == 0 then Awaiting else CaptureOut
            else t.handler.phase == if s.handler.timer == 1_200_000 then Stall else WaitRelay
  {
  }

  /** Collecting OUT data: it is over when a packet ends with at least wLength bytes in. */
  lemma CaptureEnds(s: S.System, i: S.Input)
    requires s.handler.phase == CaptureOut && !i.bus.received
    ensures var t, h := S.Next(s, i), s.handler;
            if h.timer == 1_200_000 then t.handler.phase == Drain
            else if i.bus.rxReady && h.packetOk && h.outCursor >= s.setup.length then
              t.handler.phase == Awaiting && t.handler.timer == 0
            else t.handler.phase == CaptureOut && (h.timer < 0x1F_FFFF ==> t.handler.timer == h.timer + 1)
  {
  }

  // ---- The target's answer ----------------------------------------------------------------------

  /** The control engine is free on clock a and not before, and is done on clock d. */
  predicate Carried(xs: seq<S.Input>, m: nat, a: nat, d: nat) {
    m <= a < d < |xs| && !xs[a].engine.busy && (forall j :: m <= j < a ==> xs[j].engine.busy) &&
    xs[d].engine.done && forall j :: a < j < d ==> !xs[j].engine.done
  }

  /** The relay's way through the engine, while the handler waits. */
  predicate Underway(s: S.System, q: Request, phase: RelayPhase, timer: nat) {
    s.setup == q && s.handler.phase == Awaiting && s.handler.timer == timer && s.relay.control.request == q &&
    s.relay.control.phase == phase && !s.relay.control.resyncActive &&
    (phase == Issuing || phase == Waiting ==> !s.relay.answer.error)
  }

  lemma UnderwayStep(s: S.System, i: S.Input, q: Request, phase: RelayPhase, timer: nat)
    requires Underway(s, q, phase, timer) && timer < 1_200_000 && !i.bus.received && i.engine.enable
    requires phase == Issuing || phase == Waiting
    ensures var t := S.Next(s, i);
            if phase == Issuing then Underway(t, q, if i.engine.busy then Issuing else Waiting, timer + 1)
            else
              Underway(t, q, if i.engine.done then Complete else Waiting, timer + 1) &&
              (i.engine.done ==>
                 t.relay.answer.error == i.engine.failed && t.relay.answer.length == i.engine.transferred &&
                 t.relay.answer.forwardOk == !i.engine.failed)
  {
  }

  lemma {:induction false} StaysUnderway(run: seq<S.System>, xs: seq<S.Input>, m: nat, a: nat, d: nat, n: nat)
    requires IsRun(run, xs) && Carried(xs, m, a, d) && m <= n <= d && Calm(xs, m, n) && n - m <= 1_200_000
    requires Underway(run[m], run[m].setup, Issuing, 0)
    ensures Underway(run[n], run[m].setup, if n <= a then Issuing else Waiting, n - m)
    decreases n
  {
    if n > m {
      StaysUnderway(run, xs, m, a, d, n - 1);
      assert Follows(run, xs, n - 1);
      UnderwayStep(run[n - 1], xs[n - 1], run[m].setup, if n - 1 <= a then Issuing else Waiting, n - 1 - m);
    }
  }

  /** The clock on which the handler sees the answer: it responds, or stalls and lets the relay go. */
  lemma AnswerStep(s: S.System, i: S.Input, q: Request, timer: nat)
    requires Underway(s, q, Complete, timer) && !i.bus.received
    ensures var t := S.Next(s, i);
            if s.relay.answer.error then t.handler.phase == Stall && t.relay.control.phase == Ready
            else
              t.handler.phase == Respond && t.relay.control.phase == Complete && !t.relay.answer.error &&
              t.relay.answer.length == s.relay.answer.length
  {
  }

  /**
   * A request offered on clock m whose transfer ends on clock d, no later than 20 ms after, is answered on
   * clock d + 2: a good transfer with a response of as many bytes as were transferred, a failed one with a
   * stall; and a request of more than 64 bytes is stalled at once.
   */
  lemma AnsweredInTime(run: seq<S.System>, xs: seq<S.Input>, m: nat, a: nat, d: nat)
    requires IsRun(run, xs) && Carried(xs, m, a, d) && d + 1 < |xs| && Calm(xs, m, d + 2) && d - m < 1_200_000
    requires Underway(run[m], run[m].setup, Issuing, 0)
    ensures var t := run[d + 2];
            if xs[d].engine.failed then t.handler.phase == Stall && t.relay.control.phase == Ready
            else
              t.handler.phase == Respond && t.relay.control.phase == Complete && !t.relay.answer.error &&
              t.relay.answer.length == xs[d].engine.transferred
  {
    StaysUnderway(run, xs, m, a, d, d);
    assert Follows(run, xs, d) && Follows(run, xs, d + 1);
    UnderwayStep(run[d], xs[d], run[m].setup, Waiting, d - m);
    AnswerStep(run[d + 1], xs[d + 1], run[m].setup, d + 1 - m);
  }

  lemma OversizedIsStalled(s: S.System, i: S.Input, q: Request)
    requires Offered(s, q) && q.length > 64 && !i.bus.received
    ensures S.Next(s, i).handler.phase == Stall && S.Next(s, i).relay.control.phase == Ready
  {
  }

  /** A target lost before the transfer could start has the request stalled two clocks later. */
  lemma LostTargetIsStalled(s: S.System, i: S.Input, k: S.Input, q: Request, timer: nat)
    requires Underway(s, q, Issuing, timer) && timer < 1_200_000 && !i.bus.received && !k.bus.received
    requires !i.engine.enable
    ensures S.Next(S.Next(s, i), k).handler.phase == Stall && S.Next(S.Next(s, i), k).relay.control.phase == Ready
  {
    AnswerStep(S.Next(s, i), k, q, timer + 1);
  }

  /** A transfer that takes longer is given up on the clock after 20 ms, and the PC stalled. */
  lemma GivenUpLate(run: seq<S.System>, xs: seq<S.Input>, m: nat, a: nat, d: nat)
    requires IsRun(run, xs) && Carried(xs, m, a, d) && d - m >= 1_200_000 && Calm(xs, m, m + 1_200_001)
    requires Underway(run[m], run[m].setup, Issuing, 0)
    ensures run[m + 1_200_001].handler.phase == Drain
  {
    var n := m + 1_200_000;
    StaysUnderway(run, xs, m, a, d, n);
    assert Follows(run, xs, n);
  }

  // ---- Its end ----------------------------------------------------------------------------------

  /** A response is served until the PC's status stage, which lets the relay go. */
  lemma ResponseEnds(s: S.System, i: S.Input)
    requires s.handler.phase == Respond && s.relay.control.phase == Complete && !s.relay.control.resyncActive
    requires !i.bus.received
    ensures var t := S.Next(s, i);
            if i.bus.statusRequested then t.handler.phase == Idle && t.relay.control.phase == Ready
            else
              t.handler.phase == Respond && t.relay.control.phase == Complete &&
              t.relay.answer.length == s.relay.answer.length
  {
  }

  /** A stall is over with the first token that meets it, IN, OUT or status. */
  lemma StallEnds(s: S.System, i: S.Input)
    requires s.handler.phase == Stall && !i.bus.received
    ensures S.Next(s, i).handler.phase ==
            if i.bus.dataRequested || i.bus.statusRequested || i.bus.rxReady then Idle else Stall
  {
  }

  /** Given up or overtaken, the handler lets the relay finish, and then takes up the class SETUP that has come
   *  meanwhile, if one has. */
  lemma DrainEnds(s: S.System, i: S.Input)
    requires s.handler.phase == Drain && !i.bus.received
    ensures var t, c := S.Next(s, i), s.relay.control;
            if c.phase == Complete && !c.resyncActive then
              t.handler.phase == (if s.handler.setupPending then Dispatch else Idle) && t.relay.control.phase == Ready
            else if c.requestPending then t.handler.phase == Drain
            else t.handler.phase == if s.handler.setupPending then Dispatch else Idle
  {
  }

  /** A new SETUP ends whatever else was going on, and is remembered if it is a class request. */
  lemma SetupOvertakes(s: S.System, i: S.Input)
    requires s.handler.phase != Idle && i.bus.received
    ensures var t := S.Next(s, i);
            t.setup == i.newSetup &&
            if s.handler.phase == Drain then
              t.handler.phase == Drain || t.handler.phase == (if i.newSetup.kind == 1 || s.handler.setupPending
                                                              then Dispatch else Idle)
            else t.handler.phase == Drain && (t.handler.setupPending <==> i.newSetup.kind == 1)
  {
  }

  /** A remembered SETUP is put to the relay like one that has just come. */
  lemma RememberedIsOffered(s: S.System, i: S.Input)
    requires s.handler.phase == Dispatch && !i.bus.received && s.setup.kind == 1
    ensures var t, q := S.Next(s, i), s.setup;
            if s.relay.control.phase == Ready && i.engine.enable then
              t.relay.control.request == q &&
              t.handler.phase == if q.isIn || q.length == 0 then Awaiting else CaptureOut
            else t.handler.phase == if q.request == 0x0a || q.request == 0x0b then WaitRelay else Stall
  {
  }
}
