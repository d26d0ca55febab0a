/** The relay as the boot-protocol tracker sees it is the relay of the forwarding path, projected. */
module RelayProjection {
  import F = ControlForwarding
  import B = BootProtocol

  /** What the tracker's snoop makes of a request: a SET_PROTOCOL to an interface, or nothing. */
  function ChoiceOf(q: F.Request): B.Option<B.Protocol> {
    if q.recipient == 1 && q.kind == F.CLASS && !q.isIn && q.request == F.SET_PROTOCOL && q.index < 0x100
    then B.Some(B.Protocol(q.index, q.value == 0)) else B.None
  }

  function OperationOf(c: F.RelayControl): B.Operation {
    if c.resyncActive then B.Replay(if c.request.index < 0x100 then c.request.index else 0)
    else B.Forward(ChoiceOf(c.request))
  }

  function Projected(c: F.RelayControl, a: F.RelayAnswer): B.Relay {
    match c.phase
    case Ready => B.Free
    case Complete => B.Finished(OperationOf(c), !a.error)
    case _ => B.Busy(OperationOf(c))
  }

  function PulsesOf(c: F.RelayControl, a: F.RelayAnswer): B.Pulses {
    B.Pulses(if a.forwardOk then ChoiceOf(c.request) else B.None, if a.resyncDone then B.Some(!a.error) else B.None)
  }

  /** The clock as the tracker's model takes it. */
  function InputOf(c: F.RelayControl, b: F.Bounce, d: F.Drive, e: F.Engine, trigger: bool): B.Input {
    var next := F.NextRelayPhase(c, b, d, e);
    B.Input(
      if F.Takes(c, d, e) && d.offer then B.Some(ChoiceOf(d.request)) else B.None,
      if c.phase != F.Complete && next == F.Complete then B.Some(c.phase == F.Waiting && !e.failed) else B.None,
      d.ack, trigger)
  }

  /** The tracker's request lines; it is held in reset while the relay is disabled. */
  predicate Wired(t: B.Tracker, e: F.Engine) {
    (e.resyncValid <==> B.ResyncValid(t)) && (e.resyncValid ==> e.enable && e.resyncIndex == t.currentInterface)
  }

  lemma ReadyProjects(c: F.RelayControl, a: F.RelayAnswer, b: F.Bounce, d: F.Drive, e: F.Engine, t: B.Tracker,
                     trigger: bool)
    requires Wired(t, e) && c.phase == F.Ready
    ensures Projected(F.NextControl(c, b, d, e), F.NextAnswer(c, a, d, e)) ==
            B.NextRelay(Projected(c, a), t, InputOf(c, b, d, e, trigger))
  {
  }

  lemma BusyProjects(c: F.RelayControl, a: F.RelayAnswer, b: F.Bounce, d: F.Drive, e: F.Engine, t: B.Tracker,
                     trigger: bool)
    requires Wired(t, e) && c.phase != F.Ready
    ensures Projected(F.NextControl(c, b, d, e), F.NextAnswer(c, a, d, e)) ==
            B.NextRelay(Projected(c, a), t, InputOf(c, b, d, e, trigger))
  {
  }

  /** One clock of the forwarding relay, seen through the projection, is one clock of the tracker's. */
  lemma StepProjects(c: F.RelayControl, a: F.RelayAnswer, b: F.Bounce, d: F.Drive, e: F.Engine, t: B.Tracker,
                     trigger: bool)
    requires Wired(t, e)
    ensures Projected(F.NextControl(c, b, d, e), F.NextAnswer(c, a, d, e)) ==
            B.NextRelay(Projected(c, a), t, InputOf(c, b, d, e, trigger))
  {
    if c.phase == F.Ready {
      ReadyProjects(c, a, b, d, e, t, trigger);
    } else {
      BusyProjects(c, a, b, d, e, t, trigger);
    }
  }

  /** And so are the pulses it sends the tracker. */
  lemma PulsesProject(c: F.RelayControl, a: F.RelayAnswer, b: F.Bounce, d: F.Drive, e: F.Engine, trigger: bool)
    ensures PulsesOf(F.NextControl(c, b, d, e), F.NextAnswer(c, a, d, e)) ==
            B.NextPulses(Projected(c, a), InputOf(c, b, d, e, trigger))
  {
  }
}
