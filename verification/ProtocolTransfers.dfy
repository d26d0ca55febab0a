/** SET_PROTOCOL on the wire: the device's protocol as its own SETUP packets set it. */
module ProtocolTransfers {
  import B = BootProtocol
  import F = ControlForwarding
  import P = RelayProjection
  import S = ForwardingSafety
  import T = ControlTransfer
  import W = ForwardedTransfers

  type U8 = T.U8

  /** The whole path beside the tracker, and the interfaces the device has in boot protocol. */
  datatype World = World(path: W.Path, system: B.System, boots: set<U8>)

  datatype Clock = Clock(k: W.Clock, trigger: bool)

  function DriveOf(p: W.Path, k: W.Clock): F.Drive { S.DriveOf(p.s, W.InputOf(p, k)) }

  function TrackerInput(p: W.Path, x: Clock): B.Input {
    var r := p.s.relay;
    P.InputOf(r.control, r.bounce, DriveOf(p, x.k), W.EngineOf(p.w, x.k), x.trigger)
  }

  /**
   * What a device makes of a control transfer that succeeds, from its SETUP packet alone (section 7.2.6 of
   * HID 1.11): 21 0b vv vv ii 00 ll ll enters boot protocol on interface ii for a value of 0, and leaves it
   * for any other.
   */
  function AfterSetup(boots: set<U8>, setup: seq<U8>): set<U8> {
    if |setup| == 8 && setup[0] == 0x21 && setup[1] == 0x0b && setup[5] == 0 then
      if setup[2] == 0 && setup[3] == 0 then boots + {setup[4]} else boots - {setup[4]}
    else boots
  }

  function Next(w: World, x: Clock): World {
    World(W.Next(w.path, x.k), B.Next(w.system, TrackerInput(w.path, x)),
          if W.Succeeds(w.path) then AfterSetup(w.boots, w.path.w.device.request) else w.boots)
  }

  predicate Civil(w: World, x: Clock) {
    W.Civil(w.path, x.k) && P.Wired(w.system.tracker, W.EngineOf(w.path.w, x.k))
  }

  predicate IsRun(table: seq<U8>, run: seq<World>, xs: seq<Clock>) {
    |run| == |xs| + 1 && run[0].path.s == S.Reset() && T.Inv(run[0].path.w) && run[0].path.w.c.phase.Idle? &&
    run[0].system == B.Reset(table) && run[0].boots == {} &&
    forall n :: 0 <= n < |xs| ==> Civil(run[n], xs[n]) && run[n + 1] == Next(run[n], xs[n])
  }

  // ---- A replay's request -------------------------------------------------------------------

  /** Only the tracker's requests are replays, and they are SET_PROTOCOL to report protocol. */
  predicate AsksForReport(c: F.RelayControl) {
    c.resyncActive && c.phase != F.Ready ==>
      c.request.index < 0x100 && c.request == F.Request(1, 1, false, 0x0b, 1, c.request.index, 0)
  }

  predicate Inv(w: World) {
    var r := w.path.s.relay;
    W.Inv(w.path) && AsksForReport(r.control) && w.system.relay == P.Projected(r.control, r.answer) &&
    w.system.pulses == P.PulsesOf(r.control, r.answer) && w.boots == w.system.device
  }

  lemma AsksOn(c: F.RelayControl, b: F.Bounce, d: F.Drive, e: F.Engine, t: B.Tracker)
    requires AsksForReport(c) && P.Wired(t, e)
    ensures AsksForReport(F.NextControl(c, b, d, e))
  {
  }

  /** The transfer that ends well on this clock has sent the device the SETUP packet of the relay's request. */
  lemma SuccessSentIt(p: W.Path)
    requires W.Inv(p) && W.Succeeds(p)
    ensures p.w.device.request == T.SetupBytes(W.OrderOf(p.s.relay.control.request, 1))
  {
  }

  lemma BytesSplit(v: nat)
    requires v < 0x1_0000
    ensures v == v % 0x100 + 0x100 * (v / 0x100 % 0x100)
  {
  }

  lemma TypeByteOf(q: F.Request)
    requires W.Wide(q)
    ensures W.TypeByte(q) == 0x21 <==> q.recipient == 1 && q.kind == 1 && !q.isIn
  {
  }

  function AfterChoice(boots: set<U8>, choice: B.Option<B.Protocol>): set<U8> {
    match choice
    case None => boots
    case Some(p) => if p.boot then boots + {p.interfaceNumber} else boots - {p.interfaceNumber}
  }

  /** What the tracker snoops off a request is what a device makes of its SETUP packet. */
  lemma SnoopReadsTheSetup(boots: set<U8>, q: F.Request)
    requires W.Wide(q)
    ensures AfterSetup(boots, T.SetupBytes(W.OrderOf(q, 1))) == AfterChoice(boots, P.ChoiceOf(q))
  {
    TypeByteOf(q);
    BytesSplit(q.value);
    BytesSplit(q.index);
  }

  /** And so is a replay. */
  lemma ReplayLeavesBoot(boots: set<U8>, c: F.RelayControl)
    requires AsksForReport(c) && c.resyncActive && c.phase != F.Ready
    ensures P.ChoiceOf(c.request) == B.Some(B.Protocol(c.request.index, false))
    ensures P.OperationOf(c) == B.Replay(c.request.index)
  {
  }

  lemma DeviceMoves(c: F.RelayControl, a: F.RelayAnswer, b: F.Bounce, d: F.Drive, e: F.Engine, trigger: bool,
                    boots: set<U8>)
    requires AsksForReport(c)
    ensures B.NextDevice(boots, P.Projected(c, a), P.InputOf(c, b, d, e, trigger)) ==
            if c.phase == F.Waiting && e.done && !e.failed then AfterChoice(boots, P.ChoiceOf(c.request)) else boots
  {
    if c.resyncActive && c.phase != F.Ready {
      ReplayLeavesBoot(boots, c);
    }
  }

  lemma DeviceKept(w: World, x: Clock)
    requires Inv(w) && Civil(w, x)
    ensures Next(w, x).boots == Next(w, x).system.device
  {
    var r, e := w.path.s.relay, W.EngineOf(w.path.w, x.k);
    DeviceMoves(r.control, r.answer, r.bounce, DriveOf(w.path, x.k), e, x.trigger, w.boots);
    if W.Succeeds(w.path) {
      SuccessSentIt(w.path);
      SnoopReadsTheSetup(w.boots, r.control.request);
    }
  }

  lemma NextKeepsInv(w: World, x: Clock)
    requires Inv(w) && Civil(w, x)
    ensures Inv(Next(w, x))
  {
    var r, d, e := w.path.s.relay, DriveOf(w.path, x.k), W.EngineOf(w.path.w, x.k);
    W.NextKeepsInv(w.path, x.k);
    AsksOn(r.control, r.bounce, d, e, w.system.tracker);
    P.StepProjects(r.control, r.answer, r.bounce, d, e, w.system.tracker, x.trigger);
    P.PulsesProject(r.control, r.answer, r.bounce, d, e, x.trigger);
    DeviceKept(w, x);
  }

  lemma {:induction false} RunKeepsInv(table: seq<U8>, run: seq<World>, xs: seq<Clock>, n: nat)
    requires IsRun(table, run, xs) && n <= |xs|
    ensures Inv(run[n])
    decreases n
  {
    if n == 0 {
      S.ResetHolds();
    } else {
      RunKeepsInv(table, run, xs, n - 1);
      NextKeepsInv(run[n - 1], xs[n - 1]);
    }
  }

  /** Over every run: the set of interfaces the tracker's theorems speak of is the one the SETUP packets of
   *  the transfers that succeeded have made. */
  lemma DeviceIsTheWires(table: seq<U8>, run: seq<World>, xs: seq<Clock>, n: nat)
    requires IsRun(table, run, xs) && n <= |xs|
    ensures run[n].system.device == run[n].boots
  {
    RunKeepsInv(table, run, xs, n);
  }

  lemma ReplayPacket(p: W.Path)
    requires W.Inv(p) && W.Succeeds(p) && AsksForReport(p.s.relay.control) && p.s.relay.control.resyncActive
    ensures p.w.device.request == [0x21, 0x0b, 0x01, 0x00, p.s.relay.control.request.index, 0x00, 0x00, 0x00]
  {
    SuccessSentIt(p);
    TypeByteOf(p.s.relay.control.request);
  }

  lemma PacketLeavesBoot(boots: set<U8>, ii: nat)
    requires ii < 0x100
    ensures AfterSetup(boots, [0x21, 0x0b, 0x01, 0x00, ii, 0x00, 0x00, 0x00]) == boots - {ii}
  {
  }

  /** Over every run: a replay that succeeds has sent its interface the packet 21 0b 01 00 ii 00 00 00, and
   *  the device has left boot protocol there. */
  lemma ReplayAsksForReport(table: seq<U8>, run: seq<World>, xs: seq<Clock>, n: nat)
    requires IsRun(table, run, xs) && n < |xs| && W.Succeeds(run[n].path)
    requires run[n].path.s.relay.control.resyncActive
    ensures var ii := run[n].path.s.relay.control.request.index;
            ii < 0x100 && run[n].path.w.device.request == [0x21, 0x0b, 0x01, 0x00, ii, 0x00, 0x00, 0x00] &&
            run[n + 1].boots == run[n].boots - {ii}
  {
    RunKeepsInv(table, run, xs, n);
    ReplayPacket(run[n].path);
    PacketLeavesBoot(run[n].boots, run[n].path.s.relay.control.request.index);
  }

  /** The interface is the one the tracker offered, and its replay is accepted only while it is offered. */
  lemma ReplayIsForTheOffer(table: seq<U8>, run: seq<World>, xs: seq<Clock>, n: nat)
    requires IsRun(table, run, xs) && n < |xs|
    requires !run[n].path.s.relay.control.resyncActive && run[n + 1].path.s.relay.control.resyncActive
    ensures B.ResyncValid(run[n].system.tracker)
    ensures run[n + 1].path.s.relay.control.request.index == run[n].system.tracker.currentInterface
  {
    RunKeepsInv(table, run, xs, n);
    assert run[n + 1] == Next(run[n], xs[n]);
  }
}
