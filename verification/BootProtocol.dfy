/** Which interfaces the real device runs in boot protocol, and the replays that bring them back. */
module BootProtocol {
  type U8 = x: int | 0 <= x < 0x100

  datatype Option<T> = None | Some(value: T)

  /** A SET_PROTOCOL: the interface, and whether it asks for boot. */
  datatype Protocol = Protocol(interfaceNumber: U8, boot: bool)

  // ---- The relay and the device, as the tracker meets them ----------------------------------

  /** A forward carries a SET_PROTOCOL or something else; a replay always asks for report protocol. */
  datatype Operation = Forward(choice: Option<Protocol>) | Replay(interfaceNumber: U8)

  datatype Relay = Free | Busy(op: Operation) | Finished(op: Operation, ok: bool)

  /** The relay's registered pulses. */
  datatype Pulses = Pulses(forwardOk: Option<Protocol>, resyncDone: Option<bool>)

  predicate ResyncActive(r: Relay) { !r.Free? && r.op.Replay? }

  // ---- The tracker's registers --------------------------------------------------------------

  datatype Phase = Idle | Select | Offer | Wait

  /** The snoop's first stage: the slots whose interface a completed SET_PROTOCOL named. */
  datatype Snoop = Snoop(matched: seq<bool>, boot: bool)

  datatype Tracker = Tracker(
    phase: Phase, pending: seq<bool>, current: nat, currentInterface: U8, same: seq<bool>,
    apply: Option<Snoop>, boot: seq<bool>, triggerSeen: bool, triggerPrev: bool)

  /** What one cycle brings: the handler's forward, the engine's end, the handler's ack, the trigger. */
  datatype Input = Input(start: Option<Option<Protocol>>, finish: Option<bool>, ack: bool, trigger: bool)

  /** table holds each slot's interface; boot holds boot_mask's bit for each slot's endpoint. */
  datatype System = System(table: seq<U8>, tracker: Tracker, relay: Relay, pulses: Pulses, device: set<U8>)

  function Matching(table: seq<U8>, interfaceNumber: U8): (m: seq<bool>)
    ensures |m| == |table|
  {
    seq(|table|, k requires 0 <= k < |table| => table[k] == interfaceNumber)
  }

  /** The lowest pending slot. */
  function Lowest(pending: seq<bool>, n: nat): (k: nat)
    requires n <= |pending|
    ensures k <= n && (k < n ==> pending[k]) && forall j :: 0 <= j < k ==> !pending[j]
  {
    if n == 0 then 0
    else
      var k := Lowest(pending, n - 1);
      if k < n - 1 then k else if pending[n - 1] then n - 1 else n
  }

  predicate Offered(t: Tracker) { t.phase == Offer && t.current < |t.pending| && t.pending[t.current] }

  predicate ResyncValid(t: Tracker) { Offered(t) && t.apply.None? }

  predicate Snooped(t: Tracker, k: nat) {
    t.apply.Some? && k < |t.apply.value.matched| && t.apply.value.matched[k]
  }

  predicate Replayed(t: Tracker, p: Pulses) { t.phase == Wait && p.resyncDone == Some(true) }

  function NextPhase(t: Tracker, r: Relay, p: Pulses): Phase {
    match t.phase
    case Idle => if t.triggerSeen then Select else Idle
    case Select => if Lowest(t.pending, |t.pending|) == |t.pending| then Idle else Offer
    case Offer => if ResyncActive(r) then Wait else if !Offered(t) then Select else Offer
    case Wait => if p.resyncDone.Some? then Select else Wait
  }

  /** A snooped choice of the PC's wins over whatever the state machine loads. */
  function NextPending(t: Tracker, p: Pulses): seq<bool> {
    seq(|t.pending|, k requires 0 <= k < |t.pending| =>
      !Snooped(t, k) &&
      if t.phase == Idle && t.triggerSeen then k < |t.boot| && t.boot[k]
      else if t.phase == Wait && p.resyncDone.Some? then t.pending[k] && !(k < |t.same| && t.same[k])
      else t.pending[k])
  }

  function NextBoot(t: Tracker, p: Pulses): seq<bool> {
    seq(|t.boot|, k requires 0 <= k < |t.boot| =>
      if Snooped(t, k) then t.apply.value.boot
      else t.boot[k] && !(Replayed(t, p) && k < |t.same| && t.same[k]))
  }

  function NextTracker(table: seq<U8>, t: Tracker, r: Relay, p: Pulses, trigger: bool): Tracker {
    var lowest := Lowest(t.pending, |t.pending|);
    var selects := t.phase == Select && lowest < |t.pending| && lowest < |table|;
    Tracker(
      NextPhase(t, r, p), NextPending(t, p),
      if selects then lowest else t.current,
      if selects then table[lowest] else t.currentInterface,
      if t.phase == Offer then Matching(table, t.currentInterface) else t.same,
      if p.forwardOk.Some? then
        Some(Snoop(Matching(table, p.forwardOk.value.interfaceNumber), p.forwardOk.value.boot))
      else None,
      NextBoot(t, p),
      (trigger && !t.triggerPrev) || (t.triggerSeen && t.phase != Idle),
      trigger)
  }

  /** The handler's forward wins over the tracker's offer; one that ends as it starts was refused. */
  function NextRelay(r: Relay, t: Tracker, i: Input): Relay {
    match r
    case Free =>
      if i.start.Some? then
        if i.finish.Some? then Finished(Forward(i.start.value), false) else Busy(Forward(i.start.value))
      else if ResyncValid(t) then Busy(Replay(t.currentInterface)) else Free
    case Busy(op) => if i.finish.Some? then Finished(op, i.finish.value) else r
    case Finished(op, ok) => if op.Replay? || i.ack then Free else r
  }

  predicate Succeeds(r: Relay, i: Input) { r.Busy? && i.finish == Some(true) }

  function NextPulses(r: Relay, i: Input): Pulses {
    Pulses(if Succeeds(r, i) && r.op.Forward? then r.op.choice else None,
           if r.Finished? && r.op.Replay? then Some(r.ok) else None)
  }

  /** The device changes when a transfer succeeds, and not otherwise. */
  function NextDevice(device: set<U8>, r: Relay, i: Input): set<U8> {
    if !Succeeds(r, i) then device
    else
      match r.op
      case Replay(interfaceNumber) => device - {interfaceNumber}
      case Forward(choice) =>
        if choice.None? then device
        else if choice.value.boot then device + {choice.value.interfaceNumber}
        else device - {choice.value.interfaceNumber}
  }

  function Next(s: System, i: Input): System {
    System(s.table,
           NextTracker(s.table, s.tracker, s.relay, s.pulses, i.trigger),
           NextRelay(s.relay, s.tracker, i),
           NextPulses(s.relay, i),
           NextDevice(s.device, s.relay, i))
  }

  function NoBits(n: nat): seq<bool> { seq(n, k => false) }

  function ResetTracker(n: nat): Tracker {
    Tracker(Idle, NoBits(n), 0, 0, NoBits(n), None, NoBits(n), false, false)
  }

  class BootProtocolTracker {
    const table: seq<U8>
    var phase: Phase
    var pending: seq<bool>
    var current: nat
    var currentInterface: U8
    var same: seq<bool>
    var apply: Option<Snoop>
    var boot: seq<bool>
    var triggerSeen: bool
    var triggerPrev: bool

    constructor (table: seq<U8>)
      ensures this.table == table && State() == ResetTracker(|table|)
    {
      this.table := table;
      phase, current, currentInterface, apply := Idle, 0, 0, None;
      pending, same, boot := NoBits(|table|), NoBits(|table|), NoBits(|table|);
      triggerSeen, triggerPrev := false, false;
    }

    function State(): Tracker
      reads this
    {
      Tracker(phase, pending, current, currentInterface, same, apply, boot, triggerSeen, triggerPrev)
    }

    /** The state machine's own registers; pending slots and the mask follow in Snoop. */
    method StepPhase(r: Relay, p: Pulses)
      modifies `phase, `current, `currentInterface, `same
      ensures phase == NextPhase(old(State()), r, p)
      ensures var n := NextTracker(table, old(State()), r, p, false);
              current == n.current && currentInterface == n.currentInterface && same == n.same
    {
      match phase {
        case Idle =>
          if triggerSeen {
            phase := Select;
          }
        case Select =>
          var lowest := Lowest(pending, |pending|);
          if lowest == |pending| {
            phase := Idle;
          } else {
            phase := Offer;
            if lowest < |table| {
              current, currentInterface := lowest, table[lowest];
            }
          }
        case Offer =>
          same := Matching(table, currentInterface);
          if ResyncActive(r) {
            phase := Wait;
          } else if !(current < |pending| && pending[current]) {
            phase := Select;
          }
        case Wait =>
          if p.resyncDone.Some? {
            phase := Select;
          }
      }
    }

    /** One clock edge. */
    method Tick(r: Relay, p: Pulses, trigger: bool)
      modifies this
      ensures State() == NextTracker(table, old(State()), r, p, trigger)
    {
      ghost var t := State();
      var nextPending, nextBoot := NextPending(State(), p), NextBoot(State(), p);
      var seen := (trigger && !triggerPrev) || (triggerSeen && phase != Idle);
      StepPhase(r, p);
      pending, boot, triggerSeen, triggerPrev := nextPending, nextBoot, seen, trigger;
      apply := None;
      if p.forwardOk.Some? {
        var choice := p.forwardOk.value;
        apply := Some(Snoop(Matching(table, choice.interfaceNumber), choice.boot));
      }
    }
  }

  // ---- What the tracker's registers mean ----------------------------------------------------

  predicate Shaped(s: System) {
    var t, n := s.tracker, |s.table|;
    |t.pending| == n && |t.same| == n && |t.boot| == n && (t.apply.Some? ==> |t.apply.value.matched| == n)
  }

  /** boot_mask's bit for a slot once everything already completed has gone through the pipeline. */
  predicate Settled(s: System, k: nat)
    requires Shaped(s) && k < |s.table|
  {
    if s.pulses.forwardOk.Some? && s.pulses.forwardOk.value.interfaceNumber == s.table[k] then
      s.pulses.forwardOk.value.boot
    else if s.relay == Finished(Replay(s.table[k]), true) then false
    else NextBoot(s.tracker, s.pulses)[k]
  }

  /** Where a replay is on its way from the offer to the mask. */
  predicate ReplayInv(s: System)
    requires Shaped(s)
  {
    var t, r, p := s.tracker, s.relay, s.pulses;
    (forall j, k :: 0 <= j < |s.table| && 0 <= k < |s.table| && s.table[j] == s.table[k] ==>
       (Snooped(t, j) <==> Snooped(t, k))) &&
    (p.forwardOk.Some? ==> r == Finished(Forward(p.forwardOk), true)) &&
    (ResyncActive(r) ==>
       t.apply.None? && r.op == Replay(t.currentInterface) && (t.phase == Wait || (t.phase == Offer && r.Busy?))) &&
    (p.resyncDone.Some? ==> t.phase == Wait && !ResyncActive(r)) &&
    (t.phase == Wait ==>
       t.same == Matching(s.table, t.currentInterface) && (ResyncActive(r) || p.resyncDone.Some?)) &&
    (t.phase == Offer || t.phase == Wait ==>
       t.current < |s.table| && s.table[t.current] == t.currentInterface) &&
    (ResyncActive(r) || p.resyncDone.Some? ==> t.apply.None? && t.pending[t.current])
  }

  predicate MaskInv(s: System)
    requires Shaped(s)
  {
    forall k :: 0 <= k < |s.table| ==> (Settled(s, k) <==> s.table[k] in s.device)
  }

  /**
   * Since the pending slots were last loaded: the interfaces the PC has set the protocol of, a choice
   * still on its way at the load included, and the interfaces replayed to.
   */
  datatype Ledger = Ledger(chosen: set<U8>, replayed: set<U8>)

  predicate Loads(t: Tracker) { t.phase == Idle && t.triggerSeen }

  predicate Accepts(s: System, i: Input) { s.relay.Free? && i.start.None? && ResyncValid(s.tracker) }

  /** The PC's choice that completes on this cycle. */
  function Choice(s: System, i: Input): Option<Protocol> {
    if Succeeds(s.relay, i) && s.relay.op.Forward? then s.relay.op.choice else None
  }

  /** Interfaces whose choice has completed but not yet reached mask and pending slots. */
  function InPipeline(s: System): set<U8> {
    (if s.pulses.forwardOk.Some? then {s.pulses.forwardOk.value.interfaceNumber} else {}) +
    (set k | 0 <= k < |s.table| && Snooped(s.tracker, k) :: s.table[k])
  }

  function NextLedger(l: Ledger, s: System, i: Input): Ledger {
    var kept := if Loads(s.tracker) then Ledger(InPipeline(s), {}) else l;
    Ledger(
      if Choice(s, i).Some? then kept.chosen + {Choice(s, i).value.interfaceNumber} else kept.chosen,
      if Accepts(s, i) then kept.replayed + {s.tracker.currentInterface} else kept.replayed)
  }

  /** A choice of the PC's about this slot's interface is still on its way to the pending bits. */
  predicate Arriving(s: System, k: nat)
    requires Shaped(s) && k < |s.table|
  {
    Snooped(s.tracker, k) ||
    (s.pulses.forwardOk.Some? && s.pulses.forwardOk.value.interfaceNumber == s.table[k])
  }

  predicate LedgerInv(s: System, l: Ledger)
    requires Shaped(s)
  {
    forall k :: 0 <= k < |s.table| && s.tracker.pending[k] ==>
      (s.table[k] in l.chosen ==> Arriving(s, k)) &&
      (s.table[k] in l.replayed ==>
         s.table[k] == s.tracker.currentInterface && (ResyncActive(s.relay) || s.pulses.resyncDone.Some?))
  }

  predicate Inv(s: System, l: Ledger) {
    Shaped(s) && ReplayInv(s) && MaskInv(s) && LedgerInv(s, l)
  }

  lemma ReplayKept(s: System, i: Input)
    requires Shaped(s) && ReplayInv(s)
    ensures Shaped(Next(s, i)) && ReplayInv(Next(s, i))
  {
  }

  lemma MaskKept(s: System, i: Input, k: nat)
    requires Shaped(s) && ReplayInv(s) && k < |s.table|
    requires Settled(s, k) <==> s.table[k] in s.device
    ensures Shaped(Next(s, i)) && (Settled(Next(s, i), k) <==> s.table[k] in Next(s, i).device)
  {
  }

  lemma LedgerKept(s: System, l: Ledger, i: Input)
    requires Shaped(s) && ReplayInv(s) && LedgerInv(s, l)
    ensures Shaped(Next(s, i)) && LedgerInv(Next(s, i), NextLedger(l, s, i))
  {
  }

  lemma NextKeepsInv(s: System, l: Ledger, i: Input)
    requires Inv(s, l)
    ensures Inv(Next(s, i), NextLedger(l, s, i))
  {
    ReplayKept(s, i);
    forall k | 0 <= k < |s.table| ensures Settled(Next(s, i), k) <==> s.table[k] in Next(s, i).device {
      MaskKept(s, i, k);
    }
    LedgerKept(s, l, i);
  }

  // ---- Whole runs ---------------------------------------------------------------------------

  function Reset(table: seq<U8>): System {
    System(table, ResetTracker(|table|), Free, Pulses(None, None), {})
  }

  datatype Pair = Pair(system: System, ledger: Ledger)

  predicate Step(p: Pair, i: Input, q: Pair) {
    q == Pair(Next(p.system, i), NextLedger(p.ledger, p.system, i))
  }

  /** A run from reset, the device in report protocol on every interface. */
  predicate IsRun(table: seq<U8>, run: seq<Pair>, inputs: seq<Input>) {
    |run| == |inputs| + 1 && run[0] == Pair(Reset(table), Ledger({}, {})) &&
    forall k :: 0 <= k < |inputs| ==> Step(run[k], inputs[k], run[k + 1])
  }

  lemma ResetHolds(table: seq<U8>)
    ensures Inv(Reset(table), Ledger({}, {}))
  {
  }

  lemma StepKeepsInv(p: Pair, i: Input, q: Pair)
    requires Inv(p.system, p.ledger) && Step(p, i, q)
    ensures Inv(q.system, q.ledger)
  {
    NextKeepsInv(p.system, p.ledger, i);
  }

  lemma {:induction false} RunKeepsInv(table: seq<U8>, run: seq<Pair>, inputs: seq<Input>, n: nat)
    requires IsRun(table, run, inputs) && n < |run|
    ensures Inv(run[n].system, run[n].ledger)
    decreases n
  {
    if n == 0 {
      ResetHolds(table);
    } else {
      RunKeepsInv(table, run, inputs, n - 1);
      StepKeepsInv(run[n - 1], inputs[n - 1], run[n]);
    }
  }

  lemma SettlesInOne(s: System, l: Ledger, i: Input, k: nat)
    requires Inv(s, l) && k < |s.table|
    ensures Shaped(Next(s, i)) && NextBoot(Next(s, i).tracker, Next(s, i).pulses)[k] == Settled(s, k)
  {
    ReplayKept(s, i);
  }

  /** The mask is the device's protocol state, exactly two cycles late: never earlier, never wrong. */
  lemma MaskIsTwoCyclesLate(table: seq<U8>, run: seq<Pair>, inputs: seq<Input>, n: nat, k: nat)
    requires IsRun(table, run, inputs) && n + 2 < |run| && k < |run[n].system.table|
    ensures var late := run[n + 2].system.tracker.boot;
            k < |late| && (late[k] <==> run[n].system.table[k] in run[n].system.device)
  {
    RunKeepsInv(table, run, inputs, n);
    RunKeepsInv(table, run, inputs, n + 1);
    assert Step(run[n], inputs[n], run[n + 1]) && Step(run[n + 1], inputs[n + 1], run[n + 2]);
    SettlesInOne(run[n].system, run[n].ledger, inputs[n], k);
  }

  /**
   * A replay the relay takes goes to an interface still in boot when the pending slots were loaded,
   * that the PC has not set since and that has not been replayed to since.
   */
  lemma ReplayIsWanted(table: seq<U8>, run: seq<Pair>, inputs: seq<Input>, n: nat)
    requires IsRun(table, run, inputs) && n < |inputs| && Accepts(run[n].system, inputs[n])
    ensures var target := run[n].system.tracker.currentInterface;
            target !in run[n].ledger.chosen && target !in run[n].ledger.replayed &&
            run[n + 1].system.relay == Busy(Replay(target))
  {
    RunKeepsInv(table, run, inputs, n);
    assert Step(run[n], inputs[n], run[n + 1]);
  }

  function Count(pending: seq<bool>, n: nat): nat
    requires n <= |pending|
  {
    if n == 0 then 0 else Count(pending, n - 1) + if pending[n - 1] then 1 else 0
  }

  lemma {:induction false} CountShrinks(a: seq<bool>, b: seq<bool>, n: nat, gone: nat)
    requires n <= |a| == |b| && forall k :: 0 <= k < n ==> (b[k] ==> a[k])
    requires gone < |a| && a[gone] && !b[gone]
    ensures Count(b, n) <= Count(a, n) && (gone < n ==> Count(b, n) < Count(a, n))
    decreases n
  {
    if n > 0 {
      CountShrinks(a, b, n - 1, gone);
    }
  }

  /** Each finished replay settles at least one pending slot, so a trigger's replays come to an end. */
  lemma ReplayShrinksPending(s: System, l: Ledger, i: Input)
    requires Inv(s, l) && s.pulses.resyncDone.Some?
    ensures var t := Next(s, i).tracker;
            |t.pending| == |s.table| && t.phase == Select &&
            Count(t.pending, |t.pending|) < Count(s.tracker.pending, |s.tracker.pending|)
  {
    CountShrinks(s.tracker.pending, NextPending(s.tracker, s.pulses), |s.table|, s.tracker.current);
  }

  /** Between triggers nothing is ever added to the pending slots. */
  lemma PendingOnlyShrinks(s: System, l: Ledger, i: Input, k: nat)
    requires Inv(s, l) && !Loads(s.tracker) && k < |s.table|
    ensures |Next(s, i).tracker.pending| == |s.table|
    ensures Next(s, i).tracker.pending[k] ==> s.tracker.pending[k]
  {
  }
}
