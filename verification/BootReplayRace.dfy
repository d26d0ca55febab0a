/** A second trigger, taken late, undoes a choice the PC made after it. */
module BootReplayRace {
  import opened BootProtocol

  /** Seventeen cycles on a device with two interfaces. */
  function Cue(k: nat): Input {
    match k
    case 0 => Input(Some(Some(Protocol(1, true))), None, false, false)
    case 1 => Input(None, Some(true), false, false)
    case 2 => Input(None, None, true, false)
    case 3 => Input(None, None, false, true)
    case 5 => Input(Some(Some(Protocol(0, true))), None, false, true)
    case 6 => Input(None, Some(true), false, false)
    case 7 => Input(None, None, true, false)
    case 10 => Input(None, Some(true), false, false)
    case _ => Input(None, None, false, false)
  }

  function At(t: Tracker, r: Relay, p: Pulses, device: set<U8>): System {
    System([0, 1], t, r, p, device)
  }

  /** The registers before each of them. */
  function Scene(k: nat): System {
    match k
    case 0 =>
      At(Tracker(Idle, [false, false], 0, 0, [false, false], None, [false, false], false, false),
         Free, Pulses(None, None), {})
    case 1 =>
      At(Tracker(Idle, [false, false], 0, 0, [false, false], None, [false, false], false, false),
         Busy(Forward(Some(Protocol(1, true)))), Pulses(None, None), {})
    case 2 =>
      At(Tracker(Idle, [false, false], 0, 0, [false, false], None, [false, false], false, false),
         Finished(Forward(Some(Protocol(1, true))), true), Pulses(Some(Protocol(1, true)), None), {1})
    case 3 =>
      At(Tracker(Idle, [false, false], 0, 0, [false, false], Some(Snoop([false, true], true)),
         [false, false], false, false), Free, Pulses(None, None), {1})
    case 4 =>
      At(Tracker(Idle, [false, false], 0, 0, [false, false], None, [false, true], true, true),
         Free, Pulses(None, None), {1})
    case 5 =>
      At(Tracker(Select, [false, true], 0, 0, [false, false], None, [false, true], false, false),
         Free, Pulses(None, None), {1})
    case 6 =>
      At(Tracker(Offer, [false, true], 1, 1, [false, false], None, [false, true], true, true),
         Busy(Forward(Some(Protocol(0, true)))), Pulses(None, None), {1})
    case 7 =>
      At(Tracker(Offer, [false, true], 1, 1, [false, true], None, [false, true], true, false),
         Finished(Forward(Some(Protocol(0, true))), true), Pulses(Some(Protocol(0, true)), None), {0, 1})
    case 8 =>
      At(Tracker(Offer, [false, true], 1, 1, [false, true], Some(Snoop([true, false], true)),
         [false, true], true, false), Free, Pulses(None, None), {0, 1})
    case 9 =>
      At(Tracker(Offer, [false, true], 1, 1, [false, true], None, [true, true], true, false),
         Free, Pulses(None, None), {0, 1})
    case 10 =>
      At(Tracker(Offer, [false, true], 1, 1, [false, true], None, [true, true], true, false),
         Busy(Replay(1)), Pulses(None, None), {0, 1})
    case 11 =>
      At(Tracker(Wait, [false, true], 1, 1, [false, true], None, [true, true], true, false),
         Finished(Replay(1), true), Pulses(None, None), {0})
    case 12 =>
      At(Tracker(Wait, [false, true], 1, 1, [false, true], None, [true, true], true, false),
         Free, Pulses(None, Some(true)), {0})
    case 13 =>
      At(Tracker(Select, [false, false], 1, 1, [false, true], None, [true, false], true, false),
         Free, Pulses(None, None), {0})
    case 14 =>
      At(Tracker(Idle, [false, false], 1, 1, [false, true], None, [true, false], true, false),
         Free, Pulses(None, None), {0})
    case 15 =>
      At(Tracker(Select, [true, false], 1, 1, [false, true], None, [true, false], false, false),
         Free, Pulses(None, None), {0})
    case 16 =>
      At(Tracker(Offer, [true, false], 0, 0, [false, true], None, [true, false], false, false),
         Free, Pulses(None, None), {0})
    case _ =>
      At(Tracker(Offer, [true, false], 0, 0, [true, false], None, [true, false], false, false),
         Busy(Replay(0)), Pulses(None, None), {0})
  }

  predicate SameBits(a: seq<bool>, b: seq<bool>) {
    |a| == 2 == |b| && a[0] == b[0] && a[1] == b[1]
  }

  predicate SameTracker(n: Tracker, v: Tracker) {
    SameBits(n.pending, v.pending) && SameBits(n.boot, v.boot) && SameBits(n.same, v.same) &&
    (v.apply.Some? <==> n.apply.Some?) &&
    (n.apply.Some? ==>
       SameBits(n.apply.value.matched, v.apply.value.matched) &&
       n.apply.value.boot == v.apply.value.boot) &&
    v.phase == n.phase && v.current == n.current && v.currentInterface == n.currentInterface &&
    v.triggerSeen == n.triggerSeen && v.triggerPrev == n.triggerPrev
  }

  lemma SameTrackerIsEqual(n: Tracker, v: Tracker)
    requires SameTracker(n, v)
    ensures n == v
  {
    assert n.pending == v.pending && n.boot == v.boot && n.same == v.same;
    if n.apply.Some? {
      assert n.apply.value.matched == v.apply.value.matched;
    }
  }

  /** A step checked register by register. */
  lemma Steps(s: System, i: Input, u: System)
    requires s.table == u.table && u.relay == NextRelay(s.relay, s.tracker, i)
    requires u.pulses == NextPulses(s.relay, i) && u.device == NextDevice(s.device, s.relay, i)
    requires SameTracker(NextTracker(s.table, s.tracker, s.relay, s.pulses, i.trigger), u.tracker)
    ensures Next(s, i) == u
  {
    SameTrackerIsEqual(NextTracker(s.table, s.tracker, s.relay, s.pulses, i.trigger), u.tracker);
  }

  lemma ChoosesInterface1(k: nat)
    requires 0 <= k < 4
    ensures Next(Scene(k), Cue(k)) == Scene(k + 1)
  {
    match k {
      case 0 => Steps(Scene(0), Cue(0), Scene(1));
      case 1 => Steps(Scene(1), Cue(1), Scene(2));
      case 2 => Steps(Scene(2), Cue(2), Scene(3));
      case _ => Steps(Scene(3), Cue(3), Scene(4));
    }
  }

  lemma SecondTriggerRises(k: nat)
    requires 4 <= k < 8
    ensures Next(Scene(k), Cue(k)) == Scene(k + 1)
  {
    match k {
      case 4 => Steps(Scene(4), Cue(4), Scene(5));
      case 5 => Steps(Scene(5), Cue(5), Scene(6));
      case 6 => Steps(Scene(6), Cue(6), Scene(7));
      case _ => Steps(Scene(7), Cue(7), Scene(8));
    }
  }

  lemma ReplayStarts(k: nat)
    requires 8 <= k < 11
    ensures Next(Scene(k), Cue(k)) == Scene(k + 1)
  {
    match k {
      case 8 => Steps(Scene(8), Cue(8), Scene(9));
      case 9 => Steps(Scene(9), Cue(9), Scene(10));
      case _ => Steps(Scene(10), Cue(10), Scene(11));
    }
  }

  lemma ReplayEnds(k: nat)
    requires 11 <= k < 14
    ensures Next(Scene(k), Cue(k)) == Scene(k + 1)
  {
    match k {
      case 11 => Steps(Scene(11), Cue(11), Scene(12));
      case 12 => Steps(Scene(12), Cue(12), Scene(13));
      case _ => Steps(Scene(13), Cue(13), Scene(14));
    }
  }

  lemma TakesTriggerLate(k: nat)
    requires 14 <= k < 17
    ensures Next(Scene(k), Cue(k)) == Scene(k + 1)
  {
    match k {
      case 14 => Steps(Scene(14), Cue(14), Scene(15));
      case 15 => Steps(Scene(15), Cue(15), Scene(16));
      case _ => Steps(Scene(16), Cue(16), Scene(17));
    }
  }

  /** Each scene leads to the next. */
  lemma Cycle(k: nat)
    requires k < 17
    ensures Next(Scene(k), Cue(k)) == Scene(k + 1)
  {
    if k < 4 {
      ChoosesInterface1(k);
    } else if k < 8 {
      SecondTriggerRises(k);
    } else if k < 11 {
      ReplayStarts(k);
    } else if k < 14 {
      ReplayEnds(k);
    } else {
      TakesTriggerLate(k);
    }
  }

  /**
   * From reset: the second trigger rises in cycle 5, while interface 1 is still being replayed to. The
   * PC's SET_PROTOCOL(boot) to interface 0 completes in cycle 6, after the trigger. The trigger is only
   * taken up in cycle 14, finds interface 0 in boot, and in cycle 16 the relay takes a replay that puts
   * it back into report protocol.
   */
  lemma LateTriggerUndoesChoice()
    ensures Scene(0) == Reset([0, 1]) && (forall k: nat :: k < 17 ==> Next(Scene(k), Cue(k)) == Scene(k + 1))
    ensures Cue(5).trigger && !Scene(5).tracker.triggerPrev && (forall k: nat :: 5 < k < 17 ==> !Cue(k).trigger)
    ensures Succeeds(Scene(6).relay, Cue(6)) && Scene(6).relay.op == Forward(Some(Protocol(0, true)))
    ensures Accepts(Scene(16), Cue(16)) && Scene(17).relay == Busy(Replay(0)) && 0 in Scene(17).device
  {
    assert Reset([0, 1]).tracker.pending == [false, false];
    forall k: nat | k < 17 ensures Next(Scene(k), Cue(k)) == Scene(k + 1) {
      Cycle(k);
    }
  }
}
