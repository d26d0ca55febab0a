/**
 One report transaction of ReportInjectionEngine, from STATE_READ_WAIT to the final-byte
 handshake, under a map that may be lost at any of its snapshot checks.
 */
module EngineTransaction {
  import opened Bits
  import opened MapEntries
  import opened FieldPipeline
  import opened LayoutStates
  import opened InjectionRuns

  /** What one clock of OUTPUT sees: the relay's ready, and whether the map is still there. */
  datatype OutputCycle = OutputCycle(ready: bool, alive: bool)

  /** Bytes accepted in the first k clocks; a suppressed transaction accepts its own. */
  function Accepted(cycles: seq<OutputCycle>, suppressed: bool, k: nat): nat
    requires k <= |cycles|
  {
    if k == 0 then 0
    else Accepted(cycles, suppressed, k - 1) + if cycles[k - 1].ready || suppressed then 1 else 0
  }

  /** Clock k accepts the last of n bytes. */
  predicate FinishesAt(cycles: seq<OutputCycle>, suppressed: bool, n: nat, k: nat) {
    && k < |cycles| && n > 0
    && (cycles[k].ready || suppressed) && Accepted(cycles, suppressed, k) == n - 1
  }

  predicate AliveThrough(cycles: seq<OutputCycle>, k: nat)
    requires k <= |cycles|
  {
    forall j :: 0 <= j < k ==> cycles[j].alive
  }

  lemma {:induction false} AcceptedGrows(cycles: seq<OutputCycle>, suppressed: bool, j: nat, k: nat)
    requires j <= k <= |cycles|
    ensures Accepted(cycles, suppressed, j) <= Accepted(cycles, suppressed, k)
    decreases k
  {
    if j < k {
      AcceptedGrows(cycles, suppressed, j, k - 1);
    }
  }

  /** There is one clock on which the last byte is accepted. */
  lemma FinishIsUnique(cycles: seq<OutputCycle>, suppressed: bool, n: nat, j: nat, k: nat)
    requires FinishesAt(cycles, suppressed, n, j) && FinishesAt(cycles, suppressed, n, k)
    ensures j == k
  {
    if j < k {
      AcceptedGrows(cycles, suppressed, j + 1, k);
    } else if k < j {
      AcceptedGrows(cycles, suppressed, k + 1, j);
    }
  }

  /** How an OUTPUT phase ended, at which clock, and whether its handshake committed. */
  datatype Emission =
    | Unfinished
    | LostBeforeFirstByte(at: nat)
    | Finished(at: nat, committed: bool)

  /** While nothing has been accepted, the map was there on every clock. */
  predicate AliveUntilAccepted(cycles: seq<OutputCycle>, suppressed: bool, k: nat)
    requires k <= |cycles|
  {
    forall j :: 0 <= j < k && Accepted(cycles, suppressed, j) == 0 ==> cycles[j].alive
  }

  /** What OUTPUT does with a lane: whole, in order, or not at all; and when it commits. */
  ghost predicate EmissionOf(
    lane: seq<Byte>, mapped: bool, suppressed: bool, cycles: seq<OutputCycle>, wire: seq<Byte>, e: Emission)
  {
    match e
    case Unfinished =>
      && Accepted(cycles, suppressed, |cycles|) < |lane|
      && (if suppressed then wire == [] else |wire| < |lane| && wire == lane[..|wire|])
      && (mapped ==> AliveUntilAccepted(cycles, suppressed, |cycles|))
    case LostBeforeFirstByte(k) =>
      && wire == [] && mapped && k < |cycles| && !cycles[k].alive
      && AliveThrough(cycles, k) && Accepted(cycles, suppressed, k) == 0
    case Finished(k, committed) =>
      && FinishesAt(cycles, suppressed, |lane|, k)
      && wire == (if suppressed then [] else lane)
      && (committed <==> mapped && AliveThrough(cycles, k + 1))
      && (mapped ==> AliveUntilAccepted(cycles, suppressed, k + 1))
  }

  /** One bit a kind of command: the transaction_* flags, and the *_ready outputs. */
  datatype Kinds = Kinds(relative: bool, button: bool, mask: bool, absolute: bool, clear: bool)

  const NO_KINDS := Kinds(false, false, false, false, false)

  /** The flags PREPARE registers: which commands target this report. */
  function Targets(c: Commands): (k: Kinds)
    ensures (k.relative <==> c.relative.Some?) && (k.button <==> c.button.Some?) && (k.mask <==> c.mask.Some?)
    ensures (k.absolute <==> c.absolute.Some?) && (k.clear <==> c.clear.Some?)
  {
    Kinds(c.relative.Some?, c.button.Some?, c.mask.Some?, c.absolute.Some?, c.clear.Some?)
  }

  datatype Outcome = Outcome(
    /** The bytes the relay took. */
    wire: seq<Byte>,
    /** The engine is back in CAPTURE. */
    complete: bool,
    /** The record was written, on the last clock. */
    committed: bool,
    /** The ready outputs raised, on the last clock. */
    ready: Kinds)

  /** Snapshot checks passed before OUTPUT: state read, capture, the field pipeline, priming. */
  function ChecksBeforeOutput(map_: seq<MapEntry>, t: Target, o: Overlay, suppressed: bool): nat
    requires o.Wellformed() && Usable(map_, t)
  {
    if suppressed then 3 else 3 + MutationChecks(map_, t, o, |map_|)
  }

  /** What a transaction merges into its report. */
  function OverlayOf(t: Transaction): Overlay {
    Overlay(t.buttons, t.masks, t.heldMask, t.heldValues)
  }

  /** The wire carries native bytes, or nothing of a stationary report, and no state moved. */
  predicate UntouchedOutcome(t: Target, o: Outcome) {
    && !o.committed && o.ready == NO_KINDS
    && (t.stationary ==> o.wire == [] && o.complete)
    && o.wire <= t.native
    && (o.complete && !t.stationary ==> o.wire == t.native)
  }

  /** out is the one report the map makes of t under state a. */
  ghost predicate ReportOf(out: seq<Byte>, map_: seq<MapEntry>, t: Target, a: LayoutState)
    requires Usable(map_, t) && |a.held| == CHANNELS
  {
    MutatedBy(out, map_, t, a.motion, OverlayFor(a), |map_|)
  }

  /** The overlay a layout state injects; a channel that is not held contributes no value. */
  function OverlayFor(a: LayoutState): (o: Overlay)
    requires |a.held| == CHANNELS
    ensures o.Wellformed()
  {
    Overlay(a.buttons, a.masks,
      seq(CHANNELS, k requires 0 <= k < CHANNELS => a.held[k].Some?),
      seq(CHANNELS, k requires 0 <= k < CHANNELS => if a.held[k].Some? then a.held[k].value else 0))
  }

  /** A mutated report was started, or sent whole, after which the map was found gone. */
  ghost predicate MutatedOutcome(o: Outcome, map_: seq<MapEntry>, t: Target, a: LayoutState, suppressed: bool)
    requires Usable(map_, t) && |a.held| == CHANNELS
  {
    && !o.committed && o.ready == NO_KINDS
    && if suppressed then o.wire == []
       else exists out :: ReportOf(out, map_, t, a) && o.wire <= out && (o.complete ==> o.wire == out)
  }

  /** The map was found gone before the first output byte was accepted. */
  ghost predicate LostEarly(
    a: LayoutState, map_: seq<MapEntry>, t: Target, suppressed: bool, life: nat, cycles: seq<OutputCycle>)
    requires Usable(map_, t) && |a.held| == CHANNELS
  {
    || life < ChecksBeforeOutput(map_, t, OverlayFor(a), suppressed)
    || !AliveUntilAccepted(cycles, suppressed, |cycles|)
  }

  /** The map outlives the pipeline, and every clock of OUTPUT up to the final byte. */
  ghost predicate Survives(
    a: LayoutState, map_: seq<MapEntry>, t: Target, suppressed: bool, life: nat, cycles: seq<OutputCycle>)
    requires Usable(map_, t) && |a.held| == CHANNELS
  {
    && life >= ChecksBeforeOutput(map_, t, OverlayFor(a), suppressed)
    && exists k: nat :: FinishesAt(cycles, suppressed, |t.native|, k) && AliveThrough(cycles, k + 1)
  }

  /** Values of channels that are not held make no difference to the report. */
  lemma UnheldValuesDoNotMatter(
    out: seq<Byte>, map_: seq<MapEntry>, t: Target, tr: Transaction, n: nat)
    requires tr.Wellformed() && Usable(map_, t) && n <= |map_|
    ensures MutatedBy(out, map_, t, tr.motion, OverlayOf(tr), n) <==>
            MutatedBy(out, map_, t, tr.motion, OverlayFor(tr.Meaning()), n)
  {
    var o, p := OverlayOf(tr), OverlayFor(tr.Meaning());
    forall k, i | 0 <= k < n && Matches(map_[k], t) && 0 <= i < map_[k].bitWidth
      ensures FieldBit(map_, t, tr.motion, o, k, i) == FieldBit(map_, t, tr.motion, p, k, i)
    {
    }
  }

  lemma {:induction false} SameChecks(map_: seq<MapEntry>, t: Target, tr: Transaction, n: nat)
    requires tr.Wellformed() && Usable(map_, t) && n <= |map_|
    ensures MutationChecks(map_, t, OverlayOf(tr), n) == MutationChecks(map_, t, OverlayFor(tr.Meaning()), n)
  {
    if n > 0 {
      SameChecks(map_, t, tr, n - 1);
    }
  }

  /** OUTPUT commits exactly when every clock up to the last byte found the map there. */
  lemma EmissionCommits(
    lane: seq<Byte>, suppressed: bool, cycles: seq<OutputCycle>, wire: seq<Byte>, e: Emission)
    requires EmissionOf(lane, true, suppressed, cycles, wire, e)
    ensures (e.Finished? && e.committed) <==>
      exists k: nat :: FinishesAt(cycles, suppressed, |lane|, k) && AliveThrough(cycles, k + 1)
  {
    forall k: nat | FinishesAt(cycles, suppressed, |lane|, k) && AliveThrough(cycles, k + 1)
      ensures e.Finished? && e.committed
    {
      match e {
        case Unfinished =>
          AcceptedGrows(cycles, suppressed, k + 1, |cycles|);
        case LostBeforeFirstByte(lost) =>
          assert k < lost;
          AcceptedGrows(cycles, suppressed, k + 1, lost);
        case Finished(at, committed) =>
          FinishIsUnique(cycles, suppressed, |lane|, at, k);
      }
    }
  }

  /** OUTPUT falls back exactly when some clock before the first byte found the map gone. */
  lemma EmissionFallsBack(
    lane: seq<Byte>, suppressed: bool, cycles: seq<OutputCycle>, wire: seq<Byte>, e: Emission)
    requires EmissionOf(lane, true, suppressed, cycles, wire, e)
    ensures e.LostBeforeFirstByte? <==> !AliveUntilAccepted(cycles, suppressed, |cycles|)
  {
    match e {
      case Unfinished =>
      case LostBeforeFirstByte(k) =>
        assert Accepted(cycles, suppressed, k) == 0 && !cycles[k].alive;
      case Finished(at, _) =>
        forall j | at < j < |cycles| ensures Accepted(cycles, suppressed, j) > 0 {
          AcceptedGrows(cycles, suppressed, at + 1, j);
        }
    }
  }

  /** OUTPUT before clock k: index bytes of the lane are out and the last is not. */
  ghost predicate Sending(
    lane: seq<Byte>, mapped: bool, suppressed: bool, cycles: seq<OutputCycle>, k: nat,
    index: nat, invalidated: bool, wire: seq<Byte>)
    requires k <= |cycles|
  {
    && index == Accepted(cycles, suppressed, k) < |lane|
    && wire == (if suppressed then [] else lane[..index])
    && (mapped ==> (invalidated <==> !AliveThrough(cycles, k)))
    && (mapped ==> AliveUntilAccepted(cycles, suppressed, k))
    && (!mapped || index == 0 ==> !invalidated)
  }

  lemma SendingLost(
    lane: seq<Byte>, mapped: bool, suppressed: bool, cycles: seq<OutputCycle>, k: nat,
    index: nat, invalidated: bool, wire: seq<Byte>)
    requires k < |cycles| && Sending(lane, mapped, suppressed, cycles, k, index, invalidated, wire)
    requires mapped && !cycles[k].alive && index == 0
    ensures EmissionOf(lane, mapped, suppressed, cycles, [], LostBeforeFirstByte(k))
  {
  }

  lemma SendingStep(
    lane: seq<Byte>, mapped: bool, suppressed: bool, cycles: seq<OutputCycle>, k: nat,
    index: nat, invalidated: bool, wire: seq<Byte>, sent: seq<Byte>)
    requires k < |cycles| && Sending(lane, mapped, suppressed, cycles, k, index, invalidated, wire)
    requires !(mapped && !cycles[k].alive && index == 0)
    requires sent == if cycles[k].ready && !suppressed then wire + [lane[index]] else wire
    ensures var lost := mapped && !cycles[k].alive;
      var accept := cycles[k].ready || suppressed;
      if accept && index == |lane| - 1 then
        EmissionOf(lane, mapped, suppressed, cycles, sent, Finished(k, mapped && !invalidated && !lost))
      else
        Sending(lane, mapped, suppressed, cycles, k + 1,
          if accept then index + 1 else index, invalidated || lost, sent)
  {
    assert AliveThrough(cycles, k + 1) <==> AliveThrough(cycles, k) && cycles[k].alive;
    if mapped {
      assert AliveUntilAccepted(cycles, suppressed, k + 1);
    }
    assert lane[..index] + [lane[index]] == lane[..index + 1];
    assert lane[..|lane|] == lane;
  }

  class ReportInjectionEngine {
    const lanes: FieldEngine
    const states: LayoutBank
    var transaction: Kinds

    constructor ()
      ensures states.Valid() && lanes.overlay.Wellformed() && lanes.buffer.Length == MAX_REPORT_BYTES
    {
      lanes := new FieldEngine();
      states := new LayoutBank();
      transaction := NO_KINDS;
    }

    /** CAPTURE, or STATIONARY_LOAD from the template: both lanes get every byte. */
    method Load(bytes: seq<Byte>)
      requires |bytes| <= lanes.buffer.Length
      modifies lanes.buffer
      ensures lanes.Native(|bytes|) == bytes && lanes.Working(|bytes|) == bytes
    {
      var i := 0;
      while i < |bytes|
        invariant 0 <= i <= |bytes|
        invariant forall j :: 0 <= j < i ==> lanes.buffer[j] == Word(bytes[j], bytes[j])
      {
        lanes.buffer[i] := Word(bytes[i], bytes[i]);
        i := i + 1;
      }
    }

    function Lane(n: nat, native: bool): (lane: seq<Byte>)
      requires n <= lanes.buffer.Length
      reads lanes.buffer
      ensures |lane| == n
    {
      if native then lanes.Native(n) else lanes.Working(n)
    }

    /** output_data: the byte of the selected lane. */
    method OutputByte(n: nat, index: nat, native: bool) returns (b: Byte)
      requires index < n <= lanes.buffer.Length
      ensures b == Lane(n, native)[index]
    {
      var word := lanes.buffer[index];
      b := if native then word.native else word.working;
    }

    /** OUTPUT: one lane, byte by byte; mapped is transaction_mapped, native is emit_native. */
    method Emit(n: nat, native: bool, mapped: bool, suppressed: bool, cycles: seq<OutputCycle>)
      returns (wire: seq<Byte>, e: Emission)
      requires 0 < n <= lanes.buffer.Length
      ensures EmissionOf(Lane(n, native), mapped, suppressed, cycles, wire, e)
    {
      var index, invalidated := 0, false;
      wire := [];
      ghost var lane := Lane(n, native);
      var k := 0;
      while k < |cycles|
        invariant 0 <= k <= |cycles|
        invariant Sending(lane, mapped, suppressed, cycles, k, index, invalidated, wire)
      {
        // output_started is index != 0.
        var lost := mapped && !cycles[k].alive;
        var accept := cycles[k].ready || suppressed;
        if lost && index == 0 {
          SendingLost(lane, mapped, suppressed, cycles, k, index, invalidated, wire);
          return [], LostBeforeFirstByte(k);
        }
        var sent := wire;
        if accept && !suppressed {
          var b := OutputByte(n, index, native);
          sent := wire + [b];
        }
        SendingStep(lane, mapped, suppressed, cycles, k, index, invalidated, wire, sent);
        wire := sent;
        if accept && index == n - 1 {
          return wire, Finished(k, mapped && !invalidated && !lost);
        }
        index := if accept then index + 1 else index;
        invalidated := invalidated || lost;
        k := k + 1;
      }
      return wire, Unfinished;
    }

    /** PREPARE's registers, and the pipeline or, with no entries or suppressed, none. */
    method Compute(map_: seq<MapEntry>, t: Target, tr: Transaction, suppressed: bool) returns (done: bool)
      requires tr.Wellformed() && 0 < |t.native| <= lanes.buffer.Length
      requires lanes.Native(|t.native|) == t.native == lanes.Working(|t.native|)
      requires Usable(map_, t) && NoOverlap(map_, t)
      modifies lanes, lanes.buffer
      ensures lanes.Native(|t.native|) == t.native
      ensures done <==> old(lanes.life) >= ChecksBeforeOutput(map_, t, OverlayFor(tr.Meaning()), suppressed)
      ensures done && !suppressed ==>
        && ReportOf(lanes.Working(|t.native|), map_, t, tr.Meaning())
        && lanes.working == MotionBefore(map_, t, tr.motion, |map_|)
      ensures done && suppressed ==> lanes.working == tr.motion
    {
      lanes.working, lanes.overlay := tr.motion, OverlayOf(tr);
      // STATE_READ_WAIT and BASE_CAPTURE.
      done := lanes.SnapshotMatches();
      if !done {
        return;
      }
      done := lanes.SnapshotMatches();
      if !done {
        return;
      }
      if !suppressed {
        SameChecks(map_, t, tr, |map_|);
        done := lanes.Mutate(map_, t);
        if !done {
          return;
        }
        UnheldValuesDoNotMatter(lanes.Working(|t.native|), map_, t, tr, |map_|);
      }
      // OUTPUT_PRIME.
      done := lanes.SnapshotMatches();
    }

    /** ABORT_MUTATION: a native report restarts unmapped; a stationary one is dropped. */
    method Abort(t: Target, cycles: seq<OutputCycle>) returns (o: Outcome)
      requires 0 < |t.native| <= lanes.buffer.Length && lanes.Native(|t.native|) == t.native
      modifies this`transaction
      ensures UntouchedOutcome(t, o)
    {
      transaction := NO_KINDS;
      if t.stationary {
        return Outcome([], true, false, NO_KINDS);
      }
      var wire, e := Emit(|t.native|, true, false, false, cycles);
      o := Outcome(wire, e.Finished?, false, Readied(e));
    }

    /** The ready outputs: each flag, on the clock that accepts the last byte and commits. */
    function Readied(e: Emission): Kinds
      reads this`transaction
    {
      Kinds(e.Finished? && e.committed && transaction.relative, e.Finished? && e.committed && transaction.button,
            e.Finished? && e.committed && transaction.mask, e.Finished? && e.committed && transaction.absolute,
            e.Finished? && e.committed && transaction.clear)
    }

    /**
      One mapped transaction for layout l, its report loaded first. It commits exactly when the map outlives every
      check up to the final byte; then, and only then, the commands are folded into the record.
     */
    method Transact(
      l: nat, key: LayoutKey, g: Generations, map_: seq<MapEntry>, t: Target, c: Commands,
      suppressed: bool, life: nat, cycles: seq<OutputCycle>) returns (o: Outcome)
      requires states.Valid() && l < MAX_LAYOUTS && c.Wellformed()
      requires 0 < |t.native| <= lanes.buffer.Length == MAX_REPORT_BYTES
      requires Usable(map_, t) && NoOverlap(map_, t)
      modifies this`transaction, lanes, lanes.buffer, states, states.records, states.pads
      ensures states.Valid()
      ensures o.ready == if o.committed then Targets(c) else NO_KINDS
      ensures var before := old(states.Layout(l, key, g));
        var a := Applied(before, c);
        && (o.committed <==> Survives(a, map_, t, suppressed, life, cycles))
        && (o.committed ==>
              && o.complete
              && states.Layout(l, key, g) ==
                 Committed(before, map_, InjectionRuns.Step(c, t, suppressed))
              && (if suppressed then o.wire == [] else ReportOf(o.wire, map_, t, a)))
      ensures o.committed ==> forall m, k, h :: 0 <= m < MAX_LAYOUTS && m != l ==>
        states.Layout(m, k, h) ==
        if old(states.SlotAt(m)).Current(k, h) then Cleared(old(states.Layout(m, k, h)), c) else Untouched()
      ensures !o.committed ==>
        && (forall m, k, h :: 0 <= m < MAX_LAYOUTS ==> states.Layout(m, k, h) == old(states.Layout(m, k, h)))
        && (var a := Applied(old(states.Layout(l, key, g)), c);
         if LostEarly(a, map_, t, suppressed, life, cycles) then UntouchedOutcome(t, o)
         else MutatedOutcome(o, map_, t, a, suppressed))
    {
      Load(t.native);
      var tr := states.Prepare(l, key, g, c);
      transaction := Targets(c);
      lanes.life := life;
      var done := Compute(map_, t, tr, suppressed);
      if !done {
        o := Abort(t, cycles);
        return;
      }
      ghost var e: Emission;
      o, e := Deliver(t, suppressed, cycles);
      if o.committed {
        states.Commit(l, key, g, |t.native|, tr.(motion := lanes.working), c);
      }
    }

    /** OUTPUT of the working lane, falling back to ABORT_MUTATION before its first byte. */
    method Deliver(t: Target, suppressed: bool, cycles: seq<OutputCycle>) returns (o: Outcome, ghost e: Emission)
      requires 0 < |t.native| <= lanes.buffer.Length && lanes.Native(|t.native|) == t.native
      modifies this`transaction
      ensures o.ready == if o.committed then old(transaction) else NO_KINDS
      ensures o.committed <==>
        exists k: nat :: FinishesAt(cycles, suppressed, |t.native|, k) && AliveThrough(cycles, k + 1)
      ensures o.committed ==> o.complete
      ensures e.LostBeforeFirstByte? <==> !AliveUntilAccepted(cycles, suppressed, |cycles|)
      ensures e.LostBeforeFirstByte? ==> UntouchedOutcome(t, o)
      ensures !e.LostBeforeFirstByte? ==>
        if suppressed then o.wire == []
        else o.wire <= lanes.Working(|t.native|) && (o.complete ==> o.wire == lanes.Working(|t.native|))
    {
      var wire, how := Emit(|t.native|, false, true, suppressed, cycles);
      EmissionCommits(lanes.Working(|t.native|), suppressed, cycles, wire, how);
      EmissionFallsBack(lanes.Working(|t.native|), suppressed, cycles, wire, how);
      e := how;
      match how {
        case LostBeforeFirstByte(k) =>
          o := Abort(t, cycles[k + 1..]);
        case Unfinished =>
          o := Outcome(wire, false, false, Readied(how));
        case Finished(_, committed) =>
          o := Outcome(wire, true, committed, Readied(how));
          transaction := NO_KINDS;
      }
    }
  }
}
