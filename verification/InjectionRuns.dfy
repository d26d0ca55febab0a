/** Laws of injected state over whole runs of transactions on one layout. */
module InjectionRuns {
  import opened Bits
  import opened MapEntries
  import opened FieldPipeline
  import opened ReportLaws
  import opened LayoutStates

  // ---- Timed clicks ---------------------------------------------------------------------

  /** The plane's accepted-report count: it stops at its largest value. */
  function Saturated(reports: nat): U32 {
    if reports < 0xFFFF_FFFF then reports else 0xFFFF_FFFF
  }

  /** A click held for h reports from report c falls due when the count has gone up by h, and stays due
   *  for half the counter's range. */
  lemma ClickDueExactly(c: U32, h: U16, now: U32)
    requires c <= now
    ensures Due((c + h) % 0x1_0000_0000, now) <==> h <= now - c < h + 0x8000_0000
  {
    var target := (c + h) % 0x1_0000_0000;
    var laps := (c + h) / 0x1_0000_0000;
    assert target == c + h - laps * 0x1_0000_0000 && 0 <= laps <= 1;
    if now - c >= h {
      DivModUnique(now - target, 0x1_0000_0000, laps, now - c - h);
    } else {
      DivModUnique(now - target, 0x1_0000_0000, laps - 1, now - c - h + 0x1_0000_0000);
    }
  }

  /**
    Counted in reports really accepted, a click begun at any count falls due after its h reports if
    and only if the counter can still reach its target: one begun closer than h to saturation never
    ends.
   */
  lemma ClickEndsUnlessSaturated(c: nat, h: U16)
    requires h > 0
    ensures var target := (Saturated(c) + h) % 0x1_0000_0000;
            ((exists r: nat :: c <= r && Due(target, Saturated(r))) <==> c + h <= 0xFFFF_FFFF) &&
            (c + h <= 0xFFFF_FFFF ==>
               Due(target, Saturated(c + h)) && forall r: nat :: c <= r < c + h ==> !Due(target, Saturated(r)))
  {
    forall r: nat | c <= r
      ensures Due((Saturated(c) + h) % 0x1_0000_0000, Saturated(r)) <==>
              h <= Saturated(r) - Saturated(c) < h + 0x8000_0000
    {
      ClickDueExactly(Saturated(c), h, Saturated(r));
    }
    if c + h <= 0xFFFF_FFFF {
      assert Saturated(c + h) - Saturated(c) == h;
    }
  }

  /** The counterexample: at saturation, a one-report click is still held after any number. */
  lemma SaturatedClickNeverEnds(reports: nat)
    requires reports >= 0xFFFF_FFFF
    ensures !Due((Saturated(0xFFFF_FFFF) + 1) % 0x1_0000_0000, Saturated(reports))
  {
    ClickDueExactly(0xFFFF_FFFF, 1, 0xFFFF_FFFF);
  }

  /** Commands that leave the buttons to the device and to the click timer. */
  predicate LeavesButtons(c: Commands) {
    c.button.None? && !c.ClearsButtons()
  }

  function AppliedAll(s: LayoutState, run: seq<Commands>): LayoutState
    requires forall c :: c in run ==> c.Wellformed()
    decreases |run|
  {
    if run == [] then s else AppliedAll(Applied(s, run[0]), run[1..])
  }

  /**
    A click over its whole life: until the count has gone up by h the clicked buttons stay
    injected, and from the first transaction after that the buttons are those of before.
   */
  lemma {:induction false} ClickRestoresBaseline(s: LayoutState, c: U32, h: U16, restore: U64, run: seq<Commands>)
    requires s.click == Some(Click((c + h) % 0x1_0000_0000, restore))
    requires forall r :: r in run ==> r.Wellformed()
    requires forall r :: r in run ==> LeavesButtons(r) && c <= r.now && r.now - c < 0x8000_0000
    ensures var e := AppliedAll(s, run);
      if exists r :: r in run && r.now - c >= h then e.buttons == restore && e.click.None?
      else e.buttons == s.buttons && e.click == s.click
    decreases |run|
  {
    if run != [] {
      var s' := Applied(s, run[0]);
      ClickDueExactly(c, h, run[0].now);
      assert run[0] in run;
      assert forall r :: r in run <==> r == run[0] || r in run[1..];
      if run[0].now - c >= h {
        NoClickNoChange(s', run[1..]);
      } else {
        ClickRestoresBaseline(s', c, h, restore, run[1..]);
      }
    }
  }

  lemma {:induction false} NoClickNoChange(s: LayoutState, run: seq<Commands>)
    requires forall r :: r in run ==> r.Wellformed()
    requires s.click.None? && forall r :: r in run ==> LeavesButtons(r)
    ensures AppliedAll(s, run).buttons == s.buttons && AppliedAll(s, run).click.None?
    decreases |run|
  {
    if run != [] {
      assert run[0] in run;
      NoClickNoChange(Applied(s, run[0]), run[1..]);
    }
  }

  /** A second click during the first releases to the buttons held before either. */
  lemma ClickDuringClickKeepsBaseline(s: LayoutState, first: Commands, second: Commands)
    requires first.Wellformed() && second.Wellformed()
    requires s.click.None?
    requires first.button.Some? && first.button.value.holdReports != 0 && first.button.value.buttons != 0
    requires second.button.Some? && second.button.value.holdReports != 0 && second.button.value.buttons != 0
    requires !first.ClearsButtons() && !second.ClearsButtons()
    ensures var e := Applied(Applied(s, first), second);
      && e.buttons == second.button.value.buttons
      && e.click.Some? && e.click.value.restore == s.buttons
  {
  }

  // ---- Conservation of motion --------------------------------------------------------------

  /** One committed transaction: the commands folded in and the report that carried them. A suppressed
   *  one, of a NATIVE_ONLY layout with a still device, commits with no report at all. */
  datatype Step = Step(commands: Commands, target: Target, suppressed: bool)

  /** What a transaction leaves in the record: the commands applied, then the report's residual. */
  function Committed(s: LayoutState, map_: seq<MapEntry>, e: Step): LayoutState
    requires e.commands.Wellformed() && Usable(map_, e.target)
  {
    var a := Applied(s, e.commands);
    if e.suppressed then a
    else LayoutState(MotionBefore(map_, e.target, a.motion, |map_|), a.buttons, a.click, a.masks, a.held, a.sequence)
  }

  /** Steps whose reports keep residuals in range and whose commands clear no motion. */
  ghost predicate Conserving(s: LayoutState, map_: seq<MapEntry>, run: seq<Step>)
    decreases |run|
  {
    run == [] ||
    var e := run[0];
    && e.commands.Wellformed() && !e.commands.ClearsMotion()
    && Usable(map_, e.target)
    && (!e.suppressed ==> ResidualsFit(map_, e.target, Moved(s.motion, e.commands), |map_|))
    && Conserving(Committed(s, map_, e), map_, run[1..])
  }

  function Final(s: LayoutState, map_: seq<MapEntry>, run: seq<Step>): LayoutState
    requires Conserving(s, map_, run)
    decreases |run|
  {
    if run == [] then s else Final(Committed(s, map_, run[0]), map_, run[1..])
  }

  /** Motion the host has seen beyond the physical motion, over the whole run. */
  function TotalInjected(s: LayoutState, map_: seq<MapEntry>, run: seq<Step>, a: Axis): int
    requires Conserving(s, map_, run)
    decreases |run|
  {
    if run == [] then 0
    else
      (if run[0].suppressed then 0 else Injected(map_, run[0].target, Moved(s.motion, run[0].commands), a, |map_|)) +
      TotalInjected(Committed(s, map_, run[0]), map_, run[1..], a)
  }

  /** What a transaction's motion command adds to an axis: nothing, if it takes any axis past 32 bits. */
  function Added(s: LayoutState, c: Commands, a: Axis): int {
    if c.relative.Some? && c.relative.value.Flags(a) && StaysIn(s, c, c.relative.value)
    then c.relative.value.value.Get(a) else 0
  }

  /** Motion commanded over the whole run, commands that would take an axis past 32 bits left out. */
  function TotalCommanded(s: LayoutState, map_: seq<MapEntry>, run: seq<Step>, a: Axis): int
    requires Conserving(s, map_, run)
    decreases |run|
  {
    if run == [] then 0
    else Added(s, run[0].commands, a) + TotalCommanded(Committed(s, map_, run[0]), map_, run[1..], a)
  }

  /** Over any run: what was injected plus what is left is what was there plus what was commanded. */
  lemma {:induction false} MotionIsConserved(s: LayoutState, map_: seq<MapEntry>, run: seq<Step>, a: Axis)
    requires Conserving(s, map_, run)
    ensures TotalInjected(s, map_, run, a) + Final(s, map_, run).motion.Get(a) ==
            s.motion.Get(a) + TotalCommanded(s, map_, run, a)
    decreases |run|
  {
    if run != [] {
      var e := run[0];
      MotionAddsWhole(s, e.commands, a);
      if !e.suppressed {
        ReportConservesMotion(map_, e.target, Moved(s.motion, e.commands), a, |map_|);
      }
      MotionIsConserved(Committed(s, map_, e), map_, run[1..], a);
    }
  }

  /** Devices that keep to their declared ranges make every such run conserving. */
  lemma {:induction false} InRangeRunsConserve(s: LayoutState, map_: seq<MapEntry>, run: seq<Step>)
    requires forall e :: e in run ==>
      e.commands.Wellformed() && !e.commands.ClearsMotion() &&
      Usable(map_, e.target) && PhysicalInRange(map_, e.target)
    ensures Conserving(s, map_, run)
    decreases |run|
  {
    if run != [] {
      var e := run[0];
      assert e in run;
      InRangeResidualsFit(map_, e.target, Moved(s.motion, e.commands), X, |map_|);
      InRangeRunsConserve(Committed(s, map_, e), map_, run[1..]);
    }
  }
}
