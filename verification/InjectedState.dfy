/** What commands make of a layout's state, one transaction at a time and over whole runs: the last word holds. */
module InjectedState {
  import opened Bits
  import opened MapEntries
  import opened FieldPipeline
  import opened LayoutStates
  import opened InjectionRuns

  // ---- One transaction ------------------------------------------------------------------------

  /** A mask command replaces the masks; without one a CLEAR that names them drops them. */
  lemma MasksFollow(s: LayoutState, c: Commands)
    requires c.Wellformed()
    ensures Applied(s, c).masks ==
            if c.mask.Some? then c.mask.value.masks else if c.clear.Some? && c.clear.value.masks then 0 else s.masks
  {
  }

  /** An absolute command replaces the whole set of held channels; without one a CLEAR releases them. */
  lemma HeldFollows(s: LayoutState, c: Commands, k: nat)
    requires c.Wellformed() && |s.held| == 7 && k < 7
    ensures |Applied(s, c).held| == 7
    ensures Applied(s, c).held[k] ==
            if c.absolute.Some? then if c.absolute.value.mask[k] then Some(c.absolute.value.values[k]) else None
            else if c.clear.Some? && c.clear.value.absolute then None
            else s.held[k]
  {
  }

  /** The report count has reached the click's target, and not passed it by half the counter's range. */
  predicate Over(k: Click, now: U32) {
    k.target <= now < k.target + 0x8000_0000 || k.target - 0x1_0000_0000 <= now < k.target - 0x8000_0000
  }

  lemma OverIsDue(k: Click, now: U32)
    ensures Over(k, now) <==> Due(k.target, now)
  {
  }

  /** A button command sets the buttons; without one a CLEAR drops them, and without that a click that is over
   *  gives its own back. */
  lemma ButtonsFollow(s: LayoutState, c: Commands)
    requires c.Wellformed()
    ensures Applied(s, c).buttons ==
            if c.button.Some? then c.button.value.buttons
            else if c.clear.Some? && c.clear.value.buttons then 0
            else if s.click.Some? && Over(s.click.value, c.now) then s.click.value.restore
            else s.buttons
  {
    if s.click.Some? {
      OverIsDue(s.click.value, c.now);
    }
  }

  /** A button command with buttons and a time starts a click, to go back to what was there before any click,
   *  or to nothing if the buttons are cleared with it; any other ends the click, and so does a CLEAR or its time. */
  lemma ClickFollows(s: LayoutState, c: Commands)
    requires c.Wellformed()
    ensures Applied(s, c).click ==
            if c.button.Some? then
              if c.button.value.holdReports > 0 && c.button.value.buttons != 0 then
                Some(Click((c.now + c.button.value.holdReports) % 0x1_0000_0000,
                           if c.clear.Some? && c.clear.value.buttons then 0
                           else if s.click.Some? then s.click.value.restore else s.buttons))
              else None
            else if c.clear.Some? && c.clear.value.buttons then None
            else if s.click.Some? && Over(s.click.value, c.now) then None
            else s.click
  {
    if s.click.Some? {
      OverIsDue(s.click.value, c.now);
    }
  }

  /** The number told back is the command's: of several the CLEAR's, then the mask's, the buttons', the held
   *  channels', and the motion's if it was added. */
  lemma SequenceFollows(s: LayoutState, c: Commands)
    requires c.Wellformed()
    ensures Applied(s, c).sequence ==
            if c.clear.Some? then c.clear.value.sequence
            else if c.mask.Some? then c.mask.value.sequence
            else if c.button.Some? then c.button.value.sequence
            else if c.absolute.Some? then c.absolute.value.sequence
            else if c.relative.Some? && StaysIn(s, c, c.relative.value) then c.relative.value.sequence
            else s.sequence
  {
    if c.relative.Some? {
      OverflowsByAxis(s, c, c.relative.value);
    }
  }

  /** The other layouts see of a transaction nothing but the CLEAR, in the categories it names. */
  lemma ClearReachesAll(s: LayoutState, c: Commands)
    requires |s.held| == 7
    ensures var t := Cleared(s, c);
            t.sequence == s.sequence &&
            (if c.clear.Some? && c.clear.value.motion then forall a: Axis :: t.motion.Get(a) == 0
             else t.motion == s.motion) &&
            (if c.clear.Some? && c.clear.value.buttons then t.buttons == 0 && t.click.None?
             else t.buttons == s.buttons && t.click == s.click) &&
            t.masks == (if c.clear.Some? && c.clear.value.masks then 0 else s.masks) &&
            (if c.clear.Some? && c.clear.value.absolute then |t.held| == 7 && forall k :: 0 <= k < 7 ==> t.held[k].None?
             else t.held == s.held)
  {
  }

  // ---- Runs -----------------------------------------------------------------------------------

  predicate AllWellformed(run: seq<Commands>) { forall c :: c in run ==> c.Wellformed() }

  /** The last transaction that says anything of the masks has the last word. */
  lemma {:induction false} LastMaskHolds(s: LayoutState, run: seq<Commands>, j: nat)
    requires AllWellformed(run) && j < |run|
    requires run[j].mask.Some? || (run[j].clear.Some? && run[j].clear.value.masks)
    requires forall k :: j < k < |run| ==>
      run[k].mask.None? && (run[k].clear.Some? ==> !run[k].clear.value.masks)
    ensures AppliedAll(s, run).masks == if run[j].mask.Some? then run[j].mask.value.masks else 0
    decreases |run|
  {
    assert run[0] in run;
    var t := Applied(s, run[0]);
    MasksFollow(s, run[0]);
    if j > 0 {
      LastMaskHolds(t, run[1..], j - 1);
    } else {
      MasksStay(t, run[1..]);
    }
  }

  lemma {:induction false} MasksStay(s: LayoutState, run: seq<Commands>)
    requires AllWellformed(run)
    requires forall k :: 0 <= k < |run| ==>
      run[k].mask.None? && (run[k].clear.Some? ==> !run[k].clear.value.masks)
    ensures AppliedAll(s, run).masks == s.masks
    decreases |run|
  {
    if run != [] {
      assert run[0] in run;
      MasksFollow(s, run[0]);
      MasksStay(Applied(s, run[0]), run[1..]);
    }
  }

  /** And so of the held channels. */
  lemma {:induction false} LastHoldHolds(s: LayoutState, run: seq<Commands>, j: nat, k: nat)
    requires AllWellformed(run) && j < |run| && run[j].Wellformed() && |s.held| == 7 && k < 7
    requires run[j].absolute.Some? || (run[j].clear.Some? && run[j].clear.value.absolute)
    requires forall i :: j < i < |run| ==>
      run[i].absolute.None? && (run[i].clear.Some? ==> !run[i].clear.value.absolute)
    ensures |AppliedAll(s, run).held| == 7
    ensures AppliedAll(s, run).held[k] ==
            if run[j].absolute.Some? && run[j].absolute.value.mask[k]
            then Some(run[j].absolute.value.values[k]) else None
    decreases |run|
  {
    assert run[0] in run && run[j] in run;
    var t := Applied(s, run[0]);
    HeldFollows(s, run[0], k);
    if j > 0 {
      LastHoldHolds(t, run[1..], j - 1, k);
    } else {
      HoldStays(t, run[1..], k);
    }
  }

  lemma {:induction false} HoldStays(s: LayoutState, run: seq<Commands>, k: nat)
    requires AllWellformed(run) && |s.held| == 7 && k < 7
    requires forall i :: 0 <= i < |run| ==>
      run[i].absolute.None? && (run[i].clear.Some? ==> !run[i].clear.value.absolute)
    ensures |AppliedAll(s, run).held| == 7 && AppliedAll(s, run).held[k] == s.held[k]
    decreases |run|
  {
    if run != [] {
      assert run[0] in run;
      HeldFollows(s, run[0], k);
      HoldStays(Applied(s, run[0]), run[1..], k);
    }
  }

  /** Buttons without a time stay as the last command left them. */
  lemma {:induction false} LastButtonsHold(s: LayoutState, run: seq<Commands>, j: nat)
    requires AllWellformed(run) && j < |run|
    requires if run[j].button.Some? then run[j].button.value.holdReports == 0
             else run[j].clear.Some? && run[j].clear.value.buttons
    requires forall k :: j < k < |run| ==>
      run[k].button.None? && (run[k].clear.Some? ==> !run[k].clear.value.buttons)
    ensures AppliedAll(s, run).click.None?
    ensures AppliedAll(s, run).buttons == if run[j].button.Some? then run[j].button.value.buttons else 0
    decreases |run|
  {
    assert run[0] in run;
    var t := Applied(s, run[0]);
    ButtonsFollow(s, run[0]);
    ClickFollows(s, run[0]);
    if j > 0 {
      LastButtonsHold(t, run[1..], j - 1);
    } else {
      assert forall r :: r in run[1..] ==> LeavesButtons(r);
      NoClickNoChange(t, run[1..]);
    }
  }

  // ---- Slots of another map -------------------------------------------------------------------

  predicate Nothing(s: LayoutState) {
    (forall a: Axis :: s.motion.Get(a) == 0) && s.buttons == 0 && s.click.None? && s.masks == 0 &&
    |s.held| == 7 && forall k :: 0 <= k < 7 ==> s.held[k].None?
  }

  /** A slot written for another layout, or under another map or other descriptors, holds nothing for this one. */
  lemma OtherSlotsHoldNothing(s: Slot, key: LayoutKey, g: Generations)
    requires s.Wellformed()
    requires !s.valid || s.record.key != key || s.record.generations.descriptor != g.descriptor ||
             s.record.generations.map_ != g.map_
    ensures Nothing(s.Reading(key, g)) && s.Reading(key, g).sequence == 0
  {
  }

  /** Its own holds what was written, category by category, as far as no CLEAR has come since. */
  lemma OwnSlotHolds(s: Slot, g: Generations)
    requires s.Wellformed() && s.valid && s.record.generations == g
    ensures var r, t := s.record, s.Reading(s.record.key, g);
            (if s.motion then t.motion == r.motion else forall a: Axis :: t.motion.Get(a) == 0) &&
            t.buttons == (if s.buttons then r.buttons else 0) && t.masks == (if s.masks then r.masks else 0) &&
            (if s.buttons && r.clickActive then t.click == Some(Click(r.clickReleaseTarget, r.clickRestore))
             else t.click == None) &&
            |t.held| == 7 && t.sequence == r.sequence &&
            forall k :: 0 <= k < 7 ==>
              t.held[k] == if s.absolute && s.pad.heldMask[k] then Some(s.pad.heldValues[k]) else None
  {
  }
}
