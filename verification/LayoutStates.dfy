/** Per-layout injection state: the engine's records and live masks, and what they mean. */
module LayoutStates {
  import opened Bits
  import opened MapEntries
  import opened FieldPipeline

  datatype Option<T> = None | Some(value: T)

  datatype Generations = Generations(descriptor: U16, map_: U16)

  /** One STATE_LAYOUT word. */
  datatype StateRecord = StateRecord(
    key: LayoutKey,
    generations: Generations,
    motion: Motion,
    buttons: U64,
    masks: U64,
    sequence: U16,
    reportLength: U8,
    clickActive: bool,
    clickReleaseTarget: U32,
    clickRestore: U64)

  /** One PAD_STATE_LAYOUT word. */
  datatype PadRecord = PadRecord(heldMask: seq<bool>, heldValues: seq<S16>)

  // ---- Commands --------------------------------------------------------------------------

  datatype RelativeCommand = RelativeCommand(x: bool, y: bool, wheel: bool, pan: bool, value: Motion, sequence: U16) {
    predicate Flags(axis: Axis) {
      match axis
      case X => x
      case Y => y
      case Wheel => wheel
      case Pan => pan
    }

    /** What the command adds to an axis. */
    function On(axis: Axis): S32 {
      if Flags(axis) then value.Get(axis) else 0
    }
  }

  datatype ButtonCommand = ButtonCommand(buttons: U64, holdReports: U16, sequence: U16)

  datatype MaskCommand = MaskCommand(masks: U64, sequence: U16)

  datatype AbsoluteCommand = AbsoluteCommand(mask: seq<bool>, values: seq<S16>, sequence: U16)

  datatype ClearCommand = ClearCommand(motion: bool, buttons: bool, masks: bool, absolute: bool, sequence: U16)

  /** The commands that target the report of one transaction, and the accepted-report count. */
  datatype Commands = Commands(
    relative: Option<RelativeCommand>,
    button: Option<ButtonCommand>,
    mask: Option<MaskCommand>,
    absolute: Option<AbsoluteCommand>,
    clear: Option<ClearCommand>,
    now: U32)
  {
    predicate Wellformed() {
      absolute.Some? ==> |absolute.value.mask| == CHANNELS && |absolute.value.values| == CHANNELS
    }

    predicate ClearsMotion() { clear.Some? && clear.value.motion }
    predicate ClearsButtons() { clear.Some? && clear.value.buttons }
    predicate ClearsMasks() { clear.Some? && clear.value.masks }
    predicate ClearsAbsolute() { clear.Some? && clear.value.absolute }
  }

  // ---- What a layout's state is ------------------------------------------------------------

  /** A click in progress: when it ends, and the buttons to go back to. */
  datatype Click = Click(target: U32, restore: U64)

  datatype LayoutState = LayoutState(
    motion: Motion,
    buttons: U64,
    click: Option<Click>,
    masks: U64,
    held: seq<Option<S16>>,
    sequence: U16)

  const NO_MOTION := Motion(0, 0, 0, 0)

  function NothingHeld(): seq<Option<S16>> {
    seq(CHANNELS, _ => None)
  }

  function Untouched(): LayoutState {
    LayoutState(NO_MOTION, 0, None, 0, NothingHeld(), 0)
  }

  /** A CLEAR, as every layout sees it. */
  function Cleared(s: LayoutState, c: Commands): LayoutState {
    LayoutState(
      if c.ClearsMotion() then NO_MOTION else s.motion,
      if c.ClearsButtons() then 0 else s.buttons,
      if c.ClearsButtons() then None else s.click,
      if c.ClearsMasks() then 0 else s.masks,
      if c.ClearsAbsolute() then NothingHeld() else s.held,
      s.sequence)
  }

  /** 32-bit wrap-around comparison: the count has reached the target. */
  predicate Due(target: U32, now: U32) {
    (now - target) % 0x1_0000_0000 < 0x8000_0000
  }

  /** A click whose time has come gives its buttons back. */
  function Released(s: LayoutState, now: U32): LayoutState {
    if s.click.Some? && Due(s.click.value.target, now) then
      s.(buttons := s.click.value.restore, click := None)
    else s
  }

  /** The buttons held apart from any click in progress. */
  function Baseline(s: LayoutState): U64 {
    if s.click.Some? then s.click.value.restore else s.buttons
  }

  predicate Fits32(v: int) {
    -0x8000_0000 <= v < 0x8000_0000
  }

  /** Some axis the command flags would leave its 32-bit register. */
  predicate Overflows(motion: Motion, r: RelativeCommand) {
    || (r.x && !Fits32(motion.x + r.value.x))
    || (r.y && !Fits32(motion.y + r.value.y))
    || (r.wheel && !Fits32(motion.wheel + r.value.wheel))
    || (r.pan && !Fits32(motion.pan + r.value.pan))
  }

  /** Pending motion once a CLEAR in the same transaction has had its effect. */
  function Base(motion: Motion, c: Commands): Motion {
    if c.ClearsMotion() then NO_MOTION else motion
  }

  predicate Admitted(motion: Motion, c: Commands) {
    c.relative.Some? && !Overflows(Base(motion, c), c.relative.value)
  }

  /** A command is added to every axis it flags, or, if any would overflow, to none. */
  function Moved(motion: Motion, c: Commands): Motion {
    var base := Base(motion, c);
    if !Admitted(motion, c) then base
    else
      var r := c.relative.value;
      Motion(
        if r.x then base.x + r.value.x else base.x,
        if r.y then base.y + r.value.y else base.y,
        if r.wheel then base.wheel + r.value.wheel else base.wheel,
        if r.pan then base.pan + r.value.pan else base.pan)
  }

  function HeldSet(mask: seq<bool>, values: seq<S16>): (held: seq<Option<S16>>)
    requires |mask| == |values|
    ensures |held| == |mask|
  {
    seq(|mask|, k requires 0 <= k < |mask| => if mask[k] then Some(values[k]) else None)
  }

  function AppliedButtons(s: LayoutState, c: Commands): U64 {
    if c.button.Some? then c.button.value.buttons else Cleared(Released(s, c.now), c).buttons
  }

  /** A button command starts a click exactly when it holds something for a while. */
  function AppliedClick(s: LayoutState, c: Commands): Option<Click> {
    if c.button.None? then Cleared(Released(s, c.now), c).click
    else if c.button.value.holdReports != 0 && c.button.value.buttons != 0 then
      Some(Click((c.now + c.button.value.holdReports) % 0x1_0000_0000,
        if c.ClearsButtons() then 0 else Baseline(s)))
    else None
  }

  function AppliedHeld(s: LayoutState, c: Commands): seq<Option<S16>>
    requires c.Wellformed()
  {
    if c.absolute.Some? then HeldSet(c.absolute.value.mask, c.absolute.value.values)
    else Cleared(s, c).held
  }

  function AppliedSequence(s: LayoutState, c: Commands): U16 {
    if c.clear.Some? then c.clear.value.sequence
    else if c.mask.Some? then c.mask.value.sequence
    else if c.button.Some? then c.button.value.sequence
    else if c.absolute.Some? then c.absolute.value.sequence
    else if Admitted(s.motion, c) then c.relative.value.sequence
    else s.sequence
  }

  /** What one transaction makes of a layout's state, before the report is emitted. */
  function Applied(s: LayoutState, c: Commands): LayoutState
    requires c.Wellformed()
  {
    LayoutState(
      Moved(s.motion, c),
      AppliedButtons(s, c),
      AppliedClick(s, c),
      if c.mask.Some? then c.mask.value.masks else Cleared(s, c).masks,
      AppliedHeld(s, c),
      AppliedSequence(s, c))
  }

  /** Where a motion command finds an axis: at nothing, if the same transaction clears it. */
  function StartsFrom(s: LayoutState, c: Commands, a: Axis): int {
    if c.clear.Some? && c.clear.value.motion then 0 else s.motion.Get(a)
  }

  /** Every axis the command flags stays a signed 32-bit number. */
  predicate StaysIn(s: LayoutState, c: Commands, r: RelativeCommand) {
    forall b: Axis :: r.Flags(b) ==> -0x8000_0000 <= StartsFrom(s, c, b) + r.value.Get(b) < 0x8000_0000
  }

  /** A motion command is added to every axis it flags if all of them stay 32-bit numbers, and otherwise to
   *  none: every axis stays where the command found it. */
  lemma MotionAddsWhole(s: LayoutState, c: Commands, a: Axis)
    requires c.Wellformed()
    ensures Applied(s, c).motion.Get(a) ==
            StartsFrom(s, c, a) +
            if c.relative.Some? && c.relative.value.Flags(a) && StaysIn(s, c, c.relative.value)
            then c.relative.value.value.Get(a) else 0
  {
    if c.relative.Some? {
      OverflowsByAxis(s, c, c.relative.value);
    }
  }

  lemma OverflowsByAxis(s: LayoutState, c: Commands, r: RelativeCommand)
    ensures Overflows(Base(s.motion, c), r) <==> !StaysIn(s, c, r)
  {
    if StaysIn(s, c, r) {
      assert (r.Flags(X) ==> Fits32(StartsFrom(s, c, X) + r.value.x)) &&
             (r.Flags(Y) ==> Fits32(StartsFrom(s, c, Y) + r.value.y));
      assert (r.Flags(Wheel) ==> Fits32(StartsFrom(s, c, Wheel) + r.value.wheel)) &&
             (r.Flags(Pan) ==> Fits32(StartsFrom(s, c, Pan) + r.value.pan));
    }
  }

  // ---- The registers ------------------------------------------------------------------------

  /** The transaction registers PREPARE fills and the final handshake writes back. */
  datatype Transaction = Transaction(
    motion: Motion,
    buttons: U64,
    masks: U64,
    heldMask: seq<bool>,
    heldValues: seq<S16>,
    clickActive: bool,
    clickReleaseTarget: U32,
    clickRestore: U64,
    sequence: U16,
    relativeOverflow: bool)
  {
    predicate Wellformed() {
      |heldMask| == CHANNELS && |heldValues| == CHANNELS
    }

    /** The state these registers stand for. */
    function Meaning(): LayoutState
      requires Wellformed()
    {
      LayoutState(motion, buttons, if clickActive then Some(Click(clickReleaseTarget, clickRestore)) else None,
        masks, HeldSet(heldMask, heldValues), sequence)
    }
  }

  /** One layout slot: its two memory words and its bit of each mask. */
  datatype Slot = Slot(
    record: StateRecord, pad: PadRecord,
    valid: bool, motion: bool, buttons: bool, masks: bool, absolute: bool)
  {
    predicate Wellformed() {
      |pad.heldMask| == CHANNELS && |pad.heldValues| == CHANNELS
    }

    predicate Current(key: LayoutKey, g: Generations) {
      valid && record.key == key && record.generations == g
    }

    /** The state the slot has for layout key of map g, whatever its dead parts still say. */
    function Reading(key: LayoutKey, g: Generations): LayoutState
      requires Wellformed()
    {
      if !Current(key, g) then Untouched()
      else
        LayoutState(
          if motion then record.motion else NO_MOTION,
          if buttons then record.buttons else 0,
          if buttons && record.clickActive then
            Some(Click(record.clickReleaseTarget, record.clickRestore))
          else None,
          if masks then record.masks else 0,
          if absolute then HeldSet(pad.heldMask, pad.heldValues) else NothingHeld(),
          record.sequence)
    }

    /** The slot after a CLEAR has dropped whole masks. */
    function Dropped(c: Commands): Slot {
      Slot(record, pad, valid, motion && !c.ClearsMotion(), buttons && !c.ClearsButtons(),
        masks && !c.ClearsMasks(), absolute && !c.ClearsAbsolute())
    }
  }

  /** Dropping a mask bit is clearing that category of the layout's state. */
  lemma DroppedReadsCleared(s: Slot, c: Commands, key: LayoutKey, g: Generations)
    requires s.Wellformed()
    ensures s.Current(key, g) ==> s.Dropped(c).Reading(key, g) == Cleared(s.Reading(key, g), c)
    ensures !s.Current(key, g) ==> s.Dropped(c).Reading(key, g) == Untouched()
  {
  }

  class LayoutBank {
    const records: array<StateRecord>
    const pads: array<PadRecord>
    /** state_valid and the four per-category live masks, one bit a layout. */
    var valid: set<nat>
    var motionLive: set<nat>
    var buttonsLive: set<nat>
    var masksLive: set<nat>
    var absoluteLive: set<nat>

    ghost predicate Valid()
      reads pads
    {
      && records.Length == MAX_LAYOUTS && pads.Length == MAX_LAYOUTS
      && (forall l :: 0 <= l < pads.Length ==>
            |pads[l].heldMask| == CHANNELS && |pads[l].heldValues| == CHANNELS)
    }

    function SlotAt(l: nat): Slot
      requires l < records.Length && l < pads.Length
      reads this, records, pads
    {
      Slot(records[l], pads[l], l in valid, l in motionLive, l in buttonsLive, l in masksLive, l in absoluteLive)
    }

    ghost function Layout(l: nat, key: LayoutKey, g: Generations): LayoutState
      requires Valid() && l < MAX_LAYOUTS
      reads this, records, pads
    {
      SlotAt(l).Reading(key, g)
    }

    constructor ()
      ensures Valid() && fresh(records) && fresh(pads)
      ensures forall l, key, g :: 0 <= l < MAX_LAYOUTS ==> Layout(l, key, g) == Untouched()
    {
      records := new StateRecord[MAX_LAYOUTS](_ =>
        StateRecord(LayoutKey(0, 0, 0), Generations(0, 0), NO_MOTION, 0, 0, 0, 0, false, 0, 0));
      pads := new PadRecord[MAX_LAYOUTS](_ => PadRecord(seq(CHANNELS, _ => false), seq(CHANNELS, _ => 0)));
      valid, motionLive, buttonsLive, masksLive, absoluteLive := {}, {}, {}, {}, {};
    }

    /** BASE_CAPTURE: the record and pad word, masked by match and live bits. */
    method Capture(l: nat, key: LayoutKey, g: Generations) returns (t: Transaction)
      requires Valid() && l < MAX_LAYOUTS
      ensures t.Wellformed() && t.Meaning() == Layout(l, key, g)
    {
      var r, p := records[l], pads[l];
      var matches := l in valid && r.key == key && r.generations == g;
      t := Transaction(
        if matches && l in motionLive then r.motion else NO_MOTION,
        if matches && l in buttonsLive then r.buttons else 0,
        if matches && l in masksLive then r.masks else 0,
        if matches && l in absoluteLive then p.heldMask else seq(CHANNELS, _ => false),
        p.heldValues,
        matches && l in buttonsLive && r.clickActive,
        if matches && l in buttonsLive then r.clickReleaseTarget else 0,
        if matches && l in buttonsLive then r.clickRestore else 0,
        if matches then r.sequence else 0,
        false);
      assert HeldSet(seq(CHANNELS, _ => false), p.heldValues) == NothingHeld();
    }

    /** PREPARE's motion: the 33-bit candidate adders and the overflow select. */
    method AddMotion(motion: Motion, c: Commands) returns (overflow: bool, moved: Motion)
      ensures moved == Moved(motion, c)
      ensures overflow <==> c.relative.Some? && !Admitted(motion, c)
    {
      var base := if c.ClearsMotion() then NO_MOTION else motion;
      if c.relative.None? {
        return false, base;
      }
      var r := c.relative.value;
      var x, y := base.x + r.On(X), base.y + r.On(Y);
      var wheel, pan := base.wheel + r.On(Wheel), base.pan + r.On(Pan);
      overflow := (r.x && !Fits32(x)) || (r.y && !Fits32(y)) ||
        (r.wheel && !Fits32(wheel)) || (r.pan && !Fits32(pan));
      moved := if overflow then motion else Motion(x, y, wheel, pan);
    }

    /** PREPARE's buttons: command over clear over release, and the click that goes with them. */
    method PressButtons(t: Transaction, c: Commands) returns (buttons: U64, active: bool, target: U32, restore: U64)
      requires t.Wellformed()
      ensures buttons == AppliedButtons(t.Meaning(), c)
      ensures (if active then Some(Click(target, restore)) else None) == AppliedClick(t.Meaning(), c)
    {
      var due := t.clickActive && (c.now - t.clickReleaseTarget) % 0x1_0000_0000 < 0x8000_0000;
      buttons :=
        if c.button.Some? then c.button.value.buttons
        else if c.ClearsButtons() then 0
        else if due then t.clickRestore
        else t.buttons;
      active :=
        if c.button.Some? then c.button.value.holdReports != 0 && c.button.value.buttons != 0
        else if due || c.ClearsButtons() then false
        else t.clickActive;
      target :=
        if c.button.Some? then (c.now + c.button.value.holdReports) % 0x1_0000_0000
        else t.clickReleaseTarget;
      restore :=
        if c.button.None? then t.clickRestore
        else if c.ClearsButtons() then 0
        else if t.clickActive then t.clickRestore
        else t.buttons;
    }

    /** PREPARE's held channels: the command replaces the whole set, a clear releases it. */
    method HoldChannels(t: Transaction, c: Commands) returns (mask: seq<bool>, values: seq<S16>)
      requires t.Wellformed() && c.Wellformed()
      ensures |mask| == CHANNELS && |values| == CHANNELS
      ensures HeldSet(mask, values) == AppliedHeld(t.Meaning(), c)
    {
      mask :=
        if c.absolute.Some? then c.absolute.value.mask
        else if c.ClearsAbsolute() then seq(CHANNELS, _ => false)
        else t.heldMask;
      values := if c.absolute.Some? then c.absolute.value.values else t.heldValues;
    }

    /** PREPARE: the transaction the targeting commands make of the captured state. */
    method Prepare(l: nat, key: LayoutKey, g: Generations, c: Commands) returns (t: Transaction)
      requires Valid() && l < MAX_LAYOUTS && c.Wellformed()
      ensures t.Wellformed() && t.Meaning() == Applied(Layout(l, key, g), c)
      ensures t.relativeOverflow <==> c.relative.Some? && !StaysIn(Layout(l, key, g), c, c.relative.value)
    {
      var captured := Capture(l, key, g);
      if c.relative.Some? {
        OverflowsByAxis(Layout(l, key, g), c, c.relative.value);
      }
      var overflow, moved := AddMotion(captured.motion, c);
      var buttons, active, target, restore := PressButtons(captured, c);
      var mask, values := HoldChannels(captured, c);
      t := Transaction(
        moved, buttons,
        if c.mask.Some? then c.mask.value.masks else if c.ClearsMasks() then 0 else captured.masks,
        mask, values, active, target, restore,
        if c.clear.Some? then c.clear.value.sequence
        else if c.mask.Some? then c.mask.value.sequence
        else if c.button.Some? then c.button.value.sequence
        else if c.absolute.Some? then c.absolute.value.sequence
        else if c.relative.Some? && !overflow then c.relative.value.sequence
        else captured.sequence,
        overflow);
    }

    /** The final-byte handshake's writes: two words, and five masks. */
    method WriteSlot(l: nat, r: StateRecord, p: PadRecord, c: Commands)
      requires Valid() && l < MAX_LAYOUTS && |p.heldMask| == CHANNELS && |p.heldValues| == CHANNELS
      modifies this, records, pads
      ensures Valid()
      ensures SlotAt(l) == Slot(r, p, true, true, true, true, true)
      ensures forall m :: 0 <= m < MAX_LAYOUTS && m != l ==> SlotAt(m) == old(SlotAt(m)).Dropped(c)
    {
      records[l] := r;
      pads[l] := p;
      valid := valid + {l};
      motionLive := (if c.ClearsMotion() then {} else motionLive) + {l};
      buttonsLive := (if c.ClearsButtons() then {} else buttonsLive) + {l};
      masksLive := (if c.ClearsMasks() then {} else masksLive) + {l};
      absoluteLive := (if c.ClearsAbsolute() then {} else absoluteLive) + {l};
    }

    /**
      Committing a transaction: its layout reads back what the registers stood for, and in the
      same step every other layout reads back exactly the CLEAR.
     */
    method Commit(l: nat, key: LayoutKey, g: Generations, reportLength: U8, t: Transaction, c: Commands)
      requires Valid() && l < MAX_LAYOUTS && t.Wellformed()
      modifies this, records, pads
      ensures Valid()
      ensures Layout(l, key, g) == t.Meaning()
      ensures forall m, key', g' :: 0 <= m < MAX_LAYOUTS && m != l ==>
        Layout(m, key', g') ==
        if old(SlotAt(m)).Current(key', g') then Cleared(old(Layout(m, key', g')), c) else Untouched()
    {
      var r := StateRecord(key, g, t.motion, t.buttons, t.masks, t.sequence, reportLength,
        t.clickActive, t.clickReleaseTarget, t.clickRestore);
      WriteSlot(l, r, PadRecord(t.heldMask, t.heldValues), c);
      forall m, key', g' | 0 <= m < MAX_LAYOUTS && m != l
        ensures Layout(m, key', g') ==
          if old(SlotAt(m)).Current(key', g') then Cleared(old(Layout(m, key', g')), c) else Untouched()
      {
        DroppedReadsCleared(old(SlotAt(m)), c, key', g');
      }
    }

    /** SEED_CHECK and SEED_FILL: a zero record for a layout of a new map that has none. */
    method Seed(l: nat, key: LayoutKey, g: Generations, reportLength: U8)
      requires Valid() && l < MAX_LAYOUTS
      modifies this, records, pads
      ensures Valid()
      ensures l in valid && records[l].generations == g
      ensures old(l in valid ==> records[l].key == key) ==> Layout(l, key, g) == old(Layout(l, key, g))
      ensures forall m, key', g' :: 0 <= m < MAX_LAYOUTS && m != l ==>
        Layout(m, key', g') == old(Layout(m, key', g'))
    {
      if l in valid && records[l].generations == g {
        return;
      }
      records[l] := StateRecord(key, g, NO_MOTION, 0, 0, 0, reportLength, false, 0, 0);
      pads[l] := PadRecord(seq(CHANNELS, _ => false), seq(CHANNELS, _ => 0));
      valid, motionLive, buttonsLive := valid + {l}, motionLive + {l}, buttonsLive + {l};
      masksLive, absoluteLive := masksLive + {l}, absoluteLive + {l};
      assert HeldSet(seq(CHANNELS, _ => false), seq(CHANNELS, _ => 0)) == NothingHeld();
    }

    /** store.invalidate: all five masks drop, and with them everything injected. */
    method Invalidate()
      requires Valid()
      modifies this
      ensures forall l, key, g :: 0 <= l < MAX_LAYOUTS ==> Layout(l, key, g) == Untouched()
    {
      valid, motionLive, buttonsLive, masksLive, absoluteLive := {}, {}, {}, {}, {};
    }
  }
}
