/** The engine's bit-by-bit field pipeline over one buffered report. */
module FieldPipeline {
  import opened Bits
  import opened MapEntries

  /** One 16-bit buffer word: the byte as received and the byte being rewritten. */
  datatype Word = Word(native: Byte, working: Byte)

  function NativeLane(words: seq<Word>): (lane: seq<Byte>)
    ensures |lane| == |words|
    ensures forall i :: 0 <= i < |words| ==> lane[i] == words[i].native
  {
    seq(|words|, i requires 0 <= i < |words| => words[i].native)
  }

  function WorkingLane(words: seq<Word>): (lane: seq<Byte>)
    ensures |lane| == |words|
    ensures forall i :: 0 <= i < |words| ==> lane[i] == words[i].working
  {
    seq(|words|, i requires 0 <= i < |words| => words[i].working)
  }

  /** Motion waiting to be emitted, one signed 32-bit register an axis. */
  datatype Motion = Motion(x: S32, y: S32, wheel: S32, pan: S32) {
    function Get(axis: Axis): S32 {
      match axis
      case X => x
      case Y => y
      case Wheel => wheel
      case Pan => pan
    }

    function Set(axis: Axis, v: S32): Motion {
      match axis
      case X => this.(x := v)
      case Y => this.(y := v)
      case Wheel => this.(wheel := v)
      case Pan => this.(pan := v)
    }
  }

  /** What a transaction merges into a report besides motion. */
  datatype Overlay = Overlay(buttons: U64, mask: U64, heldMask: seq<bool>, heldValues: seq<S16>) {
    predicate Wellformed() {
      |heldMask| == CHANNELS && |heldValues| == CHANNELS
    }
  }

  /** The report a transaction is working on: its key, its length, its native bytes. */
  datatype Target = Target(key: LayoutKey, native: seq<Byte>, stationary: bool)

  function Clamp(v: int, lo: int, hi: int): int {
    if v < lo then lo else if v > hi then hi else v
  }

  /** A 34-bit residual stored into a signed 32-bit register. */
  function Wrap32(v: int): S32 {
    (v + 0x8000_0000) % 0x1_0000_0000 - 0x8000_0000
  }

  predicate Matches(e: MapEntry, t: Target) {
    Key(e) == t.key && e.reportLength == |t.native|
  }

  /** The part of map validation the pipeline relies on, for one entry. */
  predicate FieldInBounds(e: MapEntry) {
    && 0 < e.bitWidth <= 32
    && e.bitOffset + e.bitWidth <= 8 * e.reportLength
    && e.logicalMinimum <= e.logicalMaximum
    && (ClassOf(e).Absolute? ==> e.bitWidth <= 16 && e.channel <= MAX_CHANNEL)
  }

  /** What the device reported in e's field; nothing, in a synthesised report. */
  function Physical(e: MapEntry, t: Target): int
    requires FieldInBounds(e) && e.reportLength == |t.native|
  {
    if t.stationary then 0
    else
      var raw := FieldRaw(t.native, e.bitOffset, e.bitWidth);
      if e.flags.signed then SignExtend(raw, e.bitWidth) else raw
  }

  /** The map as the engine may use it: bounds of every entry of the target's layout. */
  predicate Usable(map_: seq<MapEntry>, t: Target) {
    forall k :: 0 <= k < |map_| && Matches(map_[k], t) ==> FieldInBounds(map_[k])
  }

  predicate NoOverlap(map_: seq<MapEntry>, t: Target) {
    forall j, k :: 0 <= j < k < |map_| && Matches(map_[j], t) && Matches(map_[k], t) ==>
      Disjoint(map_[j], map_[k])
  }

  predicate MovesAxis(e: MapEntry, t: Target) {
    Matches(e, t) && ClassOf(e).Relative?
  }

  /** Physical plus pending motion: what entry k would emit with no range. */
  function Total(map_: seq<MapEntry>, t: Target, motion: Motion, k: nat): int
    requires Usable(map_, t) && k < |map_| && MovesAxis(map_[k], t)
    decreases k, 1
  {
    Physical(map_[k], t) + MotionBefore(map_, t, motion, k).Get(AxisOf(map_[k]))
  }

  /** The motion still pending when entry k is reached, threaded in entry order. */
  function MotionBefore(map_: seq<MapEntry>, t: Target, motion: Motion, k: nat): Motion
    requires Usable(map_, t) && k <= |map_|
    decreases k, 0
  {
    if k == 0 then motion
    else
      var before := MotionBefore(map_, t, motion, k - 1);
      var e := map_[k - 1];
      if MovesAxis(e, t) then
        var total := Total(map_, t, motion, k - 1);
        before.Set(AxisOf(e), Wrap32(total - Emitted(map_, t, motion, k - 1)))
      else before
  }

  /** The value entry k puts into its relative field. */
  function Emitted(map_: seq<MapEntry>, t: Target, motion: Motion, k: nat): int
    requires Usable(map_, t) && k < |map_| && MovesAxis(map_[k], t)
    decreases k, 2
  {
    Clamp(Total(map_, t, motion, k), map_[k].logicalMinimum, map_[k].logicalMaximum)
  }

  /** Bit i of entry k's field in the mutated report. */
  predicate FieldBit(map_: seq<MapEntry>, t: Target, motion: Motion, o: Overlay, k: nat, i: nat)
    requires Usable(map_, t) && o.Wellformed()
    requires k < |map_| && Matches(map_[k], t) && i < map_[k].bitWidth
  {
    var e := map_[k];
    var physical := ReportBit(t.native, e.bitOffset + i);
    match ClassOf(e)
    case Button =>
      var button := e.usage + i - 1;
      if 0 < e.usage && button < 64 then
        (physical && !BitOf(o.mask, button)) || BitOf(o.buttons, button)
      else physical
    case Relative => BitOf(Emitted(map_, t, motion, k), i)
    case Absolute => if o.heldMask[e.channel] then BitOf(o.heldValues[e.channel], i) else physical
  }

  /** Whether the pipeline writes bit i of e's field at all. */
  predicate Rewrites(e: MapEntry, o: Overlay, i: nat)
    requires o.Wellformed() && FieldInBounds(e)
  {
    match ClassOf(e)
    case Button => 0 < e.usage && e.usage + i - 1 < 64
    case Relative => true
    case Absolute => o.heldMask[e.channel]
  }

  /** Entry k has been written into the lane, and nothing else. */
  predicate EntryDone(before: seq<Byte>, after: seq<Byte>, map_: seq<MapEntry>, t: Target, motion: Motion, o: Overlay,
      k: nat)
    requires Usable(map_, t) && o.Wellformed() && k < |map_|
  {
    |before| == |after| == |t.native| &&
    forall q :: 0 <= q < 8 * |t.native| ==>
      ReportBit(after, q) ==
      if Matches(map_[k], t) && Covers(map_[k], q) && Rewrites(map_[k], o, q - map_[k].bitOffset)
      then FieldBit(map_, t, motion, o, k, q - map_[k].bitOffset)
      else ReportBit(before, q)
  }

  lemma ButtonsDone(before: seq<Byte>, after: seq<Byte>, map_: seq<MapEntry>, t: Target, motion: Motion, o: Overlay,
      k: nat)
    requires Usable(map_, t) && o.Wellformed() && k < |map_| && |before| == |after| == |t.native|
    requires Matches(map_[k], t) && ClassOf(map_[k]).Button?
    requires forall q :: 0 <= q < 8 * |t.native| ==>
      ReportBit(after, q) ==
      var button := map_[k].usage + (q - map_[k].bitOffset) - 1;
      if Covers(map_[k], q) && 0 < map_[k].usage && button < 64 then
        (ReportBit(t.native, q) && !BitOf(o.mask, button)) || BitOf(o.buttons, button)
      else ReportBit(before, q)
    ensures EntryDone(before, after, map_, t, motion, o, k)
  {
  }

  lemma AxisDone(before: seq<Byte>, after: seq<Byte>, map_: seq<MapEntry>, t: Target, motion: Motion, o: Overlay,
      k: nat)
    requires Usable(map_, t) && o.Wellformed() && k < |map_| && |before| == |after| == |t.native|
    requires Matches(map_[k], t) && ClassOf(map_[k]).Relative?
    requires forall q :: 0 <= q < 8 * |t.native| ==>
      ReportBit(after, q) ==
      if Covers(map_[k], q) then BitOf(Emitted(map_, t, motion, k), q - map_[k].bitOffset) else ReportBit(before, q)
    ensures EntryDone(before, after, map_, t, motion, o, k)
  {
  }

  lemma HeldDone(before: seq<Byte>, after: seq<Byte>, map_: seq<MapEntry>, t: Target, motion: Motion, o: Overlay,
      k: nat)
    requires Usable(map_, t) && o.Wellformed() && k < |map_| && |before| == |after| == |t.native|
    requires Matches(map_[k], t) && ClassOf(map_[k]).Absolute? && o.heldMask[map_[k].channel]
    requires forall q :: 0 <= q < 8 * |t.native| ==>
      ReportBit(after, q) ==
      if Covers(map_[k], q) then BitOf(o.heldValues[map_[k].channel], q - map_[k].bitOffset) else ReportBit(before, q)
    ensures EntryDone(before, after, map_, t, motion, o, k)
  {
  }

  predicate Owned(map_: seq<MapEntry>, t: Target, n: nat, p: int)
    requires n <= |map_|
  {
    exists k :: 0 <= k < n && Matches(map_[k], t) && Covers(map_[k], p)
  }

  /** out is t's report with the first n entries' fields rewritten and nothing else. */
  ghost predicate MutatedBy(
    out: seq<Byte>, map_: seq<MapEntry>, t: Target, motion: Motion, o: Overlay, n: nat)
    requires Usable(map_, t) && o.Wellformed() && n <= |map_|
  {
    && |out| == |t.native|
    && (forall k, i :: 0 <= k < n && Matches(map_[k], t) && 0 <= i < map_[k].bitWidth ==>
          ReportBit(out, map_[k].bitOffset + i) == FieldBit(map_, t, motion, o, k, i))
    && (forall p :: 0 <= p < 8 * |out| && !Owned(map_, t, n, p) ==>
          ReportBit(out, p) == ReportBit(t.native, p))
  }

  /** The report buffer and the working registers of ReportInjectionEngine. */
  class FieldEngine {
    const buffer: array<Word>
    var working: Motion
    var overlay: Overlay
    /** How many more snapshot checks succeed before the active map is gone. */
    var life: nat

    constructor ()
      ensures buffer.Length == MAX_REPORT_BYTES && fresh(buffer)
      ensures overlay.Wellformed()
    {
      buffer := new Word[MAX_REPORT_BYTES](_ => Word(0, 0));
      working := Motion(0, 0, 0, 0);
      overlay := Overlay(0, 0, seq(CHANNELS, _ => false), seq(CHANNELS, _ => 0));
      life := 0;
    }

    function Native(n: nat): (lane: seq<Byte>)
      requires n <= buffer.Length
      reads buffer
      ensures |lane| == n
    {
      NativeLane(buffer[..n])
    }

    function Working(n: nat): (lane: seq<Byte>)
      requires n <= buffer.Length
      reads buffer
      ensures |lane| == n
    {
      WorkingLane(buffer[..n])
    }

    /** snapshot_matches, as every mutation state reads it. */
    method SnapshotMatches() returns (alive: bool)
      modifies this`life
      ensures alive == (old(life) > 0)
      ensures life == if alive then old(life) - 1 else 0
    {
      alive := life > 0;
      if alive {
        life := life - 1;
      }
    }

    /** READ, CONSUME and WRITE of one working bit; the native byte is written back. */
    method WriteBit(n: nat, p: nat, v: bool)
      requires n <= buffer.Length && p < 8 * n
      modifies buffer
      ensures Native(n) == old(Native(n))
      ensures forall q :: 0 <= q < 8 * n ==>
        ReportBit(Working(n), q) == if q == p then v else old(ReportBit(Working(n), q))
    {
      var word := buffer[p / 8];
      buffer[p / 8] := Word(word.native, WithBit(word.working, p % 8, v));
      forall q | 0 <= q < 8 * n
        ensures ReportBit(Working(n), q) == if q == p then v else old(ReportBit(Working(n), q))
      {
        WithBitSetsOneBit(word.working, p % 8, v, q % 8);
      }
    }

    /** MERGE_BUTTON_*: each bit is its own usage, merged against masks and injected buttons. */
    method MergeButtons(e: MapEntry, t: Target) returns (done: bool)
      requires |t.native| <= buffer.Length && t.native == Native(|t.native|)
      requires Matches(e, t) && FieldInBounds(e)
      modifies buffer, this`life
      ensures done == (old(life) >= e.bitWidth)
      ensures done ==> life == old(life) - e.bitWidth
      ensures Native(|t.native|) == old(Native(|t.native|))
      ensures done ==> forall q :: 0 <= q < 8 * |t.native| ==>
        ReportBit(Working(|t.native|), q) ==
        var button := e.usage + (q - e.bitOffset) - 1;
        if Covers(e, q) && 0 < e.usage && button < 64 then
          (ReportBit(t.native, q) && !BitOf(overlay.mask, button)) || BitOf(overlay.buttons, button)
        else old(ReportBit(Working(|t.native|), q))
    {
      var n := |t.native|;
      var i := 0;
      while i < e.bitWidth
        invariant 0 <= i <= e.bitWidth && life == old(life) - i
        invariant Native(n) == t.native
        invariant forall q :: 0 <= q < 8 * n ==>
          ReportBit(Working(n), q) ==
          var button := e.usage + (q - e.bitOffset) - 1;
          if e.bitOffset <= q < e.bitOffset + i && 0 < e.usage && button < 64 then
            (ReportBit(t.native, q) && !BitOf(overlay.mask, button)) || BitOf(overlay.buttons, button)
          else old(ReportBit(Working(n), q))
      {
        var alive := SnapshotMatches();
        if !alive {
          return false;
        }
        var p := e.bitOffset + i;
        var button := e.usage + i - 1;
        if 0 < e.usage && button < 64 {
          var physical := ReadBit(p, t.native);
          WriteBit(n, p, (physical && !BitOf(overlay.mask, button)) || BitOf(overlay.buttons, button));
        }
        i := i + 1;
      }
      return true;
    }

    /** template_bit: one bit of the native lane. */
    method ReadBit(p: nat, ghost native: seq<Byte>) returns (bit: bool)
      requires |native| <= buffer.Length && p < 8 * |native| && Native(|native|) == native
      ensures bit == ReportBit(native, p)
    {
      bit := ByteBit(buffer[p / 8].native, p % 8);
      assert native[p / 8] == buffer[p / 8].native;
    }

    /** EXTRACT_FIELD_CONSUME: one more bit of the raw value, if the map is still there. */
    method GatherBit(e: MapEntry, ghost native: seq<Byte>, i: nat, raw: nat) returns (alive: bool, next: nat)
      requires |native| <= buffer.Length && native == Native(|native|)
      requires i < e.bitWidth && e.bitOffset + e.bitWidth <= 8 * |native|
      requires raw == FieldRaw(native, e.bitOffset, i)
      modifies this`life
      ensures alive == (old(life) > 0)
      ensures life == if alive then old(life) - 1 else 0
      ensures alive ==> next == FieldRaw(native, e.bitOffset, i + 1)
    {
      next := raw;
      alive := SnapshotMatches();
      if alive {
        var bit := ReadBit(e.bitOffset + i, native);
        next := if bit then raw + Pow2(i) else raw;
      }
    }

    /** EXTRACT_FIELD_*: gather the field from the native lane, least significant bit first. */
    method ExtractField(e: MapEntry, t: Target) returns (done: bool, raw: nat)
      requires |t.native| <= buffer.Length && t.native == Native(|t.native|)
      requires Matches(e, t) && FieldInBounds(e)
      modifies this`life
      ensures done == (old(life) >= e.bitWidth)
      ensures done ==> life == old(life) - e.bitWidth && raw == FieldRaw(t.native, e.bitOffset, e.bitWidth)
    {
      done, raw := true, 0;
      var i := 0;
      while i < e.bitWidth && done
        invariant 0 <= i <= e.bitWidth && t.native == Native(|t.native|)
        invariant if done then life == old(life) - i else old(life) < e.bitWidth
        invariant done ==> raw == FieldRaw(t.native, e.bitOffset, i)
        decreases e.bitWidth - i, done
      {
        done, raw := GatherBit(e, t.native, i, raw);
        if done {
          i := i + 1;
        }
      }
    }

    /** INSERT_FIELD_*: write the low bit_width bits of v, least significant bit first. */
    method InsertField(e: MapEntry, n: nat, v: int) returns (done: bool)
      requires n <= buffer.Length && e.reportLength == n && FieldInBounds(e)
      modifies buffer, this`life
      ensures done == (old(life) >= e.bitWidth)
      ensures done ==> life == old(life) - e.bitWidth
      ensures Native(n) == old(Native(n))
      ensures done ==> forall q :: 0 <= q < 8 * n ==>
        ReportBit(Working(n), q) ==
        if Covers(e, q) then BitOf(v, q - e.bitOffset) else old(ReportBit(Working(n), q))
    {
      var i := 0;
      while i < e.bitWidth
        invariant 0 <= i <= e.bitWidth && life == old(life) - i
        invariant Native(n) == old(Native(n))
        invariant forall q :: 0 <= q < 8 * n ==>
          ReportBit(Working(n), q) ==
          if e.bitOffset <= q < e.bitOffset + i then BitOf(v, q - e.bitOffset)
          else old(ReportBit(Working(n), q))
      {
        var alive := SnapshotMatches();
        if !alive {
          return false;
        }
        WriteBit(n, e.bitOffset + i, BitOf(v, i));
        i := i + 1;
      }
      return true;
    }

    /** CALCULATE_FIELD and COMMIT_FIELD: clamp the total, keep the rest for later. */
    method CommitField(e: MapEntry, t: Target, raw: nat) returns (clamped: int)
      requires Matches(e, t) && FieldInBounds(e)
      requires raw == FieldRaw(t.native, e.bitOffset, e.bitWidth)
      modifies this`working
      ensures var total := Physical(e, t) + old(working).Get(AxisOf(e));
        && clamped == Clamp(total, e.logicalMinimum, e.logicalMaximum)
        && working == old(working).Set(AxisOf(e), Wrap32(total - clamped))
    {
      var physical :=
        if t.stationary then 0
        else if e.flags.signed && BitOf(raw, e.bitWidth - 1) then raw - Pow2(e.bitWidth)
        else raw;
      var total := physical + working.Get(AxisOf(e));
      clamped :=
        if total < e.logicalMinimum then e.logicalMinimum
        else if total > e.logicalMaximum then e.logicalMaximum
        else total;
      working := working.Set(AxisOf(e), Wrap32(total - clamped));
    }

    /** EXTRACT_FIELD, CALCULATE_FIELD and COMMIT_FIELD: what the axis is to show. */
    method CalculateAxis(e: MapEntry, t: Target) returns (done: bool, clamped: int)
      requires |t.native| <= buffer.Length && t.native == Native(|t.native|)
      requires Matches(e, t) && FieldInBounds(e)
      modifies this`working, this`life
      ensures done == (old(life) >= e.bitWidth + 1)
      ensures var total := Physical(e, t) + old(working).Get(AxisOf(e));
        done ==>
          && life == old(life) - e.bitWidth - 1
          && clamped == Clamp(total, e.logicalMinimum, e.logicalMaximum)
          && working == old(working).Set(AxisOf(e), Wrap32(total - clamped))
    {
      var raw;
      clamped := 0;
      done, raw := ExtractField(e, t);
      if !done {
        return;
      }
      done := SnapshotMatches();
      if !done {
        return;
      }
      clamped := CommitField(e, t, raw);
    }

    /** EXTRACT_FIELD, CALCULATE_FIELD and COMMIT_FIELD, then insertion of the clamped value. */
    method MoveAxis(e: MapEntry, t: Target) returns (done: bool)
      requires |t.native| <= buffer.Length && t.native == Native(|t.native|)
      requires Matches(e, t) && FieldInBounds(e)
      modifies buffer, this`working, this`life
      ensures done == (old(life) >= 2 * e.bitWidth + 1)
      ensures done ==> life == old(life) - 2 * e.bitWidth - 1
      ensures Native(|t.native|) == old(Native(|t.native|))
      ensures var total := Physical(e, t) + old(working).Get(AxisOf(e));
        var clamped := Clamp(total, e.logicalMinimum, e.logicalMaximum);
        done ==>
          && working == old(working).Set(AxisOf(e), Wrap32(total - clamped))
          && forall q :: 0 <= q < 8 * |t.native| ==>
               ReportBit(Working(|t.native|), q) ==
               if Covers(e, q) then BitOf(clamped, q - e.bitOffset)
               else old(ReportBit(Working(|t.native|), q))
    {
      var clamped;
      done, clamped := CalculateAxis(e, t);
      if !done {
        return;
      }
      done := InsertField(e, |t.native|, clamped);
    }

    /** The button states of entry k. */
    method ProcessButtons(map_: seq<MapEntry>, t: Target, k: nat, ghost motion: Motion) returns (done: bool)
      requires |t.native| <= buffer.Length && overlay.Wellformed() && t.native == Native(|t.native|)
      requires Usable(map_, t) && k < |map_| && working == MotionBefore(map_, t, motion, k)
      requires Matches(map_[k], t) && ClassOf(map_[k]).Button?
      modifies buffer, this`working, this`life
      ensures done == (old(life) >= EntryChecks(map_[k], t, overlay) - 1)
      ensures done ==> life == old(life) - EntryChecks(map_[k], t, overlay) + 1
      ensures Native(|t.native|) == t.native
      ensures done ==> working == MotionBefore(map_, t, motion, k + 1)
      ensures done ==> EntryDone(old(Working(|t.native|)), Working(|t.native|), map_, t, motion, overlay, k)
    {
      ghost var before := Working(|t.native|);
      done := MergeButtons(map_[k], t);
      if done {
        ButtonsDone(before, Working(|t.native|), map_, t, motion, overlay, k);
      }
    }

    /** The axis states of entry k. */
    method ProcessAxis(map_: seq<MapEntry>, t: Target, k: nat, ghost motion: Motion) returns (done: bool)
      requires |t.native| <= buffer.Length && overlay.Wellformed() && t.native == Native(|t.native|)
      requires Usable(map_, t) && k < |map_| && working == MotionBefore(map_, t, motion, k)
      requires Matches(map_[k], t) && ClassOf(map_[k]).Relative?
      modifies buffer, this`working, this`life
      ensures done == (old(life) >= EntryChecks(map_[k], t, overlay) - 1)
      ensures done ==> life == old(life) - EntryChecks(map_[k], t, overlay) + 1
      ensures Native(|t.native|) == t.native
      ensures done ==> working == MotionBefore(map_, t, motion, k + 1)
      ensures done ==> EntryDone(old(Working(|t.native|)), Working(|t.native|), map_, t, motion, overlay, k)
    {
      ghost var before := Working(|t.native|);
      done := MoveAxis(map_[k], t);
      if done {
        AxisDone(before, Working(|t.native|), map_, t, motion, overlay, k);
      }
    }

    /** The held value of entry k's channel. */
    method ProcessHeld(map_: seq<MapEntry>, t: Target, k: nat, ghost motion: Motion) returns (done: bool)
      requires |t.native| <= buffer.Length && overlay.Wellformed() && t.native == Native(|t.native|)
      requires Usable(map_, t) && k < |map_| && working == MotionBefore(map_, t, motion, k)
      requires Matches(map_[k], t) && ClassOf(map_[k]).Absolute?
      modifies buffer, this`working, this`life
      ensures done == (old(life) >= EntryChecks(map_[k], t, overlay) - 1)
      ensures done ==> life == old(life) - EntryChecks(map_[k], t, overlay) + 1
      ensures Native(|t.native|) == t.native
      ensures done ==> working == MotionBefore(map_, t, motion, k + 1)
      ensures done ==> EntryDone(old(Working(|t.native|)), Working(|t.native|), map_, t, motion, overlay, k)
    {
      ghost var before := Working(|t.native|);
      var e := map_[k];
      done := true;
      if overlay.heldMask[e.channel] {
        done := InsertField(e, |t.native|, overlay.heldValues[e.channel]);
        if done {
          HeldDone(before, Working(|t.native|), map_, t, motion, overlay, k);
        }
      }
    }

    /** DISPATCH_ENTRY: run the one pipeline entry k's class selects. */
    method ProcessEntry(map_: seq<MapEntry>, t: Target, k: nat, ghost motion: Motion) returns (done: bool)
      requires |t.native| <= buffer.Length && overlay.Wellformed()
      requires t.native == Native(|t.native|)
      requires Usable(map_, t) && k < |map_|
      requires working == MotionBefore(map_, t, motion, k)
      modifies buffer, this`working, this`life
      ensures done == (old(life) >= EntryChecks(map_[k], t, overlay))
      ensures done ==> life == old(life) - EntryChecks(map_[k], t, overlay)
      ensures Native(|t.native|) == t.native
      ensures done ==> working == MotionBefore(map_, t, motion, k + 1)
      ensures done ==> EntryDone(old(Working(|t.native|)), Working(|t.native|), map_, t, motion, overlay, k)
    {
      done := SnapshotMatches();
      if !done {
        return;
      }
      if Matches(map_[k], t) {
        match ClassOf(map_[k]) {
          case Button => done := ProcessButtons(map_, t, k, motion);
          case Relative => done := ProcessAxis(map_, t, k, motion);
          case Absolute => done := ProcessHeld(map_, t, k, motion);
        }
      }
    }

    /**
      LOOKUP_WAIT to NEXT_ENTRY over the whole active map. It finishes exactly when the map
      outlives every check; whenever it does not, the native lane is still what was captured.
     */
    method Mutate(map_: seq<MapEntry>, t: Target) returns (done: bool)
      requires |t.native| <= buffer.Length && overlay.Wellformed()
      requires t.native == Native(|t.native|) == Working(|t.native|)
      requires Usable(map_, t) && NoOverlap(map_, t)
      modifies buffer, this`working, this`life
      ensures done == (old(life) >= MutationChecks(map_, t, overlay, |map_|))
      ensures done ==> life == old(life) - MutationChecks(map_, t, overlay, |map_|)
      ensures Native(|t.native|) == t.native
      ensures done ==> MutatedBy(Working(|t.native|), map_, t, old(working), overlay, |map_|)
      ensures done ==> working == MotionBefore(map_, t, old(working), |map_|)
    {
      ghost var motion := working;
      var k := 0;
      while k < |map_|
        invariant 0 <= k <= |map_|
        invariant life == old(life) - MutationChecks(map_, t, overlay, k)
        invariant Native(|t.native|) == t.native
        invariant MutatedBy(Working(|t.native|), map_, t, motion, overlay, k)
        invariant working == MotionBefore(map_, t, motion, k)
      {
        ghost var before := Working(|t.native|);
        ghost var left := life;
        done := ProcessEntry(map_, t, k, motion);
        ChecksGrow(map_, t, overlay, k + 1, |map_|);
        if !done {
          return;
        }
        EntryStep(before, Working(|t.native|), map_, t, motion, overlay, k);
        k := k + 1;
      }
      return true;
    }
  }

  /** Snapshot checks one entry costs: the dispatch, then one a bit, twice over for an axis. */
  function EntryChecks(e: MapEntry, t: Target, o: Overlay): nat
    requires o.Wellformed() && (Matches(e, t) ==> FieldInBounds(e))
  {
    if !Matches(e, t) then 1
    else
      match ClassOf(e)
      case Button => 1 + e.bitWidth
      case Relative => 2 + 2 * e.bitWidth
      case Absolute => if o.heldMask[e.channel] then 1 + e.bitWidth else 1
  }

  function MutationChecks(map_: seq<MapEntry>, t: Target, o: Overlay, n: nat): nat
    requires o.Wellformed() && Usable(map_, t) && n <= |map_|
  {
    if n == 0 then 0 else MutationChecks(map_, t, o, n - 1) + EntryChecks(map_[n - 1], t, o)
  }

  lemma {:induction false} ChecksGrow(map_: seq<MapEntry>, t: Target, o: Overlay, m: nat, n: nat)
    requires o.Wellformed() && Usable(map_, t) && m <= n <= |map_|
    ensures MutationChecks(map_, t, o, m) <= MutationChecks(map_, t, o, n)
    decreases n - m
  {
    if m < n {
      ChecksGrow(map_, t, o, m, n - 1);
    }
  }

  /** One more entry keeps MutatedBy: what it writes is free of every earlier field. */
  lemma EntryStep(
    before: seq<Byte>, after: seq<Byte>,
    map_: seq<MapEntry>, t: Target, motion: Motion, o: Overlay, k: nat)
    requires Usable(map_, t) && NoOverlap(map_, t) && o.Wellformed() && k < |map_|
    requires MutatedBy(before, map_, t, motion, o, k)
    requires |after| == |t.native|
    requires forall q :: 0 <= q < 8 * |after| ==>
      ReportBit(after, q) ==
      if Matches(map_[k], t) && Covers(map_[k], q) && Rewrites(map_[k], o, q - map_[k].bitOffset)
      then FieldBit(map_, t, motion, o, k, q - map_[k].bitOffset)
      else ReportBit(before, q)
    ensures MutatedBy(after, map_, t, motion, o, k + 1)
  {
    var e := map_[k];
    forall j, i | 0 <= j < k + 1 && Matches(map_[j], t) && 0 <= i < map_[j].bitWidth
      ensures ReportBit(after, map_[j].bitOffset + i) == FieldBit(map_, t, motion, o, j, i)
    {
      var q := map_[j].bitOffset + i;
      if j < k {
        assert Matches(e, t) ==> !Covers(e, q);
      } else if !Rewrites(e, o, i) {
        assert !Owned(map_, t, k, q);
      }
    }
    forall p | 0 <= p < 8 * |after| && !Owned(map_, t, k + 1, p)
      ensures ReportBit(after, p) == ReportBit(t.native, p)
    {
      assert Matches(e, t) ==> !Covers(e, p);
      assert !Owned(map_, t, k, p);
    }
  }
}
