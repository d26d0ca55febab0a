/** What a host reads off a mutated report, field by field. */
module ReportMeaning {
  import opened Bits
  import opened MapEntries
  import opened FieldPipeline

  /** Button u, counted from 1, of a set of 64. */
  predicate Pressed(buttons: int, u: nat)
    requires u > 0
  {
    (buttons / Pow2(u - 1)) % 2 == 1
  }

  /** Every button of a field of buttons is pressed if the device presses it and it is not masked, or if it is
   *  injected; usages past 64 are the device's. */
  lemma ButtonReads(
    out: seq<Byte>, map_: seq<MapEntry>, t: Target, motion: Motion, o: Overlay, k: nat, i: nat)
    requires Usable(map_, t) && o.Wellformed() && MutatedBy(out, map_, t, motion, o, |map_|)
    requires k < |map_| && Matches(map_[k], t) && map_[k].flags.button && i < map_[k].bitWidth
    ensures var e := map_[k];
            var u, p := e.usage + i, e.bitOffset + i;
            ReportBit(out, p) <==>
            if e.usage > 0 && u <= 64 then (ReportBit(t.native, p) && !Pressed(o.mask, u)) || Pressed(o.buttons, u)
            else ReportBit(t.native, p)
  {
    BitOfField(out, map_, t, motion, o, k, map_[k].bitOffset + i);
  }

  predicate SameBits(a: seq<Byte>, b: seq<Byte>, offset: nat, width: nat)
    requires offset + width <= 8 * |a| && |a| == |b|
  {
    forall p :: offset <= p < offset + width ==> ReportBit(a, p) == ReportBit(b, p)
  }

  lemma {:induction false} SameField(a: seq<Byte>, b: seq<Byte>, offset: nat, width: nat)
    requires offset + width <= 8 * |a| && |a| == |b| && SameBits(a, b, offset, width)
    ensures FieldRaw(a, offset, width) == FieldRaw(b, offset, width)
    decreases width
  {
    if width > 0 {
      SameField(a, b, offset, width - 1);
    }
  }

  /** Bit p of entry k's field is the one the pipeline put there. */
  lemma BitOfField(out: seq<Byte>, map_: seq<MapEntry>, t: Target, motion: Motion, o: Overlay, k: nat, p: nat)
    requires Usable(map_, t) && o.Wellformed() && MutatedBy(out, map_, t, motion, o, |map_|)
    requires k < |map_| && Matches(map_[k], t) && map_[k].bitOffset <= p < map_[k].bitOffset + map_[k].bitWidth
    ensures p < 8 * |out| && |out| == |t.native|
    ensures ReportBit(out, p) == FieldBit(map_, t, motion, o, k, p - map_[k].bitOffset)
  {
    var i := p - map_[k].bitOffset;
    assert ReportBit(out, map_[k].bitOffset + i) == FieldBit(map_, t, motion, o, k, i);
  }

  /** A field of neither class carries its channel's held value, cut to its width, if the channel is held, and
   *  otherwise what the device put there. */
  lemma HeldReads(out: seq<Byte>, map_: seq<MapEntry>, t: Target, motion: Motion, o: Overlay, k: nat)
    requires Usable(map_, t) && o.Wellformed() && MutatedBy(out, map_, t, motion, o, |map_|)
    requires k < |map_| && Matches(map_[k], t) && !map_[k].flags.button && !map_[k].flags.relative
    ensures var e := map_[k];
            e.channel < 7 && e.bitOffset + e.bitWidth <= 8 * |t.native| &&
            FieldRaw(out, e.bitOffset, e.bitWidth) ==
            if o.heldMask[e.channel] then o.heldValues[e.channel] % Pow2(e.bitWidth)
            else FieldRaw(t.native, e.bitOffset, e.bitWidth)
  {
    var e := map_[k];
    if o.heldMask[e.channel] {
      forall i | 0 <= i < e.bitWidth
        ensures ReportBit(out, e.bitOffset + i) == BitOf(o.heldValues[e.channel], i)
      {
        BitOfField(out, map_, t, motion, o, k, e.bitOffset + i);
      }
      FieldOfBits(out, e.bitOffset, e.bitWidth, o.heldValues[e.channel]);
    } else {
      forall p | e.bitOffset <= p < e.bitOffset + e.bitWidth
        ensures ReportBit(out, p) == ReportBit(t.native, p)
      {
        BitOfField(out, map_, t, motion, o, k, p);
      }
      SameField(out, t.native, e.bitOffset, e.bitWidth);
    }
  }

  /** What the device put into a field: signed if the map says so, nothing if there is no report of its own. */
  function Native(e: MapEntry, t: Target): int
    requires e.bitWidth > 0 && e.bitOffset + e.bitWidth <= 8 * |t.native|
  {
    var raw := FieldRaw(t.native, e.bitOffset, e.bitWidth);
    if t.stationary then 0
    else if e.flags.signed && raw / Pow2(e.bitWidth - 1) % 2 == 1 then raw - Pow2(e.bitWidth)
    else raw
  }

  lemma EmittedIsHeld(map_: seq<MapEntry>, t: Target, motion: Motion, k: nat)
    requires Usable(map_, t) && k < |map_| && MovesAxis(map_[k], t)
    ensures var e := map_[k];
            var v := Native(e, t) + MotionBefore(map_, t, motion, k).Get(AxisOf(e));
            Emitted(map_, t, motion, k) ==
            if v < e.logicalMinimum then e.logicalMinimum
            else if v > e.logicalMaximum then e.logicalMaximum else v
  {
  }

  lemma EmittedReads(out: seq<Byte>, map_: seq<MapEntry>, t: Target, motion: Motion, o: Overlay, k: nat)
    requires Usable(map_, t) && o.Wellformed() && MutatedBy(out, map_, t, motion, o, |map_|)
    requires k < |map_| && MovesAxis(map_[k], t)
    ensures var e := map_[k];
            FieldRaw(out, e.bitOffset, e.bitWidth) == Emitted(map_, t, motion, k) % Pow2(e.bitWidth)
  {
    var e, v := map_[k], Emitted(map_, t, motion, k);
    forall i | 0 <= i < e.bitWidth
      ensures ReportBit(out, e.bitOffset + i) == BitOf(v, i)
    {
      BitOfField(out, map_, t, motion, o, k, e.bitOffset + i);
    }
    FieldOfBits(out, e.bitOffset, e.bitWidth, v);
  }

  /** A moved field carries the device's motion and the axis's pending motion together, held to its logical
   *  range, and cut to its width. */
  lemma MovedReads(out: seq<Byte>, map_: seq<MapEntry>, t: Target, motion: Motion, o: Overlay, k: nat)
    requires Usable(map_, t) && o.Wellformed() && MutatedBy(out, map_, t, motion, o, |map_|)
    requires k < |map_| && Matches(map_[k], t) && !map_[k].flags.button && map_[k].flags.relative
    ensures var e := map_[k];
            0 < e.bitWidth && e.bitOffset + e.bitWidth <= 8 * |t.native| &&
            var v := Native(e, t) + MotionBefore(map_, t, motion, k).Get(AxisOf(e));
            FieldRaw(out, e.bitOffset, e.bitWidth) ==
            (if v < e.logicalMinimum then e.logicalMinimum
             else if v > e.logicalMaximum then e.logicalMaximum else v) % Pow2(e.bitWidth)
  {
    EmittedReads(out, map_, t, motion, o, k);
    EmittedIsHeld(map_, t, motion, k);
  }

  /** The pending motion an entry meets is what is left by the entries of its axis before it. */
  lemma {:induction false} PendingIsTheAxis(map_: seq<MapEntry>, t: Target, motion: Motion, k: nat, a: Axis)
    requires Usable(map_, t) && k <= |map_|
    requires forall j :: 0 <= j < k && Matches(map_[j], t) && ClassOf(map_[j]).Relative? ==> AxisOf(map_[j]) != a
    ensures MotionBefore(map_, t, motion, k).Get(a) == motion.Get(a)
    decreases k
  {
    if k > 0 {
      PendingIsTheAxis(map_, t, motion, k - 1, a);
    }
  }

  /** Every bit no field of the layout covers is the device's. */
  lemma OtherBitsStay(out: seq<Byte>, map_: seq<MapEntry>, t: Target, motion: Motion, o: Overlay, p: nat)
    requires Usable(map_, t) && o.Wellformed() && MutatedBy(out, map_, t, motion, o, |map_|) && p < 8 * |t.native|
    requires forall k :: 0 <= k < |map_| && Matches(map_[k], t) ==>
      p < map_[k].bitOffset || p >= map_[k].bitOffset + map_[k].bitWidth
    ensures ReportBit(out, p) == ReportBit(t.native, p)
  {
    assert !Owned(map_, t, |map_|, p);
  }
}
