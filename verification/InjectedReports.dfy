/** The report of a committed transaction, as the host reads it: the device's report and the layout's state merged. */
module InjectedReports {
  import opened Bits
  import opened MapEntries
  import opened FieldPipeline
  import opened LayoutStates
  import opened EngineTransaction
  import opened ReportMeaning

  /** Button i of the entry's field, usages counted from 1 to 64: masks silence the device, injected buttons are
   *  pressed whatever it does. */
  lemma ButtonsMerge(out: seq<Byte>, map_: seq<MapEntry>, t: Target, a: LayoutState, k: nat, i: nat)
    requires Usable(map_, t) && |a.held| == CHANNELS && ReportOf(out, map_, t, a)
    requires k < |map_| && Matches(map_[k], t) && map_[k].flags.button && i < map_[k].bitWidth
    ensures var e := map_[k];
            var u, p := e.usage + i, e.bitOffset + i;
            p < 8 * |out| && |out| == |t.native| &&
            (ReportBit(out, p) <==>
             if e.usage > 0 && u <= 64 then (ReportBit(t.native, p) && !Pressed(a.masks, u)) || Pressed(a.buttons, u)
             else ReportBit(t.native, p))
  {
    ButtonReads(out, map_, t, a.motion, OverlayFor(a), k, i);
  }

  /** A held channel's value is in its field, cut to the field's width; a channel not held is the device's. */
  lemma HeldIsEmitted(out: seq<Byte>, map_: seq<MapEntry>, t: Target, a: LayoutState, k: nat)
    requires Usable(map_, t) && |a.held| == CHANNELS && ReportOf(out, map_, t, a)
    requires k < |map_| && Matches(map_[k], t) && !map_[k].flags.button && !map_[k].flags.relative
    ensures var e := map_[k];
            e.channel < 7 && e.bitOffset + e.bitWidth <= 8 * |t.native| && |out| == |t.native| &&
            FieldRaw(out, e.bitOffset, e.bitWidth) ==
            match a.held[e.channel]
            case Some(v) => v % Pow2(e.bitWidth)
            case None => FieldRaw(t.native, e.bitOffset, e.bitWidth)
  {
    HeldReads(out, map_, t, a.motion, OverlayFor(a), k);
  }

  /** The first moved field of an axis carries the device's motion and all that was pending, held to its range. */
  lemma MotionIsEmitted(out: seq<Byte>, map_: seq<MapEntry>, t: Target, a: LayoutState, k: nat)
    requires Usable(map_, t) && |a.held| == CHANNELS && ReportOf(out, map_, t, a)
    requires k < |map_| && Matches(map_[k], t) && !map_[k].flags.button && map_[k].flags.relative
    requires forall j :: 0 <= j < k && Matches(map_[j], t) && ClassOf(map_[j]).Relative? ==>
      AxisOf(map_[j]) != AxisOf(map_[k])
    ensures var e := map_[k];
            0 < e.bitWidth && e.bitOffset + e.bitWidth <= 8 * |t.native| && |out| == |t.native| &&
            var v := Native(e, t) + a.motion.Get(AxisOf(e));
            FieldRaw(out, e.bitOffset, e.bitWidth) ==
            (if v < e.logicalMinimum then e.logicalMinimum
             else if v > e.logicalMaximum then e.logicalMaximum else v) % Pow2(e.bitWidth)
  {
    MovedReads(out, map_, t, a.motion, OverlayFor(a), k);
    PendingIsTheAxis(map_, t, a.motion, k, AxisOf(map_[k]));
  }
}
