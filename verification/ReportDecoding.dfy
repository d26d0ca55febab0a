/** When a host reads back what the engine emitted: exactly the maps whose ranges fit their fields. */
module ReportDecoding {
  import opened Bits
  import opened Crc
  import opened MapEntries
  import opened MapValidation
  import opened FieldPipeline
  import opened ReportLaws
  import opened MapGuarantees

  // ---- Reports built bit by bit -----------------------------------------------------------

  function WithReportBit(r: seq<Byte>, p: nat, v: bool): (s: seq<Byte>)
    requires p < 8 * |r|
    ensures |s| == |r|
    ensures forall q :: 0 <= q < 8 * |r| ==> ReportBit(s, q) == if q == p then v else ReportBit(r, q)
  {
    var s := r[p / 8 := WithBit(r[p / 8], p % 8, v)];
    assert forall q :: 0 <= q < 8 * |r| ==> ReportBit(s, q) == if q == p then v else ReportBit(r, q) by {
      forall q | 0 <= q < 8 * |r|
        ensures ReportBit(s, q) == if q == p then v else ReportBit(r, q)
      {
        WithBitSetsOneBit(r[p / 8], p % 8, v, q % 8);
      }
    }
    s
  }

  /** r with the width bits at offset holding v. */
  function WithField(r: seq<Byte>, offset: nat, width: nat, v: int): (s: seq<Byte>)
    requires offset + width <= 8 * |r|
    ensures |s| == |r|
    ensures forall q :: 0 <= q < 8 * |r| ==>
      ReportBit(s, q) == if offset <= q < offset + width then BitOf(v, q - offset) else ReportBit(r, q)
    decreases width
  {
    if width == 0 then r
    else WithReportBit(WithField(r, offset, width - 1, v), offset + width - 1, BitOf(v, width - 1))
  }

  /** The first bits of entry k's field, as the pipeline rewrites them. */
  function WithRewritten(
    r: seq<Byte>, map_: seq<MapEntry>, t: Target, motion: Motion, o: Overlay, k: nat, width: nat): (s: seq<Byte>)
    requires Usable(map_, t) && o.Wellformed() && |r| == |t.native|
    requires k < |map_| && Matches(map_[k], t) && width <= map_[k].bitWidth
    ensures |s| == |r|
    ensures forall q :: 0 <= q < 8 * |r| ==>
      ReportBit(s, q) ==
      if map_[k].bitOffset <= q < map_[k].bitOffset + width
      then FieldBit(map_, t, motion, o, k, q - map_[k].bitOffset) else ReportBit(r, q)
    decreases width
  {
    if width == 0 then r
    else
      WithReportBit(WithRewritten(r, map_, t, motion, o, k, width - 1), map_[k].bitOffset + width - 1,
                    FieldBit(map_, t, motion, o, k, width - 1))
  }

  /** out is before with entry n's field rewritten. */
  ghost predicate Rewrote(
    before: seq<Byte>, out: seq<Byte>, map_: seq<MapEntry>, t: Target, motion: Motion, o: Overlay, n: nat)
    requires Usable(map_, t) && o.Wellformed() && n < |map_| && Matches(map_[n], t) && |before| == |t.native|
  {
    |out| == |before| &&
    forall q :: 0 <= q < 8 * |out| ==>
      ReportBit(out, q) ==
      if Covers(map_[n], q) then FieldBit(map_, t, motion, o, n, q - map_[n].bitOffset) else ReportBit(before, q)
  }

  lemma RewrittenElsewhere(
    before: seq<Byte>, out: seq<Byte>, map_: seq<MapEntry>, t: Target, motion: Motion, o: Overlay, n: nat, k: nat,
      p: nat)
    requires Usable(map_, t) && NoOverlap(map_, t) && o.Wellformed() && n < |map_| && Matches(map_[n], t)
    requires |before| == |t.native| && Rewrote(before, out, map_, t, motion, o, n)
    requires k < n && Matches(map_[k], t) && Covers(map_[k], p) && p < 8 * |out|
    ensures ReportBit(out, p) == ReportBit(before, p)
  {
    assert Disjoint(map_[k], map_[n]);
    assert !Covers(map_[n], p);
  }

  lemma RewrittenHere(
    before: seq<Byte>, out: seq<Byte>, map_: seq<MapEntry>, t: Target, motion: Motion, o: Overlay, n: nat, i: nat)
    requires Usable(map_, t) && o.Wellformed() && n < |map_| && Matches(map_[n], t)
    requires |before| == |t.native| && Rewrote(before, out, map_, t, motion, o, n) && i < map_[n].bitWidth
    ensures ReportBit(out, map_[n].bitOffset + i) == FieldBit(map_, t, motion, o, n, i)
  {
    var p := map_[n].bitOffset + i;
    assert Covers(map_[n], p) && p - map_[n].bitOffset == i;
  }

  lemma RewritingKeepsFields(
    map_: seq<MapEntry>, t: Target, motion: Motion, o: Overlay, n: nat, before: seq<Byte>, out: seq<Byte>,
    k: nat, i: nat)
    requires Usable(map_, t) && NoOverlap(map_, t) && o.Wellformed() && n < |map_| && Matches(map_[n], t)
    requires MutatedBy(before, map_, t, motion, o, n) && Rewrote(before, out, map_, t, motion, o, n)
    requires k <= n && Matches(map_[k], t) && i < map_[k].bitWidth
    ensures ReportBit(out, map_[k].bitOffset + i) == FieldBit(map_, t, motion, o, k, i)
  {
    if k < n {
      RewrittenElsewhere(before, out, map_, t, motion, o, n, k, map_[k].bitOffset + i);
      assert ReportBit(before, map_[k].bitOffset + i) == FieldBit(map_, t, motion, o, k, i);
    } else {
      RewrittenHere(before, out, map_, t, motion, o, n, i);
    }
  }

  lemma RewritingExtends(
    map_: seq<MapEntry>, t: Target, motion: Motion, o: Overlay, n: nat, before: seq<Byte>, out: seq<Byte>)
    requires Usable(map_, t) && NoOverlap(map_, t) && o.Wellformed() && n < |map_| && Matches(map_[n], t)
    requires MutatedBy(before, map_, t, motion, o, n) && Rewrote(before, out, map_, t, motion, o, n)
    ensures MutatedBy(out, map_, t, motion, o, n + 1)
  {
    forall k, i | 0 <= k < n + 1 && Matches(map_[k], t) && 0 <= i < map_[k].bitWidth
      ensures ReportBit(out, map_[k].bitOffset + i) == FieldBit(map_, t, motion, o, k, i)
    {
      RewritingKeepsFields(map_, t, motion, o, n, before, out, k, i);
    }
    forall p | 0 <= p < 8 * |out| && !Owned(map_, t, n + 1, p)
      ensures ReportBit(out, p) == ReportBit(t.native, p)
    {
      assert !Covers(map_[n], p) && !Owned(map_, t, n, p);
    }
  }

  lemma SkippingExtends(map_: seq<MapEntry>, t: Target, motion: Motion, o: Overlay, n: nat, out: seq<Byte>)
    requires Usable(map_, t) && o.Wellformed() && n < |map_| && !Matches(map_[n], t)
    requires MutatedBy(out, map_, t, motion, o, n)
    ensures MutatedBy(out, map_, t, motion, o, n + 1)
  {
    assert forall p :: 0 <= p < 8 * |out| && !Owned(map_, t, n + 1, p) ==> !Owned(map_, t, n, p);
  }

  lemma MutationExtends(
    map_: seq<MapEntry>, t: Target, motion: Motion, o: Overlay, n: nat, before: seq<Byte>, out: seq<Byte>)
    requires Usable(map_, t) && NoOverlap(map_, t) && o.Wellformed() && n < |map_|
    requires MutatedBy(before, map_, t, motion, o, n)
    requires if Matches(map_[n], t) then Rewrote(before, out, map_, t, motion, o, n) else out == before
    ensures MutatedBy(out, map_, t, motion, o, n + 1)
  {
    if Matches(map_[n], t) {
      RewritingExtends(map_, t, motion, o, n, before, out);
    } else {
      SkippingExtends(map_, t, motion, o, n, out);
    }
  }

  /** Every map without overlaps has a mutated report: the declarative description is never empty. */
  lemma {:induction false} MutationExists(map_: seq<MapEntry>, t: Target, motion: Motion, o: Overlay, n: nat)
    returns (out: seq<Byte>)
    requires Usable(map_, t) && NoOverlap(map_, t) && o.Wellformed() && n <= |map_|
    ensures MutatedBy(out, map_, t, motion, o, n)
  {
    out := t.native;
    if n > 0 {
      var before := MutationExists(map_, t, motion, o, n - 1);
      out := if Matches(map_[n - 1], t)
        then WithRewritten(before, map_, t, motion, o, n - 1, map_[n - 1].bitWidth) else before;
      MutationExtends(map_, t, motion, o, n - 1, before, out);
    }
  }

  // ---- The condition, and what it is a condition for ----------------------------------------

  /** What validation leaves the engine with, whichever report comes. */
  predicate Sound(map_: seq<MapEntry>) {
    (forall k :: 0 <= k < |map_| ==> FieldInBounds(map_[k])) &&
    forall j, k :: 0 <= j < k < |map_| ==> Compatible(map_[j], map_[k])
  }

  lemma SoundIsUsable(map_: seq<MapEntry>, t: Target)
    requires Sound(map_)
    ensures Usable(map_, t) && NoOverlap(map_, t)
  {
    forall j, k | 0 <= j < k < |map_| && Matches(map_[j], t) && Matches(map_[k], t)
      ensures Disjoint(map_[j], map_[k])
    {
      assert Compatible(map_[j], map_[k]);
    }
  }

  predicate Moves(e: MapEntry, key: LayoutKey, length: nat) {
    Key(e) == key && e.reportLength == length && ClassOf(e).Relative?
  }

  predicate RangeFits(e: MapEntry)
    requires FieldInBounds(e)
  {
    Representable(e, e.logicalMinimum) && Representable(e, e.logicalMaximum)
  }

  /** What a map's author can check: every moving field of the layout can carry its declared range. */
  predicate RangesFit(map_: seq<MapEntry>, key: LayoutKey, length: nat)
    requires Sound(map_)
  {
    forall k :: 0 <= k < |map_| && Moves(map_[k], key, length) ==> RangeFits(map_[k])
  }

  /** The native report agrees with base wherever the map has no field: its report ID, for one. */
  predicate BasedOn(map_: seq<MapEntry>, t: Target, base: seq<Byte>) {
    |t.native| == |base| &&
    forall p :: 0 <= p < 8 * |base| && !Owned(map_, t, |map_|, p) ==> ReportBit(t.native, p) == ReportBit(base, p)
  }

  /** The host reads the emitted value back from entry k's field. */
  predicate DecodesAt(out: seq<Byte>, map_: seq<MapEntry>, t: Target, motion: Motion, k: nat)
    requires Usable(map_, t) && k < |map_| && MovesAxis(map_[k], t) && |out| == |t.native|
  {
    Physical(map_[k], Target(t.key, out, false)) == Emitted(map_, t, motion, k)
  }

  /** So it is for every moving field, in every mutated report and under every pending motion. */
  ghost predicate AlwaysDecodes(map_: seq<MapEntry>, key: LayoutKey, base: seq<Byte>, o: Overlay)
    requires Sound(map_) && o.Wellformed()
  {
    forall t: Target, motion: Motion, out: seq<Byte>, k: nat ::
      t.key == key && BasedOn(map_, t, base) && Usable(map_, t) && MutatedBy(out, map_, t, motion, o, |map_|) &&
      k < |map_| && MovesAxis(map_[k], t) ==>
      DecodesAt(out, map_, t, motion, k)
  }

  /** A clamped value lies between bounds the field can carry. */
  lemma FittingRangeDecodes(out: seq<Byte>, map_: seq<MapEntry>, t: Target, motion: Motion, o: Overlay, k: nat)
    requires Usable(map_, t) && o.Wellformed() && MutatedBy(out, map_, t, motion, o, |map_|)
    requires k < |map_| && MovesAxis(map_[k], t) && RangeFits(map_[k])
    ensures DecodesAt(out, map_, t, motion, k)
  {
    EmittedValueDecodes(out, map_, t, motion, o, k);
  }

  // ---- A report that shows a field which does not fit -----------------------------------------

  predicate SameAxis(map_: seq<MapEntry>, key: LayoutKey, length: nat, j: nat, k: nat)
    requires j < |map_| && k < |map_|
  {
    Moves(map_[j], key, length) && AxisOf(map_[j]) == AxisOf(map_[k])
  }

  /** What entry j's field is posed with to show field k: an earlier field of the axis the bound v
   *  points to, so that it passes motion v on untouched; field k itself zero. */
  function Pose(map_: seq<MapEntry>, v: int, j: nat, k: nat): int
    requires j < |map_|
  {
    if j == k then 0 else if v >= 0 then map_[j].logicalMaximum else map_[j].logicalMinimum
  }

  /** No moving entry before n has a field over bit p. */
  predicate Clear(map_: seq<MapEntry>, key: LayoutKey, length: nat, n: nat, p: nat)
    requires n <= |map_|
  {
    forall j :: 0 <= j < n && Moves(map_[j], key, length) ==> !Covers(map_[j], p)
  }

  /** The first n entries are posed in s. */
  ghost predicate FieldsPosed(
    s: seq<Byte>, map_: seq<MapEntry>, key: LayoutKey, v: int, k: nat, n: nat)
    requires Sound(map_) && n <= |map_| && k < |map_|
  {
    forall j :: 0 <= j < n && j <= k && SameAxis(map_, key, |s|, j, k) ==> HoldsBits(map_[j], s, Pose(map_, v, j, k))
  }

  /** Outside the first n entries s is base. */
  ghost predicate RestKept(s: seq<Byte>, map_: seq<MapEntry>, key: LayoutKey, base: seq<Byte>, n: nat)
    requires n <= |map_|
  {
    && |s| == |base|
    && forall p :: 0 <= p < 8 * |base| && Clear(map_, key, |base|, n, p) ==> ReportBit(s, p) == ReportBit(base, p)
  }

  /** s poses the first n entries and is base elsewhere. */
  ghost predicate Posed(
    s: seq<Byte>, map_: seq<MapEntry>, key: LayoutKey, base: seq<Byte>, v: int, k: nat, n: nat)
    requires Sound(map_) && n <= |map_| && k < |map_|
  {
    RestKept(s, map_, key, base, n) && FieldsPosed(s, map_, key, v, k, n)
  }

  lemma FieldWritten(r: seq<Byte>, e: MapEntry, v: int)
    requires FieldInBounds(e) && e.reportLength == |r|
    ensures HoldsBits(e, WithField(r, e.bitOffset, e.bitWidth, v), v)
  {
  }

  lemma OtherFieldKept(r: seq<Byte>, a: MapEntry, e: MapEntry, v: int, w: int)
    requires FieldInBounds(a) && FieldInBounds(e) && a.reportLength == e.reportLength == |r|
    requires Disjoint(a, e) && HoldsBits(a, r, w)
    ensures HoldsBits(a, WithField(r, e.bitOffset, e.bitWidth, v), w)
  {
  }

  lemma PosedBits(
    before: seq<Byte>, map_: seq<MapEntry>, key: LayoutKey, v: int, k: nat, n: nat, j: nat)
    requires Sound(map_) && j <= n <= k < |map_| && FieldsPosed(before, map_, key, v, k, n)
    requires SameAxis(map_, key, |before|, j, k) && SameAxis(map_, key, |before|, n, k)
    ensures HoldsBits(map_[j], WithField(before, map_[n].bitOffset, map_[n].bitWidth, Pose(map_, v, n, k)),
                      Pose(map_, v, j, k))
  {
    if j < n {
      assert Compatible(map_[j], map_[n]);
      OtherFieldKept(before, map_[j], map_[n], Pose(map_, v, n, k), Pose(map_, v, j, k));
    } else {
      FieldWritten(before, map_[n], Pose(map_, v, n, k));
    }
  }

  lemma RestBits(
    before: seq<Byte>, map_: seq<MapEntry>, key: LayoutKey, base: seq<Byte>, v: int, k: nat, n: nat)
    requires Sound(map_) && n <= k < |map_| && RestKept(before, map_, key, base, n)
    requires SameAxis(map_, key, |base|, n, k)
    ensures RestKept(WithField(before, map_[n].bitOffset, map_[n].bitWidth, Pose(map_, v, n, k)),
                     map_, key, base, n + 1)
  {
    forall p | 0 <= p < 8 * |base| && Clear(map_, key, |base|, n + 1, p)
      ensures !Covers(map_[n], p) && Clear(map_, key, |base|, n, p)
    {
    }
  }

  lemma PoseExtends(
    before: seq<Byte>, map_: seq<MapEntry>, key: LayoutKey, base: seq<Byte>, v: int, k: nat, n: nat)
    returns (s: seq<Byte>)
    requires Sound(map_) && n <= k < |map_| && Posed(before, map_, key, base, v, k, n)
    requires SameAxis(map_, key, |base|, n, k)
    ensures Posed(s, map_, key, base, v, k, n + 1)
  {
    s := WithField(before, map_[n].bitOffset, map_[n].bitWidth, Pose(map_, v, n, k));
    RestBits(before, map_, key, base, v, k, n);
    forall j | 0 <= j < n + 1 && SameAxis(map_, key, |s|, j, k)
      ensures HoldsBits(map_[j], s, Pose(map_, v, j, k))
    {
      PosedBits(before, map_, key, v, k, n, j);
    }
  }

  lemma PoseSkips(s: seq<Byte>, map_: seq<MapEntry>, key: LayoutKey, base: seq<Byte>, v: int, k: nat, n: nat)
    requires Sound(map_) && n < |map_| && k < |map_| && Posed(s, map_, key, base, v, k, n)
    requires !(n <= k && SameAxis(map_, key, |base|, n, k))
    ensures Posed(s, map_, key, base, v, k, n + 1)
  {
  }

  lemma {:induction false} PosedReport(
    map_: seq<MapEntry>, key: LayoutKey, base: seq<Byte>, v: int, k: nat, n: nat) returns (s: seq<Byte>)
    requires Sound(map_) && n <= |map_| && k < |map_|
    ensures Posed(s, map_, key, base, v, k, n)
  {
    s := base;
    if n > 0 {
      s := PosedReport(map_, key, base, v, k, n - 1);
      if n - 1 <= k && SameAxis(map_, key, |base|, n - 1, k) {
        s := PoseExtends(s, map_, key, base, v, k, n - 1);
      } else {
        PoseSkips(s, map_, key, base, v, k, n - 1);
      }
    }
  }

  lemma PosedPhysical(map_: seq<MapEntry>, t: Target, base: seq<Byte>, v: int, k: nat, j: nat)
    requires Sound(map_) && j <= k < |map_| && SameAxis(map_, t.key, |base|, j, k) && !t.stationary
    requires Posed(t.native, map_, t.key, base, v, k, |map_|)
    requires Representable(map_[j], Pose(map_, v, j, k))
    ensures Physical(map_[j], t) == Pose(map_, v, j, k)
  {
    BitsDecode(map_[j], t, Pose(map_, v, j, k));
  }

  /** A field at the bound the motion points to emits that bound and leaves all the motion. */
  lemma BoundHandsOn(map_: seq<MapEntry>, t: Target, motion: Motion, v: S32, n: nat)
    requires Usable(map_, t) && n < |map_| && MovesAxis(map_[n], t)
    requires MotionBefore(map_, t, motion, n).Get(AxisOf(map_[n])) == v
    requires Physical(map_[n], t) == if v >= 0 then map_[n].logicalMaximum else map_[n].logicalMinimum
    ensures MotionBefore(map_, t, motion, n + 1).Get(AxisOf(map_[n])) == v
  {
    WrapFits(v);
  }

  lemma OtherEntryKeeps(map_: seq<MapEntry>, t: Target, motion: Motion, a: Axis, n: nat)
    requires Usable(map_, t) && n < |map_| && !(MovesAxis(map_[n], t) && AxisOf(map_[n]) == a)
    ensures MotionBefore(map_, t, motion, n + 1).Get(a) == MotionBefore(map_, t, motion, n).Get(a)
  {
  }

  predicate AtBounds(map_: seq<MapEntry>, t: Target, a: Axis, v: int, n: nat)
    requires Usable(map_, t) && n <= |map_|
  {
    forall j :: 0 <= j < n && MovesAxis(map_[j], t) && AxisOf(map_[j]) == a ==>
      Physical(map_[j], t) == if v >= 0 then map_[j].logicalMaximum else map_[j].logicalMinimum
  }

  /** Fields at their own bounds hand the motion on whole. */
  lemma {:induction false} MotionPasses(map_: seq<MapEntry>, t: Target, motion: Motion, a: Axis, v: S32, n: nat)
    requires Usable(map_, t) && n <= |map_| && motion.Get(a) == v && AtBounds(map_, t, a, v, n)
    ensures MotionBefore(map_, t, motion, n).Get(a) == v
  {
    if n > 0 {
      MotionPasses(map_, t, motion, a, v, n - 1);
      if MovesAxis(map_[n - 1], t) && AxisOf(map_[n - 1]) == a {
        BoundHandsOn(map_, t, motion, v, n - 1);
      } else {
        OtherEntryKeeps(map_, t, motion, a, n - 1);
      }
    }
  }

  lemma PosedAtBounds(map_: seq<MapEntry>, t: Target, base: seq<Byte>, v: int, k: nat)
    requires Sound(map_) && k < |map_| && Usable(map_, t) && !t.stationary
    requires Posed(t.native, map_, t.key, base, v, k, |map_|)
    requires forall j :: 0 <= j < k && SameAxis(map_, t.key, |base|, j, k) ==> RangeFits(map_[j])
    ensures AtBounds(map_, t, AxisOf(map_[k]), v, k)
  {
    forall j | 0 <= j < k && MovesAxis(map_[j], t) && AxisOf(map_[j]) == AxisOf(map_[k])
      ensures Physical(map_[j], t) == Pose(map_, v, j, k)
    {
      assert SameAxis(map_, t.key, |base|, j, k);
      PosedPhysical(map_, t, base, v, k, j);
    }
  }

  lemma ZeroIsCarried(e: MapEntry)
    requires FieldInBounds(e)
    ensures Representable(e, 0)
  {
  }

  /** The first field that cannot carry a bound v of its range shows it: posed so, and with motion v
   *  pending, it emits v and the host reads something else. */
  lemma UnfitRangeMisdecodes(
    map_: seq<MapEntry>, key: LayoutKey, base: seq<Byte>, o: Overlay, v: S32, k: nat)
    requires Sound(map_) && o.Wellformed() && k < |map_| && Moves(map_[k], key, |base|)
    requires forall j :: 0 <= j < k && SameAxis(map_, key, |base|, j, k) ==> RangeFits(map_[j])
    requires (v == map_[k].logicalMinimum || v == map_[k].logicalMaximum) && !Representable(map_[k], v)
    ensures !AlwaysDecodes(map_, key, base, o)
  {
    var native := PosedReport(map_, key, base, v, k, |map_|);
    var t, motion := Target(key, native, false), Motion(0, 0, 0, 0).Set(AxisOf(map_[k]), v);
    SoundIsUsable(map_, t);
    PosedAtBounds(map_, t, base, v, k);
    MotionPasses(map_, t, motion, AxisOf(map_[k]), v, k);
    ZeroIsCarried(map_[k]);
    PosedPhysical(map_, t, base, v, k, k);
    assert Emitted(map_, t, motion, k) == v;
    PosedIsBased(map_, t, base, v, k);
    var out := MutationExists(map_, t, motion, o, |map_|);
    EmittedValueDecodes(out, map_, t, motion, o, k);
    assert !DecodesAt(out, map_, t, motion, k);
  }

  lemma PosedIsBased(map_: seq<MapEntry>, t: Target, base: seq<Byte>, v: int, k: nat)
    requires Sound(map_) && k < |map_| && Posed(t.native, map_, t.key, base, v, k, |map_|)
    ensures BasedOn(map_, t, base)
  {
    forall p | 0 <= p < 8 * |base| && !Owned(map_, t, |map_|, p)
      ensures ReportBit(t.native, p) == ReportBit(base, p)
    {
      assert Clear(map_, t.key, |base|, |map_|, p);
    }
  }

  lemma {:induction false} FirstUnfit(map_: seq<MapEntry>, key: LayoutKey, length: nat, n: nat) returns (k: nat)
    requires Sound(map_) && n <= |map_|
    requires exists j :: 0 <= j < n && Moves(map_[j], key, length) && !RangeFits(map_[j])
    ensures k < n && Moves(map_[k], key, length) && !RangeFits(map_[k])
    ensures forall j :: 0 <= j < k && Moves(map_[j], key, length) ==> RangeFits(map_[j])
  {
    if exists j :: 0 <= j < n - 1 && Moves(map_[j], key, length) && !RangeFits(map_[j]) {
      k := FirstUnfit(map_, key, length, n - 1);
    } else {
      k := n - 1;
    }
  }

  /**
   * A host reads back every emitted value of a layout, in every report and under every motion, if
   * and only if each moving field of the layout can carry both ends of its logical range.
   */
  lemma DecodesIffRangesFit(map_: seq<MapEntry>, key: LayoutKey, base: seq<Byte>, o: Overlay)
    requires Sound(map_) && o.Wellformed()
    ensures AlwaysDecodes(map_, key, base, o) <==> RangesFit(map_, key, |base|)
  {
    if RangesFit(map_, key, |base|) {
      forall t: Target, motion: Motion, out: seq<Byte>, k: nat |
        t.key == key && BasedOn(map_, t, base) && Usable(map_, t) && MutatedBy(out, map_, t, motion, o, |map_|) &&
        k < |map_| && MovesAxis(map_[k], t)
        ensures DecodesAt(out, map_, t, motion, k)
      {
        FittingRangeDecodes(out, map_, t, motion, o, k);
      }
    } else {
      var k := FirstUnfit(map_, key, |base|, |map_|);
      var e := map_[k];
      UnfitRangeMisdecodes(map_, key, base, o,
        if Representable(e, e.logicalMaximum) then e.logicalMinimum else e.logicalMaximum, k);
    }
  }

  /** So for every accepted upload. */
  lemma AcceptedMapDecodes(u: Upload, key: LayoutKey, base: seq<Byte>, o: Overlay)
    requires UploadOk(u) && o.Wellformed()
    ensures Sound(u.entries)
    ensures AlwaysDecodes(u.entries, key, base, o) <==> RangesFit(u.entries, key, |base|)
  {
    DecodesIffRangesFit(u.entries, key, base, o);
  }

  // ---- An accepted map that misdecodes ---------------------------------------------------------

  /** An 8-bit X axis declared with a range of -1000 to 1000. */
  function Wide(): MapEntry {
    MapEntry(1, 1, 0, 0, 1, 0, 1, 0x30, 0, 8, Flags(true, true, false, true, false, false, false, false),
             -1000, 1000, 1, 0, [])
  }

  function WideUpload(): Upload { Upload(1, 1, 1, Crc32Final(EntriesCrc([Wide()], 1)), [Wide()]) }

  function Untouched(): Overlay {
    Overlay(0, 0, [false, false, false, false, false, false, false], [0, 0, 0, 0, 0, 0, 0])
  }

  lemma EightBits()
    ensures Pow2(7) == 128 && Pow2(8) == 256
  {
    assert Pow2(4) == 16;
  }

  lemma WideIsAccepted()
    ensures UploadOk(WideUpload())
  {
    var entries := [Wide()];
    assert Key(entries[0]) in Keys(entries, 1);
    assert forall k :: k in Keys(entries, 1) ==> k == Key(entries[0]);
    assert Keys(entries, 1) == {Key(entries[0])};
  }

  lemma WideEmits(t: Target)
    requires t == Target(Key(Wide()), [0], true)
    ensures Usable([Wide()], t) && NoOverlap([Wide()], t) && MovesAxis(Wide(), t)
    ensures Emitted([Wide()], t, Motion(200, 0, 0, 0), 0) == 200
  {
  }

  /** Eight bits of 200, read as signed. */
  lemma WideReads(out: seq<Byte>)
    requires |out| == 1 && forall i :: 0 <= i < 8 ==> ReportBit(out, i) == BitOf(200, i)
    ensures Physical(Wide(), Target(Key(Wide()), out, false)) == -56
  {
    EightBits();
    FieldOfBits(out, 0, 8, 200);
    assert BitOf(200, 7);
  }

  /** Validation accepts the map; 200 counts of X go out and the host reads -56. */
  lemma AcceptedMapMisdecodes() returns (out: seq<Byte>)
    ensures var u, t, m := WideUpload(), Target(Key(Wide()), [0], true), Motion(200, 0, 0, 0);
            UploadOk(u) && Usable(u.entries, t) && MovesAxis(Wide(), t) && Emitted(u.entries, t, m, 0) == 200 &&
            MutatedBy(out, u.entries, t, m, Untouched(), 1) && Physical(Wide(), Target(t.key, out, false)) == -56
  {
    var map_, t, m, o := [Wide()], Target(Key(Wide()), [0], true), Motion(200, 0, 0, 0), Untouched();
    WideIsAccepted();
    WideEmits(t);
    out := MutationExists(map_, t, m, o, 1);
    forall i | 0 <= i < 8
      ensures ReportBit(out, i) == BitOf(200, i)
    {
      assert FieldBit(map_, t, m, o, 0, i) == BitOf(200, i);
      assert ReportBit(out, map_[0].bitOffset + i) == FieldBit(map_, t, m, o, 0, i);
    }
    WideReads(out);
  }
}
