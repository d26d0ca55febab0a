/** What the field pipeline means for the host that reads the report, and for motion. */
module ReportLaws {
  import opened Bits
  import opened MapEntries
  import opened FieldPipeline

  // ---- The mutated report, read back -------------------------------------------------

  lemma ByteOfBits(a: Byte, b: Byte)
    requires forall k :: 0 <= k < 8 ==> ByteBit(a, k) == ByteBit(b, k)
    ensures a == b
  {
    assert ByteBit(a, 0) == ByteBit(b, 0) && ByteBit(a, 1) == ByteBit(b, 1);
    assert ByteBit(a, 2) == ByteBit(b, 2) && ByteBit(a, 3) == ByteBit(b, 3);
    assert ByteBit(a, 4) == ByteBit(b, 4) && ByteBit(a, 5) == ByteBit(b, 5);
    assert ByteBit(a, 6) == ByteBit(b, 6) && ByteBit(a, 7) == ByteBit(b, 7);
  }

  lemma ReportOfBits(a: seq<Byte>, b: seq<Byte>)
    requires |a| == |b|
    requires forall p :: 0 <= p < 8 * |a| ==> ReportBit(a, p) == ReportBit(b, p)
    ensures a == b
  {
    forall i | 0 <= i < |a|
      ensures a[i] == b[i]
    {
      forall k | 0 <= k < 8
        ensures ByteBit(a[i], k) == ByteBit(b[i], k)
      {
        var p := 8 * i + k;
        assert p / 8 == i && p % 8 == k;
        assert ReportBit(a, p) == ReportBit(b, p);
      }
      ByteOfBits(a[i], b[i]);
    }
  }

  /** MutatedBy fixes every bit: there is one mutated report. */
  lemma MutationIsUnique(
    a: seq<Byte>, b: seq<Byte>, map_: seq<MapEntry>, t: Target, motion: Motion, o: Overlay)
    requires Usable(map_, t) && o.Wellformed()
    requires MutatedBy(a, map_, t, motion, o, |map_|) && MutatedBy(b, map_, t, motion, o, |map_|)
    ensures a == b
  {
    forall p | 0 <= p < 8 * |a|
      ensures ReportBit(a, p) == ReportBit(b, p)
    {
      if Owned(map_, t, |map_|, p) {
        var k :| 0 <= k < |map_| && Matches(map_[k], t) && Covers(map_[k], p);
        var i := p - map_[k].bitOffset;
        assert ReportBit(a, map_[k].bitOffset + i) == FieldBit(map_, t, motion, o, k, i);
      }
    }
    ReportOfBits(a, b);
  }

  /** The values e's field can carry. */
  predicate Representable(e: MapEntry, v: int)
    requires FieldInBounds(e)
  {
    if e.flags.signed then 0 <= v + Pow2(e.bitWidth - 1) < Pow2(e.bitWidth)
    else 0 <= v < Pow2(e.bitWidth)
  }

  lemma SignExtendInRange(raw: nat, width: nat)
    requires width > 0 && raw < Pow2(width)
    ensures 0 <= SignExtend(raw, width) + Pow2(width - 1) < Pow2(width)
  {
    var p := Pow2(width - 1);
    if raw < p {
      DivModUnique(raw, p, 0, raw);
    } else {
      DivModUnique(raw, p, 1, raw - p);
    }
  }

  /** e's field of the report holds the low bits of v. */
  predicate HoldsBits(e: MapEntry, report: seq<Byte>, v: int)
    requires e.bitOffset + e.bitWidth <= 8 * |report|
  {
    forall i :: 0 <= i < e.bitWidth ==> ReportBit(report, e.bitOffset + i) == BitOf(v, i)
  }

  /** A field holding the bits of v reads back as v exactly if it can carry v. */
  lemma BitsDecode(e: MapEntry, t: Target, v: int)
    requires FieldInBounds(e) && e.reportLength == |t.native| && !t.stationary
    requires HoldsBits(e, t.native, v)
    ensures Physical(e, t) == v <==> Representable(e, v)
  {
    FieldOfBits(t.native, e.bitOffset, e.bitWidth, v);
    SignExtendInRange(FieldRaw(t.native, e.bitOffset, e.bitWidth), e.bitWidth);
    if Representable(e, v) {
      if e.flags.signed {
        SignExtendInverse(v, e.bitWidth);
      } else {
        DivModUnique(v, Pow2(e.bitWidth), 0, v);
      }
    }
  }

  /** The host decodes exactly the emitted value if and only if the field can carry it. */
  lemma EmittedValueDecodes(
    out: seq<Byte>, map_: seq<MapEntry>, t: Target, motion: Motion, o: Overlay, k: nat)
    requires Usable(map_, t) && o.Wellformed()
    requires MutatedBy(out, map_, t, motion, o, |map_|)
    requires k < |map_| && MovesAxis(map_[k], t)
    ensures Physical(map_[k], Target(t.key, out, false)) == Emitted(map_, t, motion, k) <==>
            Representable(map_[k], Emitted(map_, t, motion, k))
  {
    var e, v := map_[k], Emitted(map_, t, motion, k);
    forall i | 0 <= i < e.bitWidth
      ensures ReportBit(out, e.bitOffset + i) == BitOf(v, i)
    {
      assert FieldBit(map_, t, motion, o, k, i) == BitOf(v, i);
    }
    BitsDecode(e, Target(t.key, out, false), v);
  }

  lemma {:induction false} PowersNest(i: nat, w: nat)
    requires i < w
    ensures Pow2(w) == 2 * Pow2(i) * Pow2(w - i - 1)
    decreases w
  {
    if i + 1 < w {
      PowersNest(i, w - 1);
      var a, b := Pow2(i), Pow2(w - i - 2);
      assert 2 * (2 * a * b) == 2 * a * (2 * b);
    } else {
      assert Pow2(0) == 1;
    }
  }

  lemma QuotientShifts(v: int, p: int, c: int)
    requires p > 0
    ensures (v + c * p) / p == v / p + c
  {
    var q, r := v / p, v % p;
    assert v == q * p + r;
    assert (q + c) * p == q * p + c * p;
    DivModUnique(v + c * p, p, q + c, r);
  }

  lemma Regroup(m: int, p: int, b: int)
    ensures m * (2 * p * b) == (2 * (m * b)) * p
  {
    assert m * (2 * p * b) == 2 * (m * (p * b));
    assert m * (p * b) == (m * b) * p;
  }

  lemma BitAboveEven(v: int, i: nat, c: int)
    ensures BitOf(v + (2 * c) * Pow2(i), i) == BitOf(v, i)
  {
    QuotientShifts(v, Pow2(i), 2 * c);
    StaysOdd(v / Pow2(i), c);
  }

  lemma StaysOdd(q: int, c: int)
    ensures (q + 2 * c) % 2 == q % 2
  {
  }

  /** Adding a multiple of 2^w leaves every bit below w alone. */
  lemma BitUnderMultiple(v: int, i: nat, w: nat, m: int)
    requires i < w
    ensures BitOf(v + m * Pow2(w), i) == BitOf(v, i)
  {
    var c := m * Pow2(w - i - 1);
    assert m * Pow2(w) == (2 * c) * Pow2(i) by {
      PowersNest(i, w);
      Regroup(m, Pow2(i), Pow2(w - i - 1));
    }
    BitAboveEven(v, i, c);
  }

  lemma TopBit(low: nat, w: nat, top: bool)
    requires low < Pow2(w)
    ensures BitOf(low + if top then Pow2(w) else 0, w) == top
  {
    DivModUnique(low + (if top then Pow2(w) else 0), Pow2(w), if top then 1 else 0, low);
  }

  lemma LowerBit(low: nat, w: nat, top: bool, i: nat)
    requires i < w
    ensures BitOf(low + if top then Pow2(w) else 0, i) == BitOf(low, i)
  {
    BitUnderMultiple(low, i, w, 1);
  }

  /** Bit i of a field's unsigned value is its wire bit i. */
  lemma {:induction false} BitsOfField(report: seq<Byte>, offset: nat, width: nat, i: nat)
    requires offset + width <= 8 * |report| && i < width
    ensures BitOf(FieldRaw(report, offset, width), i) == ReportBit(report, offset + i)
  {
    var low := FieldRaw(report, offset, width - 1);
    var top := ReportBit(report, offset + width - 1);
    if i == width - 1 {
      TopBit(low, i, top);
    } else {
      BitsOfField(report, offset, width - 1, i);
      LowerBit(low, width - 1, top, i);
    }
  }

  predicate Neutral(o: Overlay)
    requires o.Wellformed()
  {
    o.buttons == 0 && o.mask == 0 && forall c :: 0 <= c < CHANNELS ==> !o.heldMask[c]
  }

  /** The device keeps to the ranges the map declares. */
  ghost predicate PhysicalInRange(map_: seq<MapEntry>, t: Target)
    requires Usable(map_, t)
  {
    forall k :: 0 <= k < |map_| && MovesAxis(map_[k], t) ==>
      map_[k].logicalMinimum <= Physical(map_[k], t) <= map_[k].logicalMaximum
  }

  lemma StillAxisIsPhysical(map_: seq<MapEntry>, t: Target, k: nat, i: nat)
    requires Usable(map_, t) && !t.stationary && PhysicalInRange(map_, t)
    requires k < |map_| && MovesAxis(map_[k], t) && i < map_[k].bitWidth
    ensures BitOf(Emitted(map_, t, Motion(0, 0, 0, 0), k), i) ==
            ReportBit(t.native, map_[k].bitOffset + i)
  {
    var e := map_[k];
    StillMotionStays(map_, t, k);
    assert Total(map_, t, Motion(0, 0, 0, 0), k) == Physical(e, t);
    BitsOfField(t.native, e.bitOffset, e.bitWidth, i);
    BitUnderMultiple(FieldRaw(t.native, e.bitOffset, e.bitWidth), i, e.bitWidth, -1);
  }

  lemma ZeroHasNoBits(k: nat)
    ensures !BitOf(0, k)
  {
    DivModUnique(0, Pow2(k), 0, 0);
  }

  lemma NeutralFieldIsPhysical(map_: seq<MapEntry>, t: Target, o: Overlay, k: nat, i: nat)
    requires Usable(map_, t) && o.Wellformed() && Neutral(o) && !t.stationary
    requires PhysicalInRange(map_, t)
    requires k < |map_| && Matches(map_[k], t) && i < map_[k].bitWidth
    ensures FieldBit(map_, t, Motion(0, 0, 0, 0), o, k, i) ==
            ReportBit(t.native, map_[k].bitOffset + i)
  {
    var e := map_[k];
    if ClassOf(e).Relative? {
      StillAxisIsPhysical(map_, t, k, i);
    } else if ClassOf(e).Button? && 0 < e.usage {
      ZeroHasNoBits(e.usage + i - 1);
    }
  }

  /** With nothing injected and nothing pending, a native report goes out unchanged. */
  lemma NothingInjectedIsTransparent(out: seq<Byte>, map_: seq<MapEntry>, t: Target, o: Overlay)
    requires Usable(map_, t) && o.Wellformed() && Neutral(o) && !t.stationary
    requires PhysicalInRange(map_, t)
    requires MutatedBy(out, map_, t, Motion(0, 0, 0, 0), o, |map_|)
    ensures out == t.native
  {
    forall p | 0 <= p < 8 * |out|
      ensures ReportBit(out, p) == ReportBit(t.native, p)
    {
      if Owned(map_, t, |map_|, p) {
        var k :| 0 <= k < |map_| && Matches(map_[k], t) && Covers(map_[k], p);
        NeutralFieldIsPhysical(map_, t, o, k, p - map_[k].bitOffset);
        assert ReportBit(out, map_[k].bitOffset + (p - map_[k].bitOffset)) ==
          FieldBit(map_, t, Motion(0, 0, 0, 0), o, k, p - map_[k].bitOffset);
      }
    }
    ReportOfBits(out, t.native);
  }

  lemma {:induction false} StillMotionStays(map_: seq<MapEntry>, t: Target, k: nat)
    requires Usable(map_, t) && PhysicalInRange(map_, t) && k <= |map_|
    ensures MotionBefore(map_, t, Motion(0, 0, 0, 0), k) == Motion(0, 0, 0, 0)
  {
    if k > 0 {
      StillMotionStays(map_, t, k - 1);
    }
  }

  // ---- Residual motion ---------------------------------------------------------------

  /** What one field leaves pending. */
  function Residual(pending: int, physical: int, lo: int, hi: int): int {
    physical + pending - Clamp(physical + pending, lo, hi)
  }

  /** Between nothing and what was pending: same sign, no larger, so it fits its register. */
  predicate Towards(residual: int, pending: int) {
    if pending >= 0 then 0 <= residual <= pending else pending <= residual <= 0
  }

  lemma ResidualShrinks(pending: S32, physical: int, lo: int, hi: int)
    requires lo <= physical <= hi
    ensures Towards(Residual(pending, physical, lo, hi), pending)
    ensures Wrap32(Residual(pending, physical, lo, hi)) == Residual(pending, physical, lo, hi)
    ensures lo < physical < hi && pending != 0 ==> Residual(pending, physical, lo, hi) != pending
  {
    var total := physical + pending;
    if pending >= 0 {
      assert Clamp(total, lo, hi) == if total > hi then hi else total;
    } else {
      assert Clamp(total, lo, hi) == if total < lo then lo else total;
    }
    WrapFits(Residual(pending, physical, lo, hi));
  }

  lemma WrapFits(v: int)
    ensures Wrap32(v) == v <==> -0x8000_0000 <= v < 0x8000_0000
  {
  }

  /** Sum over entries 0..n-1 that move axis a of emitted minus physical. */
  function Injected(map_: seq<MapEntry>, t: Target, motion: Motion, a: Axis, n: nat): int
    requires Usable(map_, t) && n <= |map_|
  {
    if n == 0 then 0
    else
      Injected(map_, t, motion, a, n - 1) +
      if MovesAxis(map_[n - 1], t) && AxisOf(map_[n - 1]) == a then
        Emitted(map_, t, motion, n - 1) - Physical(map_[n - 1], t)
      else 0
  }

  /** Every residual of the first n entries fits the 32-bit register it is stored in. */
  ghost predicate ResidualsFit(map_: seq<MapEntry>, t: Target, motion: Motion, n: nat)
    requires Usable(map_, t) && n <= |map_|
  {
    forall k :: 0 <= k < n && MovesAxis(map_[k], t) ==>
      -0x8000_0000 <= Total(map_, t, motion, k) - Emitted(map_, t, motion, k) < 0x8000_0000
  }

  /** One report conserves motion: what it adds plus what it leaves is what was pending. */
  lemma {:induction false} ReportConservesMotion(
    map_: seq<MapEntry>, t: Target, motion: Motion, a: Axis, n: nat)
    requires Usable(map_, t) && n <= |map_| && ResidualsFit(map_, t, motion, n)
    ensures Injected(map_, t, motion, a, n) + MotionBefore(map_, t, motion, n).Get(a) == motion.Get(a)
  {
    if n > 0 {
      ReportConservesMotion(map_, t, motion, a, n - 1);
      if MovesAxis(map_[n - 1], t) {
        assert -0x8000_0000 <= Total(map_, t, motion, n - 1) - Emitted(map_, t, motion, n - 1) < 0x8000_0000;
        WrapFits(Total(map_, t, motion, n - 1) - Emitted(map_, t, motion, n - 1));
      }
    }
  }

  /** Without any assumption the law still holds modulo the 32-bit register. */
  lemma {:induction false} ReportConservesMotionModulo(
    map_: seq<MapEntry>, t: Target, motion: Motion, a: Axis, n: nat)
    requires Usable(map_, t) && n <= |map_|
    ensures exists m ::
      Injected(map_, t, motion, a, n) + MotionBefore(map_, t, motion, n).Get(a) ==
      motion.Get(a) + m * 0x1_0000_0000
  {
    if n == 0 {
      assert Injected(map_, t, motion, a, n) + motion.Get(a) == motion.Get(a) + 0 * 0x1_0000_0000;
    } else {
      ReportConservesMotionModulo(map_, t, motion, a, n - 1);
      var m :| Injected(map_, t, motion, a, n - 1) + MotionBefore(map_, t, motion, n - 1).Get(a) ==
        motion.Get(a) + m * 0x1_0000_0000;
      if MovesAxis(map_[n - 1], t) && AxisOf(map_[n - 1]) == a {
        var residual := Total(map_, t, motion, n - 1) - Emitted(map_, t, motion, n - 1);
        var laps := (residual + 0x8000_0000) / 0x1_0000_0000;
        assert Wrap32(residual) == residual - laps * 0x1_0000_0000;
        assert Injected(map_, t, motion, a, n) + MotionBefore(map_, t, motion, n).Get(a) ==
          motion.Get(a) + (m - laps) * 0x1_0000_0000;
      }
    }
  }

  /** In-range physical values keep every residual in its register, on the pending side. */
  lemma {:induction false} InRangeResidualsFit(map_: seq<MapEntry>, t: Target, motion: Motion, a: Axis, n: nat)
    requires Usable(map_, t) && PhysicalInRange(map_, t) && n <= |map_|
    ensures ResidualsFit(map_, t, motion, n)
    ensures Towards(MotionBefore(map_, t, motion, n).Get(a), motion.Get(a))
  {
    if n > 0 {
      InRangeResidualsFit(map_, t, motion, a, n - 1);
      var e := map_[n - 1];
      if MovesAxis(e, t) {
        ResidualShrinks(MotionBefore(map_, t, motion, n - 1).Get(AxisOf(e)),
          Physical(e, t), e.logicalMinimum, e.logicalMaximum);
      }
    }
  }

  /** One field of the axis, with room on both sides of zero. */
  predicate Drains(map_: seq<MapEntry>, t: Target, a: Axis, k: nat) {
    && k < |map_| && MovesAxis(map_[k], t) && AxisOf(map_[k]) == a
    && map_[k].logicalMinimum < 0 < map_[k].logicalMaximum
  }

  /** A synthesised report strictly shrinks the motion of every axis it can carry. */
  lemma SynthesisedReportShrinks(map_: seq<MapEntry>, t: Target, motion: Motion, a: Axis, k: nat)
    requires Usable(map_, t) && PhysicalInRange(map_, t) && t.stationary && Drains(map_, t, a, k)
    ensures Towards(MotionBefore(map_, t, motion, |map_|).Get(a), motion.Get(a))
    ensures motion.Get(a) != 0 ==> MotionBefore(map_, t, motion, |map_|).Get(a) != motion.Get(a)
  {
    var e := map_[k];
    InRangeResidualsFit(map_, t, motion, a, k);
    var pending := MotionBefore(map_, t, motion, k).Get(a);
    ResidualShrinks(pending, 0, e.logicalMinimum, e.logicalMaximum);
    assert MotionBefore(map_, t, motion, k + 1).Get(a) ==
      Residual(pending, 0, e.logicalMinimum, e.logicalMaximum);
    MotionOnlyShrinks(map_, t, motion, a, k + 1, |map_|);
  }

  lemma {:induction false} MotionOnlyShrinks(
    map_: seq<MapEntry>, t: Target, motion: Motion, a: Axis, m: nat, n: nat)
    requires Usable(map_, t) && PhysicalInRange(map_, t) && m <= n <= |map_|
    ensures Towards(MotionBefore(map_, t, motion, n).Get(a), MotionBefore(map_, t, motion, m).Get(a))
    decreases n - m
  {
    if m < n {
      MotionOnlyShrinks(map_, t, motion, a, m, n - 1);
      var e := map_[n - 1];
      if MovesAxis(e, t) {
        ResidualShrinks(MotionBefore(map_, t, motion, n - 1).Get(AxisOf(e)),
          Physical(e, t), e.logicalMinimum, e.logicalMaximum);
      }
    }
  }

  /** The motion left after n synthesised reports with no new command. */
  function AfterSynthesised(map_: seq<MapEntry>, t: Target, motion: Motion, n: nat): Motion
    requires Usable(map_, t)
  {
    if n == 0 then motion
    else MotionBefore(map_, t, AfterSynthesised(map_, t, motion, n - 1), |map_|)
  }

  function Magnitude(v: int): nat {
    if v < 0 then -v else v
  }

  lemma {:induction false} DrainStep(map_: seq<MapEntry>, t: Target, motion: Motion, a: Axis, k: nat, n: nat)
    requires Usable(map_, t) && PhysicalInRange(map_, t) && t.stationary && Drains(map_, t, a, k)
    ensures Magnitude(AfterSynthesised(map_, t, motion, n).Get(a)) <=
            if Magnitude(motion.Get(a)) > n then Magnitude(motion.Get(a)) - n else 0
  {
    if n > 0 {
      DrainStep(map_, t, motion, a, k, n - 1);
      SynthesisedReportShrinks(map_, t, AfterSynthesised(map_, t, motion, n - 1), a, k);
    }
  }

  /** Synthesised reports drain a residual to zero, however large, and keep it there. */
  lemma ResidualDrains(map_: seq<MapEntry>, t: Target, motion: Motion, a: Axis, k: nat, n: nat)
    requires Usable(map_, t) && PhysicalInRange(map_, t) && t.stationary && Drains(map_, t, a, k)
    requires n >= Magnitude(motion.Get(a))
    ensures AfterSynthesised(map_, t, motion, n).Get(a) == 0
  {
    DrainStep(map_, t, motion, a, k, n);
  }
}
