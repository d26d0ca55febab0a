/** Bits of bytes, of two's-complement integers and of byte buffers. */
module Bits {

  /** One byte of a report, a descriptor or a wire slot. */
  type Byte = bv8

  function Pow2(n: nat): (r: nat)
    ensures r > 0
  {
    if n == 0 then 1 else 2 * Pow2(n - 1)
  }

  /** Bit k of v in two's complement of any width above k. */
  predicate BitOf(v: int, k: nat) {
    (v / Pow2(k)) % 2 == 1
  }

  /** The byte whose one bit is bit k. */
  function BitMask(k: nat): Byte
    requires k < 8
  {
    match k
    case 0 => 1
    case 1 => 2
    case 2 => 4
    case 3 => 8
    case 4 => 16
    case 5 => 32
    case 6 => 64
    case 7 => 128
  }

  predicate ByteBit(b: Byte, k: nat)
    requires k < 8
  {
    b & BitMask(k) != 0
  }

  /** b with bit k replaced by v: the mask-and-merge of the insertion states. */
  function WithBit(b: Byte, k: nat, v: bool): Byte
    requires k < 8
  {
    if v then b | BitMask(k) else b & !BitMask(k)
  }

  lemma WithBitSetsOneBit(b: Byte, k: nat, v: bool, j: nat)
    requires k < 8 && j < 8
    ensures ByteBit(WithBit(b, k, v), j) == if j == k then v else ByteBit(b, j)
  {
  }

  /** Wire bit p of a report: bit p mod 8 of byte p div 8, the HID bit order. */
  predicate ReportBit(report: seq<Byte>, p: nat)
    requires p < 8 * |report|
  {
    ByteBit(report[p / 8], p % 8)
  }

  /** The unsigned little-endian value of the width bits at offset. */
  function FieldRaw(report: seq<Byte>, offset: nat, width: nat): (r: nat)
    requires offset + width <= 8 * |report|
    ensures r < Pow2(width)
  {
    if width == 0 then 0
    else
      FieldRaw(report, offset, width - 1) +
      if ReportBit(report, offset + width - 1) then Pow2(width - 1) else 0
  }

  /** The value a width-bit raw field has when its top bit is a sign bit. */
  function SignExtend(raw: int, width: nat): int
    requires width > 0
  {
    if BitOf(raw, width - 1) then raw - Pow2(width) else raw
  }

  lemma AtLeastOneStep(m: int, d: int)
    requires m >= 1 && d > 0
    ensures m * d >= d
  {
    assert (m - 1) * d >= 0;
  }

  lemma DivModUnique(v: int, d: int, q: int, r: int)
    requires d > 0 && v == q * d + r && 0 <= r < d
    ensures v / d == q && v % d == r
  {
    var q', r' := v / d, v % d;
    assert (q' - q) * d == r - r' by {
      assert v == q' * d + r';
      assert (q' - q) * d == q' * d - q * d;
    }
    if q' > q {
      AtLeastOneStep(q' - q, d);
    } else if q' < q {
      AtLeastOneStep(q - q', d);
    }
  }

  /** The low k+1 bits are the low k bits and bit k. */
  lemma LowBitsSplit(v: int, k: nat)
    ensures v % Pow2(k + 1) == v % Pow2(k) + if BitOf(v, k) then Pow2(k) else 0
  {
    var p := Pow2(k);
    var q, r := v / p, v % p;
    var h, b := q / 2, q % 2;
    assert v == q * p + r;
    assert q == 2 * h + b;
    assert v == h * (2 * p) + (b * p + r) by {
      assert (2 * h + b) * p == h * (2 * p) + b * p;
    }
    assert 0 <= b * p + r < 2 * p;
    DivModUnique(v, 2 * p, h, b * p + r);
  }

  /** A field whose bits are those of v reads back as v modulo its width. */
  lemma {:induction false} FieldOfBits(report: seq<Byte>, offset: nat, width: nat, v: int)
    requires offset + width <= 8 * |report|
    requires forall i :: 0 <= i < width ==> ReportBit(report, offset + i) == BitOf(v, i)
    ensures FieldRaw(report, offset, width) == v % Pow2(width)
  {
    if width > 0 {
      FieldOfBits(report, offset, width - 1, v);
      LowBitsSplit(v, width - 1);
    }
  }

  /** Sign extension undoes truncation to width bits for every value of that width. */
  lemma SignExtendInverse(v: int, width: nat)
    requires width > 0 && 0 <= v + Pow2(width - 1) < Pow2(width)
    ensures SignExtend(v % Pow2(width), width) == v
  {
    var p := Pow2(width - 1);
    if v >= 0 {
      DivModUnique(v, 2 * p, 0, v);
      DivModUnique(v, p, 0, v);
    } else {
      DivModUnique(v, 2 * p, -1, v + 2 * p);
      DivModUnique(v + 2 * p, p, 1, v + p);
    }
  }
}
