/** The two checksums on the string 123456789, the value every implementation of each must give. */
module CrcVectors {
  import opened Bits
  import C = Crc
  import opened Crc16

  function Digits(): seq<Byte> { [0x31, 0x32, 0x33, 0x34, 0x35, 0x36, 0x37, 0x38, 0x39] }

  // ---- CRC-32/IEEE --------------------------------------------------------------------------

  lemma FourShifts(x: bv32, n: nat)
    ensures C.Crc32Shifts(x, n + 4) ==
            C.Crc32Shift(C.Crc32Shift(C.Crc32Shift(C.Crc32Shift(C.Crc32Shifts(x, n)))))
  {
    assert C.Crc32Shifts(x, n + 3) == C.Crc32Shift(C.Crc32Shifts(x, n + 2));
    assert C.Crc32Shifts(x, n + 2) == C.Crc32Shift(C.Crc32Shifts(x, n + 1));
  }

  /** A byte through the register: mixed in, half-way and out. */
  lemma ByteIs(crc: bv32, b: Byte, mixed: bv32, half: bv32, out: bv32)
    requires mixed == crc ^ (b as bv32)
    requires half == C.Crc32Shift(C.Crc32Shift(C.Crc32Shift(C.Crc32Shift(mixed))))
    requires out == C.Crc32Shift(C.Crc32Shift(C.Crc32Shift(C.Crc32Shift(half))))
    ensures C.Crc32Byte(crc, b) == out
  {
    FourShifts(mixed, 0);
    FourShifts(mixed, 4);
  }

  lemma Crc32To3()
    ensures C.Crc32(C.CRC32_INIT, Digits(), 3) == 0x77B7_9C2D
  {
    ByteIs(0xFFFF_FFFF, 0x31, 0xFFFF_FFCE, 0xAFF5_1D84, 0x7C23_1048);
    ByteIs(0x7C23_1048, 0x32, 0x7C23_107A, 0xD114_92EF, 0xB0AC_BB32);
    ByteIs(0xB0AC_BB32, 0x33, 0xB0AC_BB01, 0x16BD_DBD4, 0x77B7_9C2D);
    assert C.Crc32(C.CRC32_INIT, Digits(), 1) == 0x7C23_1048;
    assert C.Crc32(C.CRC32_INIT, Digits(), 2) == 0xB0AC_BB32;
  }

  lemma Crc32To6()
    ensures C.Crc32(C.CRC32_INIT, Digits(), 6) == 0xF68D_2C9E
  {
    Crc32To3();
    ByteIs(0x77B7_9C2D, 0x34, 0x77B7_9C19, 0xF774_EA85, 0x641C_1F5C);
    ByteIs(0x641C_1F5C, 0x35, 0x641C_1F69, 0xF64E_52B2, 0x340A_C5E3);
    ByteIs(0x340A_C5E3, 0x36, 0x340A_C5D5, 0x682B_FDA9, 0xF68D_2C9E);
    assert C.Crc32(C.CRC32_INIT, Digits(), 4) == 0x641C_1F5C;
    assert C.Crc32(C.CRC32_INIT, Digits(), 5) == 0x340A_C5E3;
  }

  lemma Crc32To9()
    ensures C.Crc32(C.CRC32_INIT, Digits(), 9) == 0x340B_C6D9
  {
    Crc32To6();
    ByteIs(0xF68D_2C9E, 0x37, 0xF68D_2CA9, 0xFF67_418E, 0xAFFC_9660);
    ByteIs(0xAFFC_9660, 0x38, 0xAFFC_9658, 0xE747_4A45, 0x651F_2550);
    ByteIs(0x651F_2550, 0x39, 0x651F_2569, 0xF65E_6112, 0x340B_C6D9);
    assert C.Crc32(C.CRC32_INIT, Digits(), 7) == 0xAFFC_9660;
    assert C.Crc32(C.CRC32_INIT, Digits(), 8) == 0x651F_2550;
  }

  /** CRC-32/IEEE of 123456789. */
  lemma Crc32Check()
    ensures C.Crc32Final(C.Crc32(C.CRC32_INIT, Digits(), 9)) == 0xCBF4_3926
  {
    Crc32To9();
  }

  // ---- CRC-16/CCITT-FALSE -------------------------------------------------------------------

  /** Bit i of a 16-bit word. */
  predicate WordBit(w: bv16, i: nat)
    requires i < 16
  {
    match i
    case 0 => w & 0x0001 != 0
    case 1 => w & 0x0002 != 0
    case 2 => w & 0x0004 != 0
    case 3 => w & 0x0008 != 0
    case 4 => w & 0x0010 != 0
    case 5 => w & 0x0020 != 0
    case 6 => w & 0x0040 != 0
    case 7 => w & 0x0080 != 0
    case 8 => w & 0x0100 != 0
    case 9 => w & 0x0200 != 0
    case 10 => w & 0x0400 != 0
    case 11 => w & 0x0800 != 0
    case 12 => w & 0x1000 != 0
    case 13 => w & 0x2000 != 0
    case 14 => w & 0x4000 != 0
    case 15 => w & 0x8000 != 0
  }

  /** The flip-flops hold this word. */
  predicate Holds(r: Reg, w: bv16) { forall i :: 0 <= i < 16 ==> r[i] == WordBit(w, i) }

  function WordShift(w: bv16): bv16 { if w & 0x8000 != 0 then (w << 1) ^ 0x1021 else w << 1 }

  lemma LeftBit(w: bv16, i: nat)
    requires i < 16
    ensures WordBit(w << 1, i) == (i > 0 && WordBit(w, i - 1))
  {
    match i {
      case 0 =>
      case 1 =>
      case 2 =>
      case 3 =>
      case 4 =>
      case 5 =>
      case 6 =>
      case 7 =>
      case 8 =>
      case 9 =>
      case 10 =>
      case 11 =>
      case 12 =>
      case 13 =>
      case 14 =>
      case _ =>
    }
  }

  lemma TapsBit(w: bv16, i: nat)
    requires i < 16
    ensures WordBit(w ^ 0x1021, i) == (WordBit(w, i) != PolyBit(i))
  {
    match i {
      case 0 =>
      case 1 =>
      case 2 =>
      case 3 =>
      case 4 =>
      case 5 =>
      case 6 =>
      case 7 =>
      case 8 =>
      case 9 =>
      case 10 =>
      case 11 =>
      case 12 =>
      case 13 =>
      case 14 =>
      case _ =>
    }
  }

  lemma LeftHolds(r: Reg, w: bv16)
    requires Holds(r, w)
    ensures Holds(ShiftLeft(r, 1), w << 1)
  {
    forall i | 0 <= i < 16 ensures ShiftLeft(r, 1)[i] == WordBit(w << 1, i) {
      LeftBit(w, i);
    }
  }

  lemma TapsHold(r: Reg, w: bv16)
    requires Holds(r, w)
    ensures Holds(Xor(r, Poly()), w ^ 0x1021)
  {
    forall i | 0 <= i < 16 ensures Xor(r, Poly())[i] == WordBit(w ^ 0x1021, i) {
      TapsBit(w, i);
    }
  }

  lemma ShiftHolds(r: Reg, w: bv16)
    requires Holds(r, w)
    ensures Holds(Shift(r), WordShift(w))
  {
    assert r[15] == WordBit(w, 15);
    LeftHolds(r, w);
    TapsHold(ShiftLeft(r, 1), w << 1);
  }

  function WordShifts(w: bv16, n: nat): bv16 { if n == 0 then w else WordShift(WordShifts(w, n - 1)) }

  lemma {:induction false} ShiftsHold(r: Reg, w: bv16, n: nat)
    requires Holds(r, w)
    ensures Holds(Shifts(r, n), WordShifts(w, n))
    decreases n
  {
    if n > 0 {
      ShiftsHold(r, w, n - 1);
      ShiftHolds(Shifts(r, n - 1), WordShifts(w, n - 1));
    }
  }

  lemma MixedBit(w: bv16, b: Byte, i: nat)
    requires i < 16
    ensures WordBit(w ^ ((b as bv16) << 8), i) == (WordBit(w, i) != (i >= 8 && ByteBit(b, i - 8)))
  {
    match i {
      case 0 =>
      case 1 =>
      case 2 =>
      case 3 =>
      case 4 =>
      case 5 =>
      case 6 =>
      case 7 =>
      case 8 =>
      case 9 =>
      case 10 =>
      case 11 =>
      case 12 =>
      case 13 =>
      case 14 =>
      case _ =>
    }
  }

  lemma MixBit(r: Reg, o: Octet, i: nat)
    requires i < 16
    ensures Xor(r, ShiftLeft(Low(o), 8))[i] == (r[i] != (i >= 8 && o[i - 8]))
  {
  }

  lemma OctetBit(b: Byte, j: nat)
    requires j < 8
    ensures Octets(b)[j] == ByteBit(b, j)
  {
  }

  lemma MixHolds(r: Reg, w: bv16, b: Byte)
    requires Holds(r, w)
    ensures Holds(Xor(r, ShiftLeft(Low(Octets(b)), 8)), w ^ ((b as bv16) << 8))
  {
    var x := Xor(r, ShiftLeft(Low(Octets(b)), 8));
    forall i | 0 <= i < 16 ensures x[i] == WordBit(w ^ ((b as bv16) << 8), i) {
      MixBit(r, Octets(b), i);
      if i >= 8 {
        OctetBit(b, i - 8);
      }
      MixedBit(w, b, i);
    }
  }

  /** The word the software's loops leave after the first n bytes. */
  function Remainder(m: seq<Byte>, n: nat): bv16
    requires n <= |m|
  {
    if n == 0 then 0xFFFF else WordShifts(Remainder(m, n - 1) ^ ((m[n - 1] as bv16) << 8), 8)
  }

  lemma InitHolds()
    ensures Holds(Init(), 0xFFFF)
  {
  }

  /** The checksum of any message is the remainder of the software's shifts on 16-bit integers. */
  lemma {:induction false} ChecksumIsRemainder(m: seq<Byte>, n: nat)
    requires n <= |m|
    ensures Holds(Crc(Init(), m, n), Remainder(m, n))
    decreases n
  {
    if n == 0 {
      InitHolds();
    } else {
      var r, w, b := Crc(Init(), m, n - 1), Remainder(m, n - 1), m[n - 1];
      ChecksumIsRemainder(m, n - 1);
      MixHolds(r, w, b);
      ShiftsHold(Xor(r, ShiftLeft(Low(Octets(b)), 8)), w ^ ((b as bv16) << 8), 8);
      ShiftedIsStepped(r, Octets(b));
    }
  }

  lemma FourWordShifts(x: bv16, n: nat)
    ensures WordShifts(x, n + 4) == WordShift(WordShift(WordShift(WordShift(WordShifts(x, n)))))
  {
    assert WordShifts(x, n + 3) == WordShift(WordShifts(x, n + 2));
    assert WordShifts(x, n + 2) == WordShift(WordShifts(x, n + 1));
  }

  lemma RemainderIs(m: seq<Byte>, n: nat, w: bv16, mixed: bv16, half: bv16, out: bv16)
    requires n < |m| && Remainder(m, n) == w && mixed == w ^ ((m[n] as bv16) << 8)
    requires half == WordShift(WordShift(WordShift(WordShift(mixed))))
    requires out == WordShift(WordShift(WordShift(WordShift(half))))
    ensures Remainder(m, n + 1) == out
  {
    FourWordShifts(mixed, 0);
    FourWordShifts(mixed, 4);
  }

  lemma RemainderOfDigits()
    ensures Remainder(Digits(), 9) == 0x29B1
  {
    RemainderIs(Digits(), 0, 0xFFFF, 0xCEFF, 0x2E7C, 0xC782);
    RemainderIs(Digits(), 1, 0xC782, 0xF582, 0xA9CF, 0x3DBA);
    RemainderIs(Digits(), 2, 0x3DBA, 0x0EBA, 0xEBA0, 0x5BCE);
    RemainderIs(Digits(), 3, 0x5BCE, 0x6FCE, 0x9C26, 0x5349);
    RemainderIs(Digits(), 4, 0x5349, 0x6649, 0x0456, 0x4560);
    RemainderIs(Digits(), 5, 0x4560, 0x7360, 0x46E7, 0x2EF4);
    RemainderIs(Digits(), 6, 0x2EF4, 0x19F4, 0x8F61, 0x7718);
    RemainderIs(Digits(), 7, 0x7718, 0x4F18, 0xB104, 0xA12B);
    RemainderIs(Digits(), 8, 0xA12B, 0x982B, 0x1399, 0x29B1);
  }

  /** CRC-16/CCITT-FALSE of 123456789. */
  lemma Crc16Check()
    ensures Holds(Crc(Init(), Digits(), 9), 0x29B1)
  {
    ChecksumIsRemainder(Digits(), 9);
    RemainderOfDigits();
  }
}
