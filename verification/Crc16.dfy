/** CRC-16/CCITT-FALSE: the software's shifts, the gateware's fold, and what they have in common. */
module Crc16 {
  import opened Bits

  // ---- Words as flip-flops, bit 0 first -----------------------------------------------------

  /** A 16-bit register, one boolean a bit. */
  type Reg = s: seq<bool> | |s| == 16
    witness [false, false, false, false, false, false, false, false,
             false, false, false, false, false, false, false, false]

  function Zero(): Reg { seq(16, i => false) }

  /** 0xFFFF. */
  function Init(): Reg { seq(16, i => true) }

  /** 0x1021, and the x^16 the register does not hold. */
  predicate PolyBit(i: int) { i == 0 || i == 5 || i == 12 }

  function Poly(): Reg { seq(16, i => PolyBit(i)) }

  function Xor(a: Reg, b: Reg): Reg { seq(16, i requires 0 <= i < 16 => a[i] != b[i]) }

  function ShiftLeft(a: Reg, n: nat): Reg {
    seq(16, i requires 0 <= i < 16 => i >= n && a[i - n])
  }

  /** A byte as eight booleans, bit 0 first. */
  type Octet = s: seq<bool> | |s| == 8 witness [false, false, false, false, false, false, false, false]

  function Octets(b: Byte): Octet { seq(8, i requires 0 <= i < 8 => ByteBit(b, i)) }

  /** A byte in the register's low eight bits. */
  function Low(b: Octet): Reg { seq(16, i requires 0 <= i < 16 => i < 8 && b[i]) }

  /** remainder[8:16] in the low eight bits. */
  function High(a: Reg): Reg { seq(16, i requires 0 <= i < 16 => i < 8 && a[i + 8]) }

  // ---- One bit, one byte --------------------------------------------------------------------

  /** The software's inner loop. */
  function Shift(r: Reg): Reg {
    if r[15] then Xor(ShiftLeft(r, 1), Poly()) else ShiftLeft(r, 1)
  }

  function Shifts(r: Reg, n: nat): Reg {
    if n == 0 then r else Shift(Shifts(r, n - 1))
  }

  /** One byte as crc16_ccitt_false computes it. */
  function ByteShifted(r: Reg, b: Octet): Reg {
    Shifts(Xor(r, ShiftLeft(Low(b), 8)), 8)
  }

  /** The top half of the register mixed with the byte, then with its own top nibble. */
  function Folded(r: Reg, b: Octet): Reg {
    var mixed := Xor(High(r), Low(b));
    seq(16, i requires 0 <= i < 16 => i < 8 && (mixed[i] != (i < 4 && mixed[i + 4])))
  }

  /** One byte as the gateware computes it: no loop. */
  function ByteFolded(r: Reg, b: Octet): Reg {
    var folded := Folded(r, b);
    Xor(Xor(Xor(ShiftLeft(r, 8), ShiftLeft(folded, 12)), ShiftLeft(folded, 5)), folded)
  }

  /** One message bit entering at the top. */
  function Step(r: Reg, bit: bool): Reg {
    var top := r[15] != bit;
    seq(16, i requires 0 <= i < 16 => (i > 0 && r[i - 1]) != (top && PolyBit(i)))
  }

  /** The n top bits of a byte, most significant first. */
  function Steps(r: Reg, b: Octet, n: nat): Reg
    requires n <= 8
  {
    if n == 0 then r else Step(Steps(r, b, n - 1), b[8 - n])
  }

  /** The register after the first n bytes of a message. */
  function Crc(r: Reg, m: seq<Byte>, n: nat): Reg
    requires n <= |m|
  {
    if n == 0 then r else Steps(Crc(r, m, n - 1), Octets(m[n - 1]), 8)
  }

  // ---- The three ways to take a byte agree --------------------------------------------------

  lemma ShiftBit(r: Reg, i: nat)
    requires i < 16
    ensures Shift(r)[i] == ((i > 0 && r[i - 1]) != (r[15] && PolyBit(i)))
  {
  }

  lemma StepBit(r: Reg, bit: bool, i: nat)
    requires i < 16
    ensures Step(r, bit)[i] == ((i > 0 && r[i - 1]) != ((r[15] != bit) && PolyBit(i)))
  {
  }

  /** x is ahead of y by the top bits of the byte not yet entered. */
  predicate Ahead(x: Reg, y: Reg, b: Octet, k: nat)
    requires k <= 8
  {
    forall i :: 0 <= i < 16 ==> x[i] == (y[i] != (i >= 8 + k && b[i - 8 - k]))
  }

  lemma AheadStep(x: Reg, y: Reg, b: Octet, k: nat)
    requires k < 8 && Ahead(x, y, b, k)
    ensures Ahead(Shift(x), Step(y, b[7 - k]), b, k + 1)
  {
    assert x[15] == (y[15] != b[7 - k]);
    forall i | 0 <= i < 16
      ensures Shift(x)[i] == (Step(y, b[7 - k])[i] != (i >= 9 + k && b[i - 9 - k]))
    {
      ShiftBit(x, i);
      StepBit(y, b[7 - k], i);
      if i > 0 {
        assert x[i - 1] == (y[i - 1] != (i - 1 >= 8 + k && b[i - 1 - 8 - k]));
      }
    }
  }

  /** k shifts run ahead of k bit steps. */
  lemma {:induction false} ShiftsAhead(r: Reg, b: Octet, k: nat)
    requires k <= 8
    ensures Ahead(Shifts(Xor(r, ShiftLeft(Low(b), 8)), k), Steps(r, b, k), b, k)
    decreases k
  {
    if k > 0 {
      ShiftsAhead(r, b, k - 1);
      AheadStep(Shifts(Xor(r, ShiftLeft(Low(b), 8)), k - 1), Steps(r, b, k - 1), b, k - 1);
    }
  }

  /** The software's byte is eight bit steps. */
  lemma ShiftedIsStepped(r: Reg, b: Octet)
    ensures ByteShifted(r, b) == Steps(r, b, 8)
  {
    ShiftsAhead(r, b, 8);
  }

  predicate Odd(a: bool, b: bool) { a != b }

  /** What four bits fed back through the polynomial's taps add to bit i. */
  predicate Fed(t0: bool, t1: bool, t2: bool, t3: bool, i: int) {
    Odd(Odd(t0 && PolyBit(i), t1 && PolyBit(i - 1)), Odd(t2 && PolyBit(i - 2), t3 && PolyBit(i - 3)))
  }

  /** Four bits already mixed with the register's top nibble, folded back in at once. */
  function Nibble(r: Reg, t0: bool, t1: bool, t2: bool, t3: bool): Reg {
    seq(16, i requires 0 <= i < 16 => Odd(i >= 4 && r[i - 4], Fed(t0, t1, t2, t3, i)))
  }

  lemma TwoSteps(r: Reg, x1: bool, x0: bool, i: nat)
    requires i < 16
    ensures Step(Step(r, x1), x0)[i] ==
            Odd(i > 1 && r[i - 2], Odd((r[14] != x0) && PolyBit(i), (r[15] != x1) && PolyBit(i - 1)))
  {
    StepBit(r, x1, 15);
    StepBit(Step(r, x1), x0, i);
    if i > 0 {
      StepBit(r, x1, i - 1);
    }
  }

  lemma FourStepsBit(r: Reg, x3: bool, x2: bool, x1: bool, x0: bool, i: nat)
    requires i < 16
    ensures Step(Step(Step(Step(r, x3), x2), x1), x0)[i] ==
            Odd(i >= 4 && r[i - 4], Fed(r[12] != x0, r[13] != x1, r[14] != x2, r[15] != x3, i))
  {
    var s := Step(Step(r, x3), x2);
    TwoSteps(r, x3, x2, 14);
    TwoSteps(r, x3, x2, 15);
    assert s[14] == r[12] && s[15] == r[13];
    TwoSteps(s, x1, x0, i);
    if i > 1 {
      TwoSteps(r, x3, x2, i - 2);
    }
  }

  lemma FourSteps(r: Reg, x3: bool, x2: bool, x1: bool, x0: bool, t0: bool, t1: bool, t2: bool, t3: bool)
    requires t0 == (r[12] != x0) && t1 == (r[13] != x1) && t2 == (r[14] != x2) && t3 == (r[15] != x3)
    ensures Step(Step(Step(Step(r, x3), x2), x1), x0) == Nibble(r, t0, t1, t2, t3)
  {
    var u, v := Step(Step(Step(Step(r, x3), x2), x1), x0), Nibble(r, t0, t1, t2, t3);
    forall i | 0 <= i < 16 ensures u[i] == v[i] {
      FourStepsBit(r, x3, x2, x1, x0, i);
    }
  }

  lemma StepsUnrolled(r: Reg, b: Octet)
    ensures Steps(r, b, 4) == Step(Step(Step(Step(r, b[7]), b[6]), b[5]), b[4])
    ensures Steps(r, b, 8) ==
            Step(Step(Step(Step(Steps(r, b, 4), b[3]), b[2]), b[1]), b[0])
  {
    assert Steps(r, b, 1) == Step(r, b[7]);
    assert Steps(r, b, 2) == Step(Steps(r, b, 1), b[6]);
    assert Steps(r, b, 3) == Step(Steps(r, b, 2), b[5]);
    assert Steps(r, b, 4) == Step(Steps(r, b, 3), b[4]);
    assert Steps(r, b, 5) == Step(Steps(r, b, 4), b[3]);
    assert Steps(r, b, 6) == Step(Steps(r, b, 5), b[2]);
    assert Steps(r, b, 7) == Step(Steps(r, b, 6), b[1]);
    assert Steps(r, b, 8) == Step(Steps(r, b, 7), b[0]);
  }

  /** The folded byte's bits: its low nibble has met the register's top twice, its high nibble once. */
  lemma FoldedBits(r: Reg, b: Octet, j: nat)
    requires j < 4
    ensures Folded(r, b)[j + 4] == (r[j + 12] != b[j + 4])
    ensures Folded(r, b)[j] == Odd(Odd(r[j + 8], r[j + 12] != b[j + 4]), b[j])
  {
  }

  lemma FoldedByteBit(r: Reg, b: Octet, i: nat)
    requires i < 16
    ensures var f := Folded(r, b);
            ByteFolded(r, b)[i] ==
            Odd(i >= 8 && r[i - 8], Odd(i < 8 && f[i], Odd(5 <= i < 13 && f[i - 5], i >= 12 && f[i - 12])))
  {
  }

  lemma NibbleBit(r: Reg, t0: bool, t1: bool, t2: bool, t3: bool, i: nat)
    requires i < 16
    ensures Nibble(r, t0, t1, t2, t3)[i] ==
            Odd(i >= 4 && r[i - 4], Fed(t0, t1, t2, t3, i))
  {
  }

  lemma NibbleTops(r: Reg, t0: bool, t1: bool, t2: bool, t3: bool)
    ensures var n := Nibble(r, t0, t1, t2, t3);
            n[12] == Odd(r[8], t0) && n[13] == Odd(r[9], t1) && n[14] == Odd(r[10], t2) && n[15] == Odd(r[11], t3)
  {
    NibbleBit(r, t0, t1, t2, t3, 12);
    NibbleBit(r, t0, t1, t2, t3, 13);
    NibbleBit(r, t0, t1, t2, t3, 14);
    NibbleBit(r, t0, t1, t2, t3, 15);
  }

  /** Three shifted copies of a byte are its eight bits through the polynomial's three taps. */
  lemma CopiesAreTaps(f: Reg, i: nat)
    requires i < 16
    ensures Odd(i < 8 && f[i], Odd(5 <= i < 13 && f[i - 5], i >= 12 && f[i - 12])) ==
            Odd(Fed(f[4], f[5], f[6], f[7], i - 4), Fed(f[0], f[1], f[2], f[3], i))
    ensures i < 4 ==> !Fed(f[4], f[5], f[6], f[7], i - 4)
  {
    match i {
      case 0 =>
      case 1 =>
      case 2 =>
      case 3 =>
      case 4 =>
      case 5 =>
      case 6 =>
      case 7 =>
      case 8 =>
      case 9 =>
      case 10 =>
      case 11 =>
      case 12 =>
      case 13 =>
      case 14 =>
      case _ =>
    }
  }

  /** w is bit i of the fold, n of the first nibble, m of the second. */
  lemma TapsAdd(shifted: bool, copies: bool, high: bool, low: bool, n: bool, m: bool, w: bool, early: bool)
    requires w == Odd(shifted, copies) && copies == Odd(high, low)
    requires m == Odd(!early && n, low)
    requires if early then !shifted && !high else n == Odd(shifted, high)
    ensures w == m
  {
  }

  lemma NibblesBit(r: Reg, f: Reg, i: nat)
    requires i < 16
    ensures Nibble(Nibble(r, f[4], f[5], f[6], f[7]), f[0], f[1], f[2], f[3])[i] ==
            Odd(i >= 4 && Odd(i >= 8 && r[i - 8], Fed(f[4], f[5], f[6], f[7], i - 4)),
                Fed(f[0], f[1], f[2], f[3], i))
  {
    if i >= 4 {
      NibbleBit(r, f[4], f[5], f[6], f[7], i - 4);
    }
    NibbleBit(Nibble(r, f[4], f[5], f[6], f[7]), f[0], f[1], f[2], f[3], i);
  }

  lemma FoldedIsNibbles(shifted: bool, f: Reg, m: bool, w: bool, i: nat)
    requires i < 16 && (i < 8 ==> !shifted)
    requires m == Odd(i >= 4 && Odd(shifted, Fed(f[4], f[5], f[6], f[7], i - 4)), Fed(f[0], f[1], f[2], f[3], i))
    requires w == Odd(shifted, Odd(i < 8 && f[i], Odd(5 <= i < 13 && f[i - 5], i >= 12 && f[i - 12])))
    ensures w == m
  {
    CopiesAreTaps(f, i);
    TapsAdd(shifted, Odd(i < 8 && f[i], Odd(5 <= i < 13 && f[i - 5], i >= 12 && f[i - 12])),
            Fed(f[4], f[5], f[6], f[7], i - 4), Fed(f[0], f[1], f[2], f[3], i),
            i >= 4 && Odd(shifted, Fed(f[4], f[5], f[6], f[7], i - 4)), m, w, i < 4);
  }

  /** The top bits that bits j and j + 4 of a byte meet, from the folded byte. */
  predicate Meets(r: Reg, b: Octet, f: Reg, j: nat)
    requires j < 4
  {
    f[j + 4] == (r[j + 12] != b[j + 4]) && f[j] == (Odd(r[j + 8], f[j + 4]) != b[j])
  }

  lemma FoldedMeets(r: Reg, b: Octet, j: nat)
    requires j < 4
    ensures Meets(r, b, Folded(r, b), j)
  {
    FoldedBits(r, b, j);
  }

  /** The second half of a byte, from whatever the first half left. */
  lemma SecondNibble(r: Reg, b: Octet, f: Reg, n: Reg)
    requires Steps(r, b, 4) == n
    requires f[0] == (n[12] != b[0]) && f[1] == (n[13] != b[1]) && f[2] == (n[14] != b[2]) && f[3] == (n[15] != b[3])
    ensures Steps(r, b, 8) == Nibble(n, f[0], f[1], f[2], f[3])
  {
    StepsUnrolled(r, b);
    FourSteps(n, b[3], b[2], b[1], b[0], f[0], f[1], f[2], f[3]);
  }

  lemma FirstNibble(r: Reg, b: Octet, f: Reg)
    requires Meets(r, b, f, 0) && Meets(r, b, f, 1) && Meets(r, b, f, 2) && Meets(r, b, f, 3)
    ensures Steps(r, b, 4) == Nibble(r, f[4], f[5], f[6], f[7])
  {
    StepsUnrolled(r, b);
    FourSteps(r, b[7], b[6], b[5], b[4], f[4], f[5], f[6], f[7]);
  }

  lemma StepsAreNibbles(r: Reg, b: Octet, f: Reg, n: Reg)
    requires Meets(r, b, f, 0) && Meets(r, b, f, 1) && Meets(r, b, f, 2) && Meets(r, b, f, 3)
    requires n == Nibble(r, f[4], f[5], f[6], f[7])
    ensures Steps(r, b, 8) == Nibble(n, f[0], f[1], f[2], f[3])
  {
    FirstNibble(r, b, f);
    NibbleTops(r, f[4], f[5], f[6], f[7]);
    SecondNibble(r, b, f, n);
  }

  lemma FoldedBit(r: Reg, b: Octet, f: Reg, n: Reg, i: nat)
    requires i < 16 && f == Folded(r, b) && n == Nibble(r, f[4], f[5], f[6], f[7])
    ensures ByteFolded(r, b)[i] == Nibble(n, f[0], f[1], f[2], f[3])[i]
  {
    FoldedByteBit(r, b, i);
    NibblesBit(r, f, i);
    FoldedIsNibbles(i >= 8 && r[i - 8], f, Nibble(n, f[0], f[1], f[2], f[3])[i], ByteFolded(r, b)[i], i);
  }

  /** The gateware's byte is eight bit steps. */
  lemma FoldedIsStepped(r: Reg, b: Octet)
    ensures ByteFolded(r, b) == Steps(r, b, 8)
  {
    var f := Folded(r, b);
    var n := Nibble(r, f[4], f[5], f[6], f[7]);
    FoldedMeets(r, b, 0);
    FoldedMeets(r, b, 1);
    FoldedMeets(r, b, 2);
    FoldedMeets(r, b, 3);
    StepsAreNibbles(r, b, f, n);
    forall i | 0 <= i < 16 ensures ByteFolded(r, b)[i] == Steps(r, b, 8)[i] {
      FoldedBit(r, b, f, n, i);
    }
  }

  /** So software and gateware agree on messages of any length. */
  lemma SoftwareIsGateware(r: Reg, b: Octet)
    ensures ByteShifted(r, b) == ByteFolded(r, b)
  {
    ShiftedIsStepped(r, b);
    FoldedIsStepped(r, b);
  }

  /** crc16_ccitt_false: two nested loops over one remainder. */
  method Crc16CcittFalse(message: seq<Byte>) returns (remainder: Reg)
    ensures remainder == Crc(Init(), message, |message|)
  {
    remainder := Init();
    var k := 0;
    while k < |message|
      invariant k <= |message|
      invariant remainder == Crc(Init(), message, k)
    {
      ghost var before := remainder;
      remainder := Xor(remainder, ShiftLeft(Low(Octets(message[k])), 8));
      ghost var mixed := remainder;
      var bit := 0;
      while bit < 8
        invariant bit <= 8
        invariant remainder == Shifts(mixed, bit)
      {
        if remainder[15] {
          remainder := Xor(ShiftLeft(remainder, 1), Poly());
        } else {
          remainder := ShiftLeft(remainder, 1);
        }
        bit := bit + 1;
      }
      ShiftedIsStepped(before, Octets(message[k]));
      k := k + 1;
    }
  }
}
