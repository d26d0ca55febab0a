/** What the slot checksum cannot miss: any short burst, and any odd number of flipped bits. */
module CrcStrength {
  import opened Bits
  import opened Crc16

  // ---- Messages as wire bits, most significant bit of each byte first -----------------------

  function AllOctets(m: seq<Byte>): (o: seq<Octet>)
    ensures |o| == |m|
  {
    seq(|m|, k requires 0 <= k < |m| => Octets(m[k]))
  }

  function WireOf(o: seq<Octet>): (w: seq<bool>)
    ensures |w| == 8 * |o|
  {
    seq(8 * |o|, j requires 0 <= j < 8 * |o| => o[j / 8][7 - j % 8])
  }

  function Wire(m: seq<Byte>): (w: seq<bool>)
    ensures |w| == 8 * |m|
  {
    WireOf(AllOctets(m))
  }

  /** The register after the first n octets. */
  function Octetwise(r: Reg, o: seq<Octet>, n: nat): Reg
    requires n <= |o|
  {
    if n == 0 then r else Steps(Octetwise(r, o, n - 1), o[n - 1], 8)
  }

  lemma {:induction false} CrcIsOctetwise(r: Reg, m: seq<Byte>, n: nat)
    requires n <= |m|
    ensures Crc(r, m, n) == Octetwise(r, AllOctets(m), n)
    decreases n
  {
    if n > 0 {
      CrcIsOctetwise(r, m, n - 1);
    }
  }

  /** The register after the first n wire bits. */
  function Bitwise(r: Reg, w: seq<bool>, n: nat): Reg
    requires n <= |w|
  {
    if n == 0 then r else Step(Bitwise(r, w, n - 1), w[n - 1])
  }

  /** The eight wire bits from an offset are a byte's, most significant first. */
  predicate Carries(w: seq<bool>, at: nat, b: Octet)
    requires at + 8 <= |w|
  {
    forall j :: at <= j < at + 8 ==> w[j] == b[7 - (j - at)]
  }

  /** w carries the whole message. */
  predicate CarriesAll(w: seq<bool>, o: seq<Octet>) {
    |w| == 8 * |o| && forall k :: 0 <= k < |o| ==> Carries(w, 8 * k, o[k])
  }

  lemma WireCarriesAll(o: seq<Octet>)
    ensures CarriesAll(WireOf(o), o)
  {
    var w := WireOf(o);
    forall k | 0 <= k < |o| ensures Carries(w, 8 * k, o[k]) {
      forall j | 8 * k <= j < 8 * k + 8 ensures w[j] == o[k][7 - (j - 8 * k)] {
        assert j / 8 == k && j % 8 == j - 8 * k;
      }
    }
  }

  lemma {:induction false} StepsAreBits(r: Reg, b: Octet, w: seq<bool>, at: nat, n: nat)
    requires n <= 8 && at + 8 <= |w| && Carries(w, at, b)
    ensures Steps(Bitwise(r, w, at), b, n) == Bitwise(r, w, at + n)
    decreases n
  {
    if n > 0 {
      StepsAreBits(r, b, w, at, n - 1);
      assert w[at + n - 1] == b[8 - n];
    }
  }

  lemma CrcByte(r: Reg, before: Reg, after: Reg, b: Octet, w: seq<bool>, at: nat)
    requires at + 8 <= |w| && Carries(w, at, b) && before == Bitwise(r, w, at) && after == Steps(before, b, 8)
    ensures after == Bitwise(r, w, at + 8)
  {
    StepsAreBits(r, b, w, at, 8);
  }

  lemma {:induction false} OctetwiseIsBitwise(r: Reg, o: seq<Octet>, w: seq<bool>, n: nat)
    requires n <= |o| && CarriesAll(w, o)
    ensures Octetwise(r, o, n) == Bitwise(r, w, 8 * n)
    decreases n
  {
    if n > 0 {
      OctetwiseIsBitwise(r, o, w, n - 1);
      CrcByte(r, Octetwise(r, o, n - 1), Octetwise(r, o, n), o[n - 1], w, 8 * (n - 1));
    }
  }

  lemma CrcIsBitwise(r: Reg, m: seq<Byte>)
    ensures Crc(r, m, |m|) == Bitwise(r, Wire(m), 8 * |m|)
  {
    CrcIsOctetwise(r, m, |m|);
    WireCarriesAll(AllOctets(m));
    OctetwiseIsBitwise(r, AllOctets(m), Wire(m), |m|);
  }

  // ---- Linearity ----------------------------------------------------------------------------

  lemma StepIsLinear(r: Reg, s: Reg, a: bool, b: bool)
    ensures Xor(Step(r, a), Step(s, b)) == Step(Xor(r, s), a != b)
  {
    forall i | 0 <= i < 16 ensures Xor(Step(r, a), Step(s, b))[i] == Step(Xor(r, s), a != b)[i] {
      StepBit(r, a, i);
      StepBit(s, b, i);
      StepBit(Xor(r, s), a != b, i);
    }
  }

  /** The bits in which two messages differ. */
  function Flips(a: seq<bool>, b: seq<bool>): (d: seq<bool>)
    requires |a| == |b|
    ensures |d| == |a|
  {
    seq(|a|, j requires 0 <= j < |a| => a[j] != b[j])
  }

  lemma XorStep(r: Reg, s: Reg, x: Reg, a: bool, b: bool, d: bool)
    requires Xor(r, s) == x && d == (a != b)
    ensures Xor(Step(r, a), Step(s, b)) == Step(x, d)
  {
    StepIsLinear(r, s, a, b);
  }

  /** The registers of two messages differ by the register of their difference, started at zero. */
  lemma {:induction false} DifferenceIsXor(r: Reg, a: seq<bool>, b: seq<bool>, n: nat)
    requires n <= |a| == |b|
    ensures Xor(Bitwise(r, a, n), Bitwise(r, b, n)) == Bitwise(Zero(), Flips(a, b), n)
    decreases n
  {
    if n == 0 {
      assert Xor(r, r) == Zero();
    } else {
      DifferenceIsXor(r, a, b, n - 1);
      XorStep(Bitwise(r, a, n - 1), Bitwise(r, b, n - 1), Bitwise(Zero(), Flips(a, b), n - 1),
              a[n - 1], b[n - 1], Flips(a, b)[n - 1]);
    }
  }

  // ---- Bursts -------------------------------------------------------------------------------

  predicate Nonzero(r: Reg) { exists j :: 0 <= j < 16 && r[j] }

  /** All ones lie in [at, at + 16). */
  predicate WithinBurst(d: seq<bool>, at: nat) {
    forall j :: 0 <= j < |d| && !(at <= j < at + 16) ==> !d[j]
  }

  lemma ZeroStays()
    ensures Step(Zero(), false) == Zero()
  {
  }

  lemma {:induction false} QuietBefore(d: seq<bool>, at: nat, n: nat)
    requires WithinBurst(d, at) && n <= at && n <= |d|
    ensures Bitwise(Zero(), d, n) == Zero()
    decreases n
  {
    if n > 0 {
      QuietBefore(d, at, n - 1);
      ZeroStays();
    }
  }

  /** The 16 window bits as a register, first on top. */
  function Window(d: seq<bool>, at: nat): Reg
    requires at + 16 <= |d|
  {
    seq(16, i requires 0 <= i < 16 => d[at + 15 - i])
  }

  /** x is ahead of y by the window bits not yet entered. */
  predicate WindowAhead(x: Reg, y: Reg, w: Reg, k: nat)
    requires k <= 16
  {
    forall i :: 0 <= i < 16 ==> x[i] == (y[i] != (i >= k && w[i - k]))
  }

  lemma WindowStep(x: Reg, y: Reg, w: Reg, k: nat)
    requires k < 16 && WindowAhead(x, y, w, k)
    ensures WindowAhead(Shift(x), Step(y, w[15 - k]), w, k + 1)
  {
    assert x[15] == (y[15] != w[15 - k]);
    forall i | 0 <= i < 16
      ensures Shift(x)[i] == (Step(y, w[15 - k])[i] != (i >= k + 1 && w[i - k - 1]))
    {
      ShiftBit(x, i);
      StepBit(y, w[15 - k], i);
      if i > 0 {
        assert x[i - 1] == (y[i - 1] != (i - 1 >= k && w[i - 1 - k]));
      }
    }
  }

  lemma {:induction false} WindowEnters(d: seq<bool>, w: Reg, at: nat, k: nat)
    requires WithinBurst(d, at) && at + 16 <= |d| && k <= 16 && w == Window(d, at)
    ensures WindowAhead(Shifts(w, k), Bitwise(Zero(), d, at + k), w, k)
    decreases k
  {
    if k == 0 {
      QuietBefore(d, at, at);
    } else {
      WindowEnters(d, w, at, k - 1);
      assert w[15 - (k - 1)] == d[at + k - 1];
      WindowStep(Shifts(w, k - 1), Bitwise(Zero(), d, at + k - 1), w, k - 1);
    }
  }

  /** A register that is not zero never becomes zero by shifting. */
  lemma ShiftKeepsNonzero(r: Reg)
    requires Nonzero(r)
    ensures Nonzero(Shift(r))
  {
    var i :| 0 <= i < 16 && r[i];
    if r[15] {
      ShiftBit(r, 0);
      assert Shift(r)[0];
    } else {
      ShiftBit(r, i + 1);
      assert Shift(r)[i + 1];
    }
  }

  lemma {:induction false} ShiftsKeepNonzero(r: Reg, n: nat)
    requires Nonzero(r)
    ensures Nonzero(Shifts(r, n))
    decreases n
  {
    if n > 0 {
      ShiftsKeepNonzero(r, n - 1);
      ShiftKeepsNonzero(Shifts(r, n - 1));
    }
  }

  lemma QuietStep(r: Reg)
    requires Nonzero(r)
    ensures Nonzero(Step(r, false))
  {
    forall i | 0 <= i < 16 ensures Step(r, false)[i] == Shift(r)[i] {
      ShiftBit(r, i);
      StepBit(r, false, i);
    }
    assert Step(r, false) == Shift(r);
    ShiftKeepsNonzero(r);
  }

  lemma {:induction false} LoudAfter(d: seq<bool>, at: nat, n: nat)
    requires WithinBurst(d, at) && at + 16 <= n <= |d|
    requires Nonzero(Bitwise(Zero(), d, at + 16))
    ensures Nonzero(Bitwise(Zero(), d, n))
    decreases n
  {
    if n > at + 16 {
      LoudAfter(d, at, n - 1);
      QuietStep(Bitwise(Zero(), d, n - 1));
    }
  }

  lemma BurstIsLoud(d: seq<bool>, at: nat, flipped: nat)
    requires WithinBurst(d, at) && at + 16 <= |d| && flipped < |d| && d[flipped]
    ensures Nonzero(Bitwise(Zero(), d, |d|))
  {
    var w := Window(d, at);
    assert at <= flipped < at + 16;
    assert w[at + 15 - flipped];
    WindowEnters(d, w, at, 16);
    ShiftsKeepNonzero(w, 16);
    var j :| 0 <= j < 16 && Shifts(w, 16)[j];
    assert Bitwise(Zero(), d, at + 16)[j];
    LoudAfter(d, at, |d|);
  }

  lemma XorNonzero(r: Reg, s: Reg)
    requires Nonzero(Xor(r, s))
    ensures r != s
  {
    var j :| 0 <= j < 16 && Xor(r, s)[j];
    assert r[j] != s[j];
  }

  /** Two messages that differ, and only within 16 consecutive wire bits, have different checksums. */
  lemma BurstIsSeen(r: Reg, a: seq<Byte>, b: seq<Byte>, at: nat, flipped: nat)
    requires |a| == |b| && at + 16 <= 8 * |a| && flipped < 8 * |a|
    requires WithinBurst(Flips(Wire(a), Wire(b)), at) && Wire(a)[flipped] != Wire(b)[flipped]
    ensures Crc(r, a, |a|) != Crc(r, b, |b|)
  {
    var n := 8 * |a|;
    BurstIsLoud(Flips(Wire(a), Wire(b)), at, flipped);
    DifferenceIsXor(r, Wire(a), Wire(b), n);
    XorNonzero(Bitwise(r, Wire(a), n), Bitwise(r, Wire(b), n));
    CrcIsBitwise(r, a);
    CrcIsBitwise(r, b);
  }

  // ---- Parity -------------------------------------------------------------------------------

  /** Whether the first n booleans hold an odd number of ones. */
  predicate Parity(s: seq<bool>, n: nat)
    requires n <= |s|
  {
    n > 0 && Odd(Parity(s, n - 1), s[n - 1])
  }

  /** The polynomial's three taps and the bit shifted out make an even number. */
  lemma {:induction false} StepParityPrefix(r: Reg, bit: bool, n: nat)
    requires 0 < n <= 16
    ensures Parity(Step(r, bit), n) ==
            Odd(Parity(r, n - 1), (r[15] != bit) && (n <= 5 || n >= 13))
    decreases n
  {
    StepBit(r, bit, n - 1);
    if n > 1 {
      StepParityPrefix(r, bit, n - 1);
    } else {
      assert Parity(Step(r, bit), 0) == false;
    }
  }

  lemma StepParity(r: Reg, bit: bool)
    ensures Parity(Step(r, bit), 16) == Odd(Parity(r, 16), bit)
  {
    StepParityPrefix(r, bit, 16);
  }

  lemma {:induction false} BitwiseParity(r: Reg, w: seq<bool>, n: nat)
    requires n <= |w|
    ensures Parity(Bitwise(r, w, n), 16) == Odd(Parity(r, 16), Parity(w, n))
    decreases n
  {
    if n > 0 {
      BitwiseParity(r, w, n - 1);
      StepParity(Bitwise(r, w, n - 1), w[n - 1]);
    }
  }

  /** The checksum's parity is the message's, for the all-ones start. */
  lemma CrcParity(m: seq<Byte>)
    ensures Parity(Crc(Init(), m, |m|), 16) == Parity(Wire(m), 8 * |m|)
  {
    CrcIsBitwise(Init(), m);
    BitwiseParity(Init(), Wire(m), 8 * |m|);
    InitIsEven();
  }

  lemma InitIsEven()
    ensures !Parity(Init(), 16)
  {
    OnesParity(Init(), 16);
  }

  lemma {:induction false} OnesParity(s: seq<bool>, n: nat)
    requires n <= |s| && forall i :: 0 <= i < n ==> s[i]
    ensures Parity(s, n) <==> n % 2 == 1
    decreases n
  {
    if n > 0 {
      OnesParity(s, n - 1);
    }
  }

  lemma {:induction false} PrefixParity(a: seq<bool>, b: seq<bool>, n: nat)
    requires n <= |a| && n <= |b| && forall i :: 0 <= i < n ==> a[i] == b[i]
    ensures Parity(a, n) == Parity(b, n)
    decreases n
  {
    if n > 0 {
      PrefixParity(a, b, n - 1);
    }
  }

  lemma {:induction false} OctetParityFrom(w: seq<bool>, at: nat, b: Octet, n: nat)
    requires at + 8 <= |w| && Carries(w, at, b) && n <= 8
    ensures Parity(w, at + n) == Odd(Parity(w, at), Odd(Parity(b, 8), Parity(b, 8 - n)))
    decreases n
  {
    if n > 0 {
      OctetParityFrom(w, at, b, n - 1);
      assert w[at + n - 1] == b[8 - n];
    }
  }

  /** A byte adds its own parity, whichever end goes first. */
  lemma OctetParity(w: seq<bool>, at: nat, b: Octet)
    requires at + 8 <= |w| && Carries(w, at, b)
    ensures Parity(w, at + 8) == Odd(Parity(w, at), Parity(b, 8))
  {
    OctetParityFrom(w, at, b, 8);
  }

  lemma {:induction false} PairParityFrom(low: Octet, high: Octet, r: Reg, n: nat)
    requires n <= 8 && r == low + high
    ensures Parity(r, 8 + n) == Odd(Parity(low, 8), Parity(high, n))
    decreases n
  {
    if n == 0 {
      PrefixParity(r, low, 8);
    } else {
      PairParityFrom(low, high, r, n - 1);
    }
  }

  lemma {:induction false} FlipsParity(a: seq<bool>, b: seq<bool>, n: nat)
    requires n <= |a| == |b|
    ensures Parity(Flips(a, b), n) == Odd(Parity(a, n), Parity(b, n))
    decreases n
  {
    if n > 0 {
      FlipsParity(a, b, n - 1);
    }
  }

  /** How many of the first n booleans are ones. */
  function Ones(s: seq<bool>, n: nat): nat
    requires n <= |s|
  {
    if n == 0 then 0 else Ones(s, n - 1) + if s[n - 1] then 1 else 0
  }

  lemma {:induction false} ParityIsOddOnes(s: seq<bool>, n: nat)
    requires n <= |s|
    ensures Parity(s, n) <==> Ones(s, n) % 2 == 1
    decreases n
  {
    if n > 0 {
      ParityIsOddOnes(s, n - 1);
    }
  }
}
