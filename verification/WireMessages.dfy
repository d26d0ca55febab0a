/** Messages in slots, byte by byte: what the link carries of each of the sixteen, and how refusals are counted. */
module WireMessages {
  import opened Bits
  import opened Crc16
  import opened SlotCodec
  import L = SlotLink
  import V = WireVectors
  import W = WirePayload

  // ---- A slot's bytes -----------------------------------------------------------------------

  /** Seven types come from the target's side, 0 to 6, and nine go to it, 0x81 to 0x89. */
  lemma KnownTypes(kind: Byte)
    ensures KnownType(kind) <==> kind <= 6 || 0x81 <= kind <= 0x89
  {
  }

  /** The register's bits are these two bytes', low byte first. */
  predicate Spelled(r: Reg, low: Byte, high: Byte) {
    forall i :: 0 <= i < 16 ==> r[i] == if i < 8 then ByteBit(low, i) else ByteBit(high, i - 8)
  }

  lemma SealedSpells(r: Reg)
    ensures Spelled(r, ByteOf(r[..8]), ByteOf(r[8..]))
  {
    forall i | 0 <= i < 16
      ensures r[i] == if i < 8 then ByteBit(ByteOf(r[..8]), i) else ByteBit(ByteOf(r[8..]), i - 8)
    {
      if i < 8 {
        ByteUpToBit(r[..8], 8, i);
      } else {
        ByteUpToBit(r[8..], 8, i - 8);
      }
    }
  }

  /** What pack_slot packs, and into which 32 bytes. */
  lemma SlotIsLaidOut(kind: Byte, sequence: Byte, payload: seq<Byte>)
    requires PackSlot(kind, sequence, payload).Ok?
    ensures var s := PackSlot(kind, sequence, payload).value;
            |s| == 32 && s[0] == 0x68 && s[1] == kind && s[2] == sequence &&
            (kind == 0 ==> payload == [] && s[3] == 0 && forall i :: 4 <= i < 30 ==> s[i] == 0) &&
            (kind != 0 ==> |payload| == 26 && s[3] == 26 && s[4..30] == payload) &&
            Spelled(Crc(Init(), s[..30], 30), s[30], s[31])
  {
    var body := Body(kind, sequence, payload);
    var s := Sealed(body);
    SealedIsOk(body);
    SealedSpells(Crc(Init(), body, 30));
    assert s[4..30] == body[4..];
    if kind != 0 {
      assert body[4..] == payload;
    }
  }

  // ---- What is refused, and how it is counted -----------------------------------------------

  /** A slot goes to the first of these, and nothing happens unless the link is ready for it. */
  lemma JudgedInOrder(slot: seq<Byte>, ready: bool, free: bool)
    requires |slot| == 32
    ensures L.Judged(slot, false, free) == L.NotReady
    ensures slot[0] != 0x68 <==> L.Judged(slot, true, free) == L.WrongSof
    ensures slot[0] == 0x68 ==>
              ((6 < slot[1] < 0x81 || 0x89 < slot[1]) <==> L.Judged(slot, true, free) == L.WrongType)
    ensures slot[0] == 0x68 && slot[1] == 0 ==> (slot[3] != 0 <==> L.Judged(slot, true, free) == L.WrongLength)
    ensures slot[0] == 0x68 && (1 <= slot[1] <= 6 || 0x81 <= slot[1] <= 0x89) ==>
              (slot[3] != 26 <==> L.Judged(slot, true, free) == L.WrongLength)
    ensures UnpackSlot(slot).Ok? && slot[1] != 0 ==>
              L.Judged(slot, true, free) == if free then L.Published else L.QueueFull
  {
    KnownTypes(slot[1]);
  }

  /** The counters after the first n verdicts of a session, from zero. */
  function Refused(verdicts: seq<L.Verdict>, n: nat): L.Refusals
    requires n <= |verdicts|
  {
    if n == 0 then L.Refusals(0, 0, 0, 0, 0) else L.Counted(Refused(verdicts, n - 1), verdicts[n - 1])
  }

  function Many(verdicts: seq<L.Verdict>, v: L.Verdict, n: nat): nat
    requires n <= |verdicts|
  {
    if n == 0 then 0 else Many(verdicts, v, n - 1) + if verdicts[n - 1] == v then 1 else 0
  }

  function Capped(n: nat): nat { if n < 0xFFFF_FFFF then n else 0xFFFF_FFFF }

  /** Each counter is the number of slots refused for its reason, held at its ceiling. */
  lemma {:induction false} CountersCount(verdicts: seq<L.Verdict>, n: nat)
    requires n <= |verdicts|
    ensures Refused(verdicts, n) ==
            L.Refusals(Capped(Many(verdicts, L.WrongSof, n)), Capped(Many(verdicts, L.WrongType, n)),
                       Capped(Many(verdicts, L.WrongLength, n)), Capped(Many(verdicts, L.WrongCrc, n)),
                       Capped(Many(verdicts, L.QueueFull, n)))
    decreases n
  {
    if n > 0 {
      CountersCount(verdicts, n - 1);
    }
  }

  // ---- Messages in slots --------------------------------------------------------------------

  function TypeByte(m: W.Message): Byte {
    match m
    case Idle => 0x00
    case LinkStatus => 0x01
    case DescriptorFragment => 0x02
    case ReportFragment => 0x03
    case MapStatus => 0x04
    case CommandAck => 0x05
    case Counters => 0x06
    case MapBegin => 0x81
    case MapEntry => 0x82
    case MapCommit => 0x83
    case Relative => 0x84
    case ButtonState => 0x85
    case PhysicalMask => 0x86
    case Clear => 0x87
    case TelemetryConfig => 0x88
    case Absolute => 0x89
  }

  /** Where the unassigned flags lie, and the largest byte without any; past it a second, clear byte. */
  function FlagsByte(m: W.Message): nat {
    match m
    case Absolute | ButtonState | PhysicalMask | Relative => 11
    case Clear => 8
    case CommandAck | MapEntry => 15
    case Counters => 1
    case LinkStatus => 3
    case MapBegin | MapCommit => 6
    case MapStatus => 9
    case TelemetryConfig => 13
    case DescriptorFragment | Idle | ReportFragment => 26
  }

  predicate WideFlags(m: W.Message) { m.Clear? || m.MapBegin? || m.MapCommit? }

  lemma Masks(b: Byte)
    ensures b & 0x80 == 0 <==> b <= 127
    ensures b & 0xe0 == 0 <==> b <= 31
    ensures b & 0xf0 == 0 <==> b <= 15
    ensures b & 0xfc == 0 <==> b <= 3
    ensures b & 0xfe == 0 <==> b <= 1
  {
  }

  function Largest(m: W.Message): Byte {
    match m
    case Absolute | MapEntry => 127
    case Clear => 31
    case LinkStatus | Relative => 15
    case CommandAck => 3
    case MapBegin | MapCommit => 1
    case ButtonState | Counters | MapStatus | PhysicalMask | TelemetryConfig => 0
    case DescriptorFragment | Idle | ReportFragment => 255
  }

  predicate FlagsFit(m: W.Message, p: Payload) {
    (FlagsByte(m) < 26 ==> p[FlagsByte(m)] <= Largest(m)) && (WideFlags(m) ==> p[FlagsByte(m) + 1] == 0)
  }

  /** pack_slot looks at each message's flags, and only at them. */
  lemma FlagsAllowedIs(m: W.Message, p: Payload)
    ensures FlagsAllowed(TypeByte(m), p) <==> FlagsFit(m, p)
  {
    match m
    case Absolute => Masks(p[11]);
    case Relative => Masks(p[11]);
    case Clear => Masks(p[8]);
    case CommandAck => Masks(p[15]);
    case MapEntry => Masks(p[15]);
    case LinkStatus => Masks(p[3]);
    case MapBegin => Masks(p[6]);
    case MapCommit => Masks(p[6]);
    case ButtonState | PhysicalMask | Counters | MapStatus | TelemetryConfig =>
    case DescriptorFragment | Idle | ReportFragment =>
  }

  /** pack_slot takes the sixteen messages, 26 bytes of payload, none for IDLE, and no unassigned flag. */
  lemma PacksExactly(m: W.Message, sequence: Byte, payload: seq<Byte>)
    ensures PackSlot(TypeByte(m), sequence, payload).Ok? <==>
            if m == W.Idle then payload == [] else |payload| == 26 && FlagsFit(m, payload)
  {
    KnownTypes(TypeByte(m));
    if m != W.Idle && |payload| == 26 {
      FlagsAllowedIs(m, payload);
    }
  }

  lemma NumbersAndBytes(b: Byte)
    ensures b as int <= 127 ==> b <= 127
    ensures b as int <= 31 ==> b <= 31
    ensures b as int <= 15 ==> b <= 15
    ensures b as int <= 3 ==> b <= 3
    ensures b as int <= 1 ==> b <= 1
    ensures b as int <= 0 ==> b <= 0
  {
  }

  lemma LargestIsAllowed(m: W.Message, b: Byte)
    requires FlagsByte(m) < 26 && b as int <= V.Allowed(m)
    ensures b <= Largest(m)
  {
    NumbersAndBytes(b);
  }

  predicate FlagsLieThere(m: W.Message) {
    V.FlagsPlace(m) < |V.Places(m)| &&
    V.Places(m)[V.FlagsPlace(m)] == V.Place(V.U, FlagsByte(m), if WideFlags(m) then 2 else 1)
  }

  lemma StatesFlags(m: W.Message)
    requires m.Absolute? || m.ButtonState? || m.PhysicalMask? || m.Relative? || m.Clear? || m.Counters?
    ensures FlagsLieThere(m)
  {
  }

  lemma OthersFlags(m: W.Message)
    requires m.CommandAck? || m.MapEntry? || m.LinkStatus? || m.MapBegin? || m.MapCommit? || m.MapStatus? ||
             m.TelemetryConfig?
    ensures FlagsLieThere(m)
  {
  }

  lemma FlagsLie(m: W.Message)
    requires FlagsByte(m) < 26
    ensures FlagsLieThere(m)
  {
    if m.Absolute? || m.ButtonState? || m.PhysicalMask? || m.Relative? || m.Clear? || m.Counters? {
      StatesFlags(m);
    } else {
      OthersFlags(m);
    }
  }

  lemma {:induction false} SmallIsOneByte(payload: seq<W.U8>, p: V.Place, value: W.Value)
    requires p.sort == V.U && p.size in {1, 2} && p.offset + p.size <= |payload|
    requires V.InRange(p, value) && V.Spells(payload, p, value) && value.v < 0x100
    ensures payload[p.offset] == value.v
    ensures p.size == 2 ==> payload[p.offset + 1] == 0
  {
    assert V.SpellsByte(payload, p, value, 0);
    if p.size == 2 {
      assert V.SpellsByte(payload, p, value, 1);
    }
  }

  /** The bytes are these numbers. */
  predicate Carries(bytes: seq<Byte>, numbers: seq<W.U8>) {
    |bytes| == |numbers| && forall i :: 0 <= i < |bytes| ==> bytes[i] as int == numbers[i]
  }

  lemma {:induction false} SpelledFlagsFit(m: W.Message, bytes: seq<Byte>, payload: seq<W.U8>, p: V.Place,
      value: W.Value)
    requires |payload| == 26 && Carries(bytes, payload) && FlagsByte(m) < 26
    requires p == V.Place(V.U, FlagsByte(m), if WideFlags(m) then 2 else 1)
    requires V.InRange(p, value) && V.Spells(payload, p, value) && value.v <= V.Allowed(m)
    ensures FlagsFit(m, bytes)
  {
    SmallIsOneByte(payload, p, value);
    assert bytes[FlagsByte(m)] as int == payload[FlagsByte(m)];
    LargestIsAllowed(m, bytes[FlagsByte(m)]);
    if WideFlags(m) {
      assert bytes[FlagsByte(m) + 1] as int == payload[FlagsByte(m) + 1];
    }
  }

  lemma {:induction false} PackedFlagsFit(m: W.Message, values: seq<W.Value>, bytes: seq<Byte>)
    requires W.WellFormed(W.LayoutOf(m)) && W.Pack(W.LayoutOf(m), values).Ok?
    requires Carries(bytes, W.Pack(W.LayoutOf(m), values).value)
    ensures |bytes| == 26 && FlagsFit(m, bytes)
  {
    if FlagsByte(m) < 26 {
      FlagsLie(m);
      V.PacksExactly(m, values);
      V.PackedIsSpelled(m, values, V.FlagsPlace(m));
      SpelledFlagsFit(m, bytes, W.Pack(W.LayoutOf(m), values).value, V.Places(m)[V.FlagsPlace(m)],
                      values[V.FlagsPlace(m)]);
    }
  }

  /** Every message but IDLE crosses the link: to_bytes, pack_slot, unpack_slot and from_bytes give it back. */
  lemma {:induction false} MessageCrosses(m: W.Message, values: seq<W.Value>, sequence: Byte, bytes: seq<Byte>)
    requires m != W.Idle && W.WellFormed(W.LayoutOf(m)) && W.Pack(W.LayoutOf(m), values).Ok?
    requires Carries(bytes, W.Pack(W.LayoutOf(m), values).value)
    ensures var slot := PackSlot(TypeByte(m), sequence, bytes);
            slot.Ok? && UnpackSlot(slot.value) == Ok(Frame(TypeByte(m), sequence, bytes))
    ensures W.Unpack(W.LayoutOf(m), W.Pack(W.LayoutOf(m), values).value) == W.Ok(values)
  {
    PackedFlagsFit(m, values, bytes);
    PacksExactly(m, sequence, bytes);
    RoundTrip(TypeByte(m), sequence, bytes);
    W.RoundTrip(W.LayoutOf(m), values);
  }
}
