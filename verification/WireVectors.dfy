/** The wire contract's own tables: where each field of each message lies, its sign, and what is refused. */
module WireVectors {
  import Bits
  import opened WirePayload

  /** Little-endian unsigned and signed integers, plain bytes, and bytes kept clear. */
  datatype Sort = U | I | B | Z

  datatype Place = Place(sort: Sort, offset: nat, size: nat)

  function Places(m: Message): seq<Place> {
    match m
    case Absolute =>
      [Place(U, 0, 2), Place(U, 2, 2), Place(U, 4, 2), Place(U, 6, 2), Place(U, 8, 1), Place(U, 9, 1),
       Place(U, 10, 1), Place(U, 11, 1), Place(I, 12, 2), Place(I, 14, 2), Place(I, 16, 2), Place(I, 18, 2),
       Place(I, 20, 2), Place(I, 22, 2), Place(I, 24, 2)]
    case ButtonState =>
      [Place(U, 0, 2), Place(U, 2, 2), Place(U, 4, 2), Place(U, 6, 2), Place(U, 8, 1), Place(U, 9, 1),
       Place(U, 10, 1), Place(U, 11, 1), Place(U, 12, 8), Place(U, 20, 2), Place(Z, 22, 4)]
    case Clear =>
      [Place(U, 0, 2), Place(U, 2, 2), Place(U, 4, 2), Place(U, 6, 2), Place(U, 8, 2), Place(U, 10, 1),
       Place(Z, 11, 15)]
    case CommandAck =>
      [Place(U, 0, 2), Place(U, 2, 2), Place(U, 4, 2), Place(U, 6, 2), Place(U, 8, 2), Place(U, 10, 2),
       Place(U, 12, 1), Place(U, 13, 1), Place(U, 14, 1), Place(U, 15, 1), Place(U, 16, 1), Place(U, 17, 1),
       Place(U, 18, 1), Place(Z, 19, 7)]
    case Counters =>
      [Place(U, 0, 1), Place(U, 1, 1), Place(U, 2, 4), Place(U, 6, 4), Place(U, 10, 4), Place(U, 14, 4),
       Place(U, 18, 4), Place(U, 22, 4)]
    case DescriptorFragment =>
      [Place(U, 0, 2), Place(U, 2, 1), Place(Z, 3, 1), Place(U, 4, 2), Place(U, 6, 2), Place(B, 8, 18)]
    case Idle => [Place(Z, 0, 26)]
    case LinkStatus =>
      [Place(U, 0, 2), Place(U, 2, 1), Place(U, 3, 1), Place(U, 4, 2), Place(U, 6, 2), Place(U, 8, 4),
       Place(U, 12, 4), Place(U, 16, 4), Place(U, 20, 1), Place(Z, 21, 5)]
    case MapBegin =>
      [Place(U, 0, 2), Place(U, 2, 2), Place(U, 4, 1), Place(U, 5, 1), Place(U, 6, 2), Place(U, 8, 4),
       Place(Z, 12, 14)]
    case MapCommit =>
      [Place(U, 0, 2), Place(U, 2, 2), Place(U, 4, 1), Place(U, 5, 1), Place(U, 6, 2), Place(U, 8, 4),
       Place(Z, 12, 14)]
    case MapEntry =>
      [Place(U, 0, 2), Place(U, 2, 2), Place(U, 4, 1), Place(U, 5, 1), Place(U, 6, 1), Place(U, 7, 1),
       Place(U, 8, 2), Place(U, 10, 2), Place(U, 12, 2), Place(U, 14, 1), Place(U, 15, 1), Place(I, 16, 4),
       Place(I, 20, 4), Place(U, 24, 1), Place(U, 25, 1)]
    case MapStatus =>
      [Place(U, 0, 2), Place(U, 2, 2), Place(U, 4, 2), Place(U, 6, 1), Place(U, 7, 1), Place(U, 8, 1),
       Place(U, 9, 1), Place(U, 10, 4), Place(Z, 14, 12)]
    case PhysicalMask =>
      [Place(U, 0, 2), Place(U, 2, 2), Place(U, 4, 2), Place(U, 6, 2), Place(U, 8, 1), Place(U, 9, 1),
       Place(U, 10, 1), Place(U, 11, 1), Place(U, 12, 8), Place(Z, 20, 6)]
    case Relative =>
      [Place(U, 0, 2), Place(U, 2, 2), Place(U, 4, 2), Place(U, 6, 2), Place(U, 8, 1), Place(U, 9, 1),
       Place(U, 10, 1), Place(U, 11, 1), Place(I, 12, 2), Place(I, 14, 2), Place(I, 16, 2), Place(I, 18, 2),
       Place(U, 20, 2), Place(Z, 22, 4)]
    case ReportFragment =>
      [Place(U, 0, 2), Place(U, 2, 1), Place(U, 3, 1), Place(U, 4, 1), Place(U, 5, 2), Place(U, 7, 2),
       Place(B, 9, 17)]
    case TelemetryConfig =>
      [Place(U, 0, 2), Place(U, 2, 2), Place(U, 4, 4), Place(U, 8, 2), Place(U, 10, 2), Place(U, 12, 1),
       Place(U, 13, 1), Place(Z, 14, 12)]
  }

  /** The place, if any, of the flags whose unassigned bits a sender may not set. */
  function FlagsPlace(m: Message): (k: nat) {
    match m
    case Absolute | ButtonState | PhysicalMask | Relative => 7
    case Clear | MapBegin | MapCommit => 4
    case CommandAck => 9
    case Counters => 1
    case LinkStatus => 2
    case MapEntry => 10
    case MapStatus | TelemetryConfig => 6
    case DescriptorFragment | Idle | ReportFragment => 26
  }

  /** The largest value the assigned bits can spell: they are the lowest ones. */
  function Allowed(m: Message): nat {
    match m
    case Absolute | MapEntry => 127
    case Clear => 31
    case LinkStatus | Relative => 15
    case CommandAck => 3
    case MapBegin | MapCommit => 1
    case ButtonState | Counters | MapStatus | PhysicalMask | TelemetryConfig => 0
    case DescriptorFragment | Idle | ReportFragment => 0
  }

  // ---- What a value is on the wire ----------------------------------------------------------

  /** Byte j of an integer, least significant first, in two's complement. */
  function ByteAt(v: int, j: nat): U8 {
    match j
    case 0 => v % 0x100
    case 1 => v / 0x100 % 0x100
    case 2 => v / 0x1_0000 % 0x100
    case 3 => v / 0x100_0000 % 0x100
    case 4 => v / 0x1_0000_0000 % 0x100
    case 5 => v / 0x100_0000_0000 % 0x100
    case 6 => v / 0x1_0000_0000_0000 % 0x100
    case _ => v / 0x100_0000_0000_0000 % 0x100
  }

  predicate InRange(p: Place, value: Value) {
    match p.sort
    case U =>
      value.Number? && 0 <= value.v && p.size in {1, 2, 4, 8} &&
      value.v <= (if p.size == 1 then 0xff else if p.size == 2 then 0xffff else if p.size == 4 then 0xffff_ffff
                  else 0xffff_ffff_ffff_ffff)
    case I =>
      value.Number? && p.size in {2, 4} &&
      if p.size == 2 then -0x8000 <= value.v <= 0x7fff else -0x8000_0000 <= value.v <= 0x7fff_ffff
    case B => value.Raw? && |value.bytes| == p.size
    case Z => value.Absent?
  }

  /** Byte j at the place is the value's. */
  predicate SpellsByte(payload: seq<U8>, p: Place, value: Value, j: nat)
    requires InRange(p, value) && j < p.size && p.offset + p.size <= |payload|
  {
    payload[p.offset + j] ==
      match p.sort
      case U => ByteAt(value.v, j)
      case I => ByteAt(value.v, j)
      case B => value.bytes[j]
      case Z => 0
  }

  /** The bytes at the place are the value's. */
  predicate Spells(payload: seq<U8>, p: Place, value: Value)
    requires InRange(p, value) && p.offset + p.size <= |payload|
  {
    forall j :: 0 <= j < p.size ==> SpellsByte(payload, p, value, j)
  }

  // ---- The model's layouts are these tables -------------------------------------------------

  predicate Agrees(f: Field, p: Place) {
    f.size == p.size &&
    match p.sort
    case U => f.kind == Unsigned && p.size in {1, 2, 4, 8}
    case I => f.kind == Signed && p.size in {2, 4}
    case B => f.kind == Bytes
    case Z => f.kind == Reserved
  }

  /** The first n fields are those at the first n places, end to end from 0 to at. */
  predicate Matches(fields: seq<Field>, p: seq<Place>, n: nat, at: nat)
    requires n <= |fields| == |p|
    decreases n
  {
    if n == 0 then at == 0
    else
      Agrees(fields[n - 1], p[n - 1]) && p[n - 1].offset + p[n - 1].size == at &&
      Matches(fields, p, n - 1, p[n - 1].offset)
  }

  lemma AbsoluteMatches()
    ensures |LayoutOf(Absolute).fields| == |Places(Absolute)| == 15
    ensures Matches(LayoutOf(Absolute).fields, Places(Absolute), 15, 26)
  {
    assert Matches(LayoutOf(Absolute).fields, Places(Absolute), 5, 9);
    assert Matches(LayoutOf(Absolute).fields, Places(Absolute), 10, 16);
  }

  lemma ButtonStateMatches()
    ensures |LayoutOf(ButtonState).fields| == |Places(ButtonState)| == 11
    ensures Matches(LayoutOf(ButtonState).fields, Places(ButtonState), 11, 26)
  {
    assert Matches(LayoutOf(ButtonState).fields, Places(ButtonState), 5, 9);
  }

  lemma ClearMatches()
    ensures |LayoutOf(Clear).fields| == |Places(Clear)| == 7
    ensures Matches(LayoutOf(Clear).fields, Places(Clear), 7, 26)
  {
  }

  lemma CommandAckMatches()
    ensures |LayoutOf(CommandAck).fields| == |Places(CommandAck)| == 14
    ensures Matches(LayoutOf(CommandAck).fields, Places(CommandAck), 14, 26)
  {
    assert Matches(LayoutOf(CommandAck).fields, Places(CommandAck), 5, 10);
    assert Matches(LayoutOf(CommandAck).fields, Places(CommandAck), 10, 16);
  }

  lemma CountersMatches()
    ensures |LayoutOf(Counters).fields| == |Places(Counters)| == 8
    ensures Matches(LayoutOf(Counters).fields, Places(Counters), 8, 26)
  {
  }

  lemma DescriptorFragmentMatches()
    ensures |LayoutOf(DescriptorFragment).fields| == |Places(DescriptorFragment)| == 6
    ensures Matches(LayoutOf(DescriptorFragment).fields, Places(DescriptorFragment), 6, 26)
  {
  }

  lemma IdleMatches()
    ensures |LayoutOf(Idle).fields| == |Places(Idle)| == 1
    ensures Matches(LayoutOf(Idle).fields, Places(Idle), 1, 26)
  {
  }

  lemma LinkStatusMatches()
    ensures |LayoutOf(LinkStatus).fields| == |Places(LinkStatus)| == 10
    ensures Matches(LayoutOf(LinkStatus).fields, Places(LinkStatus), 10, 26)
  {
    assert Matches(LayoutOf(LinkStatus).fields, Places(LinkStatus), 5, 8);
  }

  lemma MapBeginMatches()
    ensures |LayoutOf(MapBegin).fields| == |Places(MapBegin)| == 7
    ensures Matches(LayoutOf(MapBegin).fields, Places(MapBegin), 7, 26)
  {
  }

  lemma MapCommitMatches()
    ensures |LayoutOf(MapCommit).fields| == |Places(MapCommit)| == 7
    ensures Matches(LayoutOf(MapCommit).fields, Places(MapCommit), 7, 26)
  {
  }

  lemma MapEntryMatches()
    ensures |LayoutOf(MapEntry).fields| == |Places(MapEntry)| == 15
    ensures Matches(LayoutOf(MapEntry).fields, Places(MapEntry), 15, 26)
  {
    assert Matches(LayoutOf(MapEntry).fields, Places(MapEntry), 5, 7);
    assert Matches(LayoutOf(MapEntry).fields, Places(MapEntry), 10, 15);
  }

  lemma MapStatusMatches()
    ensures |LayoutOf(MapStatus).fields| == |Places(MapStatus)| == 9
    ensures Matches(LayoutOf(MapStatus).fields, Places(MapStatus), 9, 26)
  {
    assert Matches(LayoutOf(MapStatus).fields, Places(MapStatus), 5, 8);
  }

  lemma PhysicalMaskMatches()
    ensures |LayoutOf(PhysicalMask).fields| == |Places(PhysicalMask)| == 10
    ensures Matches(LayoutOf(PhysicalMask).fields, Places(PhysicalMask), 10, 26)
  {
    assert Matches(LayoutOf(PhysicalMask).fields, Places(PhysicalMask), 5, 9);
  }

  lemma RelativeMatches()
    ensures |LayoutOf(Relative).fields| == |Places(Relative)| == 14
    ensures Matches(LayoutOf(Relative).fields, Places(Relative), 14, 26)
  {
    assert Matches(LayoutOf(Relative).fields, Places(Relative), 5, 9);
    assert Matches(LayoutOf(Relative).fields, Places(Relative), 10, 16);
  }

  lemma ReportFragmentMatches()
    ensures |LayoutOf(ReportFragment).fields| == |Places(ReportFragment)| == 7
    ensures Matches(LayoutOf(ReportFragment).fields, Places(ReportFragment), 7, 26)
  {
  }

  lemma TelemetryConfigMatches()
    ensures |LayoutOf(TelemetryConfig).fields| == |Places(TelemetryConfig)| == 8
    ensures Matches(LayoutOf(TelemetryConfig).fields, Places(TelemetryConfig), 8, 26)
  {
  }

  /** Every message's fields are those of its table. */
  lemma LayoutsMatch(m: Message)
    ensures |LayoutOf(m).fields| == |Places(m)| <= 15
    ensures Matches(LayoutOf(m).fields, Places(m), |Places(m)|, 26)
  {
    match m
    case Absolute => AbsoluteMatches();
    case ButtonState => ButtonStateMatches();
    case Clear => ClearMatches();
    case CommandAck => CommandAckMatches();
    case Counters => CountersMatches();
    case DescriptorFragment => DescriptorFragmentMatches();
    case Idle => IdleMatches();
    case LinkStatus => LinkStatusMatches();
    case MapBegin => MapBeginMatches();
    case MapCommit => MapCommitMatches();
    case MapEntry => MapEntryMatches();
    case MapStatus => MapStatusMatches();
    case PhysicalMask => PhysicalMaskMatches();
    case Relative => RelativeMatches();
    case ReportFragment => ReportFragmentMatches();
    case TelemetryConfig => TelemetryConfigMatches();
  }

  lemma {:induction false} PlaceAt(fields: seq<Field>, p: seq<Place>, n: nat, at: nat, k: nat)
    requires k < n <= |fields| == |p| && Matches(fields, p, n, at)
    ensures Agrees(fields[k], p[k]) && Size(fields, k) == p[k].offset && Size(fields, n) == at
    ensures p[k].offset + p[k].size <= at
    decreases n
  {
    if n == 1 {
    } else if k == n - 1 {
      PlaceAt(fields, p, n - 1, p[n - 1].offset, n - 2);
    } else {
      PlaceAt(fields, p, n - 1, p[n - 1].offset, k);
    }
  }

  /** Place k of a message is its layout's field k, inside the payload. */
  lemma FieldIsAtItsPlace(m: Message, k: nat)
    requires k < |Places(m)|
    ensures |LayoutOf(m).fields| == |Places(m)|
    ensures Agrees(LayoutOf(m).fields[k], Places(m)[k])
    ensures Size(LayoutOf(m).fields, k) == Places(m)[k].offset && Places(m)[k].offset + Places(m)[k].size <= 26
  {
    LayoutsMatch(m);
    PlaceAt(LayoutOf(m).fields, Places(m), |Places(m)|, 26, k);
  }

  // ---- Integers byte by byte ----------------------------------------------------------------

  lemma SpanValues()
    ensures Span(1) == 0x100 && Span(2) == 0x1_0000 && Span(4) == 0x1_0000_0000
    ensures Span(8) == 0x1_0000_0000_0000_0000
  {
    assert Span(2) == 0x100 * Span(1) && Span(3) == 0x100 * Span(2) && Span(4) == 0x100 * Span(3);
    assert Span(5) == 0x100 * Span(4) && Span(6) == 0x100 * Span(5) && Span(7) == 0x100 * Span(6);
  }

  lemma NextByte(v: int, j: nat)
    requires j < 7
    ensures ByteAt(v / 0x100, j) == ByteAt(v, j + 1)
  {
  }

  /** The loop's low byte first is byte by byte the literal quotients. */
  lemma {:induction false} ToBytesAt(v: int, n: nat, j: nat)
    requires j < n <= 8
    ensures ToBytes(v, n)[j] == ByteAt(v, j)
    decreases n
  {
    if j > 0 {
      ToBytesAt(v / 0x100, n - 1, j - 1);
      NextByte(v, j - 1);
    }
  }

  lemma RangeIsFit(f: Field, p: Place, value: Value)
    requires Agrees(f, p)
    ensures Fits(f, value) <==> InRange(p, value)
  {
    SpanValues();
  }

  // ---- What is packed -----------------------------------------------------------------------

  predicate Ranged(m: Message, values: seq<Value>) {
    |values| == |Places(m)| && forall k :: 0 <= k < |values| ==> InRange(Places(m)[k], values[k])
  }

  /** The value of the message's flags is at most n. */
  predicate FlagsAtMost(m: Message, values: seq<Value>, n: nat)
    requires Ranged(m, values)
  {
    FlagsPlace(m) < |values| && values[FlagsPlace(m)].Number? ==> values[FlagsPlace(m)].v <= n
  }

  lemma {:induction false} RangedIsFit(m: Message, values: seq<Value>)
    ensures Ranged(m, values) <==> AllFit(LayoutOf(m).fields, values)
  {
    LayoutsMatch(m);
    forall k | 0 <= k < |Places(m)| && |values| == |Places(m)|
      ensures InRange(Places(m)[k], values[k]) <==> Fits(LayoutOf(m).fields[k], values[k])
    {
      FieldIsAtItsPlace(m, k);
      RangeIsFit(LayoutOf(m).fields[k], Places(m)[k], values[k]);
    }
  }

  lemma TablesAreShort(m: Message)
    ensures |LayoutOf(m).fields| == |Places(m)| <= 15
    ensures FlagsPlace(m) < |Places(m)| <==> !m.DescriptorFragment? && !m.Idle? && !m.ReportFragment?
  {
    match m
    case Absolute => AbsoluteMatches();
    case ButtonState => ButtonStateMatches();
    case Clear => ClearMatches();
    case CommandAck => CommandAckMatches();
    case Counters => CountersMatches();
    case DescriptorFragment => DescriptorFragmentMatches();
    case Idle => IdleMatches();
    case LinkStatus => LinkStatusMatches();
    case MapBegin => MapBeginMatches();
    case MapCommit => MapCommitMatches();
    case MapEntry => MapEntryMatches();
    case MapStatus => MapStatusMatches();
    case PhysicalMask => PhysicalMaskMatches();
    case Relative => RelativeMatches();
    case ReportFragment => ReportFragmentMatches();
    case TelemetryConfig => TelemetryConfigMatches();
  }

  lemma FlagsAreTheLayouts(m: Message)
    ensures LayoutOf(m).limit == Allowed(m)
    ensures FlagsPlace(m) < |Places(m)| <==> LayoutOf(m).flags < |LayoutOf(m).fields|
    ensures FlagsPlace(m) < |Places(m)| ==> LayoutOf(m).flags == FlagsPlace(m)
  {
    TablesAreShort(m);
    assert m.DescriptorFragment? || m.Idle? || m.ReportFragment? ==> LayoutOf(m).flags == |LayoutOf(m).fields|;
    assert !m.DescriptorFragment? && !m.Idle? && !m.ReportFragment? ==> LayoutOf(m).flags == FlagsPlace(m);
  }

  /** to_bytes takes every value in its field's range, without unassigned flags, and nothing else. */
  lemma {:induction false} PacksExactly(m: Message, values: seq<Value>)
    ensures WellFormed(LayoutOf(m))
    ensures Pack(LayoutOf(m), values).Ok? <==> Ranged(m, values) && FlagsAtMost(m, values, Allowed(m))
  {
    LayoutFills(m);
    RangedIsFit(m, values);
    FlagsAreTheLayouts(m);
  }

  lemma {:induction false} ValueIsSpelled(fields: seq<Field>, values: seq<Value>, k: nat, p: Place)
    requires AllFit(fields, values) && k < |values| && Size(fields, |fields|) == 26
    requires Agrees(fields[k], p) && Size(fields, k) == p.offset && p.offset + p.size <= 26
    ensures InRange(p, values[k]) && Spells(Laid(fields, values, |fields|), p, values[k])
  {
    var payload := Laid(fields, values, |fields|);
    RangeIsFit(fields[k], p, values[k]);
    FieldReads(fields, values, k);
    forall j | 0 <= j < p.size ensures SpellsByte(payload, p, values[k], j) {
      assert payload[p.offset + j] == Slice(fields, payload, k)[j] == Encoded(fields[k], values[k])[j];
      if values[k].Number? {
        ToBytesAt(values[k].v, p.size, j);
      }
    }
  }

  /** And spells each field at the contract's own offset, two's complement where the contract says signed. */
  lemma {:induction false} PackedIsSpelled(m: Message, values: seq<Value>, k: nat)
    requires WellFormed(LayoutOf(m)) && Pack(LayoutOf(m), values).Ok? && k < |values|
    ensures |Pack(LayoutOf(m), values).value| == 26
    ensures k < |Places(m)| && Places(m)[k].offset + Places(m)[k].size <= 26 && InRange(Places(m)[k], values[k])
    ensures Spells(Pack(LayoutOf(m), values).value, Places(m)[k], values[k])
  {
    LayoutsMatch(m);
    FieldIsAtItsPlace(m, k);
    ValueIsSpelled(LayoutOf(m).fields, values, k, Places(m)[k]);
  }

  // ---- What is read back --------------------------------------------------------------------

  lemma {:induction false} FromBytesAt(b: seq<U8>, j: nat)
    requires j < |b| <= 8
    ensures ByteAt(FromBytes(b), j) == b[j]
    decreases |b|
  {
    var low: int := b[0];
    var v := FromBytes(b);
    assert v == low + 0x100 * FromBytes(b[1..]);
    if j > 0 {
      FromBytesAt(b[1..], j - 1);
      NextByte(v, j - 1);
    }
  }

  /** Whole multiples of 0x100 * d do not reach the byte at d. */
  lemma LessMultiple(v: int, d: int, k: int, w: int)
    requires d > 0 && w == v - k * 0x100 * d
    ensures w / d % 0x100 == v / d % 0x100
  {
    var q := v / d;
    assert w == (q - k * 0x100) * d + v % d by {
      assert (q - k * 0x100) * d == q * d - k * 0x100 * d;
    }
    Bits.DivModUnique(w, d, q - k * 0x100, v % d);
    Bits.DivModUnique(q - k * 0x100, 0x100, q / 0x100 - k, q % 0x100);
  }

  lemma TwoBytes(v: int, j: nat)
    requires j < 2
    ensures ByteAt(v - 0x1_0000, j) == ByteAt(v, j)
  {
    LessMultiple(v, if j == 0 then 1 else 0x100, if j == 0 then 0x100 else 1, v - 0x1_0000);
  }

  lemma FourBytes(v: int, j: nat)
    requires j < 4
    ensures ByteAt(v - 0x1_0000_0000, j) == ByteAt(v, j)
  {
    match j
    case 0 => LessMultiple(v, 1, 0x100_0000, v - 0x1_0000_0000);
    case 1 => LessMultiple(v, 0x100, 0x1_0000, v - 0x1_0000_0000);
    case 2 => LessMultiple(v, 0x1_0000, 0x100, v - 0x1_0000_0000);
    case 3 => LessMultiple(v, 0x100_0000, 1, v - 0x1_0000_0000);
  }

  lemma {:induction false} FieldIsRead(f: Field, p: Place, b: seq<U8>, payload: seq<U8>)
    requires Agrees(f, p) && |b| == f.size && p.offset + p.size <= |payload|
    requires b == payload[p.offset..p.offset + p.size]
    ensures InRange(p, Decoded(f, b))
    ensures p.sort != Z ==> Spells(payload, p, Decoded(f, b))
  {
    SpanValues();
    if p.sort != Z {
      forall j | 0 <= j < p.size ensures SpellsByte(payload, p, Decoded(f, b), j) {
        assert payload[p.offset + j] == b[j];
        if p.sort == U {
          FromBytesAt(b, j);
        } else if p.sort == I {
          FromBytesAt(b, j);
          if p.size == 2 {
            TwoBytes(FromBytes(b), j);
          } else {
            FourBytes(FromBytes(b), j);
          }
        }
      }
    }
  }

  lemma {:induction false} FlagsByteReads(payload: seq<U8>)
    requires |payload| == 26 && WellFormed(MAP_ENTRY)
    ensures Size(MAP_ENTRY.fields, 10) == 15 && |MAP_ENTRY.fields| == 15
    ensures FromBytes(Slice(MAP_ENTRY.fields, payload, 10)) == payload[15]
  {
    MapEntryMatches();
    FieldIsAtItsPlace(MapEntry, 10);
    assert Slice(MAP_ENTRY.fields, payload, 10) == [payload[15]];
    assert FromBytes([]) == 0;
  }

  /** from_bytes takes any 26 bytes but a map entry with its top flag. */
  lemma {:induction false} UnpacksExactly(m: Message, payload: seq<U8>)
    ensures WellFormed(LayoutOf(m))
    ensures Unpack(LayoutOf(m), payload).Ok? <==> |payload| == 26 && (m == MapEntry ==> payload[15] < 0x80)
  {
    LayoutFills(m);
    if |payload| == 26 && m == MapEntry {
      FlagsByteReads(payload);
    }
  }

  lemma {:induction false} ValueIsRead(fields: seq<Field>, payload: seq<U8>, k: nat, p: Place)
    requires |payload| == Size(fields, |fields|) == 26 && k < |fields|
    requires Agrees(fields[k], p) && Size(fields, k) == p.offset && p.offset + p.size <= 26
    ensures InRange(p, Read(fields, payload)[k])
    ensures p.sort != Z ==> Spells(payload, p, Read(fields, payload)[k])
  {
    FieldIsRead(fields[k], p, Slice(fields, payload, k), payload);
  }

  /** And reads each field from the contract's own offset. */
  lemma {:induction false} UnpackedIsSpelled(m: Message, payload: seq<U8>, k: nat)
    requires WellFormed(LayoutOf(m)) && Unpack(LayoutOf(m), payload).Ok? && k < |Places(m)|
    ensures |Unpack(LayoutOf(m), payload).value| == |Places(m)|
    ensures Places(m)[k].offset + Places(m)[k].size <= 26 == |payload|
    ensures InRange(Places(m)[k], Unpack(LayoutOf(m), payload).value[k])
    ensures Places(m)[k].sort != Z ==> Spells(payload, Places(m)[k], Unpack(LayoutOf(m), payload).value[k])
  {
    FieldIsAtItsPlace(m, k);
    ValueIsRead(LayoutOf(m).fields, payload, k, Places(m)[k]);
  }

  // ---- A relative command's motion ----------------------------------------------------------

  lemma RelativeAxes()
    ensures |Places(Relative)| == 14
    ensures Places(Relative)[8] == Place(I, 12, 2) && Places(Relative)[9] == Place(I, 14, 2)
    ensures Places(Relative)[10] == Place(I, 16, 2) && Places(Relative)[11] == Place(I, 18, 2)
  {
  }

  lemma {:induction false} TwoAreSpelled(payload: seq<U8>, at: nat, value: Value)
    requires at + 2 <= |payload| && InRange(Place(I, at, 2), value) && Spells(payload, Place(I, at, 2), value)
    ensures payload[at] == value.v % 0x100 && payload[at + 1] == value.v / 0x100 % 0x100
  {
    assert SpellsByte(payload, Place(I, at, 2), value, 0) && SpellsByte(payload, Place(I, at, 2), value, 1);
  }

  lemma {:induction false} RelativeByte(values: seq<Value>, k: nat)
    requires WellFormed(RELATIVE) && Pack(RELATIVE, values).Ok? && 8 <= k < 12 && |values| == 14
    ensures |Pack(RELATIVE, values).value| == 26
    ensures values[k].Number? && -0x8000 <= values[k].v <= 0x7fff
    ensures Pack(RELATIVE, values).value[2 * k - 4] == values[k].v % 0x100
    ensures Pack(RELATIVE, values).value[2 * k - 3] == values[k].v / 0x100 % 0x100
  {
    PackedIsSpelled(Relative, values, k);
    RelativeAxes();
    TwoAreSpelled(Pack(RELATIVE, values).value, 2 * k - 4, values[k]);
  }

  /** X, Y, wheel and pan are at 12, 14, 16 and 18, low byte first, negative ones in two's complement. */
  lemma {:induction false} RelativeMotion(values: seq<Value>, x: int, y: int, wheel: int, pan: int)
    requires WellFormed(RELATIVE) && Pack(RELATIVE, values).Ok?
    requires |values| == 14 && values[8..12] == [Number(x), Number(y), Number(wheel), Number(pan)]
    ensures |Pack(RELATIVE, values).value| == 26
    ensures Pack(RELATIVE, values).value[12..20] ==
            [x % 0x100, x / 0x100 % 0x100, y % 0x100, y / 0x100 % 0x100,
             wheel % 0x100, wheel / 0x100 % 0x100, pan % 0x100, pan / 0x100 % 0x100]
    ensures x == -2 ==> Pack(RELATIVE, values).value[12] == 0xfe && Pack(RELATIVE, values).value[13] == 0xff
  {
    RelativeByte(values, 8);
    RelativeByte(values, 9);
    RelativeByte(values, 10);
    RelativeByte(values, 11);
    assert values[8] == values[8..12][0] && values[9] == values[8..12][1];
    assert values[10] == values[8..12][2] && values[11] == values[8..12][3];
  }
}
