/** Message payloads: fields at fixed offsets, little-endian, checked for range and flags. */
module WirePayload {
  import opened Bits

  const MAX_PAYLOAD: nat := 26

  type U8 = x: int | 0 <= x < 0x100

  datatype Kind = Unsigned | Signed | Bytes | Reserved

  datatype Field = Field(kind: Kind, size: nat)

  /** A field's value; a reserved field has none. */
  datatype Value = Number(v: int) | Raw(bytes: seq<U8>) | Absent

  /** A message's fields in wire order, and the largest value its flags field may hold. */
  datatype Layout = Layout(fields: seq<Field>, flags: nat, limit: nat, checkedOnReceipt: bool)

  datatype Result<T> = Ok(value: T) | Refused

  // ---- Integers as bytes --------------------------------------------------------------------

  function Span(n: nat): (p: nat)
    ensures p > 0
  {
    if n == 0 then 1 else 0x100 * Span(n - 1)
  }

  /** The low n bytes of an integer in two's complement, least significant first. */
  function ToBytes(v: int, n: nat): (b: seq<U8>)
    ensures |b| == n
    decreases n
  {
    if n == 0 then [] else [v % 0x100] + ToBytes(v / 0x100, n - 1)
  }

  function FromBytes(b: seq<U8>): (v: nat)
    ensures v < Span(|b|)
    decreases |b|
  {
    if b == [] then 0
    else
      var low: int := b[0];
      low + 0x100 * FromBytes(b[1..])
  }

  function FromSigned(b: seq<U8>): int {
    if 2 * FromBytes(b) >= Span(|b|) then FromBytes(b) - Span(|b|) else FromBytes(b)
  }

  lemma SplitModulo(v: int, p: nat)
    requires p > 0
    ensures v % (0x100 * p) == v % 0x100 + 0x100 * ((v / 0x100) % p)
  {
    var q, r := v / 0x100, v % 0x100;
    var h, l := q / p, q % p;
    assert v == 0x100 * (h * p + l) + r;
    assert 0x100 * (h * p) == h * (0x100 * p);
    assert v == h * (0x100 * p) + (0x100 * l + r);
    DivModUnique(v, 0x100 * p, h, 0x100 * l + r);
  }

  lemma {:induction false} BytesAreModulo(v: int, n: nat)
    ensures FromBytes(ToBytes(v, n)) == v % Span(n)
    decreases n
  {
    if n > 0 {
      BytesAreModulo(v / 0x100, n - 1);
      assert ToBytes(v, n)[1..] == ToBytes(v / 0x100, n - 1);
      SplitModulo(v, Span(n - 1));
    }
  }

  // ---- Fields -------------------------------------------------------------------------------

  predicate Fits(f: Field, value: Value) {
    match f.kind
    case Unsigned => value.Number? && 0 <= value.v < Span(f.size)
    case Signed => value.Number? && -(Span(f.size) as int) <= 2 * value.v < Span(f.size)
    case Bytes => value.Raw? && |value.bytes| == f.size
    case Reserved => value.Absent?
  }

  function Encoded(f: Field, value: Value): (b: seq<U8>)
    requires Fits(f, value)
    ensures |b| == f.size
  {
    match value
    case Number(v) => ToBytes(v, f.size)
    case Raw(bytes) => bytes
    case Absent => seq(f.size, i => 0)
  }

  function Decoded(f: Field, b: seq<U8>): Value
    requires |b| == f.size
  {
    match f.kind
    case Unsigned => Number(FromBytes(b))
    case Signed => Number(FromSigned(b))
    case Bytes => Raw(b)
    case Reserved => Absent
  }

  lemma FieldRoundTrip(f: Field, value: Value)
    requires Fits(f, value)
    ensures Decoded(f, Encoded(f, value)) == value
  {
    if value.Number? {
      BytesAreModulo(value.v, f.size);
      if value.v < 0 {
        DivModUnique(value.v, Span(f.size), -1, value.v + Span(f.size));
      } else {
        DivModUnique(value.v, Span(f.size), 0, value.v);
      }
    }
  }

  // ---- Whole payloads -----------------------------------------------------------------------

  function Size(fields: seq<Field>, n: nat): nat
    requires n <= |fields|
  {
    if n == 0 then 0 else Size(fields, n - 1) + fields[n - 1].size
  }

  predicate WellFormed(l: Layout) {
    Size(l.fields, |l.fields|) == MAX_PAYLOAD && (l.flags < |l.fields| ==> l.fields[l.flags].kind == Unsigned)
  }

  predicate AllFit(fields: seq<Field>, values: seq<Value>) {
    |values| == |fields| && forall k :: 0 <= k < |fields| ==> Fits(fields[k], values[k])
  }

  /** The flags masks are all of the form 2^k - 1, so "no bit outside the mask" is "at most the mask". */
  predicate FlagsWithin(l: Layout, values: seq<Value>)
    requires AllFit(l.fields, values) && WellFormed(l)
  {
    l.flags < |l.fields| ==> values[l.flags].v <= l.limit
  }

  function Laid(fields: seq<Field>, values: seq<Value>, n: nat): (b: seq<U8>)
    requires n <= |fields| && AllFit(fields, values)
    ensures |b| == Size(fields, n)
  {
    if n == 0 then [] else Laid(fields, values, n - 1) + Encoded(fields[n - 1], values[n - 1])
  }

  function Pack(l: Layout, values: seq<Value>): Result<seq<U8>>
    requires WellFormed(l)
  {
    if !AllFit(l.fields, values) || !FlagsWithin(l, values) then Refused
    else Ok(Laid(l.fields, values, |l.fields|))
  }

  lemma {:induction false} SizeGrows(fields: seq<Field>, m: nat, n: nat)
    requires m <= n <= |fields|
    ensures Size(fields, m) <= Size(fields, n)
    decreases n
  {
    if m < n {
      SizeGrows(fields, m, n - 1);
    }
  }

  function Slice(fields: seq<Field>, payload: seq<U8>, k: nat): (b: seq<U8>)
    requires k < |fields| && |payload| == Size(fields, |fields|)
    ensures |b| == fields[k].size
  {
    SizeGrows(fields, k + 1, |fields|);
    payload[Size(fields, k)..Size(fields, k) + fields[k].size]
  }

  function Read(fields: seq<Field>, payload: seq<U8>): (values: seq<Value>)
    requires |payload| == Size(fields, |fields|)
    ensures |values| == |fields|
  {
    seq(|fields|, k requires 0 <= k < |fields| => Decoded(fields[k], Slice(fields, payload, k)))
  }

  function Unpack(l: Layout, payload: seq<U8>): Result<seq<Value>>
    requires WellFormed(l)
  {
    if |payload| != MAX_PAYLOAD then Refused
    else
      var values := Read(l.fields, payload);
      if l.checkedOnReceipt && l.flags < |l.fields| && FromBytes(Slice(l.fields, payload, l.flags)) > l.limit
      then Refused
      else Ok(values)
  }

  lemma SliceOfFront(front: seq<U8>, back: seq<U8>, from: nat, to: nat)
    requires from <= to <= |front|
    ensures (front + back)[from..to] == front[from..to]
  {
  }

  lemma SliceOfBack(front: seq<U8>, back: seq<U8>)
    ensures (front + back)[|front|..|front| + |back|] == back
  {
  }

  lemma {:induction false} LaidSlice(fields: seq<Field>, values: seq<Value>, k: nat, n: nat, from: nat, to: nat)
    requires k < n <= |fields| && AllFit(fields, values)
    requires from == Size(fields, k) && to == from + fields[k].size
    ensures to <= Size(fields, n) && Laid(fields, values, n)[from..to] == Encoded(fields[k], values[k])
    decreases n
  {
    var front, back := Laid(fields, values, n - 1), Encoded(fields[n - 1], values[n - 1]);
    assert Laid(fields, values, n) == front + back;
    if k < n - 1 {
      LaidSlice(fields, values, k, n - 1, from, to);
      SliceOfFront(front, back, from, to);
    } else {
      SliceOfBack(front, back);
    }
  }

  lemma FieldReads(fields: seq<Field>, values: seq<Value>, k: nat)
    requires k < |fields| && AllFit(fields, values)
    ensures var payload := Laid(fields, values, |fields|);
            Slice(fields, payload, k) == Encoded(fields[k], values[k]) &&
            Decoded(fields[k], Slice(fields, payload, k)) == values[k]
  {
    LaidSlice(fields, values, k, |fields|, Size(fields, k), Size(fields, k) + fields[k].size);
    FieldRoundTrip(fields[k], values[k]);
  }

  /** to_bytes then from_bytes gives back every field, for every message layout. */
  lemma RoundTrip(l: Layout, values: seq<Value>)
    requires WellFormed(l) && Pack(l, values).Ok?
    ensures Unpack(l, Pack(l, values).value) == Ok(values)
  {
    var payload := Laid(l.fields, values, |l.fields|);
    forall k | 0 <= k < |values| ensures Read(l.fields, payload)[k] == values[k] {
      FieldReads(l.fields, values, k);
    }
    assert Read(l.fields, payload) == values;
    if l.flags < |l.fields| {
      FieldReads(l.fields, values, l.flags);
    }
  }

  /** The buffer starts cleared and each field is stored at its own offset. */
  method PackPayload(l: Layout, values: seq<Value>) returns (r: Result<seq<U8>>)
    requires WellFormed(l)
    ensures r == Pack(l, values)
  {
    if |values| != |l.fields| {
      return Refused;
    }
    var payload := new U8[MAX_PAYLOAD](i => 0);
    var k, offset := 0, 0;
    while k < |l.fields|
      invariant k <= |l.fields| && offset == Size(l.fields, k) <= MAX_PAYLOAD
      invariant forall j :: 0 <= j < k ==> Fits(l.fields[j], values[j])
      invariant forall j :: offset <= j < MAX_PAYLOAD ==> payload[j] == 0
      invariant AllFit(l.fields, values) ==> payload[..offset] == Laid(l.fields, values, k)
    {
      var f := l.fields[k];
      if !Fits(f, values[k]) {
        return Refused;
      }
      SizeGrows(l.fields, k + 1, |l.fields|);
      Store(payload, offset, f, values[k]);
      assert AllFit(l.fields, values) ==>
        Laid(l.fields, values, k + 1) == Laid(l.fields, values, k) + Encoded(f, values[k]);
      k, offset := k + 1, offset + f.size;
    }
    assert payload[..] == payload[..offset];
    if l.flags < |l.fields| && values[l.flags].v > l.limit {
      return Refused;
    }
    return Ok(payload[..]);
  }

  /** One field into a buffer still clear from its offset on; a reserved field is left clear. */
  method Store(buffer: array<U8>, offset: nat, f: Field, value: Value)
    requires Fits(f, value) && offset + f.size <= buffer.Length
    requires forall j :: offset <= j < buffer.Length ==> buffer[j] == 0
    modifies buffer
    ensures buffer[..offset + f.size] == old(buffer[..offset]) + Encoded(f, value)
    ensures forall j :: offset + f.size <= j < buffer.Length ==> buffer[j] == 0
  {
    var bytes := Encoded(f, value);
    var i := 0;
    while i < f.size && f.kind != Reserved
      invariant i <= f.size
      invariant buffer[..offset + i] == old(buffer[..offset]) + bytes[..i]
      invariant forall j :: offset + i <= j < buffer.Length ==> buffer[j] == 0
    {
      buffer[offset + i] := bytes[i];
      i := i + 1;
    }
    assert buffer[..offset + f.size] == buffer[..offset + i] + buffer[offset + i..offset + f.size];
  }

  // ---- The message layouts ------------------------------------------------------------------

  const U1: Field := Field(Unsigned, 1)
  const U2: Field := Field(Unsigned, 2)
  const U4: Field := Field(Unsigned, 4)
  const U8x: Field := Field(Unsigned, 8)
  const S2: Field := Field(Signed, 2)
  const S4: Field := Field(Signed, 4)

  function Gap(n: nat): Field { Field(Reserved, n) }

  /** A layout without a flags field. */
  function Plain(fields: seq<Field>): Layout { Layout(fields, |fields|, 0, false) }

  function Flagged(fields: seq<Field>, flags: nat, limit: nat): Layout { Layout(fields, flags, limit, false) }

  const ABSOLUTE: Layout := Flagged([U2, U2, U2, U2, U1, U1, U1, U1, S2, S2, S2, S2, S2, S2, S2], 7, 127)
  const BUTTON_STATE: Layout := Flagged([U2, U2, U2, U2, U1, U1, U1, U1, U8x, U2, Gap(4)], 7, 0)
  const CLEAR: Layout := Flagged([U2, U2, U2, U2, U2, U1, Gap(15)], 4, 31)
  const COMMAND_ACK: Layout :=
    Flagged([U2, U2, U2, U2, U2, U2, U1, U1, U1, U1, U1, U1, U1, Gap(7)], 9, 3)
  const COUNTERS: Layout := Flagged([U1, U1, U4, U4, U4, U4, U4, U4], 1, 0)
  const DESCRIPTOR_FRAGMENT: Layout := Plain([U2, U1, Gap(1), U2, U2, Field(Bytes, 18)])
  const IDLE: Layout := Plain([Gap(26)])
  const LINK_STATUS: Layout := Flagged([U2, U1, U1, U2, U2, U4, U4, U4, U1, Gap(5)], 2, 15)
  const MAP_BEGIN: Layout := Flagged([U2, U2, U1, U1, U2, U4, Gap(14)], 4, 1)
  const MAP_COMMIT: Layout := MAP_BEGIN
  const MAP_ENTRY: Layout :=
    Layout([U2, U2, U1, U1, U1, U1, U2, U2, U2, U1, U1, S4, S4, U1, U1], 10, 127, true)
  const MAP_STATUS: Layout := Flagged([U2, U2, U2, U1, U1, U1, U1, U4, Gap(12)], 6, 0)
  const PHYSICAL_MASK: Layout := Flagged([U2, U2, U2, U2, U1, U1, U1, U1, U8x, Gap(6)], 7, 0)
  const RELATIVE: Layout := Flagged([U2, U2, U2, U2, U1, U1, U1, U1, S2, S2, S2, S2, U2, Gap(4)], 7, 15)
  const REPORT_FRAGMENT: Layout := Plain([U2, U1, U1, U1, U2, U2, Field(Bytes, 17)])
  const TELEMETRY_CONFIG: Layout := Flagged([U2, U2, U4, U2, U2, U1, U1, Gap(12)], 6, 0)

  datatype Message =
    | Absolute | ButtonState | Clear | CommandAck | Counters | DescriptorFragment | Idle | LinkStatus
    | MapBegin | MapCommit | MapEntry | MapStatus | PhysicalMask | Relative | ReportFragment | TelemetryConfig

  function LayoutOf(m: Message): Layout {
    match m
    case Absolute => ABSOLUTE
    case ButtonState => BUTTON_STATE
    case Clear => CLEAR
    case CommandAck => COMMAND_ACK
    case Counters => COUNTERS
    case DescriptorFragment => DESCRIPTOR_FRAGMENT
    case Idle => IDLE
    case LinkStatus => LINK_STATUS
    case MapBegin => MAP_BEGIN
    case MapCommit => MAP_COMMIT
    case MapEntry => MAP_ENTRY
    case MapStatus => MAP_STATUS
    case PhysicalMask => PHYSICAL_MASK
    case Relative => RELATIVE
    case ReportFragment => REPORT_FRAGMENT
    case TelemetryConfig => TELEMETRY_CONFIG
  }

  /** The fields lie end to end at these offsets. */
  predicate At(fields: seq<Field>, offsets: seq<nat>) {
    |offsets| == |fields| + 1 && offsets[0] == 0 &&
    forall k :: 0 <= k < |fields| ==> offsets[k + 1] == offsets[k] + fields[k].size
  }

  lemma {:induction false} OffsetsAreSizes(fields: seq<Field>, offsets: seq<nat>, n: nat)
    requires At(fields, offsets) && n <= |fields|
    ensures Size(fields, n) == offsets[n]
    decreases n
  {
    if n > 0 {
      OffsetsAreSizes(fields, offsets, n - 1);
    }
  }

  /** The offsets the protocol documents: end to end they fill the payload. */
  lemma FillsPayload(l: Layout, offsets: seq<nat>)
    requires At(l.fields, offsets) && offsets[|l.fields|] == MAX_PAYLOAD
    requires l.flags < |l.fields| ==> l.fields[l.flags].kind == Unsigned
    ensures WellFormed(l)
  {
    OffsetsAreSizes(l.fields, offsets, |l.fields|);
  }

  lemma StateFills(m: Message)
    requires m.Absolute? || m.ButtonState? || m.PhysicalMask?
    ensures WellFormed(LayoutOf(m))
  {
    match m
    case Absolute => FillsPayload(ABSOLUTE, [0, 2, 4, 6, 8, 9, 10, 11, 12, 14, 16, 18, 20, 22, 24, 26]);
    case ButtonState => FillsPayload(BUTTON_STATE, [0, 2, 4, 6, 8, 9, 10, 11, 12, 20, 22, 26]);
    case PhysicalMask => FillsPayload(PHYSICAL_MASK, [0, 2, 4, 6, 8, 9, 10, 11, 12, 20, 26]);
  }

  lemma ChangeFills(m: Message)
    requires m.Relative? || m.Clear?
    ensures WellFormed(LayoutOf(m))
  {
    match m
    case Relative => FillsPayload(RELATIVE, [0, 2, 4, 6, 8, 9, 10, 11, 12, 14, 16, 18, 20, 22, 26]);
    case Clear => FillsPayload(CLEAR, [0, 2, 4, 6, 8, 10, 11, 26]);
  }

  lemma AnswerFills(m: Message)
    requires m.CommandAck? || m.Counters?
    ensures WellFormed(LayoutOf(m))
  {
    match m
    case CommandAck => FillsPayload(COMMAND_ACK, [0, 2, 4, 6, 8, 10, 12, 13, 14, 15, 16, 17, 18, 19, 26]);
    case Counters => FillsPayload(COUNTERS, [0, 1, 2, 6, 10, 14, 18, 22, 26]);
  }

  lemma UploadFills(m: Message)
    requires m.MapBegin? || m.MapCommit? || m.TelemetryConfig?
    ensures WellFormed(LayoutOf(m))
  {
    match m
    case MapBegin => FillsPayload(MAP_BEGIN, [0, 2, 4, 5, 6, 8, 12, 26]);
    case MapCommit => FillsPayload(MAP_COMMIT, [0, 2, 4, 5, 6, 8, 12, 26]);
    case TelemetryConfig => FillsPayload(TELEMETRY_CONFIG, [0, 2, 4, 8, 10, 12, 13, 14, 26]);
  }

  lemma MapFills(m: Message)
    requires m.MapEntry? || m.MapStatus?
    ensures WellFormed(LayoutOf(m))
  {
    match m
    case MapEntry => FillsPayload(MAP_ENTRY, [0, 2, 4, 5, 6, 7, 8, 10, 12, 14, 15, 16, 20, 24, 25, 26]);
    case MapStatus => FillsPayload(MAP_STATUS, [0, 2, 4, 6, 7, 8, 9, 10, 14, 26]);
  }

  lemma LinkFills(m: Message)
    requires m.DescriptorFragment? || m.Idle? || m.LinkStatus? || m.ReportFragment?
    ensures WellFormed(LayoutOf(m))
  {
    match m
    case DescriptorFragment => FillsPayload(DESCRIPTOR_FRAGMENT, [0, 2, 3, 4, 6, 8, 26]);
    case Idle => FillsPayload(IDLE, [0, 26]);
    case LinkStatus => FillsPayload(LINK_STATUS, [0, 2, 3, 4, 6, 8, 12, 16, 20, 21, 26]);
    case ReportFragment => FillsPayload(REPORT_FRAGMENT, [0, 2, 3, 4, 5, 7, 9, 26]);
  }

  lemma LayoutFills(m: Message)
    ensures WellFormed(LayoutOf(m))
  {
    match m
    case Absolute | ButtonState | PhysicalMask => StateFills(m);
    case Relative | Clear => ChangeFills(m);
    case CommandAck | Counters => AnswerFills(m);
    case MapBegin | MapCommit | TelemetryConfig => UploadFills(m);
    case MapEntry | MapStatus => MapFills(m);
    case DescriptorFragment | Idle | LinkStatus | ReportFragment => LinkFills(m);
  }

  /**
    Every message of the link: what to_bytes accepts, it packs into a whole payload, and
    from_bytes gives every field of it back.
   */
  lemma MessageRoundTrip(m: Message, values: seq<Value>)
    ensures var l := LayoutOf(m); WellFormed(l) && (Pack(l, values).Ok? ==>
      |Pack(l, values).value| == MAX_PAYLOAD && Unpack(l, Pack(l, values).value) == Ok(values))
  {
    LayoutFills(m);
    if Pack(LayoutOf(m), values).Ok? {
      RoundTrip(LayoutOf(m), values);
    }
  }
}
