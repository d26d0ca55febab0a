/** pack_slot and unpack_slot: one message, one sequence byte and one checksum in 32 bytes. */
module SlotCodec {
  import opened Bits
  import opened Crc16
  import opened CrcStrength

  const SOF: Byte := 104
  const FRAME_SIZE: nat := 32
  const MAX_PAYLOAD: nat := 26
  const CHECKED: nat := 30

  const IDLE: Byte := 0x00
  const LINK_STATUS: Byte := 0x01
  const DESCRIPTOR_FRAGMENT: Byte := 0x02
  const REPORT_FRAGMENT: Byte := 0x03
  const MAP_STATUS: Byte := 0x04
  const COMMAND_ACK: Byte := 0x05
  const COUNTERS: Byte := 0x06
  const MAP_BEGIN: Byte := 0x81
  const MAP_ENTRY: Byte := 0x82
  const MAP_COMMIT: Byte := 0x83
  const RELATIVE: Byte := 0x84
  const BUTTON_STATE: Byte := 0x85
  const PHYSICAL_MASK: Byte := 0x86
  const CLEAR: Byte := 0x87
  const TELEMETRY_CONFIG: Byte := 0x88
  const ABSOLUTE: Byte := 0x89

  datatype PackError = UnknownType | PayloadLength | UnassignedFlags

  datatype FrameError = BadSize | BadSof | BadLength | BadCrc | BadType | BadFlags

  datatype Result<T, E> = Ok(value: T) | Err(error: E)

  datatype Frame = Frame(kind: Byte, sequence: Byte, payload: seq<Byte>)

  type Payload = p: seq<Byte> | |p| == MAX_PAYLOAD witness seq(MAX_PAYLOAD, i => 0)

  predicate KnownType(kind: Byte) {
    kind == IDLE || kind == LINK_STATUS || kind == DESCRIPTOR_FRAGMENT || kind == REPORT_FRAGMENT ||
    kind == MAP_STATUS || kind == COMMAND_ACK || kind == COUNTERS || kind == MAP_BEGIN ||
    kind == MAP_ENTRY || kind == MAP_COMMIT || kind == RELATIVE || kind == BUTTON_STATE ||
    kind == PHYSICAL_MASK || kind == CLEAR || kind == TELEMETRY_CONFIG || kind == ABSOLUTE
  }

  /** The flag bits no message may set, each in its own byte of the payload. */
  predicate FlagsAllowed(kind: Byte, p: Payload) {
    (kind == ABSOLUTE ==> p[11] & 0x80 == 0) &&
    (kind == BUTTON_STATE || kind == PHYSICAL_MASK ==> p[11] == 0) &&
    (kind == CLEAR ==> p[8] & 0xe0 == 0 && p[9] == 0) &&
    (kind == COMMAND_ACK ==> p[15] & 0xfc == 0) &&
    (kind == COUNTERS ==> p[1] == 0) &&
    (kind == LINK_STATUS ==> p[3] & 0xf0 == 0) &&
    (kind == MAP_BEGIN || kind == MAP_COMMIT ==> p[6] & 0xfe == 0 && p[7] == 0) &&
    (kind == MAP_ENTRY ==> p[15] & 0x80 == 0) &&
    (kind == MAP_STATUS ==> p[9] == 0) &&
    (kind == RELATIVE ==> p[11] & 0xf0 == 0) &&
    (kind == TELEMETRY_CONFIG ==> p[13] == 0)
  }

  /** A receiver is more lenient: only a map entry's top flag is refused. */
  predicate FlagsRejected(kind: Byte, p: Payload) {
    kind == MAP_ENTRY && p[15] & 0x80 != 0
  }

  function ExpectedLength(kind: Byte): nat { if kind == IDLE then 0 else MAX_PAYLOAD }

  function LengthByte(kind: Byte): Byte { if kind == IDLE then 0 else 26 }

  // ---- Registers to bytes and back ----------------------------------------------------------

  function ByteUpTo(o: Octet, n: nat): Byte
    requires n <= 8
  {
    if n == 0 then 0 else WithBit(ByteUpTo(o, n - 1), n - 1, o[n - 1])
  }

  function ByteOf(o: Octet): Byte { ByteUpTo(o, 8) }

  lemma {:induction false} ByteUpToBit(o: Octet, n: nat, j: nat)
    requires j < n <= 8
    ensures ByteBit(ByteUpTo(o, n), j) == o[j]
    decreases n
  {
    WithBitSetsOneBit(ByteUpTo(o, n - 1), n - 1, o[n - 1], j);
    if j < n - 1 {
      ByteUpToBit(o, n - 1, j);
    }
  }

  lemma ByteOfRoundTrip(o: Octet)
    ensures Octets(ByteOf(o)) == o
  {
    forall j | 0 <= j < 8 ensures Octets(ByteOf(o))[j] == o[j] {
      ByteUpToBit(o, 8, j);
    }
  }

  /** The register a received checksum spells, low byte first. */
  function Received(low: Byte, high: Byte): Reg { Octets(low) + Octets(high) }

  lemma SentIsReceived(r: Reg)
    ensures Received(ByteOf(r[..8]), ByteOf(r[8..])) == r
  {
    ByteOfRoundTrip(r[..8]);
    ByteOfRoundTrip(r[8..]);
    assert r[..8] + r[8..] == r;
  }

  // ---- Packing ------------------------------------------------------------------------------

  function Padding(n: nat): seq<Byte> { seq(n, i => 0) }

  /** The thirty bytes under the checksum. */
  function Body(kind: Byte, sequence: Byte, payload: seq<Byte>): (b: seq<Byte>)
    requires |payload| == ExpectedLength(kind)
    ensures |b| == CHECKED
  {
    [SOF, kind, sequence, LengthByte(kind)] + payload + Padding(MAX_PAYLOAD - |payload|)
  }

  function Sealed(body: seq<Byte>): (slot: seq<Byte>)
    requires |body| == CHECKED
    ensures |slot| == FRAME_SIZE
  {
    var crc := Crc(Init(), body, CHECKED);
    body + [ByteOf(crc[..8]), ByteOf(crc[8..])]
  }

  function PackSlot(kind: Byte, sequence: Byte, payload: seq<Byte>): Result<seq<Byte>, PackError> {
    if !KnownType(kind) then Err(UnknownType)
    else if |payload| != ExpectedLength(kind) then Err(PayloadLength)
    else if kind != IDLE && !FlagsAllowed(kind, payload) then Err(UnassignedFlags)
    else Ok(Sealed(Body(kind, sequence, payload)))
  }

  // ---- Unpacking ----------------------------------------------------------------------------

  predicate CrcOk(slot: seq<Byte>)
    requires |slot| == FRAME_SIZE
  {
    Received(slot[30], slot[31]) == Crc(Init(), slot[..CHECKED], CHECKED)
  }

  function UnpackSlot(slot: seq<Byte>): Result<Frame, FrameError> {
    if |slot| != FRAME_SIZE then Err(BadSize)
    else if slot[0] != SOF then Err(BadSof)
    else if slot[3] > 26 then Err(BadLength)
    else if !CrcOk(slot) then Err(BadCrc)
    else if !KnownType(slot[1]) then Err(BadType)
    else if slot[3] != LengthByte(slot[1]) then Err(BadLength)
    else if slot[1] != IDLE && FlagsRejected(slot[1], slot[4..30]) then Err(BadFlags)
    else Ok(Frame(slot[1], slot[2], if slot[1] == IDLE then [] else slot[4..30]))
  }

  lemma SealedIsOk(body: seq<Byte>)
    requires |body| == CHECKED
    ensures CrcOk(Sealed(body)) && Sealed(body)[..CHECKED] == body
  {
    var crc := Crc(Init(), body, CHECKED);
    SentIsReceived(crc);
    assert Sealed(body)[..CHECKED] == body;
  }

  /** What packs, unpacks to the same type, sequence and payload. */
  lemma RoundTrip(kind: Byte, sequence: Byte, payload: seq<Byte>)
    requires PackSlot(kind, sequence, payload).Ok?
    ensures UnpackSlot(PackSlot(kind, sequence, payload).value) == Ok(Frame(kind, sequence, payload))
  {
    var body := Body(kind, sequence, payload);
    var slot := Sealed(body);
    SealedIsOk(body);
    assert slot[0] == SOF && slot[1] == kind && slot[2] == sequence && slot[3] == LengthByte(kind);
    if kind != IDLE {
      assert slot[4..30] == body[4..] == payload;
    }
  }

  /** And a slot that unpacks to flags a sender may use was packed from them. */
  lemma UnpackedWasPacked(slot: seq<Byte>)
    requires UnpackSlot(slot).Ok?
    requires slot[1] != IDLE ==> FlagsAllowed(slot[1], slot[4..30])
    requires slot[1] == IDLE ==> slot[4..30] == Padding(MAX_PAYLOAD)
    ensures var f := UnpackSlot(slot).value; PackSlot(f.kind, f.sequence, f.payload) == Ok(slot)
  {
    var f := UnpackSlot(slot).value;
    var body := Body(f.kind, f.sequence, f.payload);
    assert body == slot[..CHECKED];
    SealedIsOk(body);
    SameRegisterSameBytes(slot[30], slot[31], Sealed(body)[30], Sealed(body)[31]);
    assert Sealed(body) == slot;
  }

  lemma SameBitsSameByte(a: Byte, b: Byte)
    requires Octets(a) == Octets(b)
    ensures a == b
  {
    assert Octets(a)[0] == Octets(b)[0] && Octets(a)[1] == Octets(b)[1];
    assert Octets(a)[2] == Octets(b)[2] && Octets(a)[3] == Octets(b)[3];
    assert Octets(a)[4] == Octets(b)[4] && Octets(a)[5] == Octets(b)[5];
    assert Octets(a)[6] == Octets(b)[6] && Octets(a)[7] == Octets(b)[7];
  }

  lemma SameRegisterSameBytes(a: Byte, b: Byte, c: Byte, d: Byte)
    requires Received(a, b) == Received(c, d)
    ensures a == c && b == d
  {
    assert Octets(a) == Received(a, b)[..8] == Received(c, d)[..8] == Octets(c);
    assert Octets(b) == Received(a, b)[8..] == Received(c, d)[8..] == Octets(d);
    SameBitsSameByte(a, c);
    SameBitsSameByte(b, d);
  }
}
