/** The descriptor-compiled field map: entries as the wire and the map store carry them. */
module MapEntries {
  import opened Bits

  const MAX_PAYLOAD: nat := 26
  const MAX_FIELDS: nat := 64
  const MAX_LAYOUTS: nat := 16
  const MAX_REPORT_BYTES: nat := 64
  const MAX_CHANNEL: nat := 6
  const CHANNELS: nat := 7

  const FLAG_SIGNED: bv8 := 1
  const FLAG_RELATIVE: bv8 := 2
  const FLAG_BUTTON: bv8 := 4
  const FLAG_X: bv8 := 8
  const FLAG_Y: bv8 := 16
  const FLAG_WHEEL: bv8 := 32
  const FLAG_PAN: bv8 := 64
  const AXIS_FLAGS: bv8 := 120
  const ALLOWED_FLAGS: bv8 := 127

  type U8 = x: int | 0 <= x < 0x100
  type U16 = x: int | 0 <= x < 0x1_0000
  type U32 = x: int | 0 <= x < 0x1_0000_0000
  type S16 = x: int | -0x8000 <= x < 0x8000
  type S32 = x: int | -0x8000_0000 <= x < 0x8000_0000
  type U64 = x: int | 0 <= x < 0x1_0000_0000_0000_0000

  /** The flags byte, one Boolean a bit, least significant first. */
  datatype Flags = Flags(
    signed: bool, relative: bool, button: bool,
    x: bool, y: bool, wheel: bool, pan: bool, undefined: bool)

  function FlagsByte(f: Flags): Byte {
    (if f.signed then FLAG_SIGNED else 0) | (if f.relative then FLAG_RELATIVE else 0) |
    (if f.button then FLAG_BUTTON else 0) | (if f.x then FLAG_X else 0) |
    (if f.y then FLAG_Y else 0) | (if f.wheel then FLAG_WHEEL else 0) |
    (if f.pan then FLAG_PAN else 0) | (if f.undefined then !ALLOWED_FLAGS else 0)
  }

  /** One packed MAP_ENTRY: its fields, and the same 26 bytes unread. */
  datatype MapEntry = MapEntry(
    descriptorGeneration: U16,
    mapGeneration: U16,
    entryIndex: U8,
    interfaceNumber: U8,
    endpointNumber: U8,
    reportId: U8,
    usagePage: U16,
    usage: U16,
    bitOffset: U16,
    bitWidth: U8,
    flags: Flags,
    logicalMinimum: S32,
    logicalMaximum: S32,
    reportLength: U8,
    channel: U8,
    payload: seq<Byte>)

  /** What selects a layout: every entry with one key describes the same report. */
  datatype LayoutKey = LayoutKey(interfaceNumber: U8, endpointNumber: U8, reportId: U8)

  function Key(e: MapEntry): LayoutKey {
    LayoutKey(e.interfaceNumber, e.endpointNumber, e.reportId)
  }

  datatype Axis = X | Y | Wheel | Pan

  function AxisOf(e: MapEntry): Axis {
    if e.flags.x then X
    else if e.flags.y then Y
    else if e.flags.wheel then Wheel
    else Pan
  }

  datatype FieldClass = Button | Relative | Absolute

  function ClassOf(e: MapEntry): FieldClass {
    if e.flags.button then Button
    else if e.flags.relative then Relative
    else Absolute
  }

  /** Entry e owns bit p of its report. */
  predicate Covers(e: MapEntry, p: int) {
    e.bitOffset <= p < e.bitOffset + e.bitWidth
  }

  /** The two fields share no bit. */
  predicate Disjoint(a: MapEntry, b: MapEntry) {
    a.bitOffset + a.bitWidth <= b.bitOffset || b.bitOffset + b.bitWidth <= a.bitOffset
  }
}
