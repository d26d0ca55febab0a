/** parse_mouse_configuration: the whole-buffer configuration parser. */
module ConfigurationParser {
  const MAX_CONFIGURATION_SIZE: nat := 1024
  const MAX_REPORT_SIZE: nat := 2048
  const MAX_PACKET_SIZE: nat := 64
  const MAX_INTERFACES: nat := 4
  const MAX_ENDPOINTS: nat := 4

  const CONFIGURATION: U8 := 2
  const INTERFACE: U8 := 4
  const ENDPOINT: U8 := 5
  const HID: U8 := 0x21
  const REPORT: U8 := 0x22

  type U8 = x: int | 0 <= x < 0x100

  datatype Option<T> = None | Some(value: T)

  datatype DescriptorError = Malformed | Oversized | Unsupported

  datatype Result<T> = Ok(value: T) | Err(error: DescriptorError)

  datatype InEndpoint = InEndpoint(
    interfaceNumber: U8, number: nat, maxPacketSize: nat, interval: U8, reportLength: nat)

  datatype OutEndpoint = OutEndpoint(
    interfaceNumber: U8, number: nat, maxPacketSize: nat, interval: U8)

  /** What an accepted configuration binds. */
  datatype Configuration = Configuration(
    value: U8, endpoints: seq<InEndpoint>, out: Option<OutEndpoint>, outIgnored: bool)

  /** What has been gathered from the descriptors walked so far. */
  datatype Walked = Walked(
    endpoints: seq<InEndpoint>,
    out: Option<OutEndpoint>,
    outIgnored: bool,
    interfaceCount: nat,
    isHid: bool,
    altNonzero: bool,
    interfaceNumber: U8,
    reportLength: nat)

  const NOTHING_WALKED := Walked([], None, false, 0, false, false, 0, 0)

  function Word(d: seq<U8>, at: nat): nat
    requires at + 1 < |d|
  {
    var low: int, high: int := d[at], d[at + 1];
    low + 0x100 * high
  }

  // ---- Endpoint address and attribute fields ------------------------------------------------

  predicate IsIn(address: U8) { address >= 0x80 }

  function Number(address: U8): nat { address % 16 }

  predicate ReservedBits(address: U8) { (address / 16) % 8 != 0 }

  predicate IsInterrupt(attributes: U8) { attributes % 4 == 3 }

  // ---- One descriptor -----------------------------------------------------------------------

  function WalkInterface(d: seq<U8>, at: nat, w: Walked): Result<Walked>
    requires at < |d| && at + d[at] <= |d|
  {
    if d[at] != 9 then Err(Malformed)
    else
      var alt := d[at + 3] != 0;
      var count := if alt then w.interfaceCount else w.interfaceCount + 1;
      if !alt && count > MAX_INTERFACES then Err(Unsupported)
      else
        Ok(Walked(w.endpoints, w.out, w.outIgnored, count, d[at + 5] == 3, alt, d[at + 2], 0))
  }

  /** The subordinate table of a HID descriptor: at most one usable report descriptor. */
  function Subordinates(d: seq<U8>, at: nat, n: nat, reportLength: nat): Result<nat>
    requires at + 3 * n <= |d|
    decreases n
  {
    if n == 0 then Ok(reportLength)
    else if d[at] != REPORT then Subordinates(d, at + 3, n - 1, reportLength)
    else
      var length := Word(d, at + 1);
      if reportLength != 0 || length == 0 then Err(Malformed)
      else if length > MAX_REPORT_SIZE then Err(Oversized)
      else Subordinates(d, at + 3, n - 1, length)
  }

  function WalkHid(d: seq<U8>, at: nat, w: Walked): Result<Walked>
    requires at < |d| && at + d[at] <= |d|
  {
    if !w.isHid then Ok(w)
    else if d[at] < 9 then Err(Malformed)
    else
      var length: int, count: nat := d[at], d[at + 5];
      if count == 0 || length != 6 + 3 * count then Err(Malformed)
      else
        var r := Subordinates(d, at + 6, count, w.reportLength);
        if r.Err? then Err(r.error) else Ok(w.(reportLength := r.value))
  }

  predicate HasNumber(endpoints: seq<InEndpoint>, number: nat) {
    exists k :: 0 <= k < |endpoints| && endpoints[k].number == number
  }

  /** Why an interrupt-IN endpoint of a HID interface is refused, first reason first. */
  function InRefusal(address: U8, maxPacketSize: nat, interval: U8, reportLength: nat,
                     endpoints: seq<InEndpoint>): Option<DescriptorError>
  {
    if ReservedBits(address) || Number(address) == 0 then Some(Unsupported)
    else if HasNumber(endpoints, Number(address)) then Some(Unsupported)
    else if maxPacketSize == 0 then Some(Malformed)
    else if maxPacketSize > MAX_PACKET_SIZE then Some(Unsupported)
    else if interval == 0 then Some(Malformed)
    else if reportLength == 0 then Some(Malformed)
    else if |endpoints| >= MAX_ENDPOINTS then Some(Oversized)
    else None
  }

  predicate OutFits(address: U8, maxPacketSize: nat, interval: U8) {
    !ReservedBits(address) && Number(address) != 0 &&
    1 <= maxPacketSize <= MAX_PACKET_SIZE && interval != 0
  }

  /** A HID interrupt-OUT endpoint: the first one that fits is kept, any other only flagged. */
  function CaptureOut(address: U8, maxPacketSize: nat, interval: U8, w: Walked): Walked {
    if OutFits(address, maxPacketSize, interval) && w.out.None?
    then w.(out := Some(OutEndpoint(w.interfaceNumber, Number(address), maxPacketSize, interval)))
    else w.(outIgnored := true)
  }

  function CaptureIn(address: U8, maxPacketSize: nat, interval: U8, w: Walked): Result<Walked> {
    var refusal := InRefusal(address, maxPacketSize, interval, w.reportLength, w.endpoints);
    if refusal.Some? then Err(refusal.value)
    else
      Ok(w.(endpoints := w.endpoints +
        [InEndpoint(w.interfaceNumber, Number(address), maxPacketSize, interval, w.reportLength)]))
  }

  function WalkEndpoint(d: seq<U8>, at: nat, w: Walked): Result<Walked>
    requires at < |d| && at + d[at] <= |d|
  {
    if d[at] != 7 && d[at] != 9 then Err(Malformed)
    else if !w.isHid || w.altNonzero || !IsInterrupt(d[at + 3]) then Ok(w)
    else if IsIn(d[at + 2]) then CaptureIn(d[at + 2], Word(d, at + 4), d[at + 6], w)
    else Ok(CaptureOut(d[at + 2], Word(d, at + 4), d[at + 6], w))
  }

  function WalkDescriptor(d: seq<U8>, at: nat, w: Walked): Result<Walked>
    requires at + 2 <= |d| && at + d[at] <= |d| && d[at] >= 2
  {
    if d[at + 1] == INTERFACE then WalkInterface(d, at, w)
    else if d[at + 1] == HID then WalkHid(d, at, w)
    else if d[at + 1] == ENDPOINT then WalkEndpoint(d, at, w)
    else Ok(w)
  }

  /** A whole descriptor starts at this offset. */
  predicate Framed(d: seq<U8>, at: nat) {
    at + 2 <= |d| && 2 <= d[at] && at + d[at] <= |d|
  }

  /** Every descriptor from an offset to the end. */
  function Walk(d: seq<U8>, at: nat, w: Walked): Result<Walked>
    requires at <= |d|
    decreases |d| - at
  {
    if at == |d| then Ok(w)
    else if !Framed(d, at) then Err(Malformed)
    else
      var r := WalkDescriptor(d, at, w);
      if r.Err? then r else Walk(d, at + d[at], r.value)
  }

  // ---- The whole buffer ---------------------------------------------------------------------

  function CheckHeader(d: seq<U8>): Result<()> {
    if |d| > MAX_CONFIGURATION_SIZE then Err(Oversized)
    else if |d| < 9 then Err(Malformed)
    else if d[0] != 9 || d[1] != CONFIGURATION then Err(Malformed)
    else if Word(d, 2) > MAX_CONFIGURATION_SIZE then Err(Oversized)
    else if Word(d, 2) != |d| then Err(Malformed)
    else if d[4] < 1 || d[4] > MAX_INTERFACES then Err(Unsupported)
    else if d[5] == 0 then Err(Malformed)
    else Ok(())
  }

  function Parsed(d: seq<U8>): Result<Configuration> {
    var header := CheckHeader(d);
    if header.Err? then Err(header.error)
    else
      var r := Walk(d, 9, NOTHING_WALKED);
      if r.Err? then Err(r.error)
      else if r.value.interfaceCount != d[4] then Err(Unsupported)
      else if r.value.endpoints == [] then Err(Unsupported)
      else Ok(Configuration(d[5], r.value.endpoints, r.value.out, r.value.outIgnored))
  }

  /** The loop over a HID descriptor's subordinate table. */
  method ParseSubordinates(d: seq<U8>, at: nat, n: nat, before: nat) returns (r: Result<nat>)
    requires at + 3 * n <= |d|
    ensures r == Subordinates(d, at, n, before)
  {
    var reportLength: nat, entry: nat, left: nat := before, at, n;
    while left > 0
      invariant entry + 3 * left == at + 3 * n
      invariant Subordinates(d, at, n, before) == Subordinates(d, entry, left, reportLength)
    {
      if d[entry] == REPORT {
        var length := Word(d, entry + 1);
        if reportLength != 0 {
          return Err(Malformed);
        }
        if length == 0 {
          return Err(Malformed);
        }
        if length > MAX_REPORT_SIZE {
          return Err(Oversized);
        }
        reportLength := length;
      }
      entry, left := entry + 3, left - 1;
    }
    return Ok(reportLength);
  }

  /** One descriptor of the walk, refused as soon as a rule is broken. */
  method ParseDescriptor(d: seq<U8>, at: nat, w: Walked) returns (r: Result<Walked>)
    requires Framed(d, at)
    ensures r == WalkDescriptor(d, at, w)
  {
    if d[at + 1] == INTERFACE {
      if d[at] != 9 {
        return Err(Malformed);
      }
      var altNonzero, count := d[at + 3] != 0, w.interfaceCount;
      if !altNonzero {
        count := count + 1;
        if count > MAX_INTERFACES {
          return Err(Unsupported);
        }
      }
      return Ok(Walked(w.endpoints, w.out, w.outIgnored, count, d[at + 5] == 3, altNonzero, d[at + 2], 0));
    } else if d[at + 1] == HID && w.isHid {
      if d[at] < 9 {
        return Err(Malformed);
      }
      var length: int, count: nat := d[at], d[at + 5];
      if count == 0 || length != 6 + 3 * count {
        return Err(Malformed);
      }
      var reportLength := ParseSubordinates(d, at + 6, count, w.reportLength);
      if reportLength.Err? {
        return Err(reportLength.error);
      }
      return Ok(w.(reportLength := reportLength.value));
    } else if d[at + 1] == ENDPOINT {
      r := WalkEndpoint(d, at, w);
    } else {
      r := Ok(w);
    }
  }

  method ParseMouseConfiguration(d: seq<U8>) returns (r: Result<Configuration>)
    ensures r == Parsed(d)
  {
    var header := CheckHeader(d);
    if header.Err? {
      return Err(header.error);
    }
    var w := NOTHING_WALKED;
    var offset: nat := 9;
    while offset < |d|
      invariant 9 <= offset <= |d|
      invariant Walk(d, 9, NOTHING_WALKED) == Walk(d, offset, w)
      decreases |d| - offset
    {
      if |d| - offset < 2 {
        return Err(Malformed);
      }
      if d[offset] < 2 || offset + d[offset] > |d| {
        return Err(Malformed);
      }
      var step := ParseDescriptor(d, offset, w);
      if step.Err? {
        return Err(step.error);
      }
      w, offset := step.value, offset + d[offset];
    }
    if w.interfaceCount != d[4] {
      return Err(Unsupported);
    }
    if w.endpoints == [] {
      return Err(Unsupported);
    }
    return Ok(Configuration(d[5], w.endpoints, w.out, w.outIgnored));
  }
}
