/** CONFIG_HEADER_WAIT and CONFIG_WAIT: the enumerator's byte-at-a-time configuration parser. */
module ConfigurationStream {
  import opened ConfigurationParser

  /** The captured OUT endpoint; unlike the whole-buffer parser it keeps no interface number. */
  datatype OutBinding = OutBinding(number: nat, maxPacketSize: nat, interval: U8)

  // ---- Registers, grouped by what they track ------------------------------------------------

  datatype Frame = Frame(byteCount: nat, position: U8, length: U8, kind: U8)

  datatype Context = Context(
    isHid: bool, altNonzero: bool, interfaceNumber: U8, interfaceCount: nat, declared: U8)

  datatype HidTable = HidTable(count: U8, phase: nat, kind: U8, low: U8, reportLength: nat)

  datatype EndpointBytes = EndpointBytes(
    address: U8, attributes: U8, sizeLow: U8, size: nat, interval: U8)

  datatype Faults = Faults(malformed: bool, oversized: bool, unsupported: bool)

  datatype Tables = Tables(endpoints: seq<InEndpoint>, out: Option<OutBinding>, outIgnored: bool)

  datatype Registers = Registers(
    frame: Frame, context: Context, hid: HidTable, endpoint: EndpointBytes, faults: Faults,
    tables: Tables)

  /** What the header request announced: total length and configuration value. */
  datatype Expected = Expected(total: nat, value: U8)

  const INTERFACE_COUNT_MODULUS: nat := 8
  const BYTE_COUNT_MODULUS: nat := 0x1_0000

  // ---- One byte -----------------------------------------------------------------------------

  predicate Last(f: Frame) { f.position >= 2 && f.position as int == f.length as int - 1 }

  function NextFrame(f: Frame, data: U8): Frame {
    var byteCount := (f.byteCount + 1) % BYTE_COUNT_MODULUS;
    if f.position == 0 then Frame(byteCount, 1, data, f.kind)
    else if f.position == 1 then Frame(byteCount, if f.length == 2 then 0 else 2, f.length, data)
    else if Last(f) then Frame(byteCount, 0, f.length, f.kind)
    else Frame(byteCount, if f.position == 0xff then 0 else f.position + 1, f.length, f.kind)
  }

  /** A type byte other than the very first descriptor's. */
  predicate Opens(f: Frame, data: U8, kind: U8) {
    f.position == 1 && f.byteCount != 1 && data == kind
  }

  predicate At(f: Frame, kind: U8, position: U8) {
    f.position >= 2 && f.kind == kind && f.position == position
  }

  function NextContext(c: Context, f: Frame, data: U8): Context {
    if Opens(f, data, INTERFACE) then
      Context(false, false, c.interfaceNumber, (c.interfaceCount + 1) % INTERFACE_COUNT_MODULUS, c.declared)
    else if At(f, CONFIGURATION, 4) then
      Context(c.isHid, c.altNonzero, c.interfaceNumber, c.interfaceCount, data)
    else if At(f, INTERFACE, 2) then
      Context(c.isHid, c.altNonzero, data, c.interfaceCount, c.declared)
    else if At(f, INTERFACE, 3) && data != 0 then
      Context(c.isHid, true, c.interfaceNumber,
              (c.interfaceCount + INTERFACE_COUNT_MODULUS - 1) % INTERFACE_COUNT_MODULUS, c.declared)
    else if At(f, INTERFACE, 5) then
      Context(data == 3, c.altNonzero, c.interfaceNumber, c.interfaceCount, c.declared)
    else c
  }

  predicate InHidTable(f: Frame, isHid: bool) {
    f.position >= 6 && f.kind == HID && isHid
  }

  predicate ReportEntryEnds(h: HidTable, f: Frame, isHid: bool) {
    InHidTable(f, isHid) && h.phase == 2 && h.kind == REPORT
  }

  function EntryLength(h: HidTable, data: U8): nat {
    var low: int, high: int := h.low, data;
    low + 0x100 * high
  }

  function NextHid(h: HidTable, f: Frame, isHid: bool, data: U8): HidTable {
    if Opens(f, data, INTERFACE) then HidTable(h.count, h.phase, h.kind, h.low, 0)
    else if Opens(f, data, HID) then HidTable(h.count, 0, h.kind, h.low, h.reportLength)
    else if At(f, HID, 5) && isHid then HidTable(data, h.phase, h.kind, h.low, h.reportLength)
    else if !InHidTable(f, isHid) then h
    else if h.phase == 0 then HidTable(h.count, 1, data, h.low, h.reportLength)
    else if h.phase == 1 then HidTable(h.count, 2, h.kind, data, h.reportLength)
    else if h.phase == 2 then
      HidTable(h.count, 0, h.kind, h.low,
               if h.kind == REPORT && h.reportLength == 0 then EntryLength(h, data) else h.reportLength)
    else h
  }

  function NextEndpoint(e: EndpointBytes, f: Frame, data: U8): EndpointBytes {
    if At(f, ENDPOINT, 2) then EndpointBytes(data, e.attributes, e.sizeLow, e.size, e.interval)
    else if At(f, ENDPOINT, 3) then EndpointBytes(e.address, data, e.sizeLow, e.size, e.interval)
    else if At(f, ENDPOINT, 4) then EndpointBytes(e.address, e.attributes, data, e.size, e.interval)
    else if At(f, ENDPOINT, 5) then
      var low: int, high: int := e.sizeLow, data;
      EndpointBytes(e.address, e.attributes, e.sizeLow, low + 0x100 * high, e.interval)
    else if At(f, ENDPOINT, 6) then EndpointBytes(e.address, e.attributes, e.sizeLow, e.size, data)
    else e
  }

  /** The interval byte is the one arriving when a seven-byte endpoint ends, else the latched one. */
  function IntervalNow(e: EndpointBytes, f: Frame, data: U8): U8 {
    if f.position == 6 then data else e.interval
  }

  /** The last byte of an interrupt endpoint on alternate setting 0 of a HID interface. */
  predicate Captures(c: Context, f: Frame, e: EndpointBytes) {
    Last(f) && f.kind == ENDPOINT && c.isHid && !c.altNonzero && IsInterrupt(e.attributes)
  }

  function Refusal(s: Registers, data: U8): Option<DescriptorError> {
    if Captures(s.context, s.frame, s.endpoint) && IsIn(s.endpoint.address) then
      InRefusal(s.endpoint.address, s.endpoint.size, IntervalNow(s.endpoint, s.frame, data),
                s.hid.reportLength, s.tables.endpoints)
    else None
  }

  function NextTables(s: Registers, data: U8): Tables {
    var t, e := s.tables, s.endpoint;
    var interval := IntervalNow(e, s.frame, data);
    if !Captures(s.context, s.frame, e) then t
    else if IsIn(e.address) then
      if Refusal(s, data).Some? then t
      else
        Tables(t.endpoints +
          [InEndpoint(s.context.interfaceNumber, Number(e.address), e.size, interval, s.hid.reportLength)],
          t.out, t.outIgnored)
    else if OutFits(e.address, e.size, interval) && t.out.None? then
      Tables(t.endpoints, Some(OutBinding(Number(e.address), e.size, interval)), t.outIgnored)
    else Tables(t.endpoints, t.out, true)
  }

  /** The rules checked when a type byte arrives. */
  predicate TypeByteMalformed(f: Frame, isHid: bool, data: U8) {
    if f.byteCount == 1 then data != CONFIGURATION || f.length != 9
    else if data == INTERFACE then f.length != 9
    else if data == HID then isHid && f.length < 9
    else data == ENDPOINT && f.length != 7 && f.length != 9
  }

  predicate EchoMalformed(f: Frame, e: Expected, data: U8) {
    (At(f, CONFIGURATION, 2) && data != e.total % 0x100) ||
    (At(f, CONFIGURATION, 3) && data != e.total / 0x100 % 0x100) ||
    (At(f, CONFIGURATION, 5) && data != e.value)
  }

  predicate HidMalformed(h: HidTable, f: Frame, isHid: bool, data: U8) {
    var length: int, count: int := f.length, h.count;
    (At(f, HID, 5) && isHid && data == 0) ||
    (ReportEntryEnds(h, f, isHid) && (h.reportLength != 0 || EntryLength(h, data) == 0)) ||
    (Last(f) && f.kind == HID && isHid && length != 6 + 3 * count)
  }

  function NextFaults(s: Registers, data: U8, e: Expected): Faults {
    var f, refusal := s.frame, Refusal(s, data);
    Faults(
      s.faults.malformed || (f.position == 0 && data < 2) ||
        (f.position == 1 && TypeByteMalformed(f, s.context.isHid, data)) ||
        EchoMalformed(f, e, data) || HidMalformed(s.hid, f, s.context.isHid, data) ||
        refusal == Some(Malformed),
      s.faults.oversized || refusal == Some(Oversized) ||
        (ReportEntryEnds(s.hid, f, s.context.isHid) && s.hid.reportLength == 0 &&
         EntryLength(s.hid, data) > MAX_REPORT_SIZE),
      s.faults.unsupported || refusal == Some(Unsupported) ||
        (At(f, CONFIGURATION, 4) && (data == 0 || data > MAX_INTERFACES)) ||
        (At(f, INTERFACE, 3) && data == 0 && s.context.interfaceCount > MAX_INTERFACES))
  }

  function Advance(s: Registers, data: U8, e: Expected): Registers {
    Registers(
      NextFrame(s.frame, data),
      NextContext(s.context, s.frame, data),
      NextHid(s.hid, s.frame, s.context.isHid, data),
      NextEndpoint(s.endpoint, s.frame, data),
      NextFaults(s, data, e),
      NextTables(s, data))
  }

  /** The registers after the n bytes from an offset. */
  function Run(s: Registers, d: seq<U8>, at: nat, n: nat, e: Expected): Registers
    requires at + n <= |d|
  {
    if n == 0 then s else Advance(Run(s, d, at, n - 1, e), d[at + n - 1], e)
  }

  // ---- The two requests ---------------------------------------------------------------------

  function HeaderVerdict(h: seq<U8>): Result<Expected> {
    if |h| != 9 || h[0] != 9 || h[1] != CONFIGURATION || Word(h, 2) < 9 || h[5] == 0 then Err(Malformed)
    else if Word(h, 2) > MAX_CONFIGURATION_SIZE then Err(Oversized)
    else if h[4] == 0 || h[4] > MAX_INTERFACES then Err(Unsupported)
    else Ok(Expected(Word(h, 2), h[5]))
  }

  /** CONFIG_PREP clears these registers; the others keep what an earlier capture left. */
  function Prepared(stale: Registers): Registers {
    Registers(
      Frame(0, 0, 0, 0),
      Context(false, stale.context.altNonzero, stale.context.interfaceNumber, 0, 0),
      HidTable(stale.hid.count, stale.hid.phase, stale.hid.kind, stale.hid.low, 0),
      stale.endpoint,
      Faults(false, false, false),
      Tables([], None, false))
  }

  function Finish(s: Registers, transferred: nat, e: Expected): Result<Tables> {
    if transferred > e.total || s.frame.byteCount > e.total then Err(Oversized)
    else if transferred != e.total || s.frame.byteCount != e.total || s.frame.position != 0 ||
      s.faults.malformed then Err(Malformed)
    else if s.faults.oversized then Err(Oversized)
    else if s.faults.unsupported || s.context.interfaceCount != s.context.declared ||
      s.tables.endpoints == [] then Err(Unsupported)
    else Ok(s.tables)
  }

  /** A nine-byte header h, then the whole descriptor d, each as the device sent it. */
  function Streamed(stale: Registers, h: seq<U8>, d: seq<U8>): Result<Tables> {
    var header := HeaderVerdict(h);
    if header.Err? then Err(header.error)
    else Finish(Run(Prepared(stale), d, 0, |d|, header.value), |d|, header.value)
  }

  // ---- The machine --------------------------------------------------------------------------

  class StreamingParser {
    var frame: Frame
    var context: Context
    var hid: HidTable
    var endpoint: EndpointBytes
    var faults: Faults

    const table: array<InEndpoint>
    var endpointCount: nat
    var out: Option<OutBinding>
    var outIgnored: bool

    constructor ()
      ensures Valid() && fresh(table)
    {
      table := new InEndpoint[MAX_ENDPOINTS];
      endpointCount := 0;
      out := None;
    }

    ghost predicate Valid()
      reads `endpointCount
    {
      table.Length == MAX_ENDPOINTS && endpointCount <= MAX_ENDPOINTS
    }

    function State(): Registers
      reads this, table
      requires Valid()
    {
      Registers(frame, context, hid, endpoint, faults, Tables(table[..endpointCount], out, outIgnored))
    }

    method StepFrame(data: U8)
      modifies `frame
      ensures frame == NextFrame(old(frame), data)
    {
      var byteCount := (frame.byteCount + 1) % BYTE_COUNT_MODULUS;
      if frame.position == 0 {
        frame := frame.(position := 1, length := data);
      } else if frame.position == 1 {
        frame := frame.(position := if frame.length == 2 then 0 else 2, kind := data);
      } else if frame.position as int == frame.length as int - 1 {
        frame := frame.(position := 0);
      } else {
        frame := frame.(position := if frame.position == 0xff then 0 else frame.position + 1);
      }
      frame := frame.(byteCount := byteCount);
    }

    method StepContext(data: U8)
      modifies `context
      ensures context == NextContext(old(context), frame, data)
    {
      if frame.position == 1 && frame.byteCount != 1 && data == INTERFACE {
        context := context.(isHid := false, altNonzero := false,
                            interfaceCount := (context.interfaceCount + 1) % INTERFACE_COUNT_MODULUS);
      } else if frame.position >= 2 && frame.kind == CONFIGURATION {
        if frame.position == 4 {
          context := context.(declared := data);
        }
      } else if frame.position >= 2 && frame.kind == INTERFACE {
        if frame.position == 2 {
          context := context.(interfaceNumber := data);
        } else if frame.position == 3 {
          if data != 0 {
            var undone := (context.interfaceCount + INTERFACE_COUNT_MODULUS - 1) % INTERFACE_COUNT_MODULUS;
            context := context.(altNonzero := true, interfaceCount := undone);
          }
        } else if frame.position == 5 {
          context := context.(isHid := data == 3);
        }
      }
    }

    method StepHid(data: U8)
      modifies `hid
      ensures hid == NextHid(old(hid), frame, context.isHid, data)
    {
      if frame.position == 1 && frame.byteCount != 1 {
        if data == INTERFACE {
          hid := hid.(reportLength := 0);
        } else if data == HID {
          hid := hid.(phase := 0);
        }
      } else if frame.position >= 2 && frame.kind == HID && context.isHid {
        if frame.position == 5 {
          hid := hid.(count := data);
        } else if frame.position >= 6 {
          if hid.phase == 0 {
            hid := hid.(kind := data, phase := 1);
          } else if hid.phase == 1 {
            hid := hid.(low := data, phase := 2);
          } else if hid.phase == 2 {
            if hid.kind == REPORT && hid.reportLength == 0 {
              hid := hid.(reportLength := EntryLength(hid, data));
            }
            hid := hid.(phase := 0);
          }
        }
      }
    }

    method StepEndpoint(data: U8)
      modifies `endpoint
      ensures endpoint == NextEndpoint(old(endpoint), frame, data)
    {
      if frame.position >= 2 && frame.kind == ENDPOINT {
        if frame.position == 2 {
          endpoint := endpoint.(address := data);
        } else if frame.position == 3 {
          endpoint := endpoint.(attributes := data);
        } else if frame.position == 4 {
          endpoint := endpoint.(sizeLow := data);
        } else if frame.position == 5 {
          var low: int, high: int := endpoint.sizeLow, data;
          endpoint := endpoint.(size := low + 0x100 * high);
        } else if frame.position == 6 {
          endpoint := endpoint.(interval := data);
        }
      }
    }

    /** The capture at an endpoint's last byte: the table is filled in place. */
    method StepTables(data: U8)
      requires Valid()
      modifies `endpointCount, `out, `outIgnored, table
      ensures Valid()
      ensures Tables(table[..endpointCount], out, outIgnored) == NextTables(old(State()), data)
    {
      var interval := IntervalNow(endpoint, frame, data);
      if Captures(context, frame, endpoint) {
        if IsIn(endpoint.address) {
          if Refusal(State(), data).None? {
            ghost var before := table[..endpointCount];
            table[endpointCount] := InEndpoint(
              context.interfaceNumber, Number(endpoint.address), endpoint.size, interval, hid.reportLength);
            endpointCount := endpointCount + 1;
            assert table[..endpointCount] == before + [table[endpointCount - 1]];
          }
        } else if OutFits(endpoint.address, endpoint.size, interval) && out.None? {
          out := Some(OutBinding(Number(endpoint.address), endpoint.size, interval));
        } else {
          outIgnored := true;
        }
      }
    }

    /** One accepted byte: every register group moves on the same clock edge. */
    method Accept(data: U8, e: Expected)
      requires Valid()
      modifies this, table
      ensures Valid()
      ensures State() == Advance(old(State()), data, e)
    {
      faults := NextFaults(State(), data, e);
      StepTables(data);
      StepEndpoint(data);
      StepHid(data);
      StepContext(data);
      StepFrame(data);
    }

    method Prepare()
      requires Valid()
      modifies this
      ensures Valid()
      ensures State() == Prepared(old(State()))
    {
      frame := Frame(0, 0, 0, 0);
      context := context.(isHid := false, interfaceCount := 0, declared := 0);
      hid := hid.(reportLength := 0);
      faults := Faults(false, false, false);
      endpointCount, out, outIgnored := 0, None, false;
    }

    /** CONFIG_HEADER_WAIT on the bytes one transfer delivered. */
    method ReadHeader(h: seq<U8>) returns (r: Result<Expected>)
      ensures r == HeaderVerdict(h)
    {
      var headerLength: U8, headerType: U8, low: U8, high: U8, value: U8 := 0, 0, 0, 0, 0;
      var headerMalformed, headerUnsupported := false, false;
      var n := 0;
      while n < |h|
        invariant n <= |h|
        invariant n > 0 ==> headerLength == h[0]
        invariant n > 1 ==> headerType == h[1]
        invariant n > 2 ==> low == h[2]
        invariant n > 3 ==> high == h[3]
        invariant headerUnsupported <==> n > 4 && (h[4] == 0 || h[4] > MAX_INTERFACES)
        invariant n > 5 ==> value == h[5]
        invariant headerMalformed <==> n > 5 && h[5] == 0
      {
        if n == 0 {
          headerLength := h[n];
        } else if n == 1 {
          headerType := h[n];
        } else if n == 2 {
          low := h[n];
        } else if n == 3 {
          high := h[n];
        } else if n == 4 {
          headerUnsupported := h[n] == 0 || h[n] > MAX_INTERFACES;
        } else if n == 5 {
          value, headerMalformed := h[n], h[n] == 0;
        }
        n := n + 1;
      }
      var total: nat := low as int + 0x100 * (high as int);
      if n != 9 || headerLength != 9 || headerType != CONFIGURATION || total < 9 || headerMalformed {
        return Err(Malformed);
      }
      if total > MAX_CONFIGURATION_SIZE {
        return Err(Oversized);
      }
      if headerUnsupported {
        return Err(Unsupported);
      }
      return Ok(Expected(total, value));
    }

    /** Both requests, one byte at a time. */
    method Enumerate(h: seq<U8>, d: seq<U8>) returns (r: Result<Tables>)
      requires Valid()
      modifies this, table
      ensures Valid()
      ensures r == Streamed(old(State()), h, d)
    {
      ghost var stale := State();
      var header := ReadHeader(h);
      if header.Err? {
        return Err(header.error);
      }
      Prepare();
      var n := 0;
      while n < |d|
        invariant Valid() && n <= |d|
        invariant State() == Run(Prepared(stale), d, 0, n, header.value)
      {
        Accept(d[n], header.value);
        n := n + 1;
      }
      r := Finish(State(), |d|, header.value);
    }
  }
}
