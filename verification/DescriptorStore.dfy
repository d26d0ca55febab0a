/** The descriptor store: bump allocator, duplicated directories, capture, lookup and serve scans. */
module DescriptorStore {
  type U8 = x: int | 0 <= x < 0x100

  const ENTRY_COUNT: nat := 12
  const STORE_SIZE: nat := 4096

  /** What a descriptor request names: type, index and wIndex. */
  datatype Key = Key(kind: U8, index: U8, wIndex: nat)

  datatype Record = Record(key: Key, start: nat, length: nat)

  type Slot = x: int | 0 <= x < ENTRY_COUNT

  // ---- Registers ----------------------------------------------------------------------------

  datatype Capture = Capture(
    active: bool, allocPending: bool, placed: bool, rejected: bool, overflow: bool,
    slot: Slot, base: nat, length: nat, key: Key)

  /** The memories, the valid bitmap and the allocator. */
  datatype Memory = Memory(
    allocator: nat, valid: seq<bool>, serveDirectory: seq<Record>, adminDirectory: seq<Record>,
    payload: seq<U8>)

  /** Who owns the admin scan; export, copy and device lookups are one client here. */
  datatype AdminPhase = Idle | CaptureScan | LookupScan | OtherClient

  /** fetched is the directory's registered read data. */
  datatype Admin = Admin(
    phase: AdminPhase, slot: Slot, primed: bool, key: Key, fetched: Record,
    matchFound: bool, matchSlot: Slot, freeFound: bool, freeSlot: Slot)

  datatype Lookup = Lookup(
    pending: bool, pendingKey: Key, cacheValid: bool, found: bool, start: nat, length: nat, response: bool)

  datatype Serve = Serve(
    busy: bool, primed: bool, slot: Slot, key: Key, fetched: Record,
    selected: bool, found: bool, start: nat, length: nat, response: bool)

  datatype Read = Read(valid: bool, data: U8)

  datatype Store = Store(
    capture: Capture, memory: Memory, admin: Admin, lookup: Lookup, serve: Serve, read: Read)

  datatype CaptureInput = CaptureInput(
    clear: bool, start: bool, key: Key, valid: bool, data: U8, commit: bool, abort: bool)

  datatype ServeInput = ServeInput(request: bool, key: Key, cancel: bool, offset: nat, readEnable: bool)

  datatype Input = Input(
    capture: CaptureInput, serve: ServeInput, lookupRequest: bool, lookupKey: Key, other: bool)

  // ---- Combinational signals ----------------------------------------------------------------

  predicate CommitOk(c: Capture, i: CaptureInput) {
    c.active && c.placed && !c.rejected && !c.overflow && i.commit && !i.clear
  }

  predicate CaptureReady(c: Capture, allocator: nat) {
    c.active && c.placed && !c.rejected && !c.overflow && allocator < STORE_SIZE
  }

  /** The payload write enable does not look at clear, abort or commit. */
  predicate Writes(c: Capture, allocator: nat, i: CaptureInput) {
    i.valid && CaptureReady(c, allocator)
  }

  /** A byte is counted only on a cycle without abort and commit. */
  predicate Counts(c: Capture, allocator: nat, i: CaptureInput) {
    Writes(c, allocator, i) && !i.clear && !i.abort && !i.commit
  }

  function RecordOf(c: Capture): Record { Record(c.key, c.base, c.length) }

  predicate Shaped(m: Memory) {
    |m.valid| == |m.serveDirectory| == |m.adminDirectory| == ENTRY_COUNT && |m.payload| == STORE_SIZE
  }

  function NextAddress(slot: Slot, primed: bool): Slot {
    if primed && slot != ENTRY_COUNT - 1 then slot + 1 else slot
  }

  predicate AdminMatches(a: Admin, m: Memory)
    requires Shaped(m)
  {
    m.valid[a.slot] && a.fetched.key == a.key
  }

  /** The last directory entry of a capture scan decides. */
  predicate ScanEnds(c: Capture, a: Admin) {
    a.phase == CaptureScan && c.active && a.primed && a.slot == ENTRY_COUNT - 1
  }

  /** An abort, or a commit of an allocated capture, takes the admin scan back. */
  predicate ScanCancelled(c: Capture, a: Admin, i: CaptureInput) {
    a.phase == CaptureScan && c.active && (i.abort || (i.commit && c.placed))
  }

  predicate ServeMatches(v: Serve, m: Memory)
    requires Shaped(m)
  {
    v.busy && v.primed && m.valid[v.slot] && v.fetched.key == v.key
  }

  predicate ServeReady(v: Serve, commitOk: bool, clear: bool, cancel: bool) {
    !clear && !commitOk && ((!v.busy && !v.selected) || cancel)
  }

  // ---- One clock edge -----------------------------------------------------------------------

  function NextMemory(m: Memory, c: Capture, i: CaptureInput): Memory
    requires Shaped(m)
  {
    var payload := if Writes(c, m.allocator, i) then m.payload[m.allocator := i.data] else m.payload;
    var ok, record := CommitOk(c, i), RecordOf(c);
    var serveDirectory := if ok then m.serveDirectory[c.slot := record] else m.serveDirectory;
    var adminDirectory := if ok then m.adminDirectory[c.slot := record] else m.adminDirectory;
    if i.clear then
      Memory(0, seq(ENTRY_COUNT, _ => false), serveDirectory, adminDirectory, payload)
    else if c.active && i.abort then
      Memory(c.base, m.valid, serveDirectory, adminDirectory, payload)
    else if c.active && i.commit then
      if ok then Memory(m.allocator, m.valid[c.slot := true], serveDirectory, adminDirectory, payload)
      else Memory(c.base, m.valid, serveDirectory, adminDirectory, payload)
    else
      Memory(if Counts(c, m.allocator, i) then m.allocator + 1 else m.allocator, m.valid,
             serveDirectory, adminDirectory, payload)
  }

  /** The capture registers before the scan's last entry has its say. */
  function Captured(c: Capture, allocator: nat, i: CaptureInput): Capture {
    if i.clear then Capture(false, false, false, false, false, c.slot, 0, 0, c.key)
    else if !c.active then
      if i.start then Capture(true, true, false, false, false, c.slot, allocator, 0, i.key) else c
    else if i.abort then Capture(false, false, false, false, false, c.slot, c.base, c.length, c.key)
    else if i.commit then Capture(false, false, false, c.rejected, c.overflow, c.slot, c.base, c.length, c.key)
    else if i.valid && c.placed then
      if CaptureReady(c, allocator) then
        Capture(true, c.allocPending, true, c.rejected, c.overflow, c.slot, c.base, c.length + 1, c.key)
      else Capture(true, c.allocPending, true, c.rejected, true, c.slot, c.base, c.length, c.key)
    else c
  }

  function NextCapture(c: Capture, m: Memory, a: Admin, i: CaptureInput): Capture
    requires Shaped(m)
  {
    var n := Captured(c, m.allocator, i);
    if i.clear || ScanCancelled(c, a, i) then n
    else if a.phase == Idle && c.allocPending then
      Capture(n.active, false, n.placed, n.rejected, n.overflow, n.slot, n.base, n.length, n.key)
    else if ScanEnds(c, a) then
      var anyMatch, anyFree := a.matchFound || AdminMatches(a, m), a.freeFound || !m.valid[a.slot];
      var slot := if a.matchFound then a.matchSlot else if AdminMatches(a, m) then a.slot
                  else if a.freeFound then a.freeSlot else a.slot;
      Capture(n.active, n.allocPending, true, !anyMatch && !anyFree, !anyMatch && !anyFree, slot,
              n.base, n.length, n.key)
    else n
  }

  function NextAdmin(a: Admin, c: Capture, m: Memory, l: Lookup, i: Input): Admin
    requires Shaped(m)
  {
    var fetched := m.adminDirectory[NextAddress(a.slot, a.primed)];
    if i.capture.clear || ScanCancelled(c, a, i.capture) then
      Admin(Idle, a.slot, false, a.key, fetched, a.matchFound, a.matchSlot, a.freeFound, a.freeSlot)
    else
      match a.phase
      case Idle =>
        if c.allocPending then
          Admin(CaptureScan, 0, false, c.key, fetched, false, a.matchSlot, false, a.freeSlot)
        else if l.pending then
          Admin(LookupScan, 0, false, l.pendingKey, fetched, a.matchFound, a.matchSlot, a.freeFound, a.freeSlot)
        else
          Admin(if i.other then OtherClient else Idle, a.slot, false, a.key, fetched,
                a.matchFound, a.matchSlot, a.freeFound, a.freeSlot)
      case CaptureScan =>
        if !c.active || ScanEnds(c, a) then
          Admin(Idle, a.slot, false, a.key, fetched, a.matchFound, a.matchSlot, a.freeFound, a.freeSlot)
        else if !a.primed then
          Admin(CaptureScan, a.slot, true, a.key, fetched, a.matchFound, a.matchSlot, a.freeFound, a.freeSlot)
        else
          var matches, free := AdminMatches(a, m), !m.valid[a.slot];
          Admin(CaptureScan, a.slot + 1, true, a.key, fetched,
                a.matchFound || matches, if matches && !a.matchFound then a.slot else a.matchSlot,
                a.freeFound || free, if free && !a.freeFound then a.slot else a.freeSlot)
      case LookupScan =>
        if !a.primed then
          Admin(LookupScan, a.slot, true, a.key, fetched, a.matchFound, a.matchSlot, a.freeFound, a.freeSlot)
        else if AdminMatches(a, m) || a.slot == ENTRY_COUNT - 1 then
          Admin(Idle, a.slot, false, a.key, fetched, a.matchFound, a.matchSlot, a.freeFound, a.freeSlot)
        else
          Admin(LookupScan, a.slot + 1, true, a.key, fetched, a.matchFound, a.matchSlot, a.freeFound, a.freeSlot)
      case OtherClient =>
        Admin(if i.other then OtherClient else Idle, a.slot, false, a.key, fetched,
              a.matchFound, a.matchSlot, a.freeFound, a.freeSlot)
  }

  /** A scan result overrides the invalidation a commit asks for on the same edge. */
  function NextLookup(l: Lookup, a: Admin, m: Memory, commitOk: bool, i: Input): Lookup
    requires Shaped(m)
  {
    if i.capture.clear then Lookup(false, l.pendingKey, false, false, l.start, 0, false)
    else
      var takes := i.lookupRequest && !l.pending && a.phase != LookupScan;
      var starts := a.phase == Idle && l.pending;
      var pending := takes || l.pending;
      var key := if takes then i.lookupKey else l.pendingKey;
      if a.phase == LookupScan && a.primed && AdminMatches(a, m) then
        Lookup(pending, key, true, true, a.fetched.start, a.fetched.length, true)
      else if a.phase == LookupScan && a.primed && a.slot == ENTRY_COUNT - 1 then
        Lookup(pending, key, true, false, 0, 0, true)
      else
        Lookup(pending, key, l.cacheValid && !(commitOk && !i.capture.abort), l.found, l.start, l.length, false)
  }

  function NextServe(v: Serve, m: Memory, commitOk: bool, clear: bool, i: ServeInput): Serve
    requires Shaped(m)
  {
    var fetched := m.serveDirectory[NextAddress(v.slot, v.primed)];
    var takes := i.request && ServeReady(v, commitOk, clear, i.cancel);
    if clear || commitOk || (i.cancel && !takes) then
      Serve(false, false, v.slot, v.key, fetched, false, false, v.start, 0, false)
    else if takes then
      Serve(true, false, 0, i.key, fetched, false, false, v.start, 0, false)
    else if !v.busy then
      Serve(false, v.primed, v.slot, v.key, fetched, v.selected, v.found, v.start, v.length, false)
    else if !v.primed then
      Serve(true, true, v.slot, v.key, fetched, v.selected, v.found, v.start, v.length, false)
    else if ServeMatches(v, m) then
      Serve(false, false, v.slot, v.key, fetched, true, true, v.fetched.start, v.fetched.length, true)
    else if v.slot == ENTRY_COUNT - 1 then
      Serve(false, false, v.slot, v.key, fetched, false, false, v.start, 0, true)
    else
      Serve(true, true, v.slot + 1, v.key, fetched, v.selected, v.found, v.start, v.length, false)
  }

  /** The serve port presents an address: from its cached selection, or straight off a match. */
  predicate Presents(v: Serve, m: Memory, i: ServeInput)
    requires Shaped(m)
  {
    if ServeMatches(v, m) then i.offset < v.fetched.length
    else v.selected && i.readEnable && v.found && i.offset < v.length
  }

  function Address(v: Serve, m: Memory, i: ServeInput): nat
    requires Shaped(m)
  {
    ((if ServeMatches(v, m) then v.fetched.start else v.start) + i.offset) % STORE_SIZE
  }

  function NextRead(v: Serve, m: Memory, i: ServeInput): Read
    requires Shaped(m)
  {
    if Presents(v, m, i) then Read(true, m.payload[Address(v, m, i)]) else Read(false, 0)
  }

  function Next(s: Store, i: Input): (t: Store)
    requires Shaped(s.memory)
    ensures Shaped(t.memory)
  {
    var ok := CommitOk(s.capture, i.capture);
    Store(
      NextCapture(s.capture, s.memory, s.admin, i.capture),
      NextMemory(s.memory, s.capture, i.capture),
      NextAdmin(s.admin, s.capture, s.memory, s.lookup, i),
      NextLookup(s.lookup, s.admin, s.memory, ok, i),
      NextServe(s.serve, s.memory, ok, i.capture.clear, i.serve),
      NextRead(s.serve, s.memory, i.serve))
  }

  // ---- The machine --------------------------------------------------------------------------

  class StoreMachine {
    var capture: Capture
    var admin: Admin
    var lookup: Lookup
    var serve: Serve
    var read: Read
    var allocator: nat
    const valid: array<bool>
    const serveDirectory: array<Record>
    const adminDirectory: array<Record>
    const payload: array<U8>

    constructor ()
      ensures Valid() && fresh(valid) && fresh(serveDirectory) && fresh(adminDirectory) && fresh(payload)
    {
      valid := new bool[ENTRY_COUNT];
      serveDirectory := new Record[ENTRY_COUNT];
      adminDirectory := new Record[ENTRY_COUNT];
      payload := new U8[STORE_SIZE];
      allocator := 0;
    }

    ghost predicate Valid() {
      valid.Length == serveDirectory.Length == adminDirectory.Length == ENTRY_COUNT &&
      payload.Length == STORE_SIZE && serveDirectory != adminDirectory
    }

    function Contents(): (m: Memory)
      reads this, valid, serveDirectory, adminDirectory, payload
      requires Valid()
      ensures Shaped(m)
    {
      Memory(allocator, valid[..], serveDirectory[..], adminDirectory[..], payload[..])
    }

    function State(): (s: Store)
      reads this, valid, serveDirectory, adminDirectory, payload
      requires Valid()
      ensures Shaped(s.memory)
    {
      Store(capture, Contents(), admin, lookup, serve, read)
    }

    /** The write ports, then the allocator and the valid bitmap. */
    method StepMemory(capture: Capture, i: CaptureInput)
      requires Valid()
      modifies `allocator, valid, serveDirectory, adminDirectory, payload
      ensures Contents() == NextMemory(old(Contents()), capture, i)
    {
      var ok, counts := CommitOk(capture, i), Counts(capture, allocator, i);
      if Writes(capture, allocator, i) {
        payload[allocator] := i.data;
      }
      if ok {
        serveDirectory[capture.slot] := RecordOf(capture);
        adminDirectory[capture.slot] := RecordOf(capture);
      }
      if i.clear {
        forall j | 0 <= j < valid.Length {
          valid[j] := false;
        }
        allocator := 0;
        assert valid[..] == seq(ENTRY_COUNT, _ => false);
      } else if capture.active && i.abort {
        allocator := capture.base;
      } else if capture.active && i.commit {
        if ok {
          valid[capture.slot] := true;
        } else {
          allocator := capture.base;
        }
      } else if counts {
        allocator := allocator + 1;
      }
    }

    /** The capture state machine, then the admin scan's say over the same registers. */
    method StepCapture(i: CaptureInput)
      requires Valid()
      modifies `capture
      ensures capture == NextCapture(old(capture), Contents(), admin, i)
    {
      var c, m := capture, Contents();
      if i.clear {
        capture := c.(active := false, allocPending := false, placed := false, rejected := false,
                      overflow := false, base := 0, length := 0);
      } else if !c.active {
        if i.start {
          capture := Capture(true, true, false, false, false, c.slot, allocator, 0, i.key);
        }
      } else if i.abort {
        capture := c.(active := false, allocPending := false, placed := false, rejected := false,
                      overflow := false);
      } else if i.commit {
        capture := c.(active := false, allocPending := false, placed := false);
      } else if i.valid && c.placed {
        if CaptureReady(c, allocator) {
          capture := c.(length := c.length + 1);
        } else {
          capture := c.(overflow := true);
        }
      }
      if !i.clear && !ScanCancelled(c, admin, i) {
        if admin.phase == Idle && c.allocPending {
          capture := capture.(allocPending := false);
        } else if ScanEnds(c, admin) {
          var anyMatch := admin.matchFound || AdminMatches(admin, m);
          var anyFree := admin.freeFound || !valid[admin.slot];
          var full := !anyMatch && !anyFree;
          var slot := admin.slot;
          if admin.matchFound {
            slot := admin.matchSlot;
          } else if !AdminMatches(admin, m) && admin.freeFound {
            slot := admin.freeSlot;
          }
          capture := capture.(placed := true, rejected := full, overflow := full, slot := slot);
        }
      }
    }

    /** One directory entry of a capture scan: only the first match and the first free slot count. */
    method ScanEntry(matches: bool, free: bool)
      requires admin.slot < ENTRY_COUNT - 1
      modifies `admin
      ensures var a := old(admin);
              admin == Admin(a.phase, a.slot + 1, a.primed, a.key, a.fetched,
                             a.matchFound || matches, if matches && !a.matchFound then a.slot else a.matchSlot,
                             a.freeFound || free, if free && !a.freeFound then a.slot else a.freeSlot)
    {
      if matches && !admin.matchFound {
        admin := admin.(matchFound := true, matchSlot := admin.slot);
      }
      if free && !admin.freeFound {
        admin := admin.(freeFound := true, freeSlot := admin.slot);
      }
      admin := admin.(slot := admin.slot + 1);
    }

    /** The idle directory port picks its next client: captures first. */
    method StartScan(c: Capture, l: Lookup, i: Input)
      requires Valid() && admin.phase == Idle && !i.capture.clear
      modifies `admin
      ensures admin == NextAdmin(old(admin), c, Contents(), l, i)
    {
      var a := admin;
      admin := a.(fetched := adminDirectory[NextAddress(a.slot, a.primed)], primed := false);
      if c.allocPending {
        admin := admin.(phase := CaptureScan, slot := 0, key := c.key, matchFound := false, freeFound := false);
      } else if l.pending {
        admin := admin.(phase := LookupScan, slot := 0, key := l.pendingKey);
      } else if i.other {
        admin := admin.(phase := OtherClient);
      }
    }

    /** A running scan: prime, then one entry a cycle. */
    method AdvanceScan(c: Capture, l: Lookup, i: Input)
      requires Valid() && (admin.phase == CaptureScan || admin.phase == LookupScan)
      requires !i.capture.clear && !ScanCancelled(c, admin, i.capture)
      modifies `admin
      ensures admin == NextAdmin(old(admin), c, Contents(), l, i)
    {
      var a, m := admin, Contents();
      admin := a.(fetched := adminDirectory[NextAddress(a.slot, a.primed)]);
      if a.phase == CaptureScan && !c.active {
        admin := admin.(phase := Idle, primed := false);
      } else if !a.primed {
        admin := admin.(primed := true);
      } else if a.slot == ENTRY_COUNT - 1 || (a.phase == LookupScan && AdminMatches(a, m)) {
        admin := admin.(phase := Idle, primed := false);
      } else if a.phase == CaptureScan {
        ScanEntry(AdminMatches(a, m), !valid[a.slot]);
      } else {
        admin := admin.(slot := a.slot + 1);
      }
    }

    /** The shared directory port: one scan at a time. */
    method StepAdmin(c: Capture, l: Lookup, i: Input)
      requires Valid()
      modifies `admin
      ensures admin == NextAdmin(old(admin), c, Contents(), l, i)
    {
      var a := admin;
      if i.capture.clear || ScanCancelled(c, a, i.capture) {
        admin := a.(phase := Idle, primed := false, fetched := adminDirectory[NextAddress(a.slot, a.primed)]);
      } else if a.phase == Idle {
        StartScan(c, l, i);
      } else if a.phase == OtherClient {
        admin := a.(phase := if i.other then OtherClient else Idle, primed := false,
                    fetched := adminDirectory[NextAddress(a.slot, a.primed)]);
      } else {
        AdvanceScan(c, l, i);
      }
    }

    method StepLookup(a: Admin, commitOk: bool, i: Input)
      requires Valid()
      modifies `lookup
      ensures lookup == NextLookup(old(lookup), a, Contents(), commitOk, i)
    {
      var l := lookup;
      if i.capture.clear {
        lookup := l.(pending := false, cacheValid := false, found := false, length := 0, response := false);
        return;
      }
      lookup := l.(response := false);
      if i.lookupRequest && !l.pending && a.phase != LookupScan {
        lookup := lookup.(pending := true, pendingKey := i.lookupKey);
      }
      if commitOk && !i.capture.abort {
        lookup := lookup.(cacheValid := false);
      }
      if a.phase == LookupScan && a.primed {
        if AdminMatches(a, Contents()) {
          lookup := lookup.(cacheValid := true, found := true, start := a.fetched.start,
                            length := a.fetched.length, response := true);
        } else if a.slot == ENTRY_COUNT - 1 {
          lookup := lookup.(cacheValid := true, found := false, start := 0, length := 0, response := true);
        }
      }
    }

    method StepServe(commitOk: bool, clear: bool, i: ServeInput)
      requires Valid()
      modifies `serve
      ensures serve == NextServe(old(serve), Contents(), commitOk, clear, i)
    {
      var v, m := serve, Contents();
      var takes := i.request && ServeReady(v, commitOk, clear, i.cancel);
      serve := v.(response := false, fetched := serveDirectory[NextAddress(v.slot, v.primed)]);
      if clear || commitOk || (i.cancel && !takes) {
        serve := serve.(busy := false, primed := false, selected := false, found := false, length := 0);
      } else if takes {
        serve := serve.(busy := true, primed := false, selected := false, found := false, length := 0,
                        slot := 0, key := i.key);
      } else if v.busy {
        if !v.primed {
          serve := serve.(primed := true);
        } else if ServeMatches(v, m) {
          serve := serve.(busy := false, primed := false, selected := true, found := true,
                          start := v.fetched.start, length := v.fetched.length, response := true);
        } else if v.slot == ENTRY_COUNT - 1 {
          serve := serve.(busy := false, primed := false, selected := false, found := false, length := 0,
                          response := true);
        } else {
          serve := serve.(slot := v.slot + 1);
        }
      }
    }

    method Tick(i: Input)
      requires Valid()
      modifies this, valid, serveDirectory, adminDirectory, payload
      ensures State() == Next(old(State()), i)
    {
      var c, a, l, ok := capture, admin, lookup, CommitOk(capture, i.capture);
      read := NextRead(serve, Contents(), i.serve);
      StepServe(ok, i.capture.clear, i.serve);
      StepLookup(a, ok, i);
      StepCapture(i.capture);
      StepAdmin(c, l, i);
      StepMemory(c, i.capture);
    }
  }
}
