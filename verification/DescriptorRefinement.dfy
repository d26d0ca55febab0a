/** The descriptor store refines a map from request keys to descriptor bytes. */
module DescriptorRefinement {
  import opened DescriptorStore

  datatype Option<T> = None | Some(value: T)

  /** A commit that landed on a lookup scan: the slot and key it wrote, the bytes it committed, the record it
   *  replaced there, that record's bytes, and the slot the scan was reading on that cycle. */
  datatype Hit = Hit(slot: Slot, key: Key, bytes: seq<U8>, replaced: Record, before: Option<seq<U8>>, read: Slot)

  /** What the store stands for: the committed descriptors, the bytes of the open capture, the key of
   *  the last lookup scan and the commit that landed on it. */
  datatype Abstract = Abstract(
    contents: map<Key, seq<U8>>, captured: seq<U8>, lookupKey: Key, hit: Option<Hit>)

  predicate Commits(c: Capture, i: CaptureInput) { CommitOk(c, i) && !i.abort }

  function NextContents(g: Abstract, c: Capture, i: CaptureInput): map<Key, seq<U8>> {
    if i.clear then map[] else if Commits(c, i) then g.contents[c.key := g.captured] else g.contents
  }

  function NextCaptured(g: Abstract, c: Capture, allocator: nat, i: CaptureInput): seq<U8> {
    if !c.active then [] else if Counts(c, allocator, i) then g.captured + [i.data] else g.captured
  }

  /** What a record's range holds, if it lies in the memory. */
  function BytesOf(payload: seq<U8>, r: Record): Option<seq<U8>> {
    if r.start + r.length <= |payload| then Some(payload[r.start..r.start + r.length]) else None
  }

  function NextHit(g: Abstract, s: Store, i: Input): Option<Hit>
    requires Shaped(s.memory)
  {
    var a, c := s.admin, s.capture;
    if a.phase == Idle && !c.allocPending && s.lookup.pending then None
    else if a.phase == LookupScan && Commits(c, i.capture) then
      var replaced := s.memory.serveDirectory[c.slot];
      Some(Hit(c.slot, c.key, g.captured, replaced, BytesOf(AfterWrite(s.memory, c, i.capture).payload, replaced),
               NextAddress(a.slot, a.primed)))
    else g.hit
  }

  function NextAbstract(g: Abstract, s: Store, i: Input): Abstract
    requires Shaped(s.memory)
  {
    var starts := s.admin.phase == Idle && !s.capture.allocPending && s.lookup.pending;
    Abstract(
      NextContents(g, s.capture, i.capture),
      NextCaptured(g, s.capture, s.memory.allocator, i.capture),
      if starts then s.lookup.pendingKey else g.lookupKey,
      NextHit(g, s, i))
  }

  // ---- What the memories say ----------------------------------------------------------------

  predicate Matches(valid: seq<bool>, directory: seq<Record>, j: int, key: Key) {
    0 <= j < |valid| && j < |directory| && valid[j] && directory[j].key == key
  }

  predicate Absent(valid: seq<bool>, directory: seq<Record>, key: Key, n: nat) {
    forall j :: 0 <= j < n ==> !Matches(valid, directory, j, key)
  }

  predicate Holds(payload: seq<U8>, start: nat, length: nat, bytes: seq<U8>) {
    start + length <= |payload| && payload[start..start + length] == bytes
  }

  predicate Stored(r: Record, payload: seq<U8>, contents: map<Key, seq<U8>>, bound: nat) {
    r.key in contents && r.start + r.length <= bound && Holds(payload, r.start, r.length, contents[r.key])
  }

  predicate Apart(a: Record, b: Record) {
    a.key != b.key && (a.start + a.length <= b.start || b.start + b.length <= a.start)
  }

  /** Valid slots have distinct keys, disjoint ranges below the bound, and the map's bytes. */
  predicate Represents(m: Memory, contents: map<Key, seq<U8>>, bound: nat)
    requires Shaped(m)
  {
    (forall j :: 0 <= j < ENTRY_COUNT && m.valid[j] ==>
       Stored(m.serveDirectory[j], m.payload, contents, bound)) &&
    (forall j, k :: 0 <= j < k < ENTRY_COUNT && m.valid[j] && m.valid[k] ==>
       Apart(m.serveDirectory[j], m.serveDirectory[k])) &&
    (forall key :: key in contents ==>
       exists j :: 0 <= j < ENTRY_COUNT && Matches(m.valid, m.serveDirectory, j, key))
  }

  /** Everything committed lies below this: the open capture's base, or the allocator. */
  function Bound(c: Capture, allocator: nat): nat { if c.active then c.base else allocator }

  predicate MemoryInv(m: Memory, c: Capture, g: Abstract) {
    Shaped(m) && m.allocator <= STORE_SIZE && m.serveDirectory == m.adminDirectory &&
    Bound(c, m.allocator) <= m.allocator &&
    Represents(m, g.contents, Bound(c, m.allocator))
  }

  /** A slot a capture may take: the key's own, or a free one when the key has none. */
  predicate Placed(m: Memory, slot: int, key: Key)
    requires Shaped(m)
  {
    Matches(m.valid, m.serveDirectory, slot, key) ||
    (0 <= slot < ENTRY_COUNT && !m.valid[slot] && Absent(m.valid, m.serveDirectory, key, ENTRY_COUNT))
  }

  predicate Full(m: Memory, key: Key)
    requires Shaped(m)
  {
    Absent(m.valid, m.serveDirectory, key, ENTRY_COUNT) && forall j :: 0 <= j < ENTRY_COUNT ==> m.valid[j]
  }

  predicate CaptureInv(c: Capture, m: Memory, g: Abstract)
    requires Shaped(m)
  {
    (c.allocPending ==> c.active && !c.placed) &&
    (c.active ==>
       c.base + c.length == m.allocator && Holds(m.payload, c.base, c.length, g.captured) &&
       (!c.placed ==> c.length == 0 && !c.rejected && !c.overflow) &&
       (c.placed && !c.rejected ==> Placed(m, c.slot, c.key)) &&
       (c.placed && c.rejected ==> c.overflow && Full(m, c.key)))
  }

  // ---- Scans --------------------------------------------------------------------------------

  predicate Scanning(m: Memory, slot: int, primed: bool, fetched: Record, key: Key)
    requires Shaped(m)
  {
    0 <= slot < ENTRY_COUNT && (if primed then fetched == m.serveDirectory[slot] else slot == 0) &&
    Absent(m.valid, m.serveDirectory, key, slot)
  }

  predicate CaptureScanInv(a: Admin, c: Capture, m: Memory)
    requires Shaped(m)
  {
    a.phase == CaptureScan && c.active ==>
      !c.allocPending && !c.placed && a.key == c.key &&
      (if a.primed then a.fetched == m.serveDirectory[a.slot]
       else a.slot == 0 && !a.matchFound && !a.freeFound) &&
      (if a.matchFound then Matches(m.valid, m.serveDirectory, a.matchSlot, a.key)
       else Absent(m.valid, m.serveDirectory, a.key, a.slot)) &&
      (if a.freeFound then !m.valid[a.freeSlot]
       else forall j :: 0 <= j < a.slot ==> m.valid[j])
  }

  /** A registered answer: found exactly if the map has the key, and then where its bytes are. */
  predicate Answered(m: Memory, found: bool, start: nat, length: nat, key: Key,
                     contents: map<Key, seq<U8>>, bound: nat)
  {
    (found <==> key in contents) &&
    (found ==> start + length <= bound && Holds(m.payload, start, length, contents[key]))
  }

  /** A lookup scan some commit has landed on: all it passed over without a match, save a slot written
   *  behind its back, and a register that may still hold the record the commit replaced. */
  predicate HitScan(a: Admin, c: Capture, m: Memory, x: Hit)
    requires Shaped(m)
  {
    a.primed && x.read <= a.slot && !(c.active && c.placed) && m.valid[x.slot] &&
    m.serveDirectory[x.slot].key == x.key &&
    a.fetched == (if a.slot == x.read && x.slot == x.read then x.replaced else m.serveDirectory[a.slot]) &&
    (x.slot == x.read < a.slot ==> x.replaced.key != a.key) &&
    forall j :: 0 <= j < a.slot && Matches(m.valid, m.serveDirectory, j, a.key) ==> j == x.slot <= x.read
  }

  predicate LookupInv(l: Lookup, a: Admin, c: Capture, m: Memory, g: Abstract, bound: nat)
    requires Shaped(m)
  {
    (a.phase == LookupScan ==>
       a.key == g.lookupKey &&
       if g.hit.Some? then HitScan(a, c, m, g.hit.value) else Scanning(m, a.slot, a.primed, a.fetched, a.key)) &&
    (l.cacheValid && a.phase != LookupScan && g.hit.None? ==>
       Answered(m, l.found, l.start, l.length, g.lookupKey, g.contents, bound))
  }

  predicate ServeInv(v: Serve, m: Memory, g: Abstract, bound: nat)
    requires Shaped(m)
  {
    (v.found <==> v.selected) && (v.busy ==> !v.selected && Scanning(m, v.slot, v.primed, v.fetched, v.key)) &&
    (v.selected ==> Answered(m, true, v.start, v.length, v.key, g.contents, bound)) &&
    (v.response ==> Answered(m, v.found, v.start, v.length, v.key, g.contents, bound))
  }

  predicate Inv(s: Store, g: Abstract) {
    var bound := Bound(s.capture, s.memory.allocator);
    MemoryInv(s.memory, s.capture, g) && CaptureInv(s.capture, s.memory, g) &&
    CaptureScanInv(s.admin, s.capture, s.memory) && ServeInv(s.serve, s.memory, g, bound) &&
    LookupInv(s.lookup, s.admin, s.capture, s.memory, g, bound)
  }

  // ---- Every step keeps it, as long as a commit and an abort never coincide -----------------

  /** The enumerator never asks for both on one cycle. */
  predicate Proper(c: Capture, i: CaptureInput) { !(CommitOk(c, i) && i.abort) }

  lemma SliceKept(payload: seq<U8>, at: nat, x: U8, start: nat, length: nat, bytes: seq<U8>)
    requires Holds(payload, start, length, bytes) && start + length <= at < |payload|
    ensures Holds(payload[at := x], start, length, bytes)
  {
  }

  lemma WriteKept(m: Memory, contents: map<Key, seq<U8>>, bound: nat, x: U8)
    requires Shaped(m) && Represents(m, contents, bound) && bound <= m.allocator < STORE_SIZE
    ensures Represents(m.(payload := m.payload[m.allocator := x]), contents, bound)
  {
    var n := m.(payload := m.payload[m.allocator := x]);
    forall j | 0 <= j < ENTRY_COUNT && m.valid[j]
      ensures Stored(n.serveDirectory[j], n.payload, contents, bound)
    {
      var r := m.serveDirectory[j];
      SliceKept(m.payload, m.allocator, x, r.start, r.length, contents[r.key]);
    }
  }

  function Committed(m: Memory, c: Capture): Memory
    requires Shaped(m)
  {
    m.(valid := m.valid[c.slot := true], serveDirectory := m.serveDirectory[c.slot := RecordOf(c)])
  }

  /** The other valid slots stay, and none of them has the committed key. */
  lemma OthersStay(m: Memory, contents: map<Key, seq<U8>>, c: Capture, j: int)
    requires Shaped(m) && Represents(m, contents, c.base) && Placed(m, c.slot, c.key)
    requires 0 <= j < ENTRY_COUNT && j != c.slot && m.valid[j]
    ensures m.serveDirectory[j].key != c.key
    ensures Apart(m.serveDirectory[j], RecordOf(c)) && Apart(RecordOf(c), m.serveDirectory[j])
  {
    if Matches(m.valid, m.serveDirectory, c.slot, c.key) {
      assert if j < c.slot then Apart(m.serveDirectory[j], m.serveDirectory[c.slot])
             else Apart(m.serveDirectory[c.slot], m.serveDirectory[j]);
    } else {
      assert !Matches(m.valid, m.serveDirectory, j, c.key);
    }
  }

  lemma CommitCovers(m: Memory, contents: map<Key, seq<U8>>, c: Capture, key: Key)
    requires Shaped(m) && Represents(m, contents, c.base)
    requires Placed(m, c.slot, c.key) && (key in contents || key == c.key)
    ensures var n := Committed(m, c);
            exists j :: 0 <= j < ENTRY_COUNT && Matches(n.valid, n.serveDirectory, j, key)
  {
    var n := Committed(m, c);
    if key == c.key {
      assert Matches(n.valid, n.serveDirectory, c.slot, key);
    } else {
      var j :| 0 <= j < ENTRY_COUNT && Matches(m.valid, m.serveDirectory, j, key);
      assert Matches(n.valid, n.serveDirectory, j, key);
    }
  }

  /** A commit adds or replaces exactly one key. */
  lemma CommitRepresents(m: Memory, contents: map<Key, seq<U8>>, c: Capture, bytes: seq<U8>)
    requires Shaped(m) && Represents(m, contents, c.base)
    requires Placed(m, c.slot, c.key) && Holds(m.payload, c.base, c.length, bytes)
    ensures Represents(Committed(m, c), contents[c.key := bytes], c.base + c.length)
  {
    var n, after := Committed(m, c), contents[c.key := bytes];
    forall j | 0 <= j < ENTRY_COUNT && n.valid[j]
      ensures Stored(n.serveDirectory[j], n.payload, after, c.base + c.length)
    {
      if j != c.slot {
        OthersStay(m, contents, c, j);
        assert Stored(m.serveDirectory[j], m.payload, contents, c.base);
      }
    }
    forall j, k | 0 <= j < k < ENTRY_COUNT && n.valid[j] && n.valid[k]
      ensures Apart(n.serveDirectory[j], n.serveDirectory[k])
    {
      if j != c.slot {
        OthersStay(m, contents, c, j);
      }
      if k != c.slot {
        OthersStay(m, contents, c, k);
      }
    }
    forall key | key in after
      ensures exists j :: 0 <= j < ENTRY_COUNT && Matches(n.valid, n.serveDirectory, j, key)
    {
      CommitCovers(m, contents, c, key);
    }
  }

  lemma MemoryKept(m: Memory, c: Capture, a: Admin, g: Abstract, i: CaptureInput)
    requires MemoryInv(m, c, g) && CaptureInv(c, m, g) && Proper(c, i)
    ensures var n, d := NextMemory(m, c, i), NextCapture(c, m, a, i);
            Shaped(n) && n.allocator <= STORE_SIZE && n.serveDirectory == n.adminDirectory &&
            Bound(d, n.allocator) <= n.allocator &&
            Represents(n, NextContents(g, c, i), Bound(d, n.allocator))
  {
    if Writes(c, m.allocator, i) {
      WriteKept(m, g.contents, c.base, i.data);
    }
    if Commits(c, i) {
      var w := if Writes(c, m.allocator, i) then m.(payload := m.payload[m.allocator := i.data]) else m;
      CommitRepresents(w, g.contents, c, g.captured);
      assert NextMemory(m, c, i).(adminDirectory := w.adminDirectory) == Committed(w, c);
    }
  }

  lemma WriteExtends(payload: seq<U8>, x: U8, start: nat, length: nat, bytes: seq<U8>)
    requires Holds(payload, start, length, bytes) && start + length < |payload|
    ensures Holds(payload[start + length := x], start, length, bytes)
    ensures Holds(payload[start + length := x], start, length + 1, bytes + [x])
  {
    var written := payload[start + length := x];
    assert written[start..start + length] == bytes;
    assert written[start..start + length + 1] == written[start..start + length] + [x];
  }

  /** The captured bytes stay where they were written. */
  lemma CapturedKept(m: Memory, c: Capture, a: Admin, g: Abstract, i: CaptureInput)
    requires MemoryInv(m, c, g) && CaptureInv(c, m, g)
    ensures var n, d := NextMemory(m, c, i), NextCapture(c, m, a, i);
            d.active ==> d.base + d.length == n.allocator &&
                         Holds(n.payload, d.base, d.length, NextCaptured(g, c, m.allocator, i))
  {
    if Writes(c, m.allocator, i) {
      WriteExtends(m.payload, i.data, c.base, c.length, g.captured);
    }
  }

  /** Slots and keys move only on a clear or a commit. */
  lemma DirectoryStays(m: Memory, c: Capture, i: CaptureInput)
    requires Shaped(m) && Proper(c, i) && !i.clear && !CommitOk(c, i)
    ensures var n := NextMemory(m, c, i);
            n.valid == m.valid && n.serveDirectory == m.serveDirectory &&
            n.adminDirectory == m.adminDirectory
  {
  }

  /** The scan's verdict: the first match, or else the first free slot, or else the store is full. */
  lemma ScanVerdict(c: Capture, m: Memory, a: Admin, i: CaptureInput)
    requires Shaped(m) && m.serveDirectory == m.adminDirectory
    requires CaptureScanInv(a, c, m) && ScanEnds(c, a)
    requires !i.clear && !ScanCancelled(c, a, i)
    ensures var d := NextCapture(c, m, a, i);
            d.placed && (d.rejected <==> d.overflow) &&
            (if d.rejected then Full(m, c.key) else Placed(m, d.slot, c.key))
  {
    var last := a.slot;
    assert AdminMatches(a, m) <==> Matches(m.valid, m.serveDirectory, last, a.key);
  }

  lemma CaptureKept(m: Memory, c: Capture, a: Admin, g: Abstract, i: CaptureInput, h: Abstract)
    requires MemoryInv(m, c, g) && CaptureInv(c, m, g) && CaptureScanInv(a, c, m) && Proper(c, i)
    requires h.captured == NextCaptured(g, c, m.allocator, i)
    ensures CaptureInv(NextCapture(c, m, a, i), NextMemory(m, c, i), h)
  {
    CapturedKept(m, c, a, g, i);
    if !i.clear && !CommitOk(c, i) {
      DirectoryStays(m, c, i);
      if ScanEnds(c, a) && !ScanCancelled(c, a, i) {
        ScanVerdict(c, m, a, i);
      }
    }
  }

  /** One directory entry of a capture scan. */
  lemma ScanAdvances(c: Capture, d: Capture, m: Memory, n: Memory, a: Admin, l: Lookup, i: Input)
    requires Shaped(m) && Shaped(n) && m.serveDirectory == m.adminDirectory
    requires n.valid == m.valid && n.serveDirectory == m.serveDirectory
    requires CaptureScanInv(a, c, m) && a.phase == CaptureScan && c.active && a.primed && !ScanEnds(c, a)
    requires !i.capture.clear && !ScanCancelled(c, a, i.capture)
    requires d.active ==> d.key == c.key && !d.allocPending && !d.placed
    ensures CaptureScanInv(NextAdmin(a, c, m, l, i), d, n)
  {
    assert AdminMatches(a, m) <==> Matches(m.valid, m.serveDirectory, a.slot, a.key);
  }

  lemma ScanBegins(c: Capture, d: Capture, m: Memory, n: Memory, a: Admin, l: Lookup, i: Input)
    requires Shaped(m) && Shaped(n) && m.serveDirectory == m.adminDirectory
    requires n.valid == m.valid && n.serveDirectory == m.serveDirectory
    requires CaptureScanInv(a, c, m) && (a.phase == CaptureScan && c.active ==> !a.primed)
    requires (a.phase == Idle && c.allocPending) || (a.phase == CaptureScan && c.active) ==>
               (d.active ==> d.key == c.key && !d.allocPending && !d.placed)
    ensures CaptureScanInv(NextAdmin(a, c, m, l, i), d, n)
  {
  }

  lemma CaptureScanKept(m: Memory, c: Capture, a: Admin, l: Lookup, g: Abstract, i: Input)
    requires MemoryInv(m, c, g) && CaptureInv(c, m, g) && CaptureScanInv(a, c, m) && Proper(c, i.capture)
    ensures CaptureScanInv(NextAdmin(a, c, m, l, i), NextCapture(c, m, a, i.capture), NextMemory(m, c, i.capture))
  {
    var b, d, n := NextAdmin(a, c, m, l, i), NextCapture(c, m, a, i.capture), NextMemory(m, c, i.capture);
    if b.phase == CaptureScan && d.active {
      DirectoryStays(m, c, i.capture);
      if a.phase == CaptureScan && a.primed {
        ScanAdvances(c, d, m, n, a, l, i);
      } else {
        ScanBegins(c, d, m, n, a, l, i);
      }
    }
  }

  /** A found slot answers with the map's bytes; a scan to the end means the map has none. */
  lemma MatchAnswers(m: Memory, contents: map<Key, seq<U8>>, bound: nat, slot: Slot, key: Key)
    requires Shaped(m) && Represents(m, contents, bound) && Absent(m.valid, m.serveDirectory, key, slot)
    ensures Matches(m.valid, m.serveDirectory, slot, key) ==>
              Answered(m, true, m.serveDirectory[slot].start, m.serveDirectory[slot].length, key, contents, bound)
    ensures !Matches(m.valid, m.serveDirectory, slot, key) ==>
              Absent(m.valid, m.serveDirectory, key, slot + 1) &&
              (slot == ENTRY_COUNT - 1 ==> Answered(m, false, 0, 0, key, contents, bound))
  {
    if Matches(m.valid, m.serveDirectory, slot, key) {
      assert Stored(m.serveDirectory[slot], m.payload, contents, bound);
    } else if slot == ENTRY_COUNT - 1 && key in contents {
      var j :| 0 <= j < ENTRY_COUNT && Matches(m.valid, m.serveDirectory, j, key);
      assert false;
    }
  }

  /** An answer survives any step that leaves the map alone. */
  lemma AnswerKept(m: Memory, c: Capture, a: Admin, g: Abstract, i: CaptureInput, found: bool, start: nat,
                   length: nat, key: Key)
    requires MemoryInv(m, c, g) && CaptureInv(c, m, g) && !i.clear && !CommitOk(c, i)
    requires Answered(m, found, start, length, key, g.contents, Bound(c, m.allocator))
    ensures var n := NextMemory(m, c, i);
            Answered(n, found, start, length, key, g.contents, Bound(NextCapture(c, m, a, i), n.allocator))
  {
    if found && Writes(c, m.allocator, i) {
      SliceKept(m.payload, m.allocator, i.data, start, length, g.contents[key]);
    }
  }

  lemma ServeScanKept(v: Serve, m: Memory, n: Memory, g: Abstract, bound: nat, i: ServeInput)
    requires Shaped(m) && Shaped(n) && Represents(m, g.contents, bound)
    requires n.valid == m.valid && n.serveDirectory == m.serveDirectory
    requires ServeInv(v, m, g, bound)
    ensures var w := NextServe(v, m, false, false, i);
            (w.found <==> w.selected) &&
            (w.busy ==> !w.selected && Scanning(n, w.slot, w.primed, w.fetched, w.key)) &&
            (w.response ==> Answered(m, w.found, w.start, w.length, w.key, g.contents, bound)) &&
            (w.selected ==> Answered(m, true, w.start, w.length, w.key, g.contents, bound))
  {
    if v.busy && v.primed {
      MatchAnswers(m, g.contents, bound, v.slot, v.key);
    }
  }

  lemma ServeKept(v: Serve, m: Memory, c: Capture, a: Admin, g: Abstract, i: Input, h: Abstract)
    requires MemoryInv(m, c, g) && CaptureInv(c, m, g) && ServeInv(v, m, g, Bound(c, m.allocator))
    requires h.contents == NextContents(g, c, i.capture) && Proper(c, i.capture)
    ensures var n, d := NextMemory(m, c, i.capture), NextCapture(c, m, a, i.capture);
            Shaped(n) &&
            ServeInv(NextServe(v, m, CommitOk(c, i.capture), i.capture.clear, i.serve), n, h, Bound(d, n.allocator))
  {
    var n := NextMemory(m, c, i.capture);
    if !i.capture.clear && !CommitOk(c, i.capture) {
      DirectoryStays(m, c, i.capture);
      ServeScanKept(v, m, n, g, Bound(c, m.allocator), i.serve);
      var w := NextServe(v, m, false, false, i.serve);
      if w.selected || w.response {
        AnswerKept(m, c, a, g, i.capture, w.found, w.start, w.length, w.key);
      }
    }
  }

  lemma LookupScanKept(
    l: Lookup, a: Admin, c: Capture, m: Memory, n: Memory, g: Abstract, key: Key, bound: nat, i: Input)
    requires Shaped(m) && Shaped(n) && m.serveDirectory == m.adminDirectory && Represents(m, g.contents, bound)
    requires n.valid == m.valid && n.serveDirectory == m.serveDirectory
    requires !i.capture.clear && !CommitOk(c, i.capture)
    requires a.phase == Idle && !c.allocPending && l.pending ==> key == l.pendingKey
    requires !(a.phase == Idle && !c.allocPending && l.pending) ==>
               key == g.lookupKey && g.hit.None? && LookupInv(l, a, c, m, g, bound)
    ensures var b, k := NextAdmin(a, c, m, l, i), NextLookup(l, a, m, false, i);
            (b.phase == LookupScan ==> b.key == key && Scanning(n, b.slot, b.primed, b.fetched, b.key)) &&
            (k.cacheValid && b.phase != LookupScan ==>
               Answered(m, k.found, k.start, k.length, key, g.contents, bound))
  {
    if a.phase == LookupScan && a.primed {
      MatchAnswers(m, g.contents, bound, a.slot, a.key);
    }
  }

  /** A lookup scan a commit has landed on goes on past it. */
  lemma HitBegins(a: Admin, c: Capture, d: Capture, m: Memory, n: Memory, l: Lookup, i: Input, x: Hit)
    requires Shaped(m) && Shaped(n) && m.serveDirectory == m.adminDirectory && c.slot < ENTRY_COUNT
    requires n.valid == m.valid[c.slot := true] && n.serveDirectory == m.serveDirectory[c.slot := RecordOf(c)]
    requires Scanning(m, a.slot, a.primed, a.fetched, a.key) && !(d.active && d.placed)
    requires a.phase == LookupScan && NextAdmin(a, c, m, l, i).phase == LookupScan
    requires x.slot == c.slot && x.key == c.key && x.replaced == m.serveDirectory[c.slot]
    requires x.read == NextAddress(a.slot, a.primed)
    ensures HitScan(NextAdmin(a, c, m, l, i), d, n, x)
  {
    var b := NextAdmin(a, c, m, l, i);
    forall j | 0 <= j < b.slot && Matches(n.valid, n.serveDirectory, j, b.key)
      ensures j == x.slot <= x.read
    {
      assert j == c.slot || Matches(m.valid, m.serveDirectory, j, a.key);
    }
  }

  /** A commit lands on a lookup scan that goes on. */
  lemma LookupHit(s: Store, g: Abstract, i: Input)
    requires Inv(s, g) && Commits(s.capture, i.capture) && !i.capture.clear
    requires s.admin.phase == LookupScan && Next(s, i).admin.phase == LookupScan
    ensures g.hit.None? && NextHit(g, s, i).Some?
    ensures var t := Next(s, i); Shaped(t.memory) && HitScan(t.admin, t.capture, t.memory, NextHit(g, s, i).value)
  {
    var t := Next(s, i);
    HitBegins(s.admin, s.capture, t.capture, s.memory, t.memory, s.lookup, i, NextHit(g, s, i).value);
  }

  /** And so does one that was hit before. */
  lemma HitScanGoesOn(a: Admin, c: Capture, d: Capture, m: Memory, n: Memory, l: Lookup, i: Input, x: Hit)
    requires Shaped(m) && Shaped(n) && m.serveDirectory == m.adminDirectory && HitScan(a, c, m, x)
    requires n.valid == m.valid && n.serveDirectory == m.serveDirectory && !(d.active && d.placed)
    requires a.phase == LookupScan && NextAdmin(a, c, m, l, i).phase == LookupScan
    ensures HitScan(NextAdmin(a, c, m, l, i), d, n, x)
  {
    var b := NextAdmin(a, c, m, l, i);
    assert b.slot == a.slot + 1 && b.key == a.key && b.fetched == m.serveDirectory[b.slot];
    forall j | 0 <= j < b.slot && Matches(n.valid, n.serveDirectory, j, b.key)
      ensures j == x.slot <= x.read
    {
      assert Matches(m.valid, m.serveDirectory, j, a.key);
    }
  }

  /** While a lookup scan runs no capture gets a slot. */
  lemma NoSlotMeanwhile(c: Capture, m: Memory, a: Admin, i: CaptureInput)
    requires Shaped(m) && a.phase == LookupScan && !(c.active && c.placed)
    ensures var d := NextCapture(c, m, a, i); !(d.active && d.placed)
  {
  }

  lemma QuietHitKept(s: Store, g: Abstract, i: Input)
    requires Inv(s, g) && !i.capture.clear && !CommitOk(s.capture, i.capture) && NextAbstract(g, s, i).hit.Some?
    ensures var t := Next(s, i);
            Shaped(t.memory) &&
            LookupInv(t.lookup, t.admin, t.capture, t.memory, NextAbstract(g, s, i),
              Bound(t.capture, t.memory.allocator))
  {
    var h, c, m, t := NextAbstract(g, s, i), s.capture, s.memory, Next(s, i);
    DirectoryStays(m, c, i.capture);
    if t.admin.phase == LookupScan {
      NoSlotMeanwhile(c, m, s.admin, i.capture);
      HitScanGoesOn(s.admin, c, t.capture, m, t.memory, s.lookup, i, h.hit.value);
    }
  }

  lemma QuietLookupKept(s: Store, g: Abstract, i: Input)
    requires Inv(s, g) && !i.capture.clear && !CommitOk(s.capture, i.capture)
    ensures var t := Next(s, i);
            Shaped(t.memory) &&
            LookupInv(t.lookup, t.admin, t.capture, t.memory, NextAbstract(g, s, i),
              Bound(t.capture, t.memory.allocator))
  {
    var h, c, m := NextAbstract(g, s, i), s.capture, s.memory;
    var t := Next(s, i);
    DirectoryStays(m, c, i.capture);
    if h.hit.Some? {
      QuietHitKept(s, g, i);
    } else {
      LookupScanKept(s.lookup, s.admin, c, m, t.memory, g, h.lookupKey, Bound(c, m.allocator), i);
      var k := t.lookup;
      if k.cacheValid && t.admin.phase != LookupScan {
        AnswerKept(m, c, s.admin, g, i.capture, k.found, k.start, k.length, h.lookupKey);
      }
    }
  }

  lemma LookupKept(s: Store, g: Abstract, i: Input)
    requires Inv(s, g) && Proper(s.capture, i.capture)
    ensures var t := Next(s, i);
            Shaped(t.memory) &&
            LookupInv(t.lookup, t.admin, t.capture, t.memory, NextAbstract(g, s, i),
              Bound(t.capture, t.memory.allocator))
  {
    if !i.capture.clear && !CommitOk(s.capture, i.capture) {
      QuietLookupKept(s, g, i);
    } else if !i.capture.clear && s.admin.phase == LookupScan && Next(s, i).admin.phase == LookupScan {
      LookupHit(s, g, i);
    }
  }

  /** The commit that hit a scan still stands as it goes on; and as long as the register holds the record it
   *  replaced, that record's bytes are what they were. */
  predicate HitInv(s: Store, g: Abstract) {
    s.admin.phase == LookupScan && g.hit.Some? ==>
      var x := g.hit.value;
      x.key in g.contents && g.contents[x.key] == x.bytes &&
      (s.admin.slot == x.read ==> BytesOf(s.memory.payload, x.replaced) == x.before)
  }

  lemma HitKept(s: Store, g: Abstract, i: Input)
    requires Inv(s, g) && Proper(s.capture, i.capture) && HitInv(s, g)
    ensures HitInv(Next(s, i), NextAbstract(g, s, i))
  {
    if s.admin.phase == LookupScan && g.hit.Some? {
      assert !CommitOk(s.capture, i.capture);
    }
  }

  lemma NextKeepsInv(s: Store, g: Abstract, i: Input)
    requires Inv(s, g) && Proper(s.capture, i.capture)
    ensures Inv(Next(s, i), NextAbstract(g, s, i))
  {
    var h := NextAbstract(g, s, i);
    MemoryKept(s.memory, s.capture, s.admin, g, i.capture);
    CaptureKept(s.memory, s.capture, s.admin, g, i.capture, h);
    CaptureScanKept(s.memory, s.capture, s.admin, s.lookup, g, i);
    ServeKept(s.serve, s.memory, s.capture, s.admin, g, i, h);
    LookupKept(s, g, i);
  }

  // ---- Whole runs ---------------------------------------------------------------------------

  const NO_KEY: Key := Key(0, 0, 0)
  const NO_RECORD: Record := Record(NO_KEY, 0, 0)

  /** Every register at its reset value and every memory cleared. */
  function Reset(): Store {
    Store(
      Capture(false, false, false, false, false, 0, 0, 0, NO_KEY),
      Memory(0, seq(ENTRY_COUNT, i => false), seq(ENTRY_COUNT, i => NO_RECORD),
             seq(ENTRY_COUNT, i => NO_RECORD), seq(STORE_SIZE, i => 0)),
      Admin(Idle, 0, false, NO_KEY, NO_RECORD, false, 0, false, 0),
      Lookup(false, NO_KEY, false, false, 0, 0, false),
      Serve(false, false, 0, NO_KEY, NO_RECORD, false, false, 0, 0, false),
      Read(false, 0))
  }

  const EMPTY: Abstract := Abstract(map[], [], NO_KEY, None)

  /** The store beside the map it stands for. */
  datatype Pair = Pair(store: Store, abstraction: Abstract)

  predicate Step(p: Pair, i: Input, q: Pair) {
    Shaped(p.store.memory) && Proper(p.store.capture, i.capture) &&
    q == Pair(Next(p.store, i), NextAbstract(p.abstraction, p.store, i))
  }

  /** A run from reset, one state more than inputs, no cycle of which both commits and aborts. */
  predicate IsRun(run: seq<Pair>, inputs: seq<Input>) {
    |run| == |inputs| + 1 && run[0] == Pair(Reset(), EMPTY) &&
    forall k :: 0 <= k < |inputs| ==> Step(run[k], inputs[k], run[k + 1])
  }

  lemma ResetHolds()
    ensures Inv(Reset(), EMPTY)
  {
  }

  lemma StepKeepsInv(p: Pair, i: Input, q: Pair)
    requires Inv(p.store, p.abstraction) && Step(p, i, q)
    ensures Inv(q.store, q.abstraction)
  {
    NextKeepsInv(p.store, p.abstraction, i);
  }

  lemma {:induction false} RunKeepsInv(run: seq<Pair>, inputs: seq<Input>, n: nat)
    requires IsRun(run, inputs) && n < |run|
    ensures Inv(run[n].store, run[n].abstraction)
    decreases n
  {
    if n == 0 {
      ResetHolds();
    } else {
      RunKeepsInv(run, inputs, n - 1);
      StepKeepsInv(run[n - 1], inputs[n - 1], run[n]);
    }
  }

  lemma {:induction false} HitOverRuns(run: seq<Pair>, inputs: seq<Input>, n: nat)
    requires IsRun(run, inputs) && n < |run|
    ensures HitInv(run[n].store, run[n].abstraction)
    decreases n
  {
    if n > 0 {
      HitOverRuns(run, inputs, n - 1);
      RunKeepsInv(run, inputs, n - 1);
      assert Step(run[n - 1], inputs[n - 1], run[n]);
      HitKept(run[n - 1].store, run[n - 1].abstraction, inputs[n - 1]);
    }
  }

  // ---- What the ports promise ---------------------------------------------------------------

  /** A serve response says found exactly if the map has the key, with that descriptor's length. */
  lemma ServeResponseIsCurrent(run: seq<Pair>, inputs: seq<Input>, n: nat)
    requires IsRun(run, inputs) && n < |run| && run[n].store.serve.response
    ensures var v, contents := run[n].store.serve, run[n].abstraction.contents;
            (v.found <==> v.key in contents) && (v.found ==> v.length == |contents[v.key]|)
  {
    RunKeepsInv(run, inputs, n);
  }

  lemma ByteHeld(payload: seq<U8>, start: nat, length: nat, bytes: seq<U8>, offset: nat)
    requires |payload| == STORE_SIZE && Holds(payload, start, length, bytes) && offset < length
    ensures offset < |bytes| && payload[(start + offset) % STORE_SIZE] == bytes[offset]
  {
    assert payload[start..start + length][offset] == payload[start + offset];
  }

  /** The byte comes straight off the record just matched. */
  lemma MatchedByte(v: Serve, m: Memory, g: Abstract, bound: nat, i: ServeInput)
    requires Shaped(m) && ServeMatches(v, m) && i.offset < v.fetched.length
    requires Answered(m, true, v.fetched.start, v.fetched.length, v.key, g.contents, bound)
    ensures v.key in g.contents && i.offset < |g.contents[v.key]| &&
            m.payload[Address(v, m, i)] == g.contents[v.key][i.offset]
  {
    ByteHeld(m.payload, v.fetched.start, v.fetched.length, g.contents[v.key], i.offset);
  }

  lemma SelectedByte(v: Serve, m: Memory, g: Abstract, bound: nat, i: ServeInput)
    requires Shaped(m) && !ServeMatches(v, m) && i.offset < v.length
    requires Answered(m, true, v.start, v.length, v.key, g.contents, bound)
    ensures v.key in g.contents && i.offset < |g.contents[v.key]| &&
            m.payload[Address(v, m, i)] == g.contents[v.key][i.offset]
  {
    ByteHeld(m.payload, v.start, v.length, g.contents[v.key], i.offset);
  }

  lemma ServedByte(v: Serve, m: Memory, g: Abstract, bound: nat, i: ServeInput)
    requires Shaped(m) && Represents(m, g.contents, bound) && ServeInv(v, m, g, bound)
    requires NextRead(v, m, i).valid
    ensures v.key in g.contents && i.offset < |g.contents[v.key]| &&
            NextRead(v, m, i).data == g.contents[v.key][i.offset]
  {
    if ServeMatches(v, m) {
      MatchAnswers(m, g.contents, bound, v.slot, v.key);
      MatchedByte(v, m, g, bound, i);
    } else {
      SelectedByte(v, m, g, bound, i);
    }
  }

  /** Every byte served is the map's byte, at the offset asked for, when the address was presented. */
  lemma ServedByteIsCurrent(run: seq<Pair>, inputs: seq<Input>, n: nat)
    requires IsRun(run, inputs) && n < |inputs| && run[n + 1].store.read.valid
    ensures var key, contents := run[n].store.serve.key, run[n].abstraction.contents;
            key in contents && inputs[n].serve.offset < |contents[key]| &&
            run[n + 1].store.read.data == contents[key][inputs[n].serve.offset]
  {
    RunKeepsInv(run, inputs, n);
    assert Step(run[n], inputs[n], run[n + 1]);
    var s := run[n].store;
    ServedByte(s.serve, s.memory, run[n].abstraction, Bound(s.capture, s.memory.allocator), inputs[n].serve);
  }

  /** And a selected descriptor is readable to its last byte. */
  lemma SelectedByteIsServed(s: Store, g: Abstract, i: Input)
    requires Inv(s, g) && s.serve.selected && i.serve.readEnable
    ensures s.serve.key in g.contents
    ensures Next(s, i).read.valid <==> i.serve.offset < |g.contents[s.serve.key]|
  {
  }

  /** An abort, or a commit that cannot succeed, gives the space back and leaves the map alone. */
  lemma FailedCaptureLeavesMap(s: Store, g: Abstract, i: Input)
    requires Inv(s, g) && s.capture.active && !i.capture.clear && !CommitOk(s.capture, i.capture)
    requires i.capture.abort || i.capture.commit
    ensures Next(s, i).memory.allocator == s.capture.base && !Next(s, i).capture.active
    ensures NextAbstract(g, s, i).contents == g.contents
  {
  }

  /** The base a capture returns to is where the allocator stood when it began, and an open one leaves the
   *  map alone. */
  lemma CaptureStep(p: Pair, i: Input, q: Pair)
    requires Inv(p.store, p.abstraction) && Step(p, i, q) && q.store.capture.active
    ensures q.store.capture.base ==
            if p.store.capture.active then p.store.capture.base else p.store.memory.allocator
    ensures q.abstraction.contents == p.abstraction.contents
  {
  }

  /** A capture started at cycle m and open to cycle n. */
  predicate OpenCapture(run: seq<Pair>, inputs: seq<Input>, m: nat, n: nat) {
    IsRun(run, inputs) && m < n <= |inputs| && !run[m].store.capture.active &&
    forall k :: m < k <= n ==> run[k].store.capture.active
  }

  lemma {:induction false} OpenCaptureKeeps(run: seq<Pair>, inputs: seq<Input>, m: nat, n: nat)
    requires OpenCapture(run, inputs, m, n)
    ensures run[n].store.capture.base == run[m].store.memory.allocator
    ensures run[n].abstraction.contents == run[m].abstraction.contents
    decreases n
  {
    RunKeepsInv(run, inputs, n - 1);
    assert Step(run[n - 1], inputs[n - 1], run[n]);
    CaptureStep(run[n - 1], inputs[n - 1], run[n]);
    if m + 1 < n {
      OpenCaptureKeeps(run, inputs, m, n - 1);
    }
  }

  /** So a capture that fails, however long it ran, leaves allocator and map as they were before it. */
  lemma FailedCaptureRestores(run: seq<Pair>, inputs: seq<Input>, m: nat, n: nat)
    requires OpenCapture(run, inputs, m, n) && n < |inputs|
    requires !inputs[n].capture.clear && !CommitOk(run[n].store.capture, inputs[n].capture)
    requires inputs[n].capture.abort || inputs[n].capture.commit
    ensures run[n + 1].store.memory.allocator == run[m].store.memory.allocator
    ensures run[n + 1].abstraction.contents == run[m].abstraction.contents
  {
    OpenCaptureKeeps(run, inputs, m, n);
    RunKeepsInv(run, inputs, n);
    assert Step(run[n], inputs[n], run[n + 1]);
    FailedCaptureLeavesMap(run[n].store, run[n].abstraction, inputs[n]);
  }

  /** Committed bytes are never overwritten, not even by a later capture of the same key. */
  lemma CommittedBytesStay(s: Store, g: Abstract, i: Input, key: Key, start: nat)
    requires Inv(s, g) && key in g.contents
    requires start + |g.contents[key]| <= Bound(s.capture, s.memory.allocator)
    requires Holds(s.memory.payload, start, |g.contents[key]|, g.contents[key])
    ensures Holds(Next(s, i).memory.payload, start, |g.contents[key]|, g.contents[key])
  {
    if Writes(s.capture, s.memory.allocator, i.capture) {
      SliceKept(s.memory.payload, s.memory.allocator, i.capture.data, start, |g.contents[key]|, g.contents[key]);
    }
  }

  lemma ValidKeysAreInMap(s: Store, g: Abstract, j: int)
    requires Inv(s, g) && 0 <= j < ENTRY_COUNT && s.memory.valid[j]
    ensures s.memory.serveDirectory[j].key in g.contents
  {
    assert Stored(s.memory.serveDirectory[j], s.memory.payload, g.contents, Bound(s.capture, s.memory.allocator));
  }

  /** A capture is refused for want of a slot exactly when twelve other keys hold them all. */
  lemma RefusedOnlyWhenFull(s: Store, g: Abstract)
    requires Inv(s, g) && s.capture.active && s.capture.placed
    ensures s.capture.rejected <==>
            s.capture.key !in g.contents && forall j :: 0 <= j < ENTRY_COUNT ==> s.memory.valid[j]
  {
    var m, c := s.memory, s.capture;
    if c.key in g.contents {
      var j :| 0 <= j < ENTRY_COUNT && Matches(m.valid, m.serveDirectory, j, c.key);
      assert !Full(m, c.key);
    } else if !c.rejected && m.valid[c.slot] {
      ValidKeysAreInMap(s, g, c.slot);
    }
  }

  // ---- Where the promise stops --------------------------------------------------------------

  /** What survives when the abort takes the space back: nothing of the capture, or an empty descriptor. */
  function AbortedContents(s: Store, g: Abstract): map<Key, seq<U8>>
    requires Shaped(s.memory)
  {
    if s.memory.valid[s.capture.slot] then g.contents[s.capture.key := []] else g.contents
  }

  /** The record written above the allocator belongs to a valid slot: no map is what the store holds. */
  lemma AbortedCommitCorrupts(s: Store, g: Abstract, i: Input, contents: map<Key, seq<U8>>)
    requires Inv(s, g) && CommitOk(s.capture, i.capture) && i.capture.abort
    requires s.capture.key in g.contents && s.capture.length > 0
    ensures !Represents(Next(s, i).memory, contents, Bound(Next(s, i).capture, Next(s, i).memory.allocator))
  {
    var c, t := s.capture, Next(s, i);
    var j :| 0 <= j < ENTRY_COUNT && Matches(s.memory.valid, s.memory.serveDirectory, j, c.key);
    assert s.memory.valid[c.slot];
    assert t.memory.serveDirectory[c.slot] == RecordOf(c);
    assert !Stored(RecordOf(c), t.memory.payload, contents, c.base);
  }

  /** Represents looks at the payload and the valid slots of one directory only. */
  lemma RepresentsAgain(m: Memory, n: Memory, contents: map<Key, seq<U8>>, bound: nat)
    requires Shaped(m) && Shaped(n) && Represents(m, contents, bound)
    requires n.valid == m.valid && n.payload == m.payload
    requires forall j :: 0 <= j < ENTRY_COUNT && m.valid[j] ==> n.serveDirectory[j] == m.serveDirectory[j]
    ensures Represents(n, contents, bound)
  {
    forall j | 0 <= j < ENTRY_COUNT && n.valid[j]
      ensures Stored(n.serveDirectory[j], n.payload, contents, bound)
    {
      assert Stored(m.serveDirectory[j], m.payload, contents, bound);
    }
    forall j, k | 0 <= j < k < ENTRY_COUNT && n.valid[j] && n.valid[k]
      ensures Apart(n.serveDirectory[j], n.serveDirectory[k])
    {
      assert Apart(m.serveDirectory[j], m.serveDirectory[k]);
    }
    forall key | key in contents
      ensures exists j :: 0 <= j < ENTRY_COUNT && Matches(n.valid, n.serveDirectory, j, key)
    {
      var j :| 0 <= j < ENTRY_COUNT && Matches(m.valid, m.serveDirectory, j, key);
      assert Matches(n.valid, n.serveDirectory, j, key);
    }
  }

  /** The memory after the byte that may be written on the same cycle. */
  function AfterWrite(m: Memory, c: Capture, i: CaptureInput): Memory
    requires Shaped(m)
  {
    if Writes(c, m.allocator, i) then m.(payload := m.payload[m.allocator := i.data]) else m
  }

  lemma AbortedCommitRepresents(s: Store, g: Abstract, i: Input)
    requires Inv(s, g) && CommitOk(s.capture, i.capture) && i.capture.abort
    requires s.capture.key !in g.contents || s.capture.length == 0
    ensures var t := Next(s, i);
            Represents(t.memory, AbortedContents(s, g), Bound(t.capture, t.memory.allocator))
  {
    var c, m, w, t := s.capture, s.memory, AfterWrite(s.memory, s.capture, i.capture), Next(s, i);
    if Writes(c, m.allocator, i.capture) {
      WriteKept(m, g.contents, c.base, i.capture.data);
    }
    assert !t.capture.active && t.memory.allocator == c.base;
    if m.valid[c.slot] {
      ValidKeysAreInMap(s, g, c.slot);
      CommitRepresents(w, g.contents, c, []);
      RepresentsAgain(Committed(w, c), t.memory, g.contents[c.key := []], c.base);
    } else {
      RepresentsAgain(w, t.memory, g.contents, c.base);
    }
  }

  /**
   * A commit and an abort on one cycle: the abort frees the space, but the directory write goes
   * ahead. The store still stands for some map exactly unless it replaced a descriptor by a
   * non-empty one; then a valid slot points above the allocator.
   */
  lemma AbortedCommitIsHarmless(s: Store, g: Abstract, i: Input)
    requires Inv(s, g) && CommitOk(s.capture, i.capture) && i.capture.abort
    ensures var t := Next(s, i);
            (exists contents :: Represents(t.memory, contents, Bound(t.capture, t.memory.allocator))) <==>
            !(s.capture.key in g.contents && s.capture.length > 0)
  {
    var t := Next(s, i);
    if s.capture.key in g.contents && s.capture.length > 0 {
      forall contents: map<Key, seq<U8>>
        ensures !Represents(t.memory, contents, Bound(t.capture, t.memory.allocator))
      {
        AbortedCommitCorrupts(s, g, i, contents);
      }
    } else {
      AbortedCommitRepresents(s, g, i);
      assert Represents(t.memory, AbortedContents(s, g), Bound(t.capture, t.memory.allocator));
    }
  }
}
