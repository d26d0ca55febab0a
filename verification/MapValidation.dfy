/** Sequential validation of an uploaded field map, and what an accepted map promises. */
module MapValidation {
  import opened Bits
  import opened Crc
  import opened MapEntries

  const OCCUPANCY_BITS: nat := 512

  datatype MapError =
    | NoError
    | DescriptorGeneration
    | MapGeneration
    | DuplicateEntry
    | Endpoint
    | ReportLength
    | FieldWidth
    | BitOffset
    | ReportIdPrefix
    | UnsupportedField
    | LayoutCount
    | EntryCount
    | Overlap
    | CrcMismatch

  /** What MAP_BEGIN latched, with the entries received since. */
  datatype Upload = Upload(
    descriptorGeneration: U16,
    mapGeneration: U16,
    layoutCount: U8,
    entriesCrc32: bv32,
    entries: seq<MapEntry>)

  datatype DirectoryRecord = DirectoryRecord(key: LayoutKey, reportLength: U8)

  // ---- The promise: what a map must be to be accepted ----------------------------------

  predicate AxisFlags(f: Flags) {
    f.x || f.y || f.wheel || f.pan
  }

  predicate ButtonField(e: MapEntry) {
    e.flags.button && !e.flags.relative && !e.flags.signed && !AxisFlags(e.flags) && e.channel == 0
  }

  /** RELATIVE and exactly one axis; SIGNED as the field wants. */
  predicate AxisField(e: MapEntry) {
    && e.flags.relative && !e.flags.button && e.channel == 0
    && (e.flags.x || e.flags.y || e.flags.wheel || e.flags.pan)
    && !(e.flags.x && e.flags.y) && !(e.flags.x && e.flags.wheel) && !(e.flags.x && e.flags.pan)
    && !(e.flags.y && e.flags.wheel) && !(e.flags.y && e.flags.pan)
    && !(e.flags.wheel && e.flags.pan)
  }

  predicate AbsoluteField(e: MapEntry) {
    && !e.flags.button && !e.flags.relative && !AxisFlags(e.flags)
    && e.channel <= MAX_CHANNEL && e.bitWidth <= 16
  }

  /** Entry i of an upload taken alone. */
  predicate EntryOk(e: MapEntry, i: nat, u: Upload) {
    && e.descriptorGeneration == u.descriptorGeneration
    && e.mapGeneration == u.mapGeneration
    && e.entryIndex == i
    && e.endpointNumber != 0
    && 1 <= e.reportLength <= MAX_REPORT_BYTES
    && 1 <= e.bitWidth <= 32
    && e.bitOffset + e.bitWidth <= 8 * e.reportLength
    && (e.reportId != 0 ==> 8 <= e.bitOffset)
    && e.logicalMinimum <= e.logicalMaximum
    && !e.flags.undefined
    && (ButtonField(e) || AxisField(e) || AbsoluteField(e))
  }

  /** Two entries of one map: one layout has one length, and its fields share no bit. */
  predicate Compatible(a: MapEntry, b: MapEntry) {
    Key(a) == Key(b) ==> a.reportLength == b.reportLength && Disjoint(a, b)
  }

  /** The layouts the first n entries describe. */
  function Keys(entries: seq<MapEntry>, n: nat): set<LayoutKey>
    requires n <= |entries|
  {
    set i | 0 <= i < n :: Key(entries[i])
  }

  function EntriesCrc(entries: seq<MapEntry>, n: nat): bv32
    requires n <= |entries|
  {
    if n == 0 then CRC32_INIT
    else Crc32(EntriesCrc(entries, n - 1), entries[n - 1].payload, |entries[n - 1].payload|)
  }

  predicate CrcMatches(u: Upload) {
    Crc32Final(EntriesCrc(u.entries, |u.entries|)) == u.entriesCrc32
  }

  /** Entry n of the upload passes every check of its own and against the earlier ones. */
  predicate Admits(u: Upload, n: nat)
    requires n < |u.entries|
  {
    && EntryOk(u.entries[n], n, u)
    && (forall j :: 0 <= j < n ==> Compatible(u.entries[j], u.entries[n]))
  }

  /** The first n entries break no rule that a later entry could still repair. */
  predicate PrefixOk(u: Upload, n: nat)
    requires n <= |u.entries|
  {
    && (forall i :: 0 <= i < n ==> EntryOk(u.entries[i], i, u))
    && (forall i, j :: 0 <= i < j < n ==> Compatible(u.entries[i], u.entries[j]))
  }

  predicate UploadOk(u: Upload) {
    && PrefixOk(u, |u.entries|)
    && |Keys(u.entries, |u.entries|)| == u.layoutCount
    && CrcMatches(u)
  }

  /** The layouts of the first n entries in order of first appearance. */
  function DirectoryOf(entries: seq<MapEntry>, n: nat): seq<DirectoryRecord>
    requires n <= |entries|
  {
    if n == 0 then []
    else
      var e := entries[n - 1];
      if Key(e) in Keys(entries, n - 1) then DirectoryOf(entries, n - 1)
      else DirectoryOf(entries, n - 1) + [DirectoryRecord(Key(e), e.reportLength)]
  }

  /** Why an upload was refused: the named rule fails there, and nothing before it does. */
  ghost predicate RefusedFor(error: MapError, index: nat, u: Upload) {
    if index < |u.entries| then
      var e := u.entries[index];
      && PrefixOk(u, index)
      && match error
         case ReportLength =>
           || !(1 <= e.reportLength <= MAX_REPORT_BYTES)
           || exists j :: 0 <= j < index && Key(u.entries[j]) == Key(e) &&
                u.entries[j].reportLength != e.reportLength
         case Overlap =>
           exists j :: 0 <= j < index && Key(u.entries[j]) == Key(e) && !Disjoint(u.entries[j], e)
         case LayoutCount => |Keys(u.entries, index + 1)| > MAX_LAYOUTS
         case _ => !EntryOk(e, index, u)
    else
      && PrefixOk(u, |u.entries|)
      && match error
         case LayoutCount => |Keys(u.entries, |u.entries|)| != u.layoutCount
         case CrcMismatch =>
           |Keys(u.entries, |u.entries|)| == u.layoutCount && !CrcMatches(u)
         case _ => false
  }

  // ---- The directory lists each layout exactly once ------------------------------------

  function KeysIn(dir: seq<DirectoryRecord>): set<LayoutKey> {
    set r | r in dir :: r.key
  }

  predicate Distinct(dir: seq<DirectoryRecord>) {
    forall l, m :: 0 <= l < m < |dir| ==> dir[l].key != dir[m].key
  }

  /** dir names every key of keys and nothing else, each at one slot. */
  predicate ListsOnce(dir: seq<DirectoryRecord>, keys: set<LayoutKey>) {
    KeysIn(dir) == keys && Distinct(dir) && |dir| == |keys|
  }

  lemma ListsOneMore(dir: seq<DirectoryRecord>, keys: set<LayoutKey>, r: DirectoryRecord)
    requires ListsOnce(dir, keys) && r.key !in keys
    ensures ListsOnce(dir + [r], keys + {r.key})
  {
    var dir' := dir + [r];
    assert KeysIn(dir') == keys + {r.key} by {
      assert forall q :: q in dir' <==> q in dir || q == r;
    }
    forall l | 0 <= l < |dir|
      ensures dir[l].key != r.key
    {
      assert dir[l].key in KeysIn(dir);
    }
  }

  lemma {:induction false} DirectoryListsEachKeyOnce(entries: seq<MapEntry>, n: nat)
    requires n <= |entries|
    ensures ListsOnce(DirectoryOf(entries, n), Keys(entries, n))
  {
    if n == 0 {
      assert Keys(entries, 0) == {};
      assert KeysIn([]) == {};
    } else {
      var e := entries[n - 1];
      DirectoryListsEachKeyOnce(entries, n - 1);
      KeysGrow(entries, n - 1);
      if Key(e) !in Keys(entries, n - 1) {
        ListsOneMore(DirectoryOf(entries, n - 1), Keys(entries, n - 1),
          DirectoryRecord(Key(e), e.reportLength));
      }
    }
  }

  /** Each directory record carries the report length of an entry with its key. */
  lemma {:induction false} DirectoryLengths(entries: seq<MapEntry>, n: nat, l: nat) returns (j: nat)
    requires n <= |entries| && l < |DirectoryOf(entries, n)|
    ensures j < n && Key(entries[j]) == DirectoryOf(entries, n)[l].key
    ensures entries[j].reportLength == DirectoryOf(entries, n)[l].reportLength
  {
    if l < |DirectoryOf(entries, n - 1)| {
      j := DirectoryLengths(entries, n - 1, l);
    } else {
      j := n - 1;
    }
  }

  lemma KeysGrow(entries: seq<MapEntry>, n: nat)
    requires n < |entries|
    ensures Keys(entries, n + 1) == Keys(entries, n) + {Key(entries[n])}
    ensures Key(entries[n]) in Keys(entries, n) ==> Keys(entries, n + 1) == Keys(entries, n)
  {
  }

  lemma KeysMonotone(entries: seq<MapEntry>, n: nat)
    requires n <= |entries|
    ensures |Keys(entries, n)| <= |Keys(entries, |entries|)|
  {
    SubsetSize(Keys(entries, n), Keys(entries, |entries|));
  }

  lemma {:induction false} SubsetSize(a: set<LayoutKey>, b: set<LayoutKey>)
    requires a <= b
    ensures |a| <= |b|
  {
    if a != {} {
      var k :| k in a;
      SubsetSize(a - {k}, b - {k});
    }
  }

  // ---- CHECK_ENTRY ---------------------------------------------------------------------

  /** The mask arithmetic of CHECK_ENTRY over one flags byte. */
  predicate SupportedFlags(flags: Byte, channelZero: bool, channelKnown: bool) {
    var axis := flags & AXIS_FLAGS;
    var oneAxis := axis != 0 && axis & (axis - 1) == 0;
    var signed := flags & FLAG_SIGNED != 0;
    var relative := flags & FLAG_RELATIVE != 0;
    var button := flags & FLAG_BUTTON != 0;
    && flags & !ALLOWED_FLAGS == 0
    && ( || (button && !relative && !signed && axis == 0 && channelZero)
         || (relative && !button && oneAxis && channelZero)
         || (!button && !relative && axis == 0 && channelKnown))
  }

  predicate AbsoluteFlags(flags: Byte) {
    flags & FLAG_BUTTON == 0 && flags & FLAG_RELATIVE == 0 && flags & AXIS_FLAGS == 0
  }

  /** The rule entry e breaks first, in the order the gateware tests them. */
  function EntryError(e: MapEntry, i: nat, u: Upload): MapError {
    var flags := FlagsByte(e.flags);
    if e.descriptorGeneration != u.descriptorGeneration then DescriptorGeneration
    else if e.mapGeneration != u.mapGeneration then MapGeneration
    else if e.entryIndex != i then DuplicateEntry
    else if e.endpointNumber == 0 then Endpoint
    else if e.reportLength == 0 || e.reportLength > MAX_REPORT_BYTES then ReportLength
    else if e.bitWidth == 0 || e.bitWidth > 32 then FieldWidth
    else if e.bitOffset + e.bitWidth > e.reportLength * 8 then BitOffset
    else if e.reportId != 0 && e.bitOffset < 8 then ReportIdPrefix
    else if
      || !SupportedFlags(flags, e.channel == 0, e.channel <= MAX_CHANNEL)
      || e.logicalMinimum > e.logicalMaximum
    then UnsupportedField
    else if AbsoluteFlags(flags) && e.bitWidth > 16 then FieldWidth
    else NoError
  }

  /** The mask arithmetic of CHECK_ENTRY decides exactly the three field classes. */
  lemma EntryCheckIsExact(e: MapEntry, i: nat, u: Upload)
    ensures EntryError(e, i, u).NoError? <==> EntryOk(e, i, u)
    ensures EntryError(e, i, u).ReportLength? ==> !(1 <= e.reportLength <= MAX_REPORT_BYTES)
    ensures !EntryError(e, i, u).Overlap? && !EntryError(e, i, u).LayoutCount?
  {
  }

  // ---- The validator --------------------------------------------------------------------

  /** Some one of the first n entries with this key owns bit p. */
  ghost predicate OccupiedBy(entries: seq<MapEntry>, n: nat, key: LayoutKey, p: int)
    requires n <= |entries|
  {
    exists j :: 0 <= j < n && Key(entries[j]) == key && Covers(entries[j], p)
  }

  /** The layouts with a field over bit p. */
  ghost function Owners(dir: seq<DirectoryRecord>, entries: seq<MapEntry>, n: nat, p: int): set<nat>
    requires n <= |entries|
  {
    set l: nat | l < |dir| && OccupiedBy(entries, n, dir[l].key, p)
  }

  /** Each occupancy word holds exactly the layouts that own its bit. */
  ghost predicate OccupancyMeans(
    occupancy: seq<set<nat>>, dir: seq<DirectoryRecord>, entries: seq<MapEntry>, n: nat)
    requires n <= |entries|
  {
    forall p :: 0 <= p < |occupancy| ==> occupancy[p] == Owners(dir, entries, n, p)
  }

  /** Entry i's layout sits at slot, appended there if no earlier entry had its key. */
  ghost predicate LayoutSelected(
    dir: seq<DirectoryRecord>, dir': seq<DirectoryRecord>, entries: seq<MapEntry>, i: nat, slot: nat)
    requires i < |entries|
  {
    && slot < |dir'| && dir'[slot].key == Key(entries[i])
    && if slot < |dir| then dir' == dir
       else dir' == dir + [dir'[slot]] && Key(entries[i]) !in Keys(entries, i)
  }

  lemma OccupiedByOneMore(entries: seq<MapEntry>, i: nat, key: LayoutKey, p: int)
    requires i < |entries|
    ensures OccupiedBy(entries, i + 1, key, p) <==>
            OccupiedBy(entries, i, key, p) || (Key(entries[i]) == key && Covers(entries[i], p))
  {
  }

  lemma NewKeyOwnsNothing(entries: seq<MapEntry>, i: nat, key: LayoutKey, p: int)
    requires i <= |entries| && key !in Keys(entries, i)
    ensures !OccupiedBy(entries, i, key, p)
  {
  }

  /** Appending a layout nobody used yet leaves the occupancy words right. */
  lemma OccupancySelect(
    occupancy: seq<set<nat>>, dir: seq<DirectoryRecord>, dir': seq<DirectoryRecord>,
    entries: seq<MapEntry>, i: nat, slot: nat)
    requires i < |entries| && LayoutSelected(dir, dir', entries, i, slot)
    requires OccupancyMeans(occupancy, dir, entries, i)
    ensures OccupancyMeans(occupancy, dir', entries, i)
  {
    if slot >= |dir| {
      forall p | 0 <= p < |occupancy|
        ensures occupancy[p] == Owners(dir', entries, i, p)
      {
        NewKeyOwnsNothing(entries, i, Key(entries[i]), p);
        assert forall l: nat :: l in Owners(dir', entries, i, p) <==> l in Owners(dir, entries, i, p);
      }
    }
  }

  /** Claiming entry i's free bits: the words now describe i + 1 entries. */
  lemma OccupancyClaim(
    was: seq<set<nat>>, now: seq<set<nat>>, dir: seq<DirectoryRecord>,
    entries: seq<MapEntry>, i: nat, slot: nat)
    requires i < |entries| && slot < |dir| && dir[slot].key == Key(entries[i])
    requires ListsOnce(dir, Keys(entries, i + 1))
    requires OccupancyMeans(was, dir, entries, i)
    requires |now| == |was|
    requires forall p :: 0 <= p < |was| ==>
      now[p] == if Covers(entries[i], p) then was[p] + {slot} else was[p]
    ensures OccupancyMeans(now, dir, entries, i + 1)
  {
    forall p | 0 <= p < |now|
      ensures now[p] == Owners(dir, entries, i + 1, p)
    {
      forall l: nat | l < |dir|
        ensures l in Owners(dir, entries, i + 1, p) <==>
          l in Owners(dir, entries, i, p) || (l == slot && Covers(entries[i], p))
      {
        OccupiedByOneMore(entries, i, dir[l].key, p);
        if l != slot {
          assert dir[l].key != dir[slot].key;
        }
      }
      assert was[p] == Owners(dir, entries, i, p);
    }
  }

  lemma OwnerIsListed(dir: seq<DirectoryRecord>, entries: seq<MapEntry>, i: nat, slot: nat, j: nat, p: int)
    requires j < i <= |entries| && slot < |dir| && dir[slot].key == Key(entries[j])
    ensures Covers(entries[j], p) ==> slot in Owners(dir, entries, i, p)
  {
    if Covers(entries[j], p) {
      assert OccupiedBy(entries, i, dir[slot].key, p);
    }
  }

  /** Bits all free for its layout: entry i shares none with an earlier field of it. */
  lemma FreeBitsMeanDisjoint(
    occupancy: seq<set<nat>>, dir: seq<DirectoryRecord>, entries: seq<MapEntry>, i: nat, slot: nat, j: nat)
    requires j < i < |entries| && slot < |dir| && dir[slot].key == Key(entries[i]) == Key(entries[j])
    requires OccupancyMeans(occupancy, dir, entries, i)
    requires forall p :: 0 <= p < |occupancy| && Covers(entries[i], p) ==> slot !in occupancy[p]
    requires 0 < entries[i].bitWidth && entries[i].bitOffset + entries[i].bitWidth <= |occupancy|
    requires 0 < entries[j].bitWidth
    ensures Disjoint(entries[j], entries[i])
  {
    var a, b := entries[i].bitOffset, entries[j].bitOffset;
    var p := if a < b then b else a;
    OwnerIsListed(dir, entries, i, slot, j, p);
  }

  lemma PrefixOneMore(u: Upload, i: nat)
    requires i < |u.entries| && PrefixOk(u, i) && EntryOk(u.entries[i], i, u)
    requires forall j :: 0 <= j < i ==> Compatible(u.entries[j], u.entries[i])
    ensures PrefixOk(u, i + 1)
  {
  }

  /** Directory and occupancy words of a validation in progress. */
  datatype Progress = Validated(dir: seq<DirectoryRecord>, occupancy: seq<set<nat>>)

  /** The validation so far describes exactly the first n entries, and they are sound. */
  ghost predicate Describes(v: Progress, u: Upload, n: nat)
    requires n <= |u.entries|
  {
    && v.dir == DirectoryOf(u.entries, n)
    && |v.occupancy| == OCCUPANCY_BITS
    && OccupancyMeans(v.occupancy, v.dir, u.entries, n)
    && PrefixOk(u, n)
  }

  /** The validation registers and the occupancy memory of InjectionMapStore. */
  class MapValidator {
    /** One word a report bit: the layout slots that own it. */
    const occupancy: array<set<nat>>
    var crc: bv32

    constructor ()
      ensures Valid() && fresh(occupancy)
    {
      occupancy := new set<nat>[OCCUPANCY_BITS](_ => {});
      crc := 0;
    }

    /** The memory depth; it is a constant, so every method keeps it. */
    ghost predicate Valid() {
      occupancy.Length == OCCUPANCY_BITS
    }

    /** The validation in progress, over the directory half its read port shows. */
    ghost function Progress(dir: seq<DirectoryRecord>): Progress
      reads occupancy
    {
      Validated(dir, occupancy[..])
    }

    /** CLEAR_OCCUPANCY and the registers COMMIT resets. */
    method Reset()
      requires Valid()
      modifies this, occupancy
      ensures crc == CRC32_INIT
      ensures forall p :: 0 <= p < OCCUPANCY_BITS ==> occupancy[p] == {}
    {
      crc := CRC32_INIT;
      var p := 0;
      while p < OCCUPANCY_BITS
        invariant 0 <= p <= OCCUPANCY_BITS
        invariant forall q :: 0 <= q < p ==> occupancy[q] == {}
        invariant crc == CRC32_INIT
      {
        occupancy[p] := {};
        p := p + 1;
      }
    }

    /** SCAN_LAYOUT: the slot of this key, if an earlier entry had it. */
    method FindLayout(dir: seq<DirectoryRecord>, key: LayoutKey) returns (found: bool, slot: nat)
      ensures found ==> slot < |dir| && dir[slot].key == key
      ensures !found ==> forall r :: r in dir ==> r.key != key
    {
      slot := 0;
      while slot < |dir|
        invariant 0 <= slot <= |dir|
        invariant forall l :: 0 <= l < slot ==> dir[l].key != key
      {
        if dir[slot].key == key {
          return true, slot;
        }
        slot := slot + 1;
      }
      return false, slot;
    }

    /** DISPATCH, SCAN and APPEND_LAYOUT: the slot of e's layout, appended if it is new. */
    method SelectLayout(dir: seq<DirectoryRecord>, e: MapEntry)
      returns (error: MapError, slot: nat, dir': seq<DirectoryRecord>)
      ensures error in {NoError, ReportLength, LayoutCount}
      ensures error.NoError? ==> Selected(dir, dir', e, slot)
      ensures error.NoError? && |dir| <= MAX_LAYOUTS ==> |dir'| <= MAX_LAYOUTS
      ensures error.ReportLength? ==>
        slot < |dir| && dir[slot].key == Key(e) && dir[slot].reportLength != e.reportLength
      ensures error.LayoutCount? ==>
        |dir| >= MAX_LAYOUTS && forall r :: r in dir ==> r.key != Key(e)
    {
      var found;
      found, slot := FindLayout(dir, Key(e));
      if found {
        error := if dir[slot].reportLength != e.reportLength then ReportLength else NoError;
        return error, slot, dir;
      }
      if |dir| >= MAX_LAYOUTS {
        return LayoutCount, slot, dir;
      }
      return NoError, |dir|, dir + [DirectoryRecord(Key(e), e.reportLength)];
    }

    /** CRC_ENTRY: one payload byte a cycle. */
    method RunCrc(e: MapEntry)
      modifies this`crc
      ensures crc == Crc32(old(crc), e.payload, |e.payload|)
    {
      var i := 0;
      while i < |e.payload|
        invariant 0 <= i <= |e.payload|
        invariant crc == Crc32(old(crc), e.payload, i)
      {
        crc := Crc32Byte(crc, e.payload[i]);
        i := i + 1;
      }
    }

    /** READ_OCCUPANCY and OCCUPY_FIELD: claim e's bits for its layout, or find one taken. */
    method OccupyField(e: MapEntry, slot: nat) returns (overlap: bool)
      requires Valid()
      requires 0 < e.bitWidth && e.bitOffset + e.bitWidth <= OCCUPANCY_BITS
      modifies occupancy
      ensures overlap <==> Taken(old(occupancy[..]), e, slot)
      ensures !overlap ==> Claimed(old(occupancy[..]), occupancy[..], e, slot)
    {
      var i := 0;
      while i < e.bitWidth
        invariant 0 <= i <= e.bitWidth
        invariant forall p :: e.bitOffset <= p < e.bitOffset + i ==> slot !in old(occupancy[..])[p]
        invariant forall p :: 0 <= p < occupancy.Length ==>
          occupancy[p] ==
          if e.bitOffset <= p < e.bitOffset + i then old(occupancy[..])[p] + {slot}
          else old(occupancy[..])[p]
      {
        var p := e.bitOffset + i;
        if slot in occupancy[p] {
          assert Covers(e, p) && slot in old(occupancy[..])[p];
          return true;
        }
        occupancy[p] := occupancy[p] + {slot};
        i := i + 1;
      }
      return false;
    }

    /** CHECK_ENTRY to OCCUPY_FIELD for entry i; dir' is the directory half with it in. */
    method ValidateEntry(u: Upload, i: nat, dir: seq<DirectoryRecord>)
      returns (error: MapError, dir': seq<DirectoryRecord>)
      requires Valid() && i < |u.entries| && |dir| <= MAX_LAYOUTS
      requires Describes(Progress(dir), u, i) && crc == EntriesCrc(u.entries, i)
      modifies this, occupancy
      ensures error.NoError? <==> Admits(u, i) && |Keys(u.entries, i + 1)| <= MAX_LAYOUTS
      ensures error.NoError? ==> Describes(Progress(dir'), u, i + 1) && |dir'| <= MAX_LAYOUTS
      ensures error.NoError? ==> crc == EntriesCrc(u.entries, i + 1)
      ensures !error.NoError? ==> RefusedFor(error, i, u)
    {
      ghost var was := Progress(dir);
      var e := u.entries[i];
      error, dir' := EntryError(e, i, u), dir;
      EntryCheckIsExact(e, i, u);
      if error != NoError {
        RefusalIsUnfit(error, i, u);
        return;
      }
      var slot;
      error, slot, dir' := SelectLayout(dir, e);
      if error != NoError {
        LayoutRefusalIsReal(was, u, i, slot, error);
        RefusalIsUnfit(error, i, u);
        return;
      }
      RunCrc(e);
      var overlap := OccupyField(e, slot);
      if overlap {
        OverlapIsReal(was, dir', u, i, slot);
        RefusalIsUnfit(Overlap, i, u);
        return Overlap, dir';
      }
      EntryDescribed(was, Progress(dir'), u, i, slot);
      DescribedIsAdmitted(Progress(dir'), u, i);
      return NoError, dir';
    }

    method FinishCrc(u: Upload) returns (matches: bool)
      requires crc == EntriesCrc(u.entries, |u.entries|)
      ensures matches <==> CrcMatches(u)
    {
      matches := Crc32Final(crc) == u.entriesCrc32;
    }

    /** Every entry in turn; the CRC of all of them comes along. */
    method ValidateEntries(u: Upload)
      returns (error: MapError, index: nat, dir: seq<DirectoryRecord>, crcMatches: bool)
      requires Valid()
      modifies this, occupancy
      ensures error.NoError? ==> Describes(Progress(dir), u, |u.entries|) && (crcMatches <==> CrcMatches(u))
      ensures !error.NoError? ==> index < |u.entries| && RefusedFor(error, index, u)
    {
      Reset();
      dir := [];
      NothingDescribed(Progress([]), u);
      var n := |u.entries|;
      var i := 0;
      while i < n
        invariant 0 <= i <= n && |dir| <= MAX_LAYOUTS && Describes(Progress(dir), u, i)
        invariant crc == EntriesCrc(u.entries, i)
      {
        error, dir := ValidateEntry(u, i, dir);
        if error != NoError {
          return error, i, dir, false;
        }
        i := i + 1;
      }
      crcMatches := FinishCrc(u);
      return NoError, 255, dir, crcMatches;
    }

    /** The whole validation: index 255 names a fault of the map rather than of one entry. */
    method Validate(u: Upload) returns (error: MapError, index: nat, dir: seq<DirectoryRecord>)
      requires Valid() && |u.entries| <= MAX_FIELDS && u.layoutCount <= MAX_LAYOUTS
      modifies this, occupancy
      ensures error.NoError? <==> UploadOk(u)
      ensures error.NoError? ==> dir == DirectoryOf(u.entries, |u.entries|)
      ensures !error.NoError? ==> RefusedFor(error, index, u)
    {
      var crcMatches;
      error, index, dir, crcMatches := ValidateEntries(u);
      if error != NoError {
        RefusalIsRight(error, index, u);
        return;
      }
      Verdict(Progress(dir), u, crcMatches);
      index := 255;
      if |dir| != u.layoutCount {
        error := LayoutCount;
      } else if !crcMatches {
        error := CrcMismatch;
      }
    }
  }

  // ---- From what the loops did to what the map is ----------------------------------------

  ghost predicate Taken(occupancy: seq<set<nat>>, e: MapEntry, slot: nat) {
    exists p :: 0 <= p < |occupancy| && Covers(e, p) && slot in occupancy[p]
  }

  ghost predicate Claimed(was: seq<set<nat>>, now: seq<set<nat>>, e: MapEntry, slot: nat) {
    && |now| == |was|
    && forall p :: 0 <= p < |was| ==> now[p] == if Covers(e, p) then was[p] + {slot} else was[p]
  }

  /** e's layout sits at slot of dir', appended there if dir did not have it. */
  ghost predicate Selected(dir: seq<DirectoryRecord>, dir': seq<DirectoryRecord>, e: MapEntry, slot: nat) {
    && slot < |dir'| && dir'[slot] == DirectoryRecord(Key(e), e.reportLength)
    && if slot < |dir| then dir' == dir
       else dir' == dir + [dir'[slot]] && forall r :: r in dir ==> r.key != Key(e)
  }

  lemma NothingDescribed(v: Progress, u: Upload)
    requires v.dir == [] && |v.occupancy| == OCCUPANCY_BITS
    requires forall p :: 0 <= p < OCCUPANCY_BITS ==> v.occupancy[p] == {}
    ensures Describes(v, u, 0)
  {
    forall p | 0 <= p < OCCUPANCY_BITS
      ensures v.occupancy[p] == Owners([], u.entries, 0, p)
    {
    }
  }

  /** Every entry passed: the two totals decide. */
  lemma Verdict(v: Progress, u: Upload, crcMatches: bool)
    requires Describes(v, u, |u.entries|) && |u.entries| <= 255
    requires crcMatches <==> CrcMatches(u)
    ensures v.dir == DirectoryOf(u.entries, |u.entries|)
    ensures UploadOk(u) <==> |v.dir| == u.layoutCount && crcMatches
    ensures |v.dir| != u.layoutCount ==> RefusedFor(LayoutCount, 255, u)
    ensures |v.dir| == u.layoutCount && !crcMatches ==> RefusedFor(CrcMismatch, 255, u)
  {
    DirectoryListsEachKeyOnce(u.entries, |u.entries|);
  }

  lemma LayoutRefusalIsReal(v: Progress, u: Upload, i: nat, slot: nat, error: MapError)
    requires i < |u.entries| && Describes(v, u, i)
    requires error in {ReportLength, LayoutCount}
    requires error.ReportLength? ==>
      slot < |v.dir| && v.dir[slot].key == Key(u.entries[i]) &&
      v.dir[slot].reportLength != u.entries[i].reportLength
    requires error.LayoutCount? ==>
      |v.dir| >= MAX_LAYOUTS && forall r :: r in v.dir ==> r.key != Key(u.entries[i])
    ensures RefusedFor(error, i, u)
  {
    if error.ReportLength? {
      var j := DirectoryLengths(u.entries, i, slot);
    } else {
      DirectoryListsEachKeyOnce(u.entries, i);
      KeysGrow(u.entries, i);
      NotListed(v.dir, Keys(u.entries, i), Key(u.entries[i]));
    }
  }

  lemma NotListed(dir: seq<DirectoryRecord>, keys: set<LayoutKey>, k: LayoutKey)
    requires ListsOnce(dir, keys) && forall r :: r in dir ==> r.key != k
    ensures k !in keys
  {
  }

  /** Selecting a layout is what DirectoryOf does with one more entry. */
  lemma SelectionExtendsDirectory(u: Upload, i: nat, dir': seq<DirectoryRecord>, slot: nat)
    requires i < |u.entries|
    requires Selected(DirectoryOf(u.entries, i), dir', u.entries[i], slot)
    ensures dir' == DirectoryOf(u.entries, i + 1)
    ensures LayoutSelected(DirectoryOf(u.entries, i), dir', u.entries, i, slot)
  {
    DirectoryListsEachKeyOnce(u.entries, i);
    if slot >= |DirectoryOf(u.entries, i)| {
      NotListed(DirectoryOf(u.entries, i), Keys(u.entries, i), Key(u.entries[i]));
    }
  }

  /** One entry that passed every check: the validation describes one more. */
  lemma EntryDescribed(v: Progress, v': Progress, u: Upload, i: nat, slot: nat)
    requires i < |u.entries| && Describes(v, u, i) && EntryOk(u.entries[i], i, u)
    requires Selected(v.dir, v'.dir, u.entries[i], slot)
    requires !Taken(v.occupancy, u.entries[i], slot)
    requires Claimed(v.occupancy, v'.occupancy, u.entries[i], slot)
    ensures Describes(v', u, i + 1)
  {
    SelectionExtendsDirectory(u, i, v'.dir, slot);
    OccupancySelect(v.occupancy, v.dir, v'.dir, u.entries, i, slot);
    NewEntryCompatible(v.occupancy, v'.dir, u, i, slot);
    PrefixOneMore(u, i);
    DirectoryListsEachKeyOnce(u.entries, i + 1);
    OccupancyClaim(v.occupancy, v'.occupancy, v'.dir, u.entries, i, slot);
  }

  lemma DescribedIsAdmitted(v: Progress, u: Upload, i: nat)
    requires i < |u.entries| && Describes(v, u, i + 1)
    ensures Admits(u, i) && |v.dir| == |Keys(u.entries, i + 1)|
  {
    DirectoryListsEachKeyOnce(u.entries, i + 1);
  }

  lemma OverlapIsReal(v: Progress, dir: seq<DirectoryRecord>, u: Upload, i: nat, slot: nat)
    requires i < |u.entries| && Describes(v, u, i)
    requires Selected(v.dir, dir, u.entries[i], slot)
    requires Taken(v.occupancy, u.entries[i], slot)
    ensures RefusedFor(Overlap, i, u)
  {
    SelectionExtendsDirectory(u, i, dir, slot);
    OccupancySelect(v.occupancy, v.dir, dir, u.entries, i, slot);
    var p :| 0 <= p < |v.occupancy| && Covers(u.entries[i], p) && slot in v.occupancy[p];
    assert slot in Owners(dir, u.entries, i, p);
    var j :| 0 <= j < i && Key(u.entries[j]) == dir[slot].key && Covers(u.entries[j], p);
    assert !Disjoint(u.entries[j], u.entries[i]);
  }

  lemma NewEntryCompatible(
    occupancy: seq<set<nat>>, dir: seq<DirectoryRecord>, u: Upload, i: nat, slot: nat)
    requires i < |u.entries| && PrefixOk(u, i) && EntryOk(u.entries[i], i, u)
    requires dir == DirectoryOf(u.entries, i + 1) && slot < |dir|
    requires LayoutSelected(DirectoryOf(u.entries, i), dir, u.entries, i, slot)
    requires dir[slot].reportLength == u.entries[i].reportLength
    requires |occupancy| == OCCUPANCY_BITS && OccupancyMeans(occupancy, dir, u.entries, i)
    requires forall p :: 0 <= p < |occupancy| && Covers(u.entries[i], p) ==> slot !in occupancy[p]
    ensures forall j :: 0 <= j < i ==> Compatible(u.entries[j], u.entries[i])
  {
    forall j | 0 <= j < i
      ensures Compatible(u.entries[j], u.entries[i])
    {
      if Key(u.entries[j]) == Key(u.entries[i]) {
        FreeBitsMeanDisjoint(occupancy, dir, u.entries, i, slot, j);
        SameLayoutSameLength(u, i, slot, j);
      }
    }
  }

  lemma SameLayoutSameLength(u: Upload, i: nat, slot: nat, j: nat)
    requires j < i < |u.entries| && PrefixOk(u, i) && Key(u.entries[j]) == Key(u.entries[i])
    requires LayoutSelected(DirectoryOf(u.entries, i), DirectoryOf(u.entries, i + 1), u.entries, i, slot)
    ensures u.entries[j].reportLength == DirectoryOf(u.entries, i + 1)[slot].reportLength
  {
    assert Key(u.entries[j]) in Keys(u.entries, i);
    var k := DirectoryLengths(u.entries, i, slot);
    assert j < k ==> Compatible(u.entries[j], u.entries[k]);
    assert k < j ==> Compatible(u.entries[k], u.entries[j]);
  }

  /** An entry refused for any reason is one that fails a check or opens a layout too many. */
  lemma RefusalIsUnfit(error: MapError, index: nat, u: Upload)
    requires index < |u.entries| && RefusedFor(error, index, u)
    ensures !Admits(u, index) || |Keys(u.entries, index + 1)| > MAX_LAYOUTS
  {
    if error.ReportLength? && EntryOk(u.entries[index], index, u) {
      var j :| 0 <= j < index && Key(u.entries[j]) == Key(u.entries[index]) &&
        u.entries[j].reportLength != u.entries[index].reportLength;
      assert !Compatible(u.entries[j], u.entries[index]);
    }
    if error.Overlap? {
      var j :| 0 <= j < index && Key(u.entries[j]) == Key(u.entries[index]) &&
        !Disjoint(u.entries[j], u.entries[index]);
      assert !Compatible(u.entries[j], u.entries[index]);
    }
  }

  /** A refusal is never wrong: no map refused this way meets the promise. */
  lemma RefusalIsRight(error: MapError, index: nat, u: Upload)
    requires RefusedFor(error, index, u) && u.layoutCount <= MAX_LAYOUTS
    ensures !UploadOk(u)
  {
    if index < |u.entries| {
      RefusalIsUnfit(error, index, u);
      KeysMonotone(u.entries, index + 1);
    }
  }
}
