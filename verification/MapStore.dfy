/**
 Publication of validated maps: the clock-by-clock control of InjectionMapStore.

 The validation of one entry, MapValidator's loops, is one step here and may be put off
 arbitrarily often; everything else is one step a clock.
 */
module MapStore {
  import opened Bits
  import opened Crc
  import opened MapEntries
  import opened MapValidation

  datatype Option<T> = None | Some(value: T)

  /** A pair of registers or memories selected by one bank bit. */
  datatype Banked<T> = Banked(zero: T, one: T) {
    function At(bank: bool): T {
      if bank then one else zero
    }

    function With(bank: bool, v: T): Banked<T> {
      if bank then this.(one := v) else this.(zero := v)
    }
  }

  /** The map metadata MAP_BEGIN carries and MAP_COMMIT repeats. */
  datatype Metadata = Metadata(
    descriptorGeneration: U16,
    mapGeneration: U16,
    entryCount: U8,
    layoutCount: U8,
    entriesCrc32: bv32)

  datatype Bank = Bank(
    valid: bool,
    descriptorGeneration: U16,
    mapGeneration: U16,
    entryCount: nat,
    layoutCount: nat)

  /** Each bank's half of the entry memory and of the layout directory. */
  datatype BankMemory = BankMemory(entries: seq<MapEntry>, directory: seq<DirectoryRecord>)

  datatype Phase = Idle | Receive | Validating(next: nat) | Accept | Reject

  datatype Query = Query(
    immediateMiss: bool,
    key: LayoutKey,
    bank: bool,
    descriptorGeneration: U16,
    mapGeneration: U16,
    layoutCount: nat,
    scanIndex: nat,
    /** The directory word the synchronous read port delivers this clock. */
    record: DirectoryRecord)

  datatype QueryResult = Miss | Found(index: nat, reportLength: U8)

  /** What became of the last link or session loss: history, for the theorems only. */
  datatype Recovery = Invalidated | Rebegun | Recovered

  /** The upload FSM: reception and validation. */
  datatype UploadRegisters = UploadRegisters(
    phase: Phase,
    captureActive: bool,
    validationActive: bool,
    receivedCount: nat,
    receiveOverflow: bool,
    latched: Metadata,
    latchedNativeOnly: bool,
    layoutCount: nat,
    generationChanged: bool)

  /** What is published, and whether it may still be used. */
  datatype BankRegisters = BankRegisters(
    activeBank: bool,
    banks: Banked<Bank>,
    invalidationLatched: bool,
    activeNativeOnly: bool)

  datatype QueryRegisters = QueryRegisters(query: Option<Query>, result: Option<QueryResult>)

  /** What the theorems remember and the gateware does not. */
  datatype History = History(
    /** The entries presented since the last MAP_BEGIN. */
    presented: seq<MapEntry>,
    /** The upload each bank was published from. */
    published: Banked<Upload>,
    /** How far the last invalidation has been made good. */
    recovery: Recovery)

  datatype State = State(
    upload: UploadRegisters,
    bank: BankRegisters,
    look: QueryRegisters,
    memory: Banked<BankMemory>,
    history: History)

  /** The inputs of one clock. */
  datatype Inputs = Inputs(
    begin: bool,
    entry: Option<MapEntry>,
    commit: bool,
    abort: bool,
    invalidate: bool,
    descriptorGeneration: U16,
    candidate: Metadata,
    beginNativeOnly: bool,
    /** Validation finishes its current entry on this clock. */
    entryDone: bool,
    query: Option<LayoutKey>)

  predicate Busy(u: UploadRegisters) {
    u.captureActive || u.validationActive
  }

  /** The upload under validation: what was latched, over what the inactive bank holds. */
  function Candidate(s: State): Upload
    requires Shaped(s)
  {
    Upload(s.upload.latched.descriptorGeneration, s.upload.latched.mapGeneration, s.upload.latched.layoutCount,
      s.upload.latched.entriesCrc32,
      if s.upload.latched.entryCount <= MAX_FIELDS
      then s.memory.At(!s.bank.activeBank).entries[..s.upload.latched.entryCount] else [])
  }

  /** Memory depths and the two banks: what reset gives and no clock changes. */
  predicate Shaped(s: State) {
    Depths(s.memory.zero) && Depths(s.memory.one)
  }

  predicate Depths(m: BankMemory) {
    |m.entries| == MAX_FIELDS && |m.directory| == MAX_LAYOUTS
  }

  function Active(s: State): Bank
    requires Shaped(s)
  {
    s.bank.banks.At(s.bank.activeBank)
  }

  predicate ActiveValid(s: State, descriptorGeneration: U16)
    requires Shaped(s)
  {
    Active(s).valid && !s.bank.invalidationLatched && Active(s).descriptorGeneration == descriptorGeneration
  }

  /** MAP_COMMIT repeats MAP_BEGIN's metadata, for the live descriptors and the counts received. */
  predicate MetadataFits(u: UploadRegisters, i: Inputs) {
    && u.latched.descriptorGeneration == i.descriptorGeneration
    && i.candidate == u.latched
    && u.latched.entryCount <= MAX_FIELDS
    && !u.receiveOverflow
    && u.receivedCount == u.latched.entryCount
    && u.latched.layoutCount <= MAX_LAYOUTS
  }

  predicate IsNewLayout(u: Upload, n: nat)
    requires n < |u.entries|
  {
    Key(u.entries[n]) !in Keys(u.entries, n)
  }

  /** Layouts listed once entry n is in. */
  function LayoutsAfter(count: nat, u: Upload, n: nat): nat
    requires n < |u.entries|
  {
    count + if IsNewLayout(u, n) then 1 else 0
  }

  /** Where the checks of entry n lead, and after the last one the totals. */
  function EntryPhase(count: nat, u: Upload, n: nat): Phase
    requires n < |u.entries|
  {
    if !Admits(u, n) || LayoutsAfter(count, u, n) > MAX_LAYOUTS then Reject
    else if n + 1 < |u.entries| then Validating(n + 1)
    else if LayoutsAfter(count, u, n) != u.layoutCount || !CrcMatches(u) then Reject
    else Accept
  }

  /** APPEND_LAYOUT: the record of the layout entry n opens. */
  function EntryRecord(count: nat, u: Upload, n: nat): Option<DirectoryRecord>
    requires n < |u.entries|
  {
    if Admits(u, n) && IsNewLayout(u, n) && count < MAX_LAYOUTS
    then Some(DirectoryRecord(Key(u.entries[n]), u.entries[n].reportLength)) else None
  }

  /** The control FSM's next phase. */
  function NextPhase(s: State, i: Inputs): Phase
    requires Shaped(s)
  {
    match s.upload.phase
    case Idle => if i.begin then Receive else Idle
    case Receive =>
      if i.abort || i.invalidate then Idle
      else if i.commit then
        if !MetadataFits(s.upload, i) then Reject
        else if s.upload.latched.entryCount == 0 &&
          (s.upload.latched.layoutCount != 0 || s.upload.latched.entriesCrc32 != Crc32Final(CRC32_INIT))
        then Reject
        else Validating(0)
      else Receive
    case Validating(n) =>
      var u := Candidate(s);
      if !i.entryDone then s.upload.phase
      else if n >= |u.entries| then Accept
      else EntryPhase(s.upload.layoutCount, u, n)
    case Accept => Idle
    case Reject => Idle
  }

  /** APPEND_LAYOUT on this clock. */
  function Appended(s: State, i: Inputs): Option<DirectoryRecord>
    requires Shaped(s)
  {
    if s.upload.phase.Validating? && i.entryDone && s.upload.phase.next < |Candidate(s).entries|
    then EntryRecord(s.upload.layoutCount, Candidate(s), s.upload.phase.next) else None
  }

  /** ACCEPT publishes unless the descriptors moved on while the map was being validated. */
  predicate Publishes(u: UploadRegisters, i: Inputs) {
    && u.phase.Accept?
    && !u.generationChanged
    && i.descriptorGeneration == u.latched.descriptorGeneration
  }

  /** Entry words and directory words are written in the inactive half only. */
  function NextMemory(s: State, i: Inputs, appended: Option<DirectoryRecord>): Banked<BankMemory>
    requires Shaped(s)
  {
    var spare := s.memory.At(!s.bank.activeBank);
    if s.upload.captureActive && i.entry.Some? && s.upload.receivedCount < MAX_FIELDS then
      s.memory.With(!s.bank.activeBank, spare.(entries := spare.entries[s.upload.receivedCount := i.entry.value]))
    else if appended.Some? && s.upload.layoutCount < MAX_LAYOUTS then
      s.memory.With(!s.bank.activeBank, spare.(directory := spare.directory[s.upload.layoutCount := appended.value]))
    else s.memory
  }

  /** Bank flags: ACCEPT fills the inactive bank; invalidation clears both, and wins. */
  function NextBanks(s: State, i: Inputs): Banked<Bank>
    requires Shaped(s)
  {
    var filled :=
      if Publishes(s.upload, i) then
        s.bank.banks.With(!s.bank.activeBank, Bank(true, s.upload.latched.descriptorGeneration,
          s.upload.latched.mapGeneration, s.upload.latched.entryCount, s.upload.latched.layoutCount))
      else s.bank.banks;
    if i.invalidate || s.bank.invalidationLatched then
      Banked(filled.zero.(valid := false), filled.one.(valid := false))
    else filled
  }

  /** The layout query FSM; it reads the active half only. */
  function NextQuery(s: State, i: Inputs): QueryRegisters
    requires Shaped(s)
  {
    var active := Active(s);
    match s.look.query
    case None =>
      if i.query.Some? && s.look.result.None? then
        var live := ActiveValid(s, i.descriptorGeneration) && active.layoutCount != 0;
        QueryRegisters(
          Some(Query(!live, i.query.value, s.bank.activeBank, active.descriptorGeneration,
            active.mapGeneration, active.layoutCount, 0,
            s.memory.At(s.bank.activeBank).directory[0])),
          None)
      else QueryRegisters(None, None)
    case Some(q) =>
      if q.immediateMiss || !SnapshotHolds(s, q, i.descriptorGeneration) then QueryRegisters(None, Some(Miss))
      else if q.record.key == q.key then
        QueryRegisters(None, Some(Found(q.scanIndex, q.record.reportLength)))
      else if q.scanIndex == q.layoutCount - 1 then QueryRegisters(None, Some(Miss))
      else
        var next := (q.scanIndex + 1) % MAX_LAYOUTS;
        QueryRegisters(
          Some(q.(scanIndex := next, record := s.memory.At(q.bank).directory[next])), None)
  }

  /** The map a query was asked about is still the active, valid one. */
  predicate SnapshotHolds(s: State, q: Query, descriptorGeneration: U16)
    requires Shaped(s)
  {
    && ActiveValid(s, descriptorGeneration)
    && s.bank.activeBank == q.bank
    && Active(s).descriptorGeneration == q.descriptorGeneration
    && Active(s).mapGeneration == q.mapGeneration
  }

  function NextRecovery(s: State, i: Inputs): Recovery {
    if i.invalidate then Invalidated
    else if i.begin && !Busy(s.upload) && s.history.recovery.Invalidated? then Rebegun
    else if Publishes(s.upload, i) && s.history.recovery.Rebegun? then Recovered
    else s.history.recovery
  }

  predicate Begins(u: UploadRegisters, i: Inputs) {
    u.phase.Idle? && i.begin
  }

  predicate Receives(u: UploadRegisters, i: Inputs) {
    u.phase.Receive? && !i.abort && !i.invalidate && !i.commit && i.entry.Some?
  }

  predicate Commits(u: UploadRegisters, i: Inputs) {
    u.phase.Receive? && !i.abort && !i.invalidate && i.commit
  }

  predicate Starts(u: UploadRegisters, i: Inputs) {
    Commits(u, i) && MetadataFits(u, i)
  }

  /** One clock. */
  function Next(s: State, i: Inputs): State
    requires Shaped(s)
  {
    Clocked(s, i, NextPhase(s, i), Appended(s, i))
  }

  /** Every register after a clock on which the upload FSM decides as given. */
  function Clocked(s: State, i: Inputs, after: Phase, appended: Option<DirectoryRecord>): State
    requires Shaped(s)
  {
    State(NextUpload(s.upload, i, after, appended), NextBank(s, i), NextQuery(s, i),
      NextMemory(s, i, appended), NextHistory(s, i))
  }

  function NextUpload(
    u: UploadRegisters, i: Inputs, after: Phase, appended: Option<DirectoryRecord>): UploadRegisters
  {
    UploadRegisters(
      after,
      Begins(u, i) || (u.phase.Receive? && !i.abort && !i.invalidate && !i.commit && u.captureActive),
      Starts(u, i) || (u.phase.Validating? && u.validationActive),
      if Begins(u, i) then 0
      else if Receives(u, i) then if u.receivedCount < MAX_FIELDS then u.receivedCount + 1 else MAX_FIELDS + 1
      else u.receivedCount,
      !Begins(u, i) && (u.receiveOverflow || (Receives(u, i) && u.receivedCount >= MAX_FIELDS)),
      if Begins(u, i) then i.candidate else u.latched,
      if Begins(u, i) then i.beginNativeOnly else u.latchedNativeOnly,
      if Starts(u, i) then 0 else if appended.Some? then u.layoutCount + 1 else u.layoutCount,
      !Starts(u, i) && (u.generationChanged ||
        (u.validationActive && i.descriptorGeneration != u.latched.descriptorGeneration)))
  }

  /** ACCEPT fills the inactive bank and flips; invalidation is assigned last, and wins. */
  function NextBank(s: State, i: Inputs): BankRegisters
    requires Shaped(s)
  {
    var b := s.bank;
    BankRegisters(
      if Publishes(s.upload, i) then !b.activeBank else b.activeBank,
      NextBanks(s, i),
      i.invalidate || (b.invalidationLatched && !(i.begin && !Busy(s.upload))),
      if i.invalidate || b.invalidationLatched then false
      else if Publishes(s.upload, i) then s.upload.latchedNativeOnly
      else b.activeNativeOnly)
  }

  function NextHistory(s: State, i: Inputs): History
    requires Shaped(s)
  {
    var h := s.history;
    History(
      if Begins(s.upload, i) then []
      else if Receives(s.upload, i) then h.presented + [i.entry.value]
      else h.presented,
      if Publishes(s.upload, i) then h.published.With(!s.bank.activeBank, Candidate(s)) else h.published,
      NextRecovery(s, i))
  }

  /** The upload as the sender presented it. */
  function Offered(s: State): Upload {
    Upload(s.upload.latched.descriptorGeneration, s.upload.latched.mapGeneration, s.upload.latched.layoutCount,
      s.upload.latched.entriesCrc32, s.history.presented)
  }

  // ---- The registers ---------------------------------------------------------------------------

  /** InjectionMapStore: its registers, its two entry memories and its layout directory. */
  class InjectionMapStore {
    var phase: Phase
    var captureActive: bool
    var validationActive: bool
    var receivedCount: nat
    var receiveOverflow: bool
    var latched: Metadata
    var latchedNativeOnly: bool
    var layoutCount: nat
    var generationChanged: bool

    var activeBank: bool
    var banks: Banked<Bank>
    var invalidationLatched: bool
    var activeNativeOnly: bool
    ghost var history: History

    var query: Option<Query>
    var result: Option<QueryResult>

    /** CRC register and occupancy memory of the validation. */
    const validator: MapValidator
    const entries: Banked<array<MapEntry>>
    /** Both halves in one memory, addressed by bank and slot. */
    const directory: array<DirectoryRecord>

    /** Memory depths; they are constants, so every method keeps them. */
    ghost predicate Valid() {
      && entries.zero != entries.one
      && entries.zero.Length == MAX_FIELDS && entries.one.Length == MAX_FIELDS
      && directory.Length == 2 * MAX_LAYOUTS
      && validator.Valid()
    }

    /** What every clock finds: the invariant below, and the validator as far as the phase says. */
    ghost predicate Sound()
      requires Valid()
      reads this, entries.zero, entries.one, directory, validator, validator.occupancy
    {
      && Inv(Snapshot())
      && (phase.Validating? ==>
            InStep(Candidate(Snapshot()), phase.next, validator.occupancy[..], validator.crc))
    }

    ghost function Memory(bank: bool): BankMemory
      requires Valid()
      reads entries.zero, entries.one, directory
    {
      BankMemory(entries.At(bank)[..],
        if bank then directory[MAX_LAYOUTS..] else directory[..MAX_LAYOUTS])
    }

    function UploadState(): UploadRegisters
      reads this
    {
      UploadRegisters(phase, captureActive, validationActive, receivedCount, receiveOverflow,
        latched, latchedNativeOnly, layoutCount, generationChanged)
    }

    function BankState(): BankRegisters
      reads this
    {
      BankRegisters(activeBank, banks, invalidationLatched, activeNativeOnly)
    }

    ghost function Snapshot(): (s: State)
      requires Valid()
      reads this, entries.zero, entries.one, directory
      ensures Shaped(s)
    {
      State(UploadState(), BankState(), QueryRegisters(query, result),
        Banked(Memory(false), Memory(true)), history)
    }

    constructor ()
      ensures Valid() && Initial(Snapshot()) && Sound()
      ensures fresh(entries.zero) && fresh(entries.one) && fresh(directory)
      ensures fresh(validator) && fresh(validator.occupancy)
    {
      validator := new MapValidator();
      var blank := MapEntry(0, 0, 0, 0, 0, 0, 0, 0, 0, 0,
        Flags(false, false, false, false, false, false, false, false), 0, 0, 0, 0, []);
      var zero := new MapEntry[MAX_FIELDS](_ => blank);
      var one := new MapEntry[MAX_FIELDS](_ => blank);
      entries := Banked(zero, one);
      directory := new DirectoryRecord[2 * MAX_LAYOUTS](_ => DirectoryRecord(LayoutKey(0, 0, 0), 0));
      phase, captureActive, validationActive, activeBank := Idle, false, false, false;
      banks := Banked(Bank(false, 0, 0, 0, 0), Bank(false, 0, 0, 0, 0));
      receivedCount, receiveOverflow, layoutCount := 0, false, 0;
      latched, latchedNativeOnly := Metadata(0, 0, 0, 0, 0), false;
      generationChanged, invalidationLatched, activeNativeOnly := false, false, false;
      query, result := None, None;
      history := History([], Banked(Upload(0, 0, 0, 0, []), Upload(0, 0, 0, 0, [])), Rebegun);
      new;
      InitialInv(Snapshot());
    }

    /** The query FSM and the read port it owns. */
    method TickQuery(i: Inputs) returns (next: Option<Query>, answer: Option<QueryResult>)
      requires Valid()
      ensures QueryRegisters(next, answer) == NextQuery(Snapshot(), i)
    {
      var active := banks.At(activeBank);
      var activeValid := active.valid && !invalidationLatched &&
        active.descriptorGeneration == i.descriptorGeneration;
      next, answer := None, None;
      match query {
        case None =>
          if i.query.Some? && result.None? {
            var record := directory[if activeBank then MAX_LAYOUTS else 0];
            next := Some(Query(!activeValid || active.layoutCount == 0, i.query.value, activeBank,
              active.descriptorGeneration, active.mapGeneration, active.layoutCount, 0, record));
          }
        case Some(q) =>
          var same := activeValid && activeBank == q.bank &&
            active.descriptorGeneration == q.descriptorGeneration &&
            active.mapGeneration == q.mapGeneration;
          if q.immediateMiss || !same {
            answer := Some(Miss);
          } else if q.record.key == q.key {
            answer := Some(Found(q.scanIndex, q.record.reportLength));
          } else if q.scanIndex == q.layoutCount - 1 {
            answer := Some(Miss);
          } else {
            var slot := (q.scanIndex + 1) % MAX_LAYOUTS;
            var record := directory[if q.bank then MAX_LAYOUTS + slot else slot];
            next := Some(q.(scanIndex := slot, record := record));
          }
      }
    }

    /** The half of the directory under construction, through its read port. */
    method SpareDirectory() returns (dir: seq<DirectoryRecord>)
      requires Valid() && layoutCount <= MAX_LAYOUTS
      ensures dir == Snapshot().memory.At(!activeBank).directory[..layoutCount]
    {
      var base := if activeBank then 0 else MAX_LAYOUTS;
      dir := directory[base..base + layoutCount];
    }

    /** MAP_COMMIT: the verdict on its metadata, and a validator cleared for the entries. */
    method DecideCommit(i: Inputs) returns (after: Phase)
      requires Valid() && Commits(UploadState(), i)
      modifies validator, validator.occupancy
      ensures after == NextPhase(Snapshot(), i)
      ensures after.Validating? ==> InStep(Offered(Snapshot()), 0, validator.occupancy[..], validator.crc)
    {
      if !MetadataFits(UploadState(), i) {
        return Reject;
      }
      if latched.entryCount == 0 &&
        (latched.layoutCount != 0 || latched.entriesCrc32 != Crc32Final(CRC32_INIT)) {
        return Reject;
      }
      validator.Reset();
      NothingDescribed(validator.Progress([]), Offered(Snapshot()));
      return Validating(0);
    }

    /** The upload FSM's next phase, and the directory record it appends on this clock. */
    method Decide(i: Inputs) returns (after: Phase, appended: Option<DirectoryRecord>)
      requires Valid() && Sound()
      modifies validator, validator.occupancy
      ensures after == NextPhase(Snapshot(), i)
      ensures appended == Appended(Snapshot(), i)
      ensures after.Validating? ==>
        var u := if phase.Validating? then Candidate(Snapshot()) else Offered(Snapshot());
        InStep(u, after.next, validator.occupancy[..], validator.crc)
    {
      after, appended := phase, None;
      match phase {
        case Idle =>
          if i.begin {
            after := Receive;
          }
        case Receive =>
          if i.abort || i.invalidate {
            after := Idle;
          } else if i.commit {
            after := DecideCommit(i);
          }
        case Validating(n) =>
          if i.entryDone {
            var u := Upload(latched.descriptorGeneration, latched.mapGeneration, latched.layoutCount,
              latched.entriesCrc32,
              if latched.entryCount <= MAX_FIELDS then entries.At(!activeBank)[..latched.entryCount] else []);
            EntryDecides(Snapshot(), i);
            if n >= |u.entries| {
              after := Accept;
            } else {
              var dir := SpareDirectory();
              after, appended := DecideEntry(u, n, dir);
            }
          }
        case Accept => after := Idle;
        case Reject => after := Idle;
      }
    }

    /** CHECK_ENTRY to OCCUPY_FIELD for entry n, and the totals after the last one. */
    method DecideEntry(u: Upload, n: nat, dir: seq<DirectoryRecord>)
      returns (after: Phase, appended: Option<DirectoryRecord>)
      requires Valid() && n < |u.entries| && |dir| == layoutCount <= MAX_LAYOUTS
      requires dir == DirectoryOf(u.entries, n) && PrefixOk(u, n)
      requires InStep(u, n, validator.occupancy[..], validator.crc)
      modifies validator, validator.occupancy
      ensures after == EntryPhase(layoutCount, u, n) && appended == EntryRecord(layoutCount, u, n)
      ensures after.Validating? ==> InStep(u, n + 1, validator.occupancy[..], validator.crc)
    {
      LayoutsCounted(u, n);
      var error, dir' := validator.ValidateEntry(u, n, dir);
      if error != NoError {
        return Reject, None;
      }
      appended := if |dir'| > |dir| then Some(dir'[|dir|]) else None;
      if n + 1 < |u.entries| {
        return Validating(n + 1), appended;
      }
      var matches := validator.FinishCrc(u);
      after := if |dir'| != u.layoutCount || !matches then Reject else Accept;
    }

    /** The synchronous write ports of the spare bank: an entry, or a directory record. */
    method TickMemory(i: Inputs, appended: Option<DirectoryRecord>)
      requires Valid()
      modifies entries.zero, entries.one, directory
      ensures Banked(Memory(false), Memory(true)) == NextMemory(old(Snapshot()), i, appended)
    {
      if captureActive && i.entry.Some? && receivedCount < MAX_FIELDS {
        var bank := entries.At(!activeBank);
        bank[receivedCount] := i.entry.value;
      } else if appended.Some? && layoutCount < MAX_LAYOUTS {
        var slot := if activeBank then layoutCount else MAX_LAYOUTS + layoutCount;
        directory[slot] := appended.value;
      }
    }

    /** ACCEPT's flip, then invalidation, which is assigned last and wins. */
    method TickBanks(i: Inputs, ghost s: State)
      requires Shaped(s) && UploadState() == s.upload && BankState() == s.bank
      modifies this`banks, this`activeBank, this`activeNativeOnly, this`invalidationLatched
      ensures BankState() == NextBank(s, i)
    {
      var wasLatched := invalidationLatched;
      if Publishes(UploadState(), i) {
        banks := banks.With(!activeBank, Bank(true, latched.descriptorGeneration,
          latched.mapGeneration, latched.entryCount, latched.layoutCount));
        activeNativeOnly := latchedNativeOnly;
        activeBank := !activeBank;
      }
      if i.invalidate {
        invalidationLatched := true;
      } else if i.begin && !Busy(UploadState()) {
        invalidationLatched := false;
      }
      if i.invalidate || wasLatched {
        banks := Banked(banks.zero.(valid := false), banks.one.(valid := false));
        activeNativeOnly := false;
      }
    }

    /** The validation registers: a fitting commit starts them, ACCEPT and REJECT stop them. */
    method TickValidation(i: Inputs, starts: bool, appended: bool)
      modifies this`validationActive, this`layoutCount, this`generationChanged
      ensures validationActive == (starts || (phase.Validating? && old(validationActive)))
      ensures layoutCount ==
        if starts then 0 else if appended then old(layoutCount) + 1 else old(layoutCount)
      ensures generationChanged == (!starts && (old(generationChanged) ||
        (old(validationActive) && i.descriptorGeneration != latched.descriptorGeneration)))
    {
      if starts {
        validationActive, layoutCount, generationChanged := true, 0, false;
        return;
      }
      if validationActive && i.descriptorGeneration != latched.descriptorGeneration {
        generationChanged := true;
      }
      if appended {
        layoutCount := layoutCount + 1;
      }
      if !phase.Validating? {
        validationActive := false;
      }
    }

    /** One more entry, saturating one past the memory depth. */
    method CountEntry()
      modifies this`receivedCount, this`receiveOverflow
      ensures receivedCount ==
        if old(receivedCount) < MAX_FIELDS then old(receivedCount) + 1 else MAX_FIELDS + 1
      ensures receiveOverflow == (old(receiveOverflow) || old(receivedCount) >= MAX_FIELDS)
    {
      if receivedCount < MAX_FIELDS {
        receivedCount := receivedCount + 1;
      } else {
        receivedCount, receiveOverflow := MAX_FIELDS + 1, true;
      }
    }

    /** The reception registers: what begin latches and what entries count up. */
    method TickReceive(i: Inputs)
      modifies this`captureActive, this`receivedCount, this`receiveOverflow, this`latched, this`latchedNativeOnly
      ensures var u, t := old(UploadState()), UploadState();
        && t.captureActive == (Begins(u, i) ||
             (u.phase.Receive? && !i.abort && !i.invalidate && !i.commit && u.captureActive))
        && t.receivedCount == (if Begins(u, i) then 0
             else if Receives(u, i) then if u.receivedCount < MAX_FIELDS then u.receivedCount + 1 else MAX_FIELDS + 1
             else u.receivedCount)
        && t.receiveOverflow == (!Begins(u, i) &&
             (u.receiveOverflow || (Receives(u, i) && u.receivedCount >= MAX_FIELDS)))
        && t.latched == (if Begins(u, i) then i.candidate else u.latched)
        && t.latchedNativeOnly == (if Begins(u, i) then i.beginNativeOnly else u.latchedNativeOnly)
    {
      if phase.Idle? {
        captureActive := i.begin;
        if i.begin {
          receivedCount, receiveOverflow := 0, false;
          latched, latchedNativeOnly := i.candidate, i.beginNativeOnly;
        }
      } else if !phase.Receive? || i.abort || i.invalidate || i.commit {
        captureActive := false;
      } else if i.entry.Some? {
        CountEntry();
      }
    }

    /** The upload FSM's registers. */
    method TickUpload(i: Inputs, after: Phase, appended: Option<DirectoryRecord>)
      modifies this`phase, this`captureActive, this`validationActive, this`receivedCount,
        this`receiveOverflow, this`latched, this`latchedNativeOnly, this`layoutCount,
        this`generationChanged
      ensures UploadState() == NextUpload(old(UploadState()), i, after, appended)
    {
      TickValidation(i, Starts(UploadState(), i), appended.Some?);
      TickReceive(i);
      phase := after;
    }

    /** Every register, once the upload FSM has decided; s is the state before the clock. */
    method TickRegisters(i: Inputs, after: Phase, appended: Option<DirectoryRecord>, ghost s: State)
      requires Shaped(s) && UploadState() == s.upload && BankState() == s.bank
      modifies this
      ensures UploadState() == NextUpload(s.upload, i, after, appended) && BankState() == NextBank(s, i)
      ensures query == old(query) && result == old(result) && history == NextHistory(s, i)
    {
      TickBanks(i, s);
      TickUpload(i, after, appended);
      history := NextHistory(s, i);
    }

    /** Every register and memory word, once the upload FSM has decided. */
    method Clock(i: Inputs, after: Phase, appended: Option<DirectoryRecord>)
      requires Valid()
      modifies this, entries.zero, entries.one, directory
      ensures Snapshot() == Clocked(old(Snapshot()), i, after, appended)
    {
      ghost var s := Snapshot();
      var next, answer := TickQuery(i);
      TickMemory(i, appended);
      TickRegisters(i, after, appended, s);
      query, result := next, answer;
    }

    /** One clock of the whole store. */
    method Tick(i: Inputs)
      requires Valid() && Sound()
      modifies this, entries.zero, entries.one, directory, validator, validator.occupancy
      ensures Snapshot() == Next(old(Snapshot()), i) && Sound()
    {
      ghost var s := Snapshot();
      var after, appended := Decide(i);
      Clock(i, after, appended);
      NextKeepsInv(s, i);
      if Next(s, i).upload.phase.Validating? {
        StepStays(s, i);
      }
    }
  }

  // ---- Invariant ---------------------------------------------------------------------------

  /** Occupancy words and CRC register as the first n entries of the upload leave them. */
  ghost predicate InStep(u: Upload, n: nat, occupancy: seq<set<nat>>, crc: bv32) {
    n < |u.entries| ==>
      && |occupancy| == OCCUPANCY_BITS
      && OccupancyMeans(occupancy, DirectoryOf(u.entries, n), u.entries, n)
      && crc == EntriesCrc(u.entries, n)
  }

  lemma LayoutsCounted(u: Upload, n: nat)
    requires n < |u.entries|
    ensures |DirectoryOf(u.entries, n)| == |Keys(u.entries, n)|
    ensures |DirectoryOf(u.entries, n + 1)| == |Keys(u.entries, n + 1)|
    ensures |Keys(u.entries, n + 1)| == |Keys(u.entries, n)| + if IsNewLayout(u, n) then 1 else 0
  {
    DirectoryListsEachKeyOnce(u.entries, n);
    DirectoryListsEachKeyOnce(u.entries, n + 1);
  }

  /** What a validation finds on the clock that ends an entry, and what it then decides. */
  lemma EntryDecides(s: State, i: Inputs)
    requires Inv(s) && s.upload.phase.Validating? && i.entryDone
    ensures var u, n, count := Candidate(s), s.upload.phase.next, s.upload.layoutCount;
      if n >= |u.entries| then NextPhase(s, i) == Accept && Appended(s, i) == None
      else
        && PrefixOk(u, n) && count <= MAX_LAYOUTS
        && s.memory.At(!s.bank.activeBank).directory[..count] == DirectoryOf(u.entries, n)
        && NextPhase(s, i) == EntryPhase(count, u, n) && Appended(s, i) == EntryRecord(count, u, n)
  {
  }

  /** A bank holds the upload it was published from, and its directory. */
  ghost predicate Holds(b: Bank, m: BankMemory, u: Upload) {
    && UploadOk(u)
    && b.descriptorGeneration == u.descriptorGeneration
    && b.mapGeneration == u.mapGeneration
    && b.entryCount == |u.entries| <= |m.entries|
    && b.layoutCount == u.layoutCount <= |m.directory|
    && m.entries[..b.entryCount] == u.entries
    && m.directory[..b.layoutCount] == DirectoryOf(u.entries, |u.entries|)
  }

  ghost predicate ReceiveInv(s: State)
    requires Shaped(s)
  {
    && (s.upload.captureActive <==> s.upload.phase.Receive?)
    && (s.upload.phase.Receive? ==>
          && (s.upload.receiveOverflow <==> |s.history.presented| > MAX_FIELDS)
          && (s.upload.receivedCount ==
                if |s.history.presented| > MAX_FIELDS then MAX_FIELDS + 1 else |s.history.presented|)
          && (forall k :: 0 <= k < |s.history.presented| && k < MAX_FIELDS ==>
                s.memory.At(!s.bank.activeBank).entries[k] == s.history.presented[k]))
  }

  /** From MAP_COMMIT on, the candidate is what was presented. */
  ghost predicate CandidateInv(s: State)
    requires Shaped(s)
  {
    s.upload.phase.Validating? || s.upload.phase.Accept? ==>
      && s.upload.validationActive
      && s.upload.latched.entryCount <= MAX_FIELDS && s.upload.latched.layoutCount <= MAX_LAYOUTS
      && |s.history.presented| == s.upload.latched.entryCount
      && Candidate(s).entries == s.history.presented
  }

  ghost predicate ProgressInv(s: State)
    requires Shaped(s)
  {
    s.upload.phase.Validating? ==>
      var u, n := Candidate(s), s.upload.phase.next;
      if |u.entries| == 0 then UploadOk(u)
      else
        && n < |u.entries|
        && PrefixOk(u, n)
        && s.upload.layoutCount == |DirectoryOf(u.entries, n)| <= MAX_LAYOUTS
        && s.memory.At(!s.bank.activeBank).directory[..s.upload.layoutCount] == DirectoryOf(u.entries, n)
  }

  ghost predicate AcceptInv(s: State)
    requires Shaped(s)
  {
    s.upload.phase.Accept? ==>
      && UploadOk(Candidate(s))
      && s.upload.latched.layoutCount <= MAX_LAYOUTS
      && s.memory.At(!s.bank.activeBank).directory[..s.upload.latched.layoutCount] ==
         DirectoryOf(Candidate(s).entries, |Candidate(s).entries|)
  }

  ghost predicate ValidationInv(s: State)
    requires Shaped(s)
  {
    CandidateInv(s) && ProgressInv(s) && AcceptInv(s)
  }

  ghost predicate BanksInv(s: State)
    requires Shaped(s)
  {
    && (Active(s).valid ==> Holds(Active(s), s.memory.At(s.bank.activeBank), s.history.published.At(s.bank.activeBank)))
    && (s.bank.banks.zero.valid || s.bank.banks.one.valid ==> s.history.recovery.Recovered?)
    && (s.bank.invalidationLatched <==> s.history.recovery.Invalidated?)
  }

  /** While its bank stays active, a query has passed only records with other keys. */
  ghost predicate QueryInv(s: State)
    requires Shaped(s)
  {
    s.look.query.Some? && !s.look.query.value.immediateMiss && s.look.query.value.bank == s.bank.activeBank ==>
      var q, dir := s.look.query.value, s.memory.At(s.bank.activeBank).directory;
      && q.scanIndex < MAX_LAYOUTS
      && q.record == dir[q.scanIndex]
      && (forall l :: 0 <= l < q.scanIndex ==> dir[l].key != q.key)
      && (Active(s).valid ==> q.layoutCount == Active(s).layoutCount && q.scanIndex < q.layoutCount)
  }

  ghost predicate Inv(s: State) {
    Shaped(s) && ReceiveInv(s) && ValidationInv(s) && BanksInv(s) && QueryInv(s)
  }

  /** Reset: no bank is valid and nothing has been invalidated yet. */
  predicate Initial(s: State) {
    && Shaped(s)
    && s.upload.phase.Idle? && !s.upload.captureActive && !s.upload.validationActive
    && !s.bank.banks.zero.valid && !s.bank.banks.one.valid
    && !s.bank.invalidationLatched && s.history.recovery.Rebegun?
    && s.look.query.None? && s.look.result.None?
  }

  lemma InitialInv(s: State)
    requires Initial(s)
    ensures Inv(s)
  {
  }

  /** Nothing but the spare bank's memory is ever written. */
  lemma SpareOnly(s: State, i: Inputs)
    requires Shaped(s)
    ensures Shaped(Next(s, i))
    ensures Next(s, i).memory.At(s.bank.activeBank) == s.memory.At(s.bank.activeBank)
    ensures !s.upload.captureActive ==>
      Next(s, i).memory.At(!s.bank.activeBank).entries == s.memory.At(!s.bank.activeBank).entries
    ensures Appended(s, i).None? ==>
      Next(s, i).memory.At(!s.bank.activeBank).directory == s.memory.At(!s.bank.activeBank).directory
  {
  }

  lemma ReceiveKept(s: State, i: Inputs)
    requires Shaped(s) && ReceiveInv(s)
    ensures Shaped(Next(s, i)) && ReceiveInv(Next(s, i))
  {
    SpareOnly(s, i);
  }

  lemma CommitStartsValidation(s: State, i: Inputs)
    requires Shaped(s) && ReceiveInv(s) && Commits(s.upload, i)
    ensures Shaped(Next(s, i)) && ValidationInv(Next(s, i))
  {
    SpareOnly(s, i);
    var s' := Next(s, i);
    if s'.upload.phase.Validating? {
      assert Candidate(s').entries == s.history.presented;
      if s.history.presented == [] {
        assert Keys(s.history.presented, 0) == {};
      }
    }
  }

  /** What admitting entry n does to the directory under construction. */
  lemma DirectoryGrows(u: Upload, n: nat, dir: seq<DirectoryRecord>, count: nat)
    requires n < |u.entries| && PrefixOk(u, n) && Admits(u, n)
    requires count == |DirectoryOf(u.entries, n)| <= |dir| == MAX_LAYOUTS
    requires dir[..count] == DirectoryOf(u.entries, n)
    ensures PrefixOk(u, n + 1)
    ensures !IsNewLayout(u, n) ==> DirectoryOf(u.entries, n + 1) == dir[..count]
    ensures IsNewLayout(u, n) && count < MAX_LAYOUTS ==>
      var r := DirectoryRecord(Key(u.entries[n]), u.entries[n].reportLength);
      DirectoryOf(u.entries, n + 1) == dir[count := r][..count + 1]
    ensures |Keys(u.entries, n + 1)| == count + if IsNewLayout(u, n) then 1 else 0
  {
    PrefixOneMore(u, n);
    DirectoryListsEachKeyOnce(u.entries, n + 1);
  }

  lemma CandidateStays(s: State, i: Inputs)
    requires Shaped(s) && ReceiveInv(s) && s.upload.phase.Validating?
    ensures Shaped(Next(s, i)) && Candidate(Next(s, i)) == Candidate(s)
  {
    SpareOnly(s, i);
  }

  /** The upload a validation in progress is about: the one offered, and the same all along. */
  lemma StepStays(s: State, i: Inputs)
    requires Inv(s) && Next(s, i).upload.phase.Validating?
    ensures Candidate(Next(s, i)) == if s.upload.phase.Validating? then Candidate(s) else Offered(s)
  {
    SpareOnly(s, i);
    if s.upload.phase.Validating? {
      CandidateStays(s, i);
    } else {
      CommitStartsValidation(s, i);
    }
  }

  /** What one admitted entry leaves: one record more exactly when it opens a layout. */
  ghost predicate OneEntryOn(s: State, s': State)
    requires Shaped(s) && Shaped(s') && s.upload.phase.Validating?
  {
    var u, n, r := Candidate(s), s.upload.phase.next, s'.memory.At(!s.bank.activeBank).directory;
    && n < |u.entries| && Admits(u, n) && s'.upload.phase == EntryPhase(s.upload.layoutCount, u, n)
    && s'.upload.latched == s.upload.latched
    && s'.bank.activeBank == s.bank.activeBank
    && s'.upload.layoutCount == LayoutsAfter(s.upload.layoutCount, u, n) <= MAX_LAYOUTS
    && r == if IsNewLayout(u, n)
            then s.memory.At(!s.bank.activeBank).directory[
                   s.upload.layoutCount := DirectoryRecord(Key(u.entries[n]), u.entries[n].reportLength)]
            else s.memory.At(!s.bank.activeBank).directory
  }

  lemma EntryStep(s: State, i: Inputs)
    requires Shaped(s) && s.upload.phase.Validating? && !s.upload.captureActive && i.entryDone
    requires s.upload.layoutCount <= MAX_LAYOUTS
    requires s.upload.phase.next < |Candidate(s).entries|
    ensures Shaped(Next(s, i)) && (Next(s, i).upload.phase.Reject? || OneEntryOn(s, Next(s, i)))
  {
  }

  lemma ProgressOneMore(s: State, s': State)
    requires Shaped(s) && ProgressInv(s) && s.upload.phase.Validating?
    requires Shaped(s') && OneEntryOn(s, s') && Candidate(s') == Candidate(s)
    requires s'.upload.phase.Validating? && s.upload.phase.next < |Candidate(s).entries|
    ensures ProgressInv(s')
  {
    DirectoryGrows(Candidate(s), s.upload.phase.next, s.memory.At(!s.bank.activeBank).directory,
      s.upload.layoutCount);
  }

  lemma EntryAdmitted(s: State, i: Inputs)
    requires Shaped(s) && ReceiveInv(s) && CandidateInv(s) && ProgressInv(s)
    requires s.upload.phase.Validating? && i.entryDone
    ensures Shaped(Next(s, i)) && ProgressInv(Next(s, i))
  {
    CandidateStays(s, i);
    if Candidate(s).entries != [] {
      EntryStep(s, i);
      if Next(s, i).upload.phase.Validating? {
        ProgressOneMore(s, Next(s, i));
      }
    }
  }

  lemma AcceptOneMore(s: State, s': State)
    requires Shaped(s) && CandidateInv(s) && ProgressInv(s) && s.upload.phase.Validating?
    requires Shaped(s') && OneEntryOn(s, s') && Candidate(s') == Candidate(s)
    requires s'.upload.phase.Accept?
    ensures AcceptInv(s')
  {
    var u, n := Candidate(s), s.upload.phase.next;
    DirectoryGrows(u, n, s.memory.At(!s.bank.activeBank).directory, s.upload.layoutCount);
    assert n + 1 == |u.entries| && UploadOk(u);
  }

  lemma LastEntryAdmitted(s: State, i: Inputs)
    requires Shaped(s) && ReceiveInv(s) && CandidateInv(s) && ProgressInv(s)
    requires s.upload.phase.Validating? && i.entryDone
    ensures Shaped(Next(s, i)) && AcceptInv(Next(s, i))
  {
    CandidateStays(s, i);
    if Candidate(s).entries != [] {
      EntryStep(s, i);
      if Next(s, i).upload.phase.Accept? {
        AcceptOneMore(s, Next(s, i));
      }
    }
  }

  lemma ValidationKept(s: State, i: Inputs)
    requires Shaped(s) && ReceiveInv(s) && ValidationInv(s)
    ensures Shaped(Next(s, i)) && ValidationInv(Next(s, i))
  {
    SpareOnly(s, i);
    if Commits(s.upload, i) {
      CommitStartsValidation(s, i);
    } else if s.upload.phase.Validating? {
      CandidateStays(s, i);
      if i.entryDone {
        EntryAdmitted(s, i);
        LastEntryAdmitted(s, i);
      }
    }
  }

  lemma BanksKept(s: State, i: Inputs)
    requires Shaped(s) && ReceiveInv(s) && ValidationInv(s) && BanksInv(s)
    ensures Shaped(Next(s, i)) && BanksInv(Next(s, i))
  {
    SpareOnly(s, i);
  }

  lemma QueryKept(s: State, i: Inputs)
    requires Shaped(s) && QueryInv(s)
    ensures Shaped(Next(s, i)) && QueryInv(Next(s, i))
  {
    SpareOnly(s, i);
  }

  lemma NextKeepsInv(s: State, i: Inputs)
    requires Inv(s)
    ensures Inv(Next(s, i))
  {
    ReceiveKept(s, i);
    ValidationKept(s, i);
    BanksKept(s, i);
    QueryKept(s, i);
  }

  // ---- Runs ----------------------------------------------------------------------------------

  function Run(s: State, inputs: seq<Inputs>): (s': State)
    requires Shaped(s)
    ensures Shaped(s')
    decreases |inputs|
  {
    if inputs == [] then s
    else
      assert Shaped(Next(s, inputs[0])) by { SpareOnly(s, inputs[0]); }
      Run(Next(s, inputs[0]), inputs[1..])
  }

  lemma {:induction false} RunKeepsInv(s: State, inputs: seq<Inputs>)
    requires Inv(s)
    ensures Inv(Run(s, inputs))
    decreases |inputs|
  {
    if inputs != [] {
      NextKeepsInv(s, inputs[0]);
      RunKeepsInv(Next(s, inputs[0]), inputs[1..]);
    }
  }

  /** The states of all runs from reset, under any inputs. */
  ghost predicate Reachable(s: State) {
    exists reset, inputs :: Initial(reset) && s == Run(reset, inputs)
  }

  lemma ReachableInv(s: State)
    requires Reachable(s)
    ensures Inv(s)
  {
    var reset, inputs :| Initial(reset) && s == Run(reset, inputs);
    InitialInv(reset);
    RunKeepsInv(reset, inputs);
  }

  lemma {:induction false} RunLast(s: State, inputs: seq<Inputs>)
    requires Shaped(s) && inputs != []
    ensures Run(s, inputs) == Next(Run(s, inputs[..|inputs| - 1]), inputs[|inputs| - 1])
    decreases |inputs|
  {
    var n := |inputs| - 1;
    SpareOnly(s, inputs[0]);
    var later := inputs[1..];
    if n == 0 {
      assert later == [] && inputs[..n] == [];
    } else {
      RunLast(Next(s, inputs[0]), later);
      assert later[..n - 1] == inputs[..n][1..] && later[n - 1] == inputs[n];
      assert Run(s, inputs[..n]) == Run(Next(s, inputs[0]), inputs[..n][1..]);
    }
  }

  // ---- The verdict on an upload ----------------------------------------------------------------

  lemma RejectionIsRight(s: State, i: Inputs)
    requires Inv(s) && s.upload.phase.Validating? && Next(s, i).upload.phase.Reject?
    ensures !UploadOk(Candidate(s))
  {
    if UploadOk(Candidate(s)) {
      SoundMapGoesOn(Candidate(s), s.upload.phase.next);
    }
  }

  /** No check refuses an entry of a sound map. */
  lemma SoundMapGoesOn(u: Upload, n: nat)
    requires UploadOk(u) && n < |u.entries|
    ensures Admits(u, n)
    ensures |DirectoryOf(u.entries, n)| + (if IsNewLayout(u, n) then 1 else 0) <= u.layoutCount
    ensures n + 1 == |u.entries| ==>
      |DirectoryOf(u.entries, n)| + (if IsNewLayout(u, n) then 1 else 0) == u.layoutCount
  {
    AdmittedByAll(u, n);
    LayoutsCounted(u, n);
    KeysMonotone(u.entries, n + 1);
  }

  lemma AdmittedByAll(u: Upload, n: nat)
    requires PrefixOk(u, |u.entries|) && n < |u.entries|
    ensures Admits(u, n)
  {
  }

  lemma CommitRejectionIsRight(s: State, i: Inputs)
    requires Inv(s) && Commits(s.upload, i) && MetadataFits(s.upload, i) && Next(s, i).upload.phase.Reject?
    ensures !UploadOk(Offered(s))
  {
    assert Keys(s.history.presented, 0) == {};
  }

  /** The phase a validation ends in, if these clocks are enough for it to end. */
  function Settled(s: State, inputs: seq<Inputs>): Phase
    requires Shaped(s)
    decreases |inputs|
  {
    if !s.upload.phase.Validating? || inputs == [] then s.upload.phase
    else
      assert Shaped(Next(s, inputs[0])) by { SpareOnly(s, inputs[0]); }
      Settled(Next(s, inputs[0]), inputs[1..])
  }

  /** Entries whose validation is still to come; the zero-entry map costs one step. */
  function Remaining(s: State): nat
    requires Shaped(s) && s.upload.phase.Validating?
  {
    var count := |Candidate(s).entries|;
    if s.upload.phase.next < count then count - s.upload.phase.next else 1
  }

  /** The clocks that end the validation of an entry; the others wait. */
  function EntriesDone(inputs: seq<Inputs>): nat
    decreases |inputs|
  {
    if inputs == [] then 0 else (if inputs[0].entryDone then 1 else 0) + EntriesDone(inputs[1..])
  }

  lemma WaitingStays(s: State, i: Inputs)
    requires Inv(s) && s.upload.phase.Validating? && !i.entryDone
    ensures Shaped(Next(s, i)) && Next(s, i).upload.phase == s.upload.phase
    ensures Candidate(Next(s, i)) == Candidate(s)
  {
    CandidateStays(s, i);
  }

  /** However the ends of its entries are spread over the clocks, a validation gives the one verdict. */
  lemma {:induction false} ValidationDecides(s: State, inputs: seq<Inputs>)
    requires Inv(s) && s.upload.phase.Validating? && EntriesDone(inputs) >= Remaining(s)
    ensures Settled(s, inputs) == if UploadOk(Candidate(s)) then Accept else Reject
    decreases |inputs|
  {
    var s' := Next(s, inputs[0]);
    NextKeepsInv(s, inputs[0]);
    if !inputs[0].entryDone {
      WaitingStays(s, inputs[0]);
      ValidationDecides(s', inputs[1..]);
    } else {
      CandidateStays(s, inputs[0]);
      if s'.upload.phase.Validating? {
        ValidationDecides(s', inputs[1..]);
      } else if s'.upload.phase.Reject? {
        RejectionIsRight(s, inputs[0]);
      }
    }
  }

  /**
    Soundness and completeness: a MAP_COMMIT leads to ACCEPT exactly when it repeats the
    metadata for the live descriptors, the counts agree, and the presented map meets UploadOk;
    whatever happens on the clocks in between, as soon as each entry has had its turn.
   */
  lemma CommitVerdict(s: State, i: Inputs, inputs: seq<Inputs>)
    requires Reachable(s) && Commits(s.upload, i)
    requires EntriesDone(inputs) >= if s.history.presented == [] then 1 else |s.history.presented|
    ensures Settled(Next(s, i), inputs) ==
            if MetadataFits(s.upload, i) && UploadOk(Offered(s)) then Accept else Reject
  {
    ReachableInv(s);
    var s' := Next(s, i);
    NextKeepsInv(s, i);
    if s'.upload.phase.Validating? {
      assert Candidate(s') == Offered(s);
      ValidationDecides(s', inputs);
    } else if MetadataFits(s.upload, i) {
      CommitRejectionIsRight(s, i);
    }
  }

  // ---- Publication -----------------------------------------------------------------------------

  /** Between flips nothing the engine can read of the active map changes but its validity. */
  lemma ActiveBankIsStable(s: State, i: Inputs)
    requires Reachable(s) && !Publishes(s.upload, i)
    ensures Next(s, i).bank.activeBank == s.bank.activeBank
    ensures Next(s, i).memory.At(s.bank.activeBank) == s.memory.At(s.bank.activeBank)
    ensures Active(Next(s, i)).(valid := false) == Active(s).(valid := false)
  {
    ReachableInv(s);
    SpareOnly(s, i);
  }

  /** The flip publishes, whole and at once, the map that was presented and validated. */
  lemma PublicationIsAtomic(s: State, i: Inputs)
    requires Reachable(s) && Publishes(s.upload, i)
    ensures Next(s, i).bank.activeBank == !s.bank.activeBank
    ensures Next(s, i).history.published.At(!s.bank.activeBank) == Offered(s)
    ensures UploadOk(Offered(s))
    ensures Active(Next(s, i)).valid <==> !i.invalidate && !s.bank.invalidationLatched
    ensures Active(Next(s, i)).valid ==>
      && Holds(Active(Next(s, i)), Next(s, i).memory.At(!s.bank.activeBank), Offered(s))
      && Next(s, i).bank.activeNativeOnly == s.upload.latchedNativeOnly
  {
    ReachableInv(s);
    NextKeepsInv(s, i);
    assert Candidate(s) == Offered(s);
  }

  /** The active bank holds this map, whole. */
  ghost predicate ActiveHolds(s: State, u: Upload)
    requires Shaped(s)
  {
    UploadOk(u) && Holds(Active(s), s.memory.At(s.bank.activeBank), u)
  }

  lemma PublishedMapIsOffered(s: State, i: Inputs, g: U16)
    requires Reachable(s) && Publishes(s.upload, i) && ActiveValid(Next(s, i), g)
    ensures !i.invalidate && ActiveHolds(Next(s, i), Offered(s))
  {
    PublicationIsAtomic(s, i);
  }

  lemma ActiveMapStays(s: State, i: Inputs, g: U16)
    requires Reachable(s) && !Publishes(s.upload, i) && ActiveValid(Next(s, i), g)
    ensures !i.invalidate && ActiveValid(s, g)
    ensures forall u :: ActiveHolds(s, u) ==> ActiveHolds(Next(s, i), u)
  {
    ActiveBankIsStable(s, i);
  }

  /** Clock k publishes, and from then on nothing publishes or invalidates. */
  ghost predicate LastPublishedAt(reset: State, inputs: seq<Inputs>, k: nat)
    requires Shaped(reset)
  {
    && k < |inputs| && Publishes(Run(reset, inputs[..k]).upload, inputs[k])
    && (forall m :: k <= m < |inputs| ==> !inputs[m].invalidate)
    && (forall m :: k < m < |inputs| ==> !Publishes(Run(reset, inputs[..m]).upload, inputs[m]))
  }

  lemma LastPublishedLater(reset: State, inputs: seq<Inputs>, i: Inputs, k: nat)
    requires Shaped(reset) && LastPublishedAt(reset, inputs, k)
    requires !i.invalidate && !Publishes(Run(reset, inputs).upload, i)
    ensures LastPublishedAt(reset, inputs + [i], k) && (inputs + [i])[..k] == inputs[..k]
  {
    var all := inputs + [i];
    assert all[..|inputs|] == inputs;
    assert forall m :: k <= m < |inputs| ==> all[m] == inputs[m] && all[..m] == inputs[..m];
  }

  /**
    Whatever the engine finds active and valid, on any clock of any run, is exactly the map
    offered at the last publication, untouched since and not invalidated since.
   */
  lemma {:induction false} ActiveMapWasPublished(reset: State, inputs: seq<Inputs>, g: U16) returns (k: nat)
    requires Initial(reset) && ActiveValid(Run(reset, inputs), g)
    ensures LastPublishedAt(reset, inputs, k)
    ensures ActiveHolds(Run(reset, inputs), Offered(Run(reset, inputs[..k])))
    decreases |inputs|
  {
    if inputs == [] {
      assert false;
    } else {
      var n := |inputs| - 1;
      var past, i := inputs[..n], inputs[n];
      assert Reachable(Run(reset, past));
      RunLast(reset, inputs);
      assert inputs == past + [i];
      if Publishes(Run(reset, past).upload, i) {
        PublishedMapIsOffered(Run(reset, past), i, g);
        k := n;
      } else {
        ActiveMapStays(Run(reset, past), i, g);
        k := ActiveMapWasPublished(reset, past, g);
        LastPublishedLater(reset, past, i, k);
      }
    }
  }

  // ---- Invalidation ----------------------------------------------------------------------------

  /** A later begin led to a later publication. */
  predicate Rebuilt(s: State, inputs: seq<Inputs>, begun: bool)
    requires Shaped(s)
    decreases |inputs|
  {
    if inputs == [] then false
    else
      assert Shaped(Next(s, inputs[0])) by { SpareOnly(s, inputs[0]); }
      || (begun && Publishes(s.upload, inputs[0]))
      || Rebuilt(Next(s, inputs[0]), inputs[1..], begun || (inputs[0].begin && !Busy(s.upload)))
  }

  lemma {:induction false} NotRebuiltNotValid(s: State, inputs: seq<Inputs>, begun: bool, g: U16)
    requires Inv(s) && !Rebuilt(s, inputs, begun)
    requires s.history.recovery.Invalidated? || (begun && s.history.recovery.Rebegun?)
    ensures !ActiveValid(Run(s, inputs), g)
    decreases |inputs|
  {
    if inputs != [] {
      var i := inputs[0];
      NextKeepsInv(s, i);
      NotRebuiltNotValid(Next(s, i), inputs[1..], begun || (i.begin && !Busy(s.upload)), g);
    }
  }

  /**
    Invalidation is permanent: whatever follows it, and wherever it lands in a validation, the
    active map stays invalid until a begin after it has led to a publication.
   */
  lemma InvalidationIsPermanent(s: State, i: Inputs, inputs: seq<Inputs>, g: U16)
    requires Reachable(s) && i.invalidate && !Rebuilt(Next(s, i), inputs, false)
    ensures !ActiveValid(Run(Next(s, i), inputs), g)
  {
    ReachableInv(s);
    NextKeepsInv(s, i);
    NotRebuiltNotValid(Next(s, i), inputs, false, g);
  }

  // ---- Layout queries --------------------------------------------------------------------------

  /** The layouts of the active map; its count never exceeds the memory's depth. */
  function ActiveDirectory(s: State): seq<DirectoryRecord>
    requires Shaped(s)
  {
    var count := Active(s).layoutCount;
    s.memory.At(s.bank.activeBank).directory[..if count <= MAX_LAYOUTS then count else MAX_LAYOUTS]
  }

  lemma ActiveKeysDiffer(s: State)
    requires Inv(s) && Active(s).valid
    ensures |ActiveDirectory(s)| == Active(s).layoutCount && Distinct(ActiveDirectory(s))
  {
    var u := s.history.published.At(s.bank.activeBank);
    DirectoryListsEachKeyOnce(u.entries, |u.entries|);
  }

  /** A hit names the one layout with the key; a miss under a held snapshot means there is none. */
  lemma QueryAnswersExactly(s: State, i: Inputs)
    requires Reachable(s) && s.look.query.Some? && Next(s, i).look.result.Some?
    ensures var q, r := s.look.query.value, Next(s, i).look.result.value;
      && (r.Found? ==>
            && SnapshotHolds(s, q, i.descriptorGeneration)
            && r.index < |ActiveDirectory(s)|
            && ActiveDirectory(s)[r.index] == DirectoryRecord(q.key, r.reportLength)
            && forall l :: 0 <= l < |ActiveDirectory(s)| && l != r.index ==> ActiveDirectory(s)[l].key != q.key)
      && (r.Miss? && SnapshotHolds(s, q, i.descriptorGeneration) && !q.immediateMiss ==>
            forall l :: 0 <= l < |ActiveDirectory(s)| ==> ActiveDirectory(s)[l].key != q.key)
  {
    ReachableInv(s);
    if SnapshotHolds(s, s.look.query.value, i.descriptorGeneration) {
      ActiveKeysDiffer(s);
      assert forall l :: 0 <= l < |ActiveDirectory(s)| ==>
        ActiveDirectory(s)[l] == s.memory.At(s.bank.activeBank).directory[l];
    }
  }

  /** Every clock of a query either answers it or moves it one record on. */
  lemma QueryProgresses(s: State, i: Inputs)
    requires Reachable(s) && s.look.query.Some?
    ensures var s' := Next(s, i);
      || (s'.look.query.None? && s'.look.result.Some?)
      || (s'.look.query.Some? &&
          s'.look.query.value.scanIndex == s.look.query.value.scanIndex + 1 < s.look.query.value.layoutCount)
  {
    ReachableInv(s);
  }
}
