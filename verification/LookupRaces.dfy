/** Runs of the descriptor store, from reset, that mislead its lookup port. */
module LookupRaces {
  import opened DescriptorStore
  import opened DescriptorRefinement
  import opened DescriptorLookup

  const MOUSE: Key := Key(1, 0, 0)
  const OTHER: Key := Key(2, 0, 0)

  const NO_CAPTURE: CaptureInput := CaptureInput(false, false, NO_KEY, false, 0, false, false)
  const NO_SERVE: ServeInput := ServeInput(false, NO_KEY, false, 0, false)

  function Doing(capture: CaptureInput): Input { Input(capture, NO_SERVE, false, NO_KEY, false) }

  function Quiet(): Input { Doing(NO_CAPTURE) }
  function Starting(key: Key): Input { Doing(CaptureInput(false, true, key, false, 0, false, false)) }
  function Feeding(data: U8): Input { Doing(CaptureInput(false, false, NO_KEY, true, data, false, false)) }
  function Committing(): Input { Doing(CaptureInput(false, false, NO_KEY, false, 0, true, false)) }
  function Clearing(): Input { Doing(CaptureInput(true, false, NO_KEY, false, 0, false, false)) }
  function Asking(key: Key): Input { Input(NO_CAPTURE, NO_SERVE, true, key, false) }

  lemma Extended(run: seq<Pair>, inputs: seq<Input>, i: Input) returns (longer: seq<Pair>, more: seq<Input>)
    requires IsRun(run, inputs) && Shaped(run[|inputs|].store.memory) && Proper(run[|inputs|].store.capture, i.capture)
    ensures IsRun(longer, more) && |more| == |inputs| + 1 && more[|inputs|] == i && longer[|inputs|] == run[|inputs|]
    ensures Step(run[|inputs|], i, longer[|more|])
    ensures Inv(longer[|more|].store, longer[|more|].abstraction)
  {
    var p := run[|inputs|];
    longer := run + [Pair(Next(p.store, i), NextAbstract(p.abstraction, p.store, i))];
    more := inputs + [i];
    RunKeepsInv(longer, more, |more|);
  }

  predicate Free(m: Memory)
    requires Shaped(m)
  {
    forall j :: 0 <= j < ENTRY_COUNT ==> !m.valid[j]
  }

  /** Nothing under way. */
  predicate AtRest(p: Pair, m: Memory, contents: map<Key, seq<U8>>) {
    Inv(p.store, p.abstraction) && p.store.memory == m && p.abstraction.contents == contents &&
    !p.store.capture.active && p.store.admin.phase == Idle && !p.store.lookup.pending
  }

  /** With every slot free the scan has chosen the first as soon as it has seen it. */
  predicate FirstFree(a: Admin) {
    if a.slot > 0 then a.primed && a.freeFound && a.freeSlot == 0 else !a.freeFound
  }

  /** A capture of the key looking for its slot. */
  predicate Searching(p: Pair, m: Memory, contents: map<Key, seq<U8>>, key: Key) {
    var c, a := p.store.capture, p.store.admin;
    Inv(p.store, p.abstraction) && p.store.memory == m && p.abstraction.contents == contents &&
    p.abstraction.captured == [] && c.active && !c.placed && c.key == key && !p.store.lookup.pending &&
    (if c.allocPending then a.phase == Idle
     else a.phase == CaptureScan && a.key == key &&
          (Free(m) ==> !a.matchFound && FirstFree(a)))
  }

  /** A capture with a slot and these bytes, nothing else under way. */
  predicate Open(p: Pair, contents: map<Key, seq<U8>>, key: Key, bytes: seq<U8>) {
    var c := p.store.capture;
    Inv(p.store, p.abstraction) && p.abstraction.contents == contents && p.abstraction.captured == bytes &&
    c.active && c.placed && !c.rejected && !c.overflow && c.key == key && !c.allocPending
  }

  lemma SearchGoesOn(p: Pair, q: Pair, m: Memory, contents: map<Key, seq<U8>>, key: Key)
    requires Searching(p, m, contents, key) && Step(p, Quiet(), q) && Inv(q.store, q.abstraction)
    requires key in contents || exists j :: 0 <= j < ENTRY_COUNT && !m.valid[j]
    ensures if ScanEnds(p.store.capture, p.store.admin) then
              Open(q, contents, key, []) && q.store.memory == m && q.store.admin.phase == Idle &&
              !q.store.lookup.pending && (Free(m) ==> q.store.capture.slot == 0)
            else Searching(q, m, contents, key) && Cost(q) < Cost(p)
  {
    if ScanEnds(p.store.capture, p.store.admin) {
      RefusedOnlyWhenFull(q.store, q.abstraction);
    }
  }

  /** Cycles left of a search. */
  function Cost(p: Pair): nat {
    var a := p.store.admin;
    if p.store.capture.allocPending then 2 * ENTRY_COUNT + 3
    else if !a.primed then 2 * ENTRY_COUNT + 2 else ENTRY_COUNT - a.slot
  }

  /** Starts a capture and lets it find its slot. */
  lemma Captures(run: seq<Pair>, inputs: seq<Input>, m: Memory, contents: map<Key, seq<U8>>, key: Key)
    returns (longer: seq<Pair>, more: seq<Input>)
    requires IsRun(run, inputs) && AtRest(run[|inputs|], m, contents)
    requires key in contents || exists j :: 0 <= j < ENTRY_COUNT && !m.valid[j]
    ensures IsRun(longer, more)
    ensures var p := longer[|more|];
            Open(p, contents, key, []) && p.store.memory == m && p.store.admin.phase == Idle &&
            !p.store.lookup.pending && (Free(m) ==> p.store.capture.slot == 0)
  {
    longer, more := Extended(run, inputs, Starting(key));
    while !ScanEnds(longer[|more|].store.capture, longer[|more|].store.admin)
      invariant IsRun(longer, more) && Searching(longer[|more|], m, contents, key)
      decreases Cost(longer[|more|])
    {
      var p := longer[|more|];
      longer, more := Extended(longer, more, Quiet());
      SearchGoesOn(p, longer[|more|], m, contents, key);
    }
    var p := longer[|more|];
    longer, more := Extended(longer, more, Quiet());
    SearchGoesOn(p, longer[|more|], m, contents, key);
  }

  /** One byte for the open capture. */
  lemma Feeds(run: seq<Pair>, inputs: seq<Input>, contents: map<Key, seq<U8>>, key: Key, data: U8)
    returns (longer: seq<Pair>, more: seq<Input>)
    requires IsRun(run, inputs) && Open(run[|inputs|], contents, key, []) &&
      run[|inputs|].store.memory.allocator < STORE_SIZE
    requires run[|inputs|].store.admin.phase == Idle && !run[|inputs|].store.lookup.pending
    ensures IsRun(longer, more)
    ensures var p, q := run[|inputs|], longer[|more|];
            Open(q, contents, key, [data]) && q.store.admin.phase == Idle && !q.store.lookup.pending &&
            q.store.capture.slot == p.store.capture.slot && q.store.memory.valid == p.store.memory.valid &&
            q.store.memory.serveDirectory == p.store.memory.serveDirectory &&
            q.store.memory.allocator == p.store.memory.allocator + 1
  {
    longer, more := Extended(run, inputs, Feeding(data));
  }

  /** A lookup of the key, up to its first look at slot 0. */
  lemma Asks(run: seq<Pair>, inputs: seq<Input>, contents: map<Key, seq<U8>>, open: Key, bytes: seq<U8>, key: Key)
    returns (longer: seq<Pair>, more: seq<Input>)
    requires IsRun(run, inputs) && Open(run[|inputs|], contents, open, bytes)
    requires run[|inputs|].store.admin.phase == Idle && !run[|inputs|].store.lookup.pending
    ensures IsRun(longer, more) && Looks(longer[|more|], contents, open, bytes, key) &&
      !longer[|more|].store.admin.primed
    ensures longer[|more|].store.capture.slot == run[|inputs|].store.capture.slot
    ensures longer[|more|].store.memory == run[|inputs|].store.memory
  {
    longer, more := Extended(run, inputs, Asking(key));
    longer, more := Extended(longer, more, Quiet());
  }

  /** The lookup scan, with the capture still open and no commit behind it. */
  predicate Looks(p: Pair, contents: map<Key, seq<U8>>, open: Key, bytes: seq<U8>, key: Key) {
    Open(p, contents, open, bytes) && p.store.admin.phase == LookupScan && p.store.admin.key == key &&
    p.abstraction.hit.None?
  }

  lemma LooksOn(run: seq<Pair>, inputs: seq<Input>, contents: map<Key, seq<U8>>, open: Key, bytes: seq<U8>, key: Key)
    returns (longer: seq<Pair>, more: seq<Input>)
    requires IsRun(run, inputs) && Looks(run[|inputs|], contents, open, bytes, key)
    requires !Responds(run[|inputs|].store, Quiet())
    ensures IsRun(longer, more) && Looks(longer[|more|], contents, open, bytes, key) &&
      longer[|more|].store.admin.primed
    ensures var a, b := run[|inputs|].store.admin, longer[|more|].store.admin;
            b.slot == if a.primed then a.slot + 1 else a.slot
    ensures longer[|more|].store.memory == run[|inputs|].store.memory
    ensures longer[|more|].store.capture.slot == run[|inputs|].store.capture.slot
  {
    longer, more := Extended(run, inputs, Quiet());
  }

  /** From reset: one descriptor of one byte. */
  lemma StoresOne() returns (run: seq<Pair>, inputs: seq<Input>)
    ensures IsRun(run, inputs)
    ensures var p := run[|inputs|];
            AtRest(p, p.store.memory, map[MOUSE := [1]]) && p.store.memory.allocator == 1 &&
            p.store.memory.serveDirectory[0].key == MOUSE
  {
    ResetHolds();
    run, inputs := [Pair(Reset(), EMPTY)], [];
    assert !Reset().memory.valid[0];
    run, inputs := Captures(run, inputs, Reset().memory, map[], MOUSE);
    run, inputs := Feeds(run, inputs, map[], MOUSE, 1);
    run, inputs := Extended(run, inputs, Committing());
    assert map[][MOUSE := [1]] == map[MOUSE := [1]];
  }

  /** The same descriptor captured again, and looked up: its first look at slot 0. */
  lemma LooksWhileReplacing() returns (run: seq<Pair>, inputs: seq<Input>)
    ensures IsRun(run, inputs) && Looks(run[|inputs|], map[MOUSE := [1]], MOUSE, [2], MOUSE)
    ensures run[|inputs|].store.admin.primed
  {
    run, inputs := StoresOne();
    run, inputs := Captures(run, inputs, run[|inputs|].store.memory, map[MOUSE := [1]], MOUSE);
    run, inputs := Feeds(run, inputs, map[MOUSE := [1]], MOUSE, 2);
    run, inputs := Asks(run, inputs, map[MOUSE := [1]], MOUSE, [2], MOUSE);
    run, inputs := LooksOn(run, inputs, map[MOUSE := [1]], MOUSE, [2], MOUSE);
  }

  /** And on to the cycle that answers. */
  lemma LooksToTheEnd(contents: map<Key, seq<U8>>, key: Key, bytes: seq<U8>, before: seq<Pair>, done: seq<Input>)
    returns (run: seq<Pair>, inputs: seq<Input>)
    requires IsRun(before, done) && Looks(before[|done|], contents, key, bytes, key)
    requires before[|done|].store.admin.primed
    ensures IsRun(run, inputs) && Looks(run[|inputs|], contents, key, bytes, key)
    ensures Responds(run[|inputs|].store, Quiet())
  {
    run, inputs := before, done;
    while !Responds(run[|inputs|].store, Quiet())
      invariant IsRun(run, inputs) && Looks(run[|inputs|], contents, key, bytes, key)
      invariant run[|inputs|].store.admin.primed
      decreases ENTRY_COUNT - run[|inputs|].store.admin.slot
    {
      run, inputs := LooksOn(run, inputs, contents, key, bytes, key);
    }
  }

  lemma FindsReplaced() returns (run: seq<Pair>, inputs: seq<Input>)
    ensures IsRun(run, inputs) && Looks(run[|inputs|], map[MOUSE := [1]], MOUSE, [2], MOUSE)
    ensures Responds(run[|inputs|].store, Quiet())
  {
    run, inputs := LooksWhileReplacing();
    run, inputs := LooksToTheEnd(map[MOUSE := [1]], MOUSE, [2], run, inputs);
  }

  /** The commit on the cycle of the match. */
  lemma MatchIsOvertaken(p: Pair, q: Pair)
    requires Looks(p, map[MOUSE := [1]], MOUSE, [2], MOUSE) && Responds(p.store, Quiet()) && Step(p, Committing(), q)
    ensures Responds(p.store, Committing()) && q.store.lookup.cacheValid && q.store.lookup.found
    ensures q.abstraction.lookupKey == MOUSE && q.abstraction.contents == map[MOUSE := [2]]
    ensures Holds(q.store.memory.payload, q.store.lookup.start, q.store.lookup.length, [1])
    ensures !q.store.serve.selected
  {
    var a := p.store.admin;
    ScanAnswersCurrently(p.store, p.abstraction, Committing());
    AnswerBytesStay(p.store, p.abstraction, Committing(), a.fetched.start, a.fetched.length, [1]);
    assert map[MOUSE := [1]][MOUSE := [2]] == map[MOUSE := [2]];
  }

  /**
   * The key found while its replacement is committed: the answer is the replaced descriptor's, though
   * the map has the new one.
   */
  lemma CommitOnTheMatch() returns (run: seq<Pair>, inputs: seq<Input>, n: nat)
    ensures IsRun(run, inputs) && n + 1 == |inputs| && Responds(run[n].store, inputs[n])
    ensures var t, h := run[n + 1].store, run[n + 1].abstraction;
            h.lookupKey == MOUSE && h.contents == map[MOUSE := [2]] && t.lookup.cacheValid && t.lookup.found &&
            Holds(t.memory.payload, t.lookup.start, t.lookup.length, [1]) && !t.serve.selected
  {
    run, inputs := FindsReplaced();
    n := |inputs|;
    var p := run[n];
    run, inputs := Extended(run, inputs, Committing());
    MatchIsOvertaken(p, run[n + 1]);
  }

  /** The key's first capture, with a lookup of it that has passed the capture's slot and reads the last. */
  lemma LooksPastTheSlot() returns (run: seq<Pair>, inputs: seq<Input>)
    ensures IsRun(run, inputs) && Looks(run[|inputs|], map[], MOUSE, [1], MOUSE)
    ensures run[|inputs|].store.admin.primed && run[|inputs|].store.admin.slot == ENTRY_COUNT - 2
    ensures run[|inputs|].store.capture.slot == 0
  {
    ResetHolds();
    run, inputs := [Pair(Reset(), EMPTY)], [];
    assert !Reset().memory.valid[0];
    run, inputs := Captures(run, inputs, Reset().memory, map[], MOUSE);
    run, inputs := Feeds(run, inputs, map[], MOUSE, 1);
    run, inputs := Asks(run, inputs, map[], MOUSE, [1], MOUSE);
    run, inputs := LooksOn(run, inputs, map[], MOUSE, [1], MOUSE);
    while run[|inputs|].store.admin.slot < ENTRY_COUNT - 2
      invariant IsRun(run, inputs) && Looks(run[|inputs|], map[], MOUSE, [1], MOUSE)
      invariant run[|inputs|].store.admin.primed && run[|inputs|].store.admin.slot <= ENTRY_COUNT - 2
      invariant run[|inputs|].store.capture.slot == 0
      decreases ENTRY_COUNT - run[|inputs|].store.admin.slot
    {
      AbsentKeyGoesUnmatched(run[|inputs|], MOUSE);
      run, inputs := LooksOn(run, inputs, map[], MOUSE, [1], MOUSE);
    }
    AbsentKeyGoesUnmatched(run[|inputs|], MOUSE);
  }

  lemma AbsentKeyGoesUnmatched(p: Pair, key: Key)
    requires Looks(p, map[], MOUSE, [1], key) && p.store.admin.primed
    ensures !AdminMatches(p.store.admin, p.store.memory)
  {
    var s := p.store;
    MatchAnswers(s.memory, map[], Bound(s.capture, s.memory.allocator), s.admin.slot, key);
  }

  /** The commit behind the scan, and the scan's last slot. */
  lemma CommitGoesUnseen(p: Pair, q: Pair, r: Pair)
    requires Looks(p, map[], MOUSE, [1], MOUSE) && p.store.admin.primed && p.store.admin.slot == ENTRY_COUNT - 2
    requires p.store.capture.slot == 0 && !AdminMatches(p.store.admin, p.store.memory)
    requires Step(p, Committing(), q) && Inv(q.store, q.abstraction) && HitInv(q.store, q.abstraction)
    requires Step(q, Quiet(), r)
    ensures Responds(q.store, Quiet()) && r.store.lookup.cacheValid && !r.store.lookup.found
    ensures r.abstraction.lookupKey == MOUSE && r.abstraction.contents == map[][MOUSE := [1]]
  {
    var hit := q.abstraction.hit.value;
    assert hit.slot == 0 && hit.key == MOUSE && hit.read == ENTRY_COUNT - 1;
    assert q.abstraction.contents == map[][MOUSE := [1]];
    PassedSlotGoesUnmatched(q, hit);
    AnswerOf(q.store, q.abstraction, Quiet());
  }

  /** The record of the key in a slot passed, the last slot has no other. */
  lemma PassedSlotGoesUnmatched(q: Pair, hit: Hit)
    requires Inv(q.store, q.abstraction) && HitScan(q.store.admin, q.store.capture, q.store.memory, hit)
    requires hit.slot == 0 && hit.key == q.store.admin.key == MOUSE && q.store.admin.slot == ENTRY_COUNT - 1
    ensures !AdminMatches(q.store.admin, q.store.memory)
  {
    SlotHasOneKey(q.store.memory, q.abstraction.contents, Bound(q.store.capture, q.store.memory.allocator), MOUSE);
  }

  lemma SlotHasOneKey(m: Memory, contents: map<Key, seq<U8>>, bound: nat, key: Key)
    requires Shaped(m) && Represents(m, contents, bound) && Matches(m.valid, m.serveDirectory, 0, key)
    ensures !Matches(m.valid, m.serveDirectory, ENTRY_COUNT - 1, key)
  {
    if m.valid[ENTRY_COUNT - 1] {
      assert Apart(m.serveDirectory[0], m.serveDirectory[ENTRY_COUNT - 1]);
    }
  }

  /** A new key committed behind the scan: the answer is that there is none. */
  lemma CommitBehindTheScan() returns (run: seq<Pair>, inputs: seq<Input>, n: nat)
    ensures IsRun(run, inputs) && n + 1 == |inputs| && Responds(run[n].store, inputs[n])
    ensures var t, h := run[n + 1].store, run[n + 1].abstraction;
            h.lookupKey == MOUSE && h.contents == map[MOUSE := [1]] && t.lookup.cacheValid && !t.lookup.found
  {
    run, inputs := LooksPastTheSlot();
    AbsentKeyGoesUnmatched(run[|inputs|], MOUSE);
    var p := run[|inputs|];
    run, inputs := Extended(run, inputs, Committing());
    n := |inputs|;
    HitOverRuns(run, inputs, n);
    var q := run[n];
    run, inputs := Extended(run, inputs, Quiet());
    CommitGoesUnseen(p, q, run[n + 1]);
    assert map[][MOUSE := [1]] == map[MOUSE := [1]];
  }

  /** A clear leaves the old record in its slot, and the other key's capture finds that slot first. */
  lemma LooksAtOldRecord() returns (run: seq<Pair>, inputs: seq<Input>)
    ensures IsRun(run, inputs) && Looks(run[|inputs|], map[], OTHER, [2], MOUSE)
    ensures var s := run[|inputs|].store;
            !s.admin.primed && s.capture.slot == 0 && s.memory.serveDirectory[0].key == MOUSE
  {
    run, inputs := StoresOne();
    run, inputs := Extended(run, inputs, Clearing());
    var m := run[|inputs|].store.memory;
    assert Free(m) && !m.valid[0] && m.serveDirectory[0].key == MOUSE;
    run, inputs := Captures(run, inputs, m, map[], OTHER);
    run, inputs := Feeds(run, inputs, map[], OTHER, 2);
    run, inputs := Asks(run, inputs, map[], OTHER, [2], MOUSE);
  }

  /** The commit as slot 0 is read, and the match on what was read. */
  lemma RegisterIsOutdated(p: Pair, q: Pair, r: Pair)
    requires Looks(p, map[], OTHER, [2], MOUSE) && !p.store.admin.primed && p.store.capture.slot == 0
    requires p.store.memory.serveDirectory[0].key == MOUSE
    requires Step(p, Committing(), q) && Inv(q.store, q.abstraction) && HitInv(q.store, q.abstraction)
    requires Step(q, Quiet(), r)
    ensures Responds(q.store, Quiet()) && r.store.lookup.cacheValid && r.store.lookup.found
    ensures r.abstraction.lookupKey == MOUSE && r.abstraction.contents == map[][OTHER := [2]]
  {
    assert q.store.memory.valid[0] && q.store.admin.fetched.key == MOUSE && q.store.admin.slot == 0;
  }

  /** Another key committed into the slot the register was just read from, still holding a record from
   *  before a clear: the answer is a descriptor the map does not have. */
  lemma CommitUnderTheRegister() returns (run: seq<Pair>, inputs: seq<Input>, n: nat)
    ensures IsRun(run, inputs) && n + 1 == |inputs| && Responds(run[n].store, inputs[n])
    ensures var t, h := run[n + 1].store, run[n + 1].abstraction;
            h.lookupKey == MOUSE && h.contents == map[OTHER := [2]] && t.lookup.cacheValid && t.lookup.found
  {
    run, inputs := LooksAtOldRecord();
    var p := run[|inputs|];
    run, inputs := Extended(run, inputs, Committing());
    n := |inputs|;
    HitOverRuns(run, inputs, n);
    var q := run[n];
    run, inputs := Extended(run, inputs, Quiet());
    RegisterIsOutdated(p, q, run[n + 1]);
    assert map[][OTHER := [2]] == map[OTHER := [2]];
  }
}
