/** The lookup port of the descriptor store: exactly when its answer is the map's. */
module DescriptorLookup {
  import opened DescriptorStore
  import opened DescriptorRefinement

  /** The answer just registered says what the map says. */
  predicate Current(l: Lookup, payload: seq<U8>, contents: map<Key, seq<U8>>, key: Key) {
    (l.found <==> key in contents) && (l.found ==> Holds(payload, l.start, l.length, contents[key]))
  }

  /** The scan ends this cycle and answers. */
  predicate Responds(s: Store, i: Input) {
    Shaped(s.memory) && s.admin.phase == LookupScan && s.admin.primed && !i.capture.clear &&
    (AdminMatches(s.admin, s.memory) || s.admin.slot == ENTRY_COUNT - 1)
  }

  /**
   * What makes the answer wrong, on the cycle that gives it. A commit of the key on this very cycle,
   * unless it repeats the bytes found. A commit earlier in the scan, into the very slot being read:
   * the register then holds the record the commit replaced, and if that has the key it is the answer,
   * with the bytes from before; wrong unless those are the ones committed under the key, or, if the
   * commit was of another key, the ones the map has under it. Or else a commit of the key into a slot
   * read or being read.
   */
  predicate Misled(s: Store, g: Abstract, i: Input)
    requires Inv(s, g)
  {
    var key, c := s.admin.key, s.capture;
    if g.hit.None? then
      Commits(c, i.capture) && c.key == key && (key in g.contents ==> g.contents[key] != g.captured)
    else
      var x := g.hit.value;
      if x.slot == x.read && x.replaced.key == key then
        if x.key == key then x.before != Some(x.bytes)
        else key !in g.contents || x.before != Some(g.contents[key])
      else x.key == key && x.slot <= x.read
  }

  lemma ScanAnswersCurrently(s: Store, g: Abstract, i: Input)
    requires Inv(s, g) && Responds(s, i) && g.hit.None?
    ensures Answered(s.memory, AdminMatches(s.admin, s.memory), s.admin.fetched.start, s.admin.fetched.length,
                     s.admin.key, g.contents, Bound(s.capture, s.memory.allocator))
  {
    MatchAnswers(s.memory, g.contents, Bound(s.capture, s.memory.allocator), s.admin.slot, s.admin.key);
  }

  /** No write of this cycle reaches the bytes of the answer. */
  lemma AnswerBytesStay(s: Store, g: Abstract, i: Input, start: nat, length: nat, bytes: seq<U8>)
    requires Inv(s, g) && start + length <= Bound(s.capture, s.memory.allocator)
    requires start + length <= STORE_SIZE
    ensures Holds(s.memory.payload, start, length, bytes) <==> Holds(Next(s, i).memory.payload, start, length, bytes)
  {
    var m, n := s.memory, Next(s, i).memory;
    assert m.payload[start..start + length] == n.payload[start..start + length];
  }

  /** With no commit behind it the scan's own answer is right, and a commit of this cycle may still undo it. */
  lemma UnhitLookup(s: Store, g: Abstract, i: Input)
    requires Inv(s, g) && Proper(s.capture, i.capture) && Responds(s, i) && g.hit.None?
    ensures var t, h := Next(s, i), NextAbstract(g, s, i);
            t.lookup.response && h.lookupKey == s.admin.key &&
            (Current(t.lookup, t.memory.payload, h.contents, h.lookupKey) <==> !Misled(s, g, i))
  {
    ScanAnswersCurrently(s, g, i);
    var a, key, t, h := s.admin, s.admin.key, Next(s, i), NextAbstract(g, s, i);
    if AdminMatches(a, s.memory) {
      assert t.lookup.found && t.lookup.start == a.fetched.start && t.lookup.length == a.fetched.length;
      AnswerBytesStay(s, g, i, a.fetched.start, a.fetched.length, g.contents[key]);
      AnswerBytesStay(s, g, i, a.fetched.start, a.fetched.length, h.contents[key]);
    } else {
      assert !t.lookup.found;
    }
  }

  /** Slot j holds the key, so the map has it with the bytes of that record. */
  lemma MatchedIsStored(m: Memory, contents: map<Key, seq<U8>>, bound: nat, j: int, key: Key)
    requires Shaped(m) && Represents(m, contents, bound) && Matches(m.valid, m.serveDirectory, j, key)
    ensures key in contents && Holds(m.payload, m.serveDirectory[j].start, m.serveDirectory[j].length, contents[key])
  {
    assert Stored(m.serveDirectory[j], m.payload, contents, bound);
  }

  /** The answer of a scan a commit landed on, from the registers alone. */
  lemma HitVerdict(a: Admin, c: Capture, m: Memory, contents: map<Key, seq<U8>>, bound: nat, x: Hit, found: bool)
    requires Shaped(m) && Represents(m, contents, bound) && HitScan(a, c, m, x)
    requires found == (m.valid[a.slot] && a.fetched.key == a.key) && (found || a.slot == ENTRY_COUNT - 1)
    ensures var right := (found <==> a.key in contents) &&
                         (found ==> Holds(m.payload, a.fetched.start, a.fetched.length, contents[a.key]));
            right <==>
            if x.slot == x.read && x.replaced.key == a.key then
              a.key in contents && Holds(m.payload, x.replaced.start, x.replaced.length, contents[a.key])
            else !(x.key == a.key && x.slot <= x.read)
  {
    var key := a.key;
    if x.slot == x.read && x.replaced.key == key {
      assert a.slot == x.read && a.fetched == x.replaced;
    } else if x.key == key && x.slot <= x.read {
      assert Matches(m.valid, m.serveDirectory, x.slot, key);
      MatchedIsStored(m, contents, bound, x.slot, key);
      assert !found;
    } else if found {
      assert Matches(m.valid, m.serveDirectory, a.slot, key);
      MatchedIsStored(m, contents, bound, a.slot, key);
    } else if key in contents {
      var j :| 0 <= j < ENTRY_COUNT && Matches(m.valid, m.serveDirectory, j, key);
      assert false;
    }
  }

  /** Whether the record a commit replaced still shows the key's bytes. */
  lemma BeforeIsHeld(m: Memory, contents: map<Key, seq<U8>>, x: Hit, key: Key)
    requires BytesOf(m.payload, x.replaced) == x.before && x.key in contents && contents[x.key] == x.bytes
    ensures key in contents && Holds(m.payload, x.replaced.start, x.replaced.length, contents[key]) <==>
            if x.key == key then x.before == Some(x.bytes)
            else key in contents && x.before == Some(contents[key])
  {
  }

  /** No clock of a hit scan writes or commits. */
  lemma NothingMoves(s: Store, g: Abstract, i: Input)
    requires Inv(s, g) && Responds(s, i) && g.hit.Some?
    ensures Next(s, i).memory.payload == s.memory.payload && NextContents(g, s.capture, i.capture) == g.contents
  {
    assert !CommitOk(s.capture, i.capture) && !Writes(s.capture, s.memory.allocator, i.capture);
  }

  /** The answer, from the registers it is read from. */
  lemma AnswerOf(s: Store, g: Abstract, i: Input)
    requires Inv(s, g) && Responds(s, i)
    ensures var t, h := Next(s, i), NextAbstract(g, s, i);
            t.lookup.response && h.lookupKey == s.admin.key &&
            t.lookup.found == AdminMatches(s.admin, s.memory) &&
            (t.lookup.found ==>
               t.lookup.start == s.admin.fetched.start && t.lookup.length == s.admin.fetched.length)
  {
  }

  lemma HitLookup(s: Store, g: Abstract, i: Input)
    requires Inv(s, g) && HitInv(s, g) && Responds(s, i) && g.hit.Some?
    ensures var t, h := Next(s, i), NextAbstract(g, s, i);
            t.lookup.response && h.lookupKey == s.admin.key &&
            (Current(t.lookup, t.memory.payload, h.contents, h.lookupKey) <==> !Misled(s, g, i))
  {
    var a, c, m, x := s.admin, s.capture, s.memory, g.hit.value;
    AnswerOf(s, g, i);
    NothingMoves(s, g, i);
    HitVerdict(a, c, m, g.contents, Bound(c, m.allocator), x, AdminMatches(a, m));
    if x.slot == x.read && x.replaced.key == a.key {
      assert a.slot == x.read;
      BeforeIsHeld(m, g.contents, x, a.key);
    }
  }

  /** Over every run: a lookup answer is the map's if and only if no commit misled its scan. */
  lemma LookupIsCurrent(run: seq<Pair>, inputs: seq<Input>, n: nat)
    requires IsRun(run, inputs) && n < |inputs| && Responds(run[n].store, inputs[n])
    ensures Inv(run[n].store, run[n].abstraction) && run[n + 1].store.lookup.response
    ensures var t, h := run[n + 1].store, run[n + 1].abstraction;
            Current(t.lookup, t.memory.payload, h.contents, h.lookupKey) <==>
            !Misled(run[n].store, run[n].abstraction, inputs[n])
  {
    RunKeepsInv(run, inputs, n);
    HitOverRuns(run, inputs, n);
    assert Step(run[n], inputs[n], run[n + 1]);
    if run[n].abstraction.hit.None? {
      UnhitLookup(run[n].store, run[n].abstraction, inputs[n]);
    } else {
      HitLookup(run[n].store, run[n].abstraction, inputs[n]);
    }
  }

  /** A current answer stays current for as long as the port shows it. */
  lemma CachedLookupIsCurrent(run: seq<Pair>, inputs: seq<Input>, n: nat)
    requires IsRun(run, inputs) && n < |run|
    requires run[n].store.lookup.cacheValid && run[n].store.admin.phase != LookupScan && run[n].abstraction.hit.None?
    ensures var s, g := run[n].store, run[n].abstraction; Current(s.lookup, s.memory.payload, g.contents, g.lookupKey)
  {
    RunKeepsInv(run, inputs, n);
  }
}
