/** The descriptor store at its ports: what is asked is what is answered, what is captured is what is stored. */
module DescriptorPorts {
  import opened DescriptorStore
  import opened DescriptorRefinement
  import opened DescriptorLookup

  // ---- The serve port -----------------------------------------------------------------------

  /** serve_request meets serve_ready. */
  predicate Accepts(p: Pair, i: Input) {
    i.serve.request && ServeReady(p.store.serve, CommitOk(p.store.capture, i.capture), i.capture.clear, i.serve.cancel)
  }

  predicate Undisturbed(p: Pair, i: Input) {
    !Accepts(p, i) && !i.serve.cancel && !i.capture.clear && !CommitOk(p.store.capture, i.capture)
  }

  /** A request for key accepted on clock m, and nothing since that would end it before clock n. */
  predicate Serves(run: seq<Pair>, inputs: seq<Input>, m: nat, n: nat, key: Key) {
    IsRun(run, inputs) && m < n <= |inputs| && Accepts(run[m], inputs[m]) && inputs[m].serve.key == key &&
    forall j :: m < j < n ==> Undisturbed(run[j], inputs[j])
  }

  lemma AcceptStep(p: Pair, i: Input, q: Pair)
    requires Step(p, i, q) && Accepts(p, i)
    ensures q.store.serve.key == i.serve.key && q.store.serve.busy && !q.store.serve.primed
    ensures q.store.serve.slot == 0 && !q.store.serve.response
  {
  }

  lemma QuietStep(p: Pair, i: Input, q: Pair)
    requires Step(p, i, q) && Undisturbed(p, i)
    ensures q.store.serve.key == p.store.serve.key && q.abstraction.contents == p.abstraction.contents
    ensures !p.store.serve.busy ==> !q.store.serve.busy && q.store.serve.selected == p.store.serve.selected
    ensures p.store.serve.busy && !q.store.serve.response ==>
              q.store.serve.busy && q.store.serve.primed &&
              q.store.serve.slot == if p.store.serve.primed then p.store.serve.slot + 1 else p.store.serve.slot
    ensures q.store.serve.response ==> p.store.serve.busy && !q.store.serve.busy
  {
  }

  lemma {:induction false} KeyStays(run: seq<Pair>, inputs: seq<Input>, m: nat, n: nat, key: Key)
    requires Serves(run, inputs, m, n, key)
    ensures run[n].store.serve.key == key
    ensures run[n].abstraction.contents == run[m + 1].abstraction.contents
    decreases n
  {
    if n == m + 1 {
      assert Step(run[m], inputs[m], run[n]);
      AcceptStep(run[m], inputs[m], run[n]);
    } else {
      KeyStays(run, inputs, m, n - 1, key);
      assert Step(run[n - 1], inputs[n - 1], run[n]);
      QuietStep(run[n - 1], inputs[n - 1], run[n]);
    }
  }

  /** The response says found exactly if the map has the key asked for, with that descriptor's length; and
   *  every byte shown is that descriptor's, at the offset asked for. */
  lemma ServedIsAsked(run: seq<Pair>, inputs: seq<Input>, m: nat, n: nat, key: Key)
    requires Serves(run, inputs, m, n, key)
    ensures var v, contents := run[n].store.serve, run[n].abstraction.contents;
            v.response ==> (v.found <==> key in contents) && (v.found ==> v.length == |contents[key]|)
    ensures n < |inputs| && run[n + 1].store.read.valid ==>
              var contents, offset := run[n].abstraction.contents, inputs[n].serve.offset;
              key in contents && offset < |contents[key]| && run[n + 1].store.read.data == contents[key][offset]
  {
    KeyStays(run, inputs, m, n, key);
    if run[n].store.serve.response {
      ServeResponseIsCurrent(run, inputs, n);
    }
    if n < |inputs| && run[n + 1].store.read.valid {
      ServedByteIsCurrent(run, inputs, n);
    }
  }

  /** No response yet d clocks after the acceptance: the scan is that far. */
  lemma {:induction false} ServeScans(run: seq<Pair>, inputs: seq<Input>, m: nat, d: nat, key: Key)
    requires Serves(run, inputs, m, m + d + 1, key)
    requires forall j :: m < j <= m + d + 1 ==> !run[j].store.serve.response
    ensures var v := run[m + d + 1].store.serve;
            v.busy && (v.primed <==> d > 0) && v.slot == if d > 0 then d - 1 else 0
    decreases d
  {
    assert Step(run[m + d], inputs[m + d], run[m + d + 1]);
    if d == 0 {
      AcceptStep(run[m], inputs[m], run[m + 1]);
    } else {
      ServeScans(run, inputs, m, d - 1, key);
      QuietStep(run[m + d], inputs[m + d], run[m + d + 1]);
    }
  }

  /** The response comes within fourteen clocks. */
  lemma ServeResponds(run: seq<Pair>, inputs: seq<Input>, m: nat, key: Key) returns (n: nat)
    requires Serves(run, inputs, m, m + 14, key)
    ensures m < n <= m + 14 && run[n].store.serve.response
  {
    if forall j :: m < j <= m + 14 ==> !run[j].store.serve.response {
      ServeScans(run, inputs, m, 13, key);
      assert false;
    } else {
      n :| m < n <= m + 14 && run[n].store.serve.response;
    }
  }

  lemma {:induction false} SelectionStays(run: seq<Pair>, inputs: seq<Input>, m: nat, r: nat, n: nat, key: Key)
    requires Serves(run, inputs, m, n, key) && m < r <= n && run[r].store.serve.response
    ensures !run[n].store.serve.busy && run[n].store.serve.selected == run[r].store.serve.found
    decreases n
  {
    if r < n {
      SelectionStays(run, inputs, m, r, n - 1, key);
      assert Step(run[n - 1], inputs[n - 1], run[n]);
      QuietStep(run[n - 1], inputs[n - 1], run[n]);
    } else {
      assert Step(run[n - 1], inputs[n - 1], run[n]);
      AcceptStepOrQuiet(run, inputs, m, n, key);
      RunKeepsInv(run, inputs, n);
    }
  }

  lemma AcceptStepOrQuiet(run: seq<Pair>, inputs: seq<Input>, m: nat, n: nat, key: Key)
    requires Serves(run, inputs, m, n, key) && run[n].store.serve.response
    ensures n > m + 1 && !run[n].store.serve.busy
  {
    assert Step(run[n - 1], inputs[n - 1], run[n]);
    if n == m + 1 {
      AcceptStep(run[m], inputs[m], run[n]);
    } else {
      QuietStep(run[n - 1], inputs[n - 1], run[n]);
    }
  }

  /** Once the response has come, every offset can be read if and only if the descriptor asked for has it. */
  lemma AskedIsReadable(run: seq<Pair>, inputs: seq<Input>, m: nat, r: nat, n: nat, key: Key)
    requires Serves(run, inputs, m, n, key) && m < r <= n < |inputs| && run[r].store.serve.response
    requires inputs[n].serve.readEnable
    ensures var contents, offset := run[n].abstraction.contents, inputs[n].serve.offset;
            run[n + 1].store.read.valid <==> key in contents && offset < |contents[key]|
  {
    KeyStays(run, inputs, m, n, key);
    SelectionStays(run, inputs, m, r, n, key);
    ServedIsAsked(run, inputs, m, r, key);
    KeyStays(run, inputs, m, r, key);
    RunKeepsInv(run, inputs, n);
    assert Step(run[n], inputs[n], run[n + 1]);
    if run[n].store.serve.selected {
      SelectedByteIsServed(run[n].store, run[n].abstraction, inputs[n]);
    }
  }

  /** What frees the port: reset, a clear, a commit, or a cancel that no request comes with. */
  predicate Frees(run: seq<Pair>, inputs: seq<Input>, a: nat)
    requires a <= |inputs| && |run| == |inputs| + 1
  {
    a == 0 || inputs[a - 1].capture.clear || CommitOk(run[a - 1].store.capture, inputs[a - 1].capture) ||
    (inputs[a - 1].serve.cancel && !inputs[a - 1].serve.request)
  }

  lemma {:induction false} StaysFree(run: seq<Pair>, inputs: seq<Input>, a: nat, r: nat)
    requires IsRun(run, inputs) && a <= r <= |inputs| && Frees(run, inputs, a)
    requires forall j :: a <= j < r ==> !Accepts(run[j], inputs[j])
    ensures !run[r].store.serve.busy && !run[r].store.serve.selected
    decreases r
  {
    if r > a {
      StaysFree(run, inputs, a, r - 1);
    }
    if r > 0 {
      assert Step(run[r - 1], inputs[r - 1], run[r]);
    }
  }

  /** A freed port takes the next request that comes, but for a clock that clears or commits. */
  lemma FreePortAccepts(run: seq<Pair>, inputs: seq<Input>, a: nat, r: nat)
    requires IsRun(run, inputs) && a <= r < |inputs| && Frees(run, inputs, a)
    requires forall j :: a <= j < r ==> !Accepts(run[j], inputs[j])
    ensures Accepts(run[r], inputs[r]) <==>
            inputs[r].serve.request && !inputs[r].capture.clear &&
            !CommitOk(run[r].store.capture, inputs[r].capture)
  {
    StaysFree(run, inputs, a, r);
  }

  /** A descriptor that is not there leaves it free as well, and a cancel lets the next request in at once. */
  lemma ServedPortAccepts(run: seq<Pair>, inputs: seq<Input>, m: nat, r: nat, key: Key)
    requires Serves(run, inputs, m, r, key) && r < |inputs| && run[r].store.serve.response
    requires !inputs[r].capture.clear && !CommitOk(run[r].store.capture, inputs[r].capture)
    ensures Accepts(run[r], inputs[r]) <==>
            inputs[r].serve.request && (key !in run[r].abstraction.contents || inputs[r].serve.cancel)
  {
    ServedIsAsked(run, inputs, m, r, key);
    SelectionStays(run, inputs, m, r, r, key);
  }

  // ---- The lookup port ----------------------------------------------------------------------

  /** lookup_request meets lookup_ready. */
  predicate Asks(p: Pair, i: Input) {
    i.lookupRequest && !i.capture.clear && !p.store.lookup.pending && p.store.admin.phase != LookupScan
  }

  /** A lookup of key asked on clock m, neither cleared nor answered by clock n. */
  predicate Unanswered(run: seq<Pair>, inputs: seq<Input>, m: nat, n: nat, key: Key) {
    IsRun(run, inputs) && m < n <= |inputs| && Asks(run[m], inputs[m]) && inputs[m].lookupKey == key &&
    forall j :: m < j < n ==> !inputs[j].capture.clear && !Responds(run[j].store, inputs[j])
  }

  /** It waits for the admin scan, or is being scanned. */
  predicate Underway(s: Store, key: Key) {
    (s.lookup.pending && s.lookup.pendingKey == key && s.admin.phase != LookupScan) ||
    (s.admin.phase == LookupScan && s.admin.key == key)
  }

  lemma LookupStep(p: Pair, i: Input, q: Pair, key: Key)
    requires Step(p, i, q) && !i.capture.clear
    requires (Asks(p, i) && i.lookupKey == key) || (Underway(p.store, key) && !Responds(p.store, i))
    ensures Underway(q.store, key)
  {
  }

  lemma LookupStepAt(run: seq<Pair>, inputs: seq<Input>, n: nat, key: Key)
    requires IsRun(run, inputs) && n < |inputs| && !inputs[n].capture.clear
    requires (Asks(run[n], inputs[n]) && inputs[n].lookupKey == key) ||
             (Underway(run[n].store, key) && !Responds(run[n].store, inputs[n]))
    ensures Underway(run[n + 1].store, key)
  {
    assert Step(run[n], inputs[n], run[n + 1]);
    LookupStep(run[n], inputs[n], run[n + 1], key);
  }

  lemma {:induction false} StaysUnderway(run: seq<Pair>, inputs: seq<Input>, m: nat, n: nat, key: Key)
    requires Unanswered(run, inputs, m, n, key)
    ensures Underway(run[n].store, key)
    decreases n
  {
    if n > m + 1 {
      StaysUnderway(run, inputs, m, n - 1, key);
    }
    LookupStepAt(run, inputs, n - 1, key);
  }

  /** The next answer is for the key asked, and is the map's unless a commit misled its scan. */
  lemma LookupIsForTheAsked(run: seq<Pair>, inputs: seq<Input>, m: nat, n: nat, key: Key)
    requires Unanswered(run, inputs, m, n, key) && n < |inputs| && Responds(run[n].store, inputs[n])
    ensures Inv(run[n].store, run[n].abstraction) && run[n + 1].store.lookup.response
    ensures var t := run[n + 1].store;
            Current(t.lookup, t.memory.payload, run[n + 1].abstraction.contents, key) <==>
            !Misled(run[n].store, run[n].abstraction, inputs[n])
  {
    StaysUnderway(run, inputs, m, n, key);
    LookupIsCurrent(run, inputs, n);
    RunKeepsInv(run, inputs, n);
    assert Step(run[n], inputs[n], run[n + 1]);
  }

  // ---- Its progress -------------------------------------------------------------------------

  lemma LookupScans(p: Pair, i: Input, q: Pair)
    requires Step(p, i, q) && p.store.admin.phase == LookupScan && !i.capture.clear && !Responds(p.store, i)
    ensures q.store.admin.phase == LookupScan && q.store.admin.primed
    ensures q.store.admin.slot == if p.store.admin.primed then p.store.admin.slot + 1 else p.store.admin.slot
  {
  }

  lemma LookupBegins(p: Pair, i: Input, q: Pair)
    requires Step(p, i, q) && p.store.admin.phase == Idle && !p.store.capture.allocPending
    requires p.store.lookup.pending && !i.capture.clear
    ensures q.store.admin.phase == LookupScan && q.store.admin.slot == 0 && !q.store.admin.primed
  {
  }

  lemma {:induction false} LookupScansOn(run: seq<Pair>, inputs: seq<Input>, k: nat, d: nat)
    requires IsRun(run, inputs) && k + d <= |inputs| && run[k].store.admin.phase == LookupScan
    requires run[k].store.admin.slot == 0 && !run[k].store.admin.primed
    requires forall j :: k <= j < k + d ==> !inputs[j].capture.clear && !Responds(run[j].store, inputs[j])
    ensures var a := run[k + d].store.admin;
            a.phase == LookupScan && (a.primed <==> d > 0) && a.slot == if d > 0 then d - 1 else 0
    decreases d
  {
    if d > 0 {
      LookupScansOn(run, inputs, k, d - 1);
      assert Step(run[k + d - 1], inputs[k + d - 1], run[k + d]);
      LookupScans(run[k + d - 1], inputs[k + d - 1], run[k + d]);
    }
  }

  /** From the first clock that finds the admin scan free of captures and other clients, fourteen suffice. */
  lemma LookupEnds(run: seq<Pair>, inputs: seq<Input>, m: nat, k: nat, key: Key) returns (n: nat)
    requires Unanswered(run, inputs, m, k, key) && k + 13 < |inputs| && run[k].store.admin.phase == Idle
    requires !run[k].store.capture.allocPending && forall j :: k <= j <= k + 13 ==> !inputs[j].capture.clear
    ensures k < n <= k + 13 && Unanswered(run, inputs, m, n, key) && Responds(run[n].store, inputs[n])
  {
    StaysUnderway(run, inputs, m, k, key);
    assert Step(run[k], inputs[k], run[k + 1]);
    LookupBegins(run[k], inputs[k], run[k + 1]);
    n := k + 1;
    while n < k + 14 && !Responds(run[n].store, inputs[n])
      invariant k < n <= k + 14
      invariant forall j :: k < j < n ==> !Responds(run[j].store, inputs[j])
    {
      n := n + 1;
    }
    if n == k + 14 {
      LookupScansOn(run, inputs, k + 1, 13);
      assert false;
    }
  }

  // ---- Capture ------------------------------------------------------------------------------

  /** The bytes offered from clock p to clock n. */
  function Offered(inputs: seq<Input>, p: nat, n: nat): seq<U8>
    requires p <= n <= |inputs|
  {
    if p == n then []
    else Offered(inputs, p, n - 1) + if inputs[n - 1].capture.valid then [inputs[n - 1].capture.data] else []
  }

  /** A capture of key started on clock m and open on clock n. */
  predicate Captures(run: seq<Pair>, inputs: seq<Input>, m: nat, n: nat, key: Key) {
    IsRun(run, inputs) && m < n <= |inputs| && !run[m].store.capture.active && inputs[m].capture.start &&
    inputs[m].capture.key == key && !inputs[m].capture.clear &&
    forall j :: m < j < n ==> !inputs[j].capture.clear && !inputs[j].capture.abort && !inputs[j].capture.commit
  }

  /** What the open capture has of the bytes offered to it. */
  predicate Filling(s: Store, g: Abstract, key: Key, contents: map<Key, seq<U8>>, base: nat, offered: seq<U8>) {
    s.capture.active && s.capture.key == key && g.contents == contents && s.capture.base == base &&
    if !s.capture.placed then offered == [] && g.captured == []
    else if s.capture.rejected then s.capture.overflow
    else
      (s.capture.overflow <==> base + |offered| > STORE_SIZE) &&
      (!s.capture.overflow ==> g.captured == offered && s.memory.allocator == base + |offered|)
  }

  lemma FillingBegins(p: Pair, i: Input, q: Pair)
    requires Inv(p.store, p.abstraction) && Step(p, i, q)
    requires !p.store.capture.active && i.capture.start && !i.capture.clear
    ensures Filling(q.store, q.abstraction, i.capture.key, p.abstraction.contents, p.store.memory.allocator, [])
    ensures !q.store.capture.placed
  {
  }

  /** One more clock of it. */
  lemma FillingStep(p: Pair, i: Input, q: Pair, key: Key, contents: map<Key, seq<U8>>, base: nat, offered: seq<U8>)
    requires Inv(p.store, p.abstraction) && Step(p, i, q)
    requires Filling(p.store, p.abstraction, key, contents, base, offered)
    requires !i.capture.clear && !i.capture.abort && !i.capture.commit
    ensures p.store.capture.placed ==> q.store.capture.placed
    ensures Filling(q.store, q.abstraction, key, contents, base,
                    if p.store.capture.placed && i.capture.valid then offered + [i.capture.data] else offered)
  {
  }

  /** What has been offered by clock n to a capture placed on clock p, if it is by then. */
  function OfferedSince(inputs: seq<Input>, p: nat, n: nat): seq<U8>
    requires n <= |inputs|
  {
    if p <= n then Offered(inputs, p, n) else []
  }

  lemma FillingStepAt(run: seq<Pair>, inputs: seq<Input>, n: nat, key: Key, contents: map<Key, seq<U8>>, base: nat,
                      offered: seq<U8>)
    requires IsRun(run, inputs) && n < |inputs|
    requires Filling(run[n].store, run[n].abstraction, key, contents, base, offered)
    requires !inputs[n].capture.clear && !inputs[n].capture.abort && !inputs[n].capture.commit
    ensures var i := inputs[n].capture;
            Filling(run[n + 1].store, run[n + 1].abstraction, key, contents, base,
                    if run[n].store.capture.placed && i.valid then offered + [i.data] else offered)
  {
    RunKeepsInv(run, inputs, n);
    assert Step(run[n], inputs[n], run[n + 1]);
    FillingStep(run[n], inputs[n], run[n + 1], key, contents, base, offered);
  }

  lemma FillingBeginsAt(run: seq<Pair>, inputs: seq<Input>, m: nat, key: Key)
    requires Captures(run, inputs, m, m + 1, key)
    ensures Filling(run[m + 1].store, run[m + 1].abstraction, key, run[m].abstraction.contents,
                    run[m].store.memory.allocator, [])
    ensures !run[m + 1].store.capture.placed
  {
    RunKeepsInv(run, inputs, m);
    assert Step(run[m], inputs[m], run[m + 1]);
    FillingBegins(run[m], inputs[m], run[m + 1]);
  }

  lemma {:induction false} StaysFilling(run: seq<Pair>, inputs: seq<Input>, m: nat, p: nat, n: nat, key: Key)
    requires Captures(run, inputs, m, n, key) && m < p
    requires forall j :: m < j <= n ==> (run[j].store.capture.placed <==> p <= j)
    ensures Filling(run[n].store, run[n].abstraction, key, run[m].abstraction.contents,
                    run[m].store.memory.allocator, OfferedSince(inputs, p, n))
    decreases n
  {
    if n == m + 1 {
      FillingBeginsAt(run, inputs, m, key);
    } else {
      StaysFilling(run, inputs, m, p, n - 1, key);
      FillingStepAt(run, inputs, n - 1, key, run[m].abstraction.contents, run[m].store.memory.allocator,
                    OfferedSince(inputs, p, n - 1));
    }
  }

  // ---- Twelve slots, 4096 bytes -----------------------------------------------------------------

  function KeysUpTo(m: Memory, n: nat): set<Key>
    requires Shaped(m) && n <= ENTRY_COUNT
  {
    if n == 0 then {}
    else if m.valid[n - 1] then KeysUpTo(m, n - 1) + {m.serveDirectory[n - 1].key}
    else KeysUpTo(m, n - 1)
  }

  lemma {:induction false} KeysListed(m: Memory, n: nat, key: Key)
    requires Shaped(m) && n <= ENTRY_COUNT
    ensures key in KeysUpTo(m, n) <==> exists j :: 0 <= j < n && Matches(m.valid, m.serveDirectory, j, key)
    decreases n
  {
    if n > 0 {
      KeysListed(m, n - 1, key);
      assert Matches(m.valid, m.serveDirectory, n - 1, key) <==> m.valid[n - 1] && m.serveDirectory[n - 1].key == key;
    }
  }

  lemma KeyIsNew(m: Memory, contents: map<Key, seq<U8>>, bound: nat, n: nat)
    requires Shaped(m) && Represents(m, contents, bound) && n < ENTRY_COUNT && m.valid[n]
    ensures m.serveDirectory[n].key !in KeysUpTo(m, n)
  {
    KeysListed(m, n, m.serveDirectory[n].key);
    forall j | 0 <= j < n && m.valid[j]
      ensures m.serveDirectory[j].key != m.serveDirectory[n].key
    {
      assert Apart(m.serveDirectory[j], m.serveDirectory[n]);
    }
  }

  function Taken(valid: seq<bool>, n: nat): nat
    requires n <= |valid|
  {
    if n == 0 then 0 else Taken(valid, n - 1) + if valid[n - 1] then 1 else 0
  }

  lemma {:induction false} AllTaken(valid: seq<bool>, n: nat)
    requires n <= |valid|
    ensures Taken(valid, n) <= n && (Taken(valid, n) == n <==> forall j :: 0 <= j < n ==> valid[j])
    decreases n
  {
    if n > 0 {
      AllTaken(valid, n - 1);
    }
  }

  lemma OneKeyMore(keys: set<Key>, key: Key)
    requires key !in keys
    ensures |keys + {key}| == |keys| + 1
  {
  }

  lemma {:induction false} KeysCounted(m: Memory, contents: map<Key, seq<U8>>, bound: nat, n: nat)
    requires Shaped(m) && Represents(m, contents, bound) && n <= ENTRY_COUNT
    ensures |KeysUpTo(m, n)| == Taken(m.valid, n)
    decreases n
  {
    if n > 0 {
      KeysCounted(m, contents, bound, n - 1);
      if m.valid[n - 1] {
        KeyIsNew(m, contents, bound, n - 1);
        OneKeyMore(KeysUpTo(m, n - 1), m.serveDirectory[n - 1].key);
      }
    }
  }

  /** All slots are taken exactly when twelve descriptors are stored. */
  lemma FullIsTwelve(s: Store, g: Abstract)
    requires Inv(s, g)
    ensures |g.contents| <= 12
    ensures |g.contents| == 12 <==> forall j :: 0 <= j < ENTRY_COUNT ==> s.memory.valid[j]
  {
    var m, bound := s.memory, Bound(s.capture, s.memory.allocator);
    AllTaken(m.valid, ENTRY_COUNT);
    KeysCounted(m, g.contents, bound, ENTRY_COUNT);
    forall key
      ensures key in g.contents.Keys <==> key in KeysUpTo(m, ENTRY_COUNT)
    {
      KeysListed(m, ENTRY_COUNT, key);
      if j :| 0 <= j < ENTRY_COUNT && Matches(m.valid, m.serveDirectory, j, key) {
        assert Stored(m.serveDirectory[j], m.payload, g.contents, bound);
      }
    }
    assert g.contents.Keys == KeysUpTo(m, ENTRY_COUNT);
  }

  lemma CommitStep(p: Pair, i: Input, q: Pair, key: Key, contents: map<Key, seq<U8>>, base: nat, offered: seq<U8>)
    requires Inv(p.store, p.abstraction) && Step(p, i, q)
    requires Filling(p.store, p.abstraction, key, contents, base, offered)
    requires i.capture.commit && !i.capture.abort && !i.capture.clear
    ensures q.abstraction.contents ==
            if p.store.capture.placed && (key in contents || |contents| < 12) && base + |offered| <= 4096
            then contents[key := offered] else contents
    ensures !q.store.capture.active
  {
    FullIsTwelve(p.store, p.abstraction);
    if p.store.capture.placed {
      RefusedOnlyWhenFull(p.store, p.abstraction);
    }
  }

  /**
   * A capture of key started on clock m and committed on clock n, its slot sought until clock p. The map
   * gets the bytes offered since, whole and in order, if the key is stored already or fewer than twelve
   * are, and there is room for them in 4096 bytes; otherwise it stays as it was.
   */
  lemma CaptureStores(run: seq<Pair>, inputs: seq<Input>, m: nat, p: nat, n: nat, key: Key)
    requires Captures(run, inputs, m, n, key) && n < |inputs| && m < p
    requires forall j :: m < j <= n ==> (run[j].store.capture.placed <==> p <= j)
    requires inputs[n].capture.commit && !inputs[n].capture.abort && !inputs[n].capture.clear
    ensures var contents, used := run[m].abstraction.contents, run[m].store.memory.allocator;
            var offered := OfferedSince(inputs, p, n);
            run[n + 1].abstraction.contents ==
            if p <= n && (key in contents || |contents| < 12) && used + |offered| <= 4096
            then contents[key := offered] else contents
  {
    StaysFilling(run, inputs, m, p, n, key);
    RunKeepsInv(run, inputs, n);
    assert Step(run[n], inputs[n], run[n + 1]);
    CommitStep(run[n], inputs[n], run[n + 1], key, run[m].abstraction.contents, run[m].store.memory.allocator,
               OfferedSince(inputs, p, n));
  }

  // ---- The slot is found ----------------------------------------------------------------------

  /** d clocks into the capture's scan. */
  predicate Seeking(s: Store, d: nat) {
    s.capture.active && !s.capture.placed &&
    if d == 0 then s.admin.phase == Idle && s.capture.allocPending
    else
      s.admin.phase == CaptureScan && !s.capture.allocPending && (s.admin.primed <==> d > 1) &&
      s.admin.slot == if d > 1 then d - 2 else 0
  }

  lemma SeekStep(p: Pair, i: Input, q: Pair, d: nat)
    requires Inv(p.store, p.abstraction) && Step(p, i, q) && Seeking(p.store, d)
    requires !i.capture.clear && !i.capture.abort && !i.capture.commit
    ensures if d < 13 then Seeking(q.store, d + 1) else q.store.capture.placed
  {
  }

  lemma SeekStepAt(run: seq<Pair>, inputs: seq<Input>, n: nat, d: nat)
    requires IsRun(run, inputs) && n < |inputs| && Seeking(run[n].store, d)
    requires !inputs[n].capture.clear && !inputs[n].capture.abort && !inputs[n].capture.commit
    ensures if d < 13 then Seeking(run[n + 1].store, d + 1) else run[n + 1].store.capture.placed
  {
    RunKeepsInv(run, inputs, n);
    assert Step(run[n], inputs[n], run[n + 1]);
    SeekStep(run[n], inputs[n], run[n + 1], d);
  }

  lemma {:induction false} SeeksOn(run: seq<Pair>, inputs: seq<Input>, m: nat, k: nat, d: nat, key: Key)
    requires Captures(run, inputs, m, k + d, key) && m < k && Seeking(run[k].store, 0) && d <= 13
    ensures Seeking(run[k + d].store, d)
    decreases d
  {
    if d > 0 {
      SeeksOn(run, inputs, m, k, d - 1, key);
      SeekStepAt(run, inputs, k + d - 1, d - 1);
    }
  }

  /** Until the admin scan is free the capture waits for it; fourteen clocks later it is placed. */
  lemma {:induction false} WaitsForScan(run: seq<Pair>, inputs: seq<Input>, m: nat, k: nat, key: Key)
    requires Captures(run, inputs, m, k, key)
    requires forall j :: m < j < k ==> run[j].store.admin.phase == LookupScan || run[j].store.admin.phase == OtherClient
    ensures var c := run[k].store.capture; c.active && c.allocPending && !c.placed
    decreases k
  {
    if k == m + 1 {
      RunKeepsInv(run, inputs, m);
      assert Step(run[m], inputs[m], run[k]);
    } else {
      WaitsForScan(run, inputs, m, k - 1, key);
      WaitStepAt(run, inputs, k - 1);
    }
  }

  lemma WaitStepAt(run: seq<Pair>, inputs: seq<Input>, n: nat)
    requires IsRun(run, inputs) && n < |inputs|
    requires run[n].store.admin.phase == LookupScan || run[n].store.admin.phase == OtherClient
    requires var c := run[n].store.capture; c.active && c.allocPending && !c.placed
    requires !inputs[n].capture.clear && !inputs[n].capture.abort && !inputs[n].capture.commit
    ensures var c := run[n + 1].store.capture; c.active && c.allocPending && !c.placed
  {
    assert Step(run[n], inputs[n], run[n + 1]);
  }

  lemma CaptureIsPlaced(run: seq<Pair>, inputs: seq<Input>, m: nat, k: nat, key: Key)
    requires Captures(run, inputs, m, k + 14, key) && m < k && run[k].store.admin.phase == Idle
    requires forall j :: m < j < k ==> run[j].store.admin.phase == LookupScan || run[j].store.admin.phase == OtherClient
    ensures run[k + 14].store.capture.placed && forall j :: m < j < k + 14 ==> !run[j].store.capture.placed
  {
    WaitsForScan(run, inputs, m, k, key);
    SeeksOn(run, inputs, m, k, 13, key);
    SeekStepAt(run, inputs, k + 13, 13);
    forall j | m < j < k + 14
      ensures !run[j].store.capture.placed
    {
      if j < k {
        WaitsForScan(run, inputs, m, j, key);
      } else {
        SeeksOn(run, inputs, m, k, j - k, key);
      }
    }
  }
}
