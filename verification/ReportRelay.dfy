/** One relay slot: a ring of bytes with a head register, and whole-report admission in front of it. */
module ReportRelay {
  type U8 = x: int | 0 <= x < 0x100

  const DEPTH: nat := 128
  const MAX_REPORT: nat := 64

  datatype Option<T> = None | Some(value: T)

  /** A nine-bit queue word: a byte and whether it ends its report. */
  datatype Word = Word(data: U8, last: bool)

  // ---- The ring -----------------------------------------------------------------------------

  /** level counts the head register; the ring holds the rest. */
  datatype Ring = Ring(memory: seq<Word>, read: nat, write: nat, level: nat, headValid: bool, head: Word)

  function Advanced(pointer: nat): nat { if pointer == DEPTH - 1 then 0 else pointer + 1 }

  function InRing(q: Ring): int { q.level - if q.headValid then 1 else 0 }

  /** The address i words past a pointer. */
  function Place(pointer: nat, i: int): nat
    requires pointer < DEPTH && 0 <= i <= DEPTH
  {
    if pointer + i < DEPTH then pointer + i else pointer + i - DEPTH
  }

  predicate RingInv(q: Ring) {
    |q.memory| == DEPTH && q.read < DEPTH && q.write < DEPTH && q.level <= DEPTH && 0 <= InRing(q) &&
    q.write == Place(q.read, InRing(q))
  }

  /** The k words from the read pointer on. */
  function Stored(memory: seq<Word>, read: nat, k: nat): seq<Word>
    requires |memory| == DEPTH && read < DEPTH && k <= DEPTH
  {
    seq(k, i requires 0 <= i < k => memory[Place(read, i)])
  }

  /** The queue, oldest word first. */
  function Contents(q: Ring): (c: seq<Word>)
    requires RingInv(q)
    ensures |c| == q.level
  {
    (if q.headValid then [q.head] else []) + Stored(q.memory, q.read, InRing(q))
  }

  predicate Dequeues(q: Ring, ready: bool) { q.headValid && ready }

  predicate Issues(q: Ring, ready: bool) {
    (!q.headValid && q.level != 0) || (Dequeues(q, ready) && q.level > 1)
  }

  function NextLevel(q: Ring, enqueue: bool, ready: bool): int {
    if enqueue && !Dequeues(q, ready) then q.level + 1
    else if Dequeues(q, ready) && !enqueue then q.level - 1
    else q.level
  }

  function NextRing(q: Ring, word: Option<Word>, ready: bool, flush: bool): Ring
    requires RingInv(q)
  {
    var memory := if word.Some? then q.memory[q.write := word.value] else q.memory;
    var head := if Issues(q, ready) then q.memory[q.read] else q.head;
    if flush then Ring(memory, 0, 0, 0, false, head)
    else
      Ring(memory,
           if Issues(q, ready) then Advanced(q.read) else q.read,
           if word.Some? then Advanced(q.write) else q.write,
           NextLevel(q, word.Some?, ready),
           Issues(q, ready) || (q.headValid && !ready),
           head)
  }

  lemma PlaceStep(read: nat, k: nat)
    requires read < DEPTH && k < DEPTH
    ensures Place(Advanced(read), k) == Place(read, k + 1) == Advanced(Place(read, k))
  {
  }

  lemma StoredHead(memory: seq<Word>, read: nat, k: nat)
    requires |memory| == DEPTH && read < DEPTH && 0 < k <= DEPTH
    ensures Stored(memory, read, k) == [memory[read]] + Stored(memory, Advanced(read), k - 1)
  {
    forall i | 0 < i < k
      ensures Stored(memory, read, k)[i] == Stored(memory, Advanced(read), k - 1)[i - 1]
    {
      PlaceStep(read, i - 1);
    }
  }

  lemma StoredTail(memory: seq<Word>, read: nat, k: nat, word: Word)
    requires |memory| == DEPTH && read < DEPTH && k < DEPTH
    ensures Stored(memory[Place(read, k) := word], read, k + 1) == Stored(memory, read, k) + [word]
  {
    var written := memory[Place(read, k) := word];
    forall i | 0 <= i < k ensures Stored(written, read, k + 1)[i] == Stored(memory, read, k)[i] {
      assert Place(read, i) != Place(read, k);
    }
  }

  /** What leaves the ring for the head register, if anything does. */
  lemma ReadRefines(q: Ring, ready: bool)
    requires RingInv(q)
    ensures var r := NextRing(q, None, ready, false);
            RingInv(r) &&
            Contents(r) == if Dequeues(q, ready) then Contents(q)[1..] else Contents(q)
  {
    if Issues(q, ready) {
      StoredHead(q.memory, q.read, InRing(q));
      PlaceStep(q.read, InRing(q) - 1);
    }
  }

  /** The ring is a first-in first-out queue: one word out of the front, one word onto the back. */
  lemma RingRefines(q: Ring, word: Option<Word>, ready: bool)
    requires RingInv(q) && (word.Some? ==> q.level < DEPTH)
    ensures var r := NextRing(q, word, ready, false);
            RingInv(r) &&
            Contents(r) == (if Dequeues(q, ready) then Contents(q)[1..] else Contents(q)) +
                           (if word.Some? then [word.value] else [])
  {
    ReadRefines(q, ready);
    if word.Some? {
      var r := NextRing(q, None, ready, false);
      var k := InRing(r);
      StoredTail(r.memory, r.read, k, word.value);
      PlaceStep(r.read, k);
    }
  }

  lemma FlushEmpties(q: Ring, word: Option<Word>, ready: bool)
    requires RingInv(q)
    ensures RingInv(NextRing(q, word, ready, true)) && Contents(NextRing(q, word, ready, true)) == []
  {
  }

  // ---- Admission ----------------------------------------------------------------------------

  datatype Slot = Slot(ring: Ring, inReport: bool, accepting: bool)

  /** The whole of the largest report would fit now. */
  predicate Admits(q: Ring) { q.level + MAX_REPORT <= DEPTH }

  predicate Starts(s: Slot, word: Option<Word>) { word.Some? && !s.inReport }

  predicate Takes(s: Slot, word: Option<Word>) {
    word.Some? && if s.inReport then s.accepting else Admits(s.ring)
  }

  /** The drop pulse: only on a report's first byte. */
  predicate Congested(s: Slot, word: Option<Word>) { Starts(s, word) && !Admits(s.ring) }

  function NextSlot(s: Slot, word: Option<Word>, ready: bool, flush: bool): Slot
    requires RingInv(s.ring)
  {
    Slot(NextRing(s.ring, if Takes(s, word) then word else None, ready, flush),
         if word.Some? then !word.value.last else s.inReport,
         !flush && if Starts(s, word) then Admits(s.ring) else s.accepting)
  }

  // ---- What was admitted, and what came out -------------------------------------------------

  /**
   * Since the last flush: the reports admitted whole, the admitted part of the one in progress, and
   * the words delivered. current is the report in progress, admitted or not.
   */
  datatype Ledger = Ledger(
    current: seq<Word>, whole: seq<seq<Word>>, open: seq<Word>, delivered: seq<Word>)

  function NextLedger(l: Ledger, s: Slot, word: Option<Word>, ready: bool, flush: bool): Ledger {
    var current := if word.None? then l.current else if word.value.last then [] else l.current + [word.value];
    if flush then Ledger(current, [], [], [])
    else
      var delivered := l.delivered + if Dequeues(s.ring, ready) then [s.ring.head] else [];
      if !Takes(s, word) then Ledger(current, l.whole, l.open, delivered)
      else if word.value.last then Ledger(current, l.whole + [l.open + [word.value]], [], delivered)
      else Ledger(current, l.whole, l.open + [word.value], delivered)
  }

  function Flat(reports: seq<seq<Word>>, n: nat): seq<Word>
    requires n <= |reports|
  {
    if n == 0 then [] else Flat(reports, n - 1) + reports[n - 1]
  }

  /** Its last flag is on its last word and nowhere else. */
  predicate Whole(r: seq<Word>) {
    0 < |r| <= MAX_REPORT && forall i :: 0 <= i < |r| ==> (r[i].last <==> i == |r| - 1)
  }

  predicate Unfinished(r: seq<Word>) {
    |r| < MAX_REPORT && forall i :: 0 <= i < |r| ==> !r[i].last
  }

  /** No report is longer than max_report_bytes. */
  predicate Bounded(l: Ledger, word: Option<Word>) {
    word.Some? && !word.value.last ==> |l.current| + 1 < MAX_REPORT
  }

  predicate Inv(s: Slot, l: Ledger) {
    RingInv(s.ring) && Unfinished(l.current) &&
    (s.inReport <==> l.current != []) &&
    l.open == (if s.inReport && s.accepting then l.current else []) &&
    (s.inReport && s.accepting ==> s.ring.level + (MAX_REPORT - |l.current|) <= DEPTH) &&
    (forall k :: 0 <= k < |l.whole| ==> Whole(l.whole[k])) &&
    l.delivered + Contents(s.ring) == Flat(l.whole, |l.whole|) + l.open
  }

  /** Room is checked on the first byte only, yet no byte ever finds the ring full. */
  lemma TakenFits(s: Slot, l: Ledger, word: Option<Word>)
    requires Inv(s, l) && Takes(s, word)
    ensures s.ring.level < DEPTH
  {
  }

  lemma {:induction false} FlatPrefix(a: seq<seq<Word>>, b: seq<seq<Word>>, n: nat)
    requires n <= |a| && n <= |b| && a[..n] == b[..n]
    ensures Flat(a, n) == Flat(b, n)
    decreases n
  {
    if n > 0 {
      assert a[..n - 1] == a[..n][..n - 1] == b[..n][..n - 1] == b[..n - 1];
      assert a[n - 1] == a[..n][n - 1] == b[..n][n - 1] == b[n - 1];
      FlatPrefix(a, b, n - 1);
    }
  }

  lemma FlatAppend(reports: seq<seq<Word>>, r: seq<Word>)
    ensures Flat(reports + [r], |reports| + 1) == Flat(reports, |reports|) + r
  {
    assert (reports + [r])[..|reports|] == reports[..|reports|];
    FlatPrefix(reports + [r], reports, |reports|);
  }

  lemma Requeue(delivered: seq<Word>, sent: seq<Word>, rest: seq<Word>, more: seq<Word>, total: seq<Word>)
    requires delivered + (sent + rest) == total
    ensures (delivered + sent) + (rest + more) == total + more
  {
  }

  lemma AdmittedGrows(s: Slot, l: Ledger, word: Option<Word>, ready: bool)
    ensures var k := NextLedger(l, s, word, ready, false);
            Flat(k.whole, |k.whole|) + k.open ==
            (Flat(l.whole, |l.whole|) + l.open) + if Takes(s, word) then [word.value] else []
  {
    if Takes(s, word) && word.value.last {
      FlatAppend(l.whole, l.open + [word.value]);
    }
  }

  lemma StreamKept(s: Slot, l: Ledger, word: Option<Word>, ready: bool)
    requires Inv(s, l) && Bounded(l, word)
    ensures var t, k := NextSlot(s, word, ready, false), NextLedger(l, s, word, ready, false);
            RingInv(t.ring) && k.delivered + Contents(t.ring) == Flat(k.whole, |k.whole|) + k.open
  {
    var taken := if Takes(s, word) then word else None;
    var more := if Takes(s, word) then [word.value] else [];
    var before := Contents(s.ring);
    var sent := if Dequeues(s.ring, ready) then [s.ring.head] else [];
    var rest := if Dequeues(s.ring, ready) then before[1..] else before;
    RingRefines(s.ring, taken, ready);
    AdmittedGrows(s, l, word, ready);
    assert before == sent + rest;
    Requeue(l.delivered, sent, rest, more, Flat(l.whole, |l.whole|) + l.open);
  }

  /** The admission flags, the report in progress, and the room kept for its rest. */
  lemma AdmissionKept(s: Slot, l: Ledger, word: Option<Word>, ready: bool, flush: bool)
    requires Inv(s, l) && Bounded(l, word)
    ensures var t, k := NextSlot(s, word, ready, flush), NextLedger(l, s, word, ready, flush);
            Unfinished(k.current) && (t.inReport <==> k.current != []) &&
            k.open == (if t.inReport && t.accepting then k.current else []) &&
            (t.inReport && t.accepting ==> t.ring.level + (MAX_REPORT - |k.current|) <= DEPTH)
  {
  }

  lemma WholeKept(s: Slot, l: Ledger, word: Option<Word>, ready: bool, flush: bool)
    requires Inv(s, l) && Bounded(l, word)
    ensures var k := NextLedger(l, s, word, ready, flush); forall n :: 0 <= n < |k.whole| ==> Whole(k.whole[n])
  {
  }

  lemma NextKeepsInv(s: Slot, l: Ledger, word: Option<Word>, ready: bool, flush: bool)
    requires Inv(s, l) && Bounded(l, word)
    ensures Inv(NextSlot(s, word, ready, flush), NextLedger(l, s, word, ready, flush))
  {
    AdmissionKept(s, l, word, ready, flush);
    WholeKept(s, l, word, ready, flush);
    if flush {
      FlushEmpties(s.ring, if Takes(s, word) then word else None, ready);
    } else {
      StreamKept(s, l, word, ready);
    }
  }

  // ---- Whole runs ---------------------------------------------------------------------------

  datatype Input = Input(word: Option<Word>, ready: bool, flush: bool)

  datatype Pair = Pair(slot: Slot, ledger: Ledger)

  predicate Step(p: Pair, i: Input, q: Pair) {
    RingInv(p.slot.ring) && Bounded(p.ledger, i.word) &&
    q == Pair(NextSlot(p.slot, i.word, i.ready, i.flush), NextLedger(p.ledger, p.slot, i.word, i.ready, i.flush))
  }

  predicate Empty(p: Pair) {
    |p.slot.ring.memory| == DEPTH && p.slot.ring.read == 0 == p.slot.ring.write == p.slot.ring.level &&
    !p.slot.ring.headValid && !p.slot.inReport && p.ledger == Ledger([], [], [], [])
  }

  /** A run from reset: one state more than inputs. */
  predicate IsRun(run: seq<Pair>, inputs: seq<Input>) {
    |run| == |inputs| + 1 && Empty(run[0]) &&
    forall k :: 0 <= k < |inputs| ==> Step(run[k], inputs[k], run[k + 1])
  }

  lemma StepKeepsInv(p: Pair, i: Input, q: Pair)
    requires Inv(p.slot, p.ledger) && Step(p, i, q)
    ensures Inv(q.slot, q.ledger)
  {
    NextKeepsInv(p.slot, p.ledger, i.word, i.ready, i.flush);
  }

  lemma {:induction false} RunKeepsInv(run: seq<Pair>, inputs: seq<Input>, n: nat)
    requires IsRun(run, inputs) && n < |run|
    ensures Inv(run[n].slot, run[n].ledger)
    decreases n
  {
    if n > 0 {
      RunKeepsInv(run, inputs, n - 1);
      StepKeepsInv(run[n - 1], inputs[n - 1], run[n]);
    }
  }

  /**
   * Over any run, what the slot has delivered since the last flush is the start of the admitted
   * reports in arrival order, each whole and ended by its own last flag, followed by as much as has
   * arrived of the one being admitted.
   */
  lemma DeliversWholeReports(run: seq<Pair>, inputs: seq<Input>, n: nat)
    requires IsRun(run, inputs) && n < |run|
    ensures var l := run[n].ledger;
            l.delivered <= Flat(l.whole, |l.whole|) + l.open &&
            (forall k :: 0 <= k < |l.whole| ==> Whole(l.whole[k])) && (l.open == [] || l.open == l.current)
    ensures run[n].slot.ring.level <= DEPTH
  {
    RunKeepsInv(run, inputs, n);
  }

  /** A report that ends is admitted from its first byte to its last, or not at all. */
  lemma AllOrNothing(run: seq<Pair>, inputs: seq<Input>, n: nat)
    requires IsRun(run, inputs) && n < |inputs| && !inputs[n].flush
    requires inputs[n].word.Some? && inputs[n].word.value.last
    ensures var l, w := run[n].ledger, inputs[n].word.value;
            run[n + 1].ledger.whole == l.whole || run[n + 1].ledger.whole == l.whole + [l.current + [w]]
    ensures run[n + 1].ledger.whole == run[n].ledger.whole <==> !Takes(run[n].slot, inputs[n].word)
  {
    RunKeepsInv(run, inputs, n);
    assert Step(run[n], inputs[n], run[n + 1]);
  }

  /** Nothing of what was queued or in flight at a flush is delivered after it. */
  lemma FlushForgets(run: seq<Pair>, inputs: seq<Input>, n: nat)
    requires IsRun(run, inputs) && n < |inputs| && inputs[n].flush
    ensures var t := run[n + 1].slot;
            RingInv(t.ring) && Contents(t.ring) == [] && run[n + 1].ledger.delivered == [] &&
            (t.inReport ==> forall w: Option<Word> :: !Takes(t, w))
  {
    RunKeepsInv(run, inputs, n);
    assert Step(run[n], inputs[n], run[n + 1]);
    var taken := if Takes(run[n].slot, inputs[n].word) then inputs[n].word else None;
    FlushEmpties(run[n].slot.ring, taken, inputs[n].ready);
  }

  // ---- Which slot a byte is for -------------------------------------------------------------

  predicate Distinct(numbers: seq<nat>) {
    forall j, k :: 0 <= j < k < |numbers| ==> numbers[j] != numbers[k]
  }

  // ---- The registers ------------------------------------------------------------------------

  class RelaySlot {
    const memory: array<Word>
    var read: nat
    var write: nat
    var level: nat
    var headValid: bool
    var head: Word
    var inReport: bool
    var accepting: bool

    constructor ()
      ensures Valid() && fresh(memory) && !inReport && level == 0
    {
      memory := new Word[DEPTH];
      read, write, level, headValid := 0, 0, 0, false;
      inReport, accepting := false, false;
    }

    function State(): Slot
      reads this, memory
    {
      Slot(Ring(memory[..], read, write, level, headValid, head), inReport, accepting)
    }

    ghost predicate Valid()
      reads this, memory
    {
      memory.Length == DEPTH && RingInv(State().ring)
    }

    /** One clock: stream.valid and the held word go out, at most one word comes in. */
    method Tick(word: Option<Word>, ready: bool, flush: bool) returns (congested: bool)
      requires Valid() && (Takes(State(), word) ==> level < DEPTH)
      modifies this, memory
      ensures Valid()
      ensures State() == NextSlot(old(State()), word, ready, flush)
      ensures congested == Congested(old(State()), word)
    {
      ghost var before := State();
      var admit := level + MAX_REPORT <= DEPTH;
      var taking := word.Some? && if inReport then accepting else admit;
      congested := word.Some? && !inReport && !admit;
      var dequeue := headValid && ready;
      StepRing(if taking then word else None, dequeue, ready, flush);
      if word.Some? {
        if !inReport {
          accepting := admit;
        }
        inReport := !word.value.last;
      }
      if flush {
        accepting := false;
        FlushEmpties(before.ring, if taking then word else None, ready);
      } else {
        RingRefines(before.ring, if taking then word else None, ready);
      }
    }

    /** The synchronous read sees the ring as it was before this edge's write. */
    method StepRing(word: Option<Word>, dequeue: bool, ready: bool, flush: bool)
      requires memory.Length == DEPTH && RingInv(State().ring) && dequeue == (headValid && ready)
      modifies `read, `write, `level, `headValid, `head, memory
      ensures State().ring == NextRing(old(State().ring), word, ready, flush)
    {
      var issue := (!headValid && level != 0) || (dequeue && level > 1);
      if issue {
        head := memory[read];
        read := Advanced(read);
        headValid := true;
      } else if dequeue {
        headValid := false;
      }
      if word.Some? {
        memory[write] := word.value;
        write := Advanced(write);
      }
      if word.Some? && !dequeue {
        level := level + 1;
      } else if dequeue && word.None? {
        level := level - 1;
      }
      if flush {
        read, write, level, headValid := 0, 0, 0, false;
      }
    }
  }
}
