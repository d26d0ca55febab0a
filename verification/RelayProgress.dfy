/** That the relay gets reports out: what is queued is shown, kept until it is taken, and delivered to the end. */
module RelayProgress {
  import opened ReportRelay
  import R = RelayRouting

  /** Everything admitted since the last flush. */
  function Admitted(l: Ledger): seq<Word> { Flat(l.whole, |l.whole|) + l.open }

  /** How many words have been admitted and not delivered. */
  function Waiting(l: Ledger): int { |Admitted(l)| - |l.delivered| }

  lemma WaitingIsQueued(s: Slot, l: Ledger)
    requires Inv(s, l)
    ensures s.ring.level == |Contents(s.ring)| == Waiting(l)
    ensures l.delivered <= Admitted(l)
    ensures s.ring.headValid ==> Waiting(l) > 0 && s.ring.head == Admitted(l)[|l.delivered|]
  {
    assert Admitted(l) == l.delivered + Contents(s.ring);
  }

  // ---- One clock ----------------------------------------------------------------------------

  lemma HeadStep(p: Pair, i: Input, q: Pair)
    requires Step(p, i, q) && !i.flush
    ensures p.slot.ring.headValid && !i.ready ==> q.slot.ring.headValid && q.slot.ring.head == p.slot.ring.head
    ensures !p.slot.ring.headValid && p.slot.ring.level > 0 ==> q.slot.ring.headValid
  {
  }

  /** The oldest word waiting is on the stream, or will be on the next clock. */
  lemma OldestIsShown(run: seq<Pair>, inputs: seq<Input>, n: nat)
    requires IsRun(run, inputs) && n < |inputs| && !inputs[n].flush && Waiting(run[n].ledger) > 0
    ensures var l, m := run[n].ledger, run[n + 1].ledger;
            if run[n].slot.ring.headValid then run[n].slot.ring.head == Admitted(l)[|l.delivered|]
            else run[n + 1].slot.ring.headValid && |m.delivered| < |Admitted(m)| &&
                 run[n + 1].slot.ring.head == Admitted(m)[|m.delivered|]
  {
    RunKeepsInv(run, inputs, n);
    RunKeepsInv(run, inputs, n + 1);
    WaitingIsQueued(run[n].slot, run[n].ledger);
    WaitingIsQueued(run[n + 1].slot, run[n + 1].ledger);
    assert Step(run[n], inputs[n], run[n + 1]);
    HeadStep(run[n], inputs[n], run[n + 1]);
  }

  /** A word on the stream stays there until it is taken. */
  lemma ShownIsKept(run: seq<Pair>, inputs: seq<Input>, n: nat)
    requires IsRun(run, inputs) && n < |inputs| && !inputs[n].flush && run[n].slot.ring.headValid
    ensures if inputs[n].ready then run[n + 1].ledger.delivered == run[n].ledger.delivered + [run[n].slot.ring.head]
            else run[n + 1].slot.ring.headValid && run[n + 1].slot.ring.head == run[n].slot.ring.head &&
                 run[n + 1].ledger.delivered == run[n].ledger.delivered
  {
    assert Step(run[n], inputs[n], run[n + 1]);
    HeadStep(run[n], inputs[n], run[n + 1]);
  }

  // ---- Draining -----------------------------------------------------------------------------

  /** A taker that is ready, and nothing new. */
  predicate Drains(i: Input) { i.ready && !i.flush && i.word.None? }

  /** Clocks the queue still needs. */
  function Clocks(s: Slot): int { 2 * s.ring.level - if s.ring.headValid then 1 else 0 }

  lemma DrainStep(p: Pair, i: Input, q: Pair)
    requires Inv(p.slot, p.ledger) && Step(p, i, q) && Drains(i)
    ensures Admitted(q.ledger) == Admitted(p.ledger)
    ensures p.slot.ring.level > 0 ==> Clocks(q.slot) < Clocks(p.slot)
    ensures p.slot.ring.level == 0 ==> q.slot.ring.level == 0
  {
  }

  lemma {:induction false} DrainsOn(run: seq<Pair>, inputs: seq<Input>, n: nat, k: nat)
    requires IsRun(run, inputs) && n + k <= |inputs| && forall j :: n <= j < n + k ==> Drains(inputs[j])
    ensures Admitted(run[n + k].ledger) == Admitted(run[n].ledger)
    ensures run[n + k].slot.ring.level == 0 || Clocks(run[n + k].slot) <= Clocks(run[n].slot) - k
    decreases k
  {
    if k > 0 {
      DrainsOn(run, inputs, n, k - 1);
      RunKeepsInv(run, inputs, n + k - 1);
      assert Step(run[n + k - 1], inputs[n + k - 1], run[n + k]);
      DrainStep(run[n + k - 1], inputs[n + k - 1], run[n + k]);
    }
  }

  /** Within two clocks a word, a taker that is ready has been handed everything admitted. */
  lemma DeliversAll(run: seq<Pair>, inputs: seq<Input>, n: nat, k: nat)
    requires IsRun(run, inputs) && n + k <= |inputs| && k >= 2 * Waiting(run[n].ledger)
    requires forall j :: n <= j < n + k ==> Drains(inputs[j])
    ensures run[n + k].ledger.delivered == Admitted(run[n + k].ledger) == Admitted(run[n].ledger)
  {
    RunKeepsInv(run, inputs, n);
    RunKeepsInv(run, inputs, n + k);
    WaitingIsQueued(run[n].slot, run[n].ledger);
    WaitingIsQueued(run[n + k].slot, run[n + k].ledger);
    DrainsOn(run, inputs, n, k);
  }

  // ---- At the relay -------------------------------------------------------------------------

  /** The same of every slot of the relay, whatever the others do. */
  lemma EverySlotDeliversAll(numbers: seq<nat>, run: seq<R.World>, ks: seq<R.Clock>, n: nat, k: nat, b: nat)
    requires R.IsRun(numbers, run, ks) && R.Shaped(numbers, run, ks) && b < |numbers| && n + k <= |ks|
    requires k >= 2 * Waiting(run[n].ledgers[b])
    requires forall j :: n <= j < n + k ==>
      ks[j].readies[b] && !ks[j].flush &&
      (ks[j].arrival.Some? ==> ks[j].arrival.value.endpoint != numbers[b])
    ensures run[n + k].ledgers[b].delivered == Admitted(run[n].ledgers[b])
  {
    var lane, inputs := R.Lane(run, b), R.LaneInputs(numbers, ks, b);
    R.LaneIsRun(numbers, run, ks, b);
    forall j | n <= j < n + k
      ensures Drains(inputs[j])
    {
      assert inputs[j] == R.LaneInput(numbers, ks[j], b);
      if ks[j].arrival.Some? {
        R.BucketIsTheBinding(numbers, ks[j].arrival.value.endpoint);
      }
    }
    assert lane[n] == Pair(run[n].relay.slots[b], run[n].ledgers[b]);
    assert lane[n + k] == Pair(run[n + k].relay.slots[b], run[n + k].ledgers[b]);
    DeliversAll(lane, inputs, n, k);
  }

  /**
   * A report of an endpoint the relay serves is queued whole if and only if no more than 64 words of its
   * slot are waiting at its first byte and no flush comes before it has ended.
   */
  lemma RoomDecides(numbers: seq<nat>, run: seq<R.World>, ks: seq<R.Clock>, b: nat, m: nat, n: nat)
    requires R.Report(numbers, run, ks, b, m, n) && b < |numbers|
    ensures R.Queued(numbers, run, ks, b, m, n) <==>
            Waiting(run[m].ledgers[b]) <= 64 && forall j :: m <= j <= n ==> !ks[j].flush
    ensures R.CongestedPulse(numbers, run[m].relay, ks[m]) <==> Waiting(run[m].ledgers[b]) > 64
  {
    R.QueuedUnlessOvertaken(numbers, run, ks, b, m, n);
    R.LaneIsRun(numbers, run, ks, b);
    var lane := R.Lane(run, b);
    assert lane[m] == Pair(run[m].relay.slots[b], run[m].ledgers[b]);
    RunKeepsInv(lane, R.LaneInputs(numbers, ks, b), m);
    WaitingIsQueued(run[m].relay.slots[b], run[m].ledgers[b]);
  }
}
