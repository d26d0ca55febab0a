/** The whole report relay: every slot and the bucket for endpoints it does not serve. */
module RelayRouting {
  import opened ReportRelay

  /** A byte of the merged stream, with the endpoint it came from. */
  datatype Arrival = Arrival(endpoint: nat, word: Word)

  datatype Clock = Clock(arrival: Option<Arrival>, readies: seq<bool>, flush: bool)

  /** unserved is in_report of the extra bucket, which never accepts. */
  datatype Relay = Relay(slots: seq<Slot>, unserved: bool)

  /** The last slot bound to the endpoint, as the multiplexer chain finds it. */
  function Route(numbers: seq<nat>, endpoint: nat, n: nat): (r: Option<nat>)
    requires n <= |numbers|
    ensures r.Some? ==> r.value < n && numbers[r.value] == endpoint
    ensures r.None? ==> endpoint !in numbers[..n]
  {
    if n == 0 then None
    else if numbers[n - 1] == endpoint then Some(n - 1)
    else
      assert numbers[..n] == numbers[..n - 1] + [numbers[n - 1]];
      Route(numbers, endpoint, n - 1)
  }

  /** The bucket a byte is for: its slot, or the extra one past them. */
  function Bucket(numbers: seq<nat>, endpoint: nat): (b: nat)
    ensures b <= |numbers|
  {
    var r := Route(numbers, endpoint, |numbers|);
    if r.Some? then r.value else |numbers|
  }

  /** With distinct numbers a byte's bucket is the one slot bound to its endpoint, or the extra one. */
  lemma BucketIsTheBinding(numbers: seq<nat>, endpoint: nat)
    requires Distinct(numbers)
    ensures forall k :: 0 <= k < |numbers| ==> (Bucket(numbers, endpoint) == k <==> numbers[k] == endpoint)
    ensures Bucket(numbers, endpoint) == |numbers| <==> endpoint !in numbers
  {
    assert numbers[..|numbers|] == numbers;
  }

  /** What bucket b sees of a clock. */
  function WordFor(numbers: seq<nat>, k: Clock, b: nat): Option<Word> {
    if k.arrival.Some? && Bucket(numbers, k.arrival.value.endpoint) == b then Some(k.arrival.value.word) else None
  }

  predicate Sized(numbers: seq<nat>, r: Relay, k: Clock) {
    |r.slots| == |numbers| == |k.readies| && forall b :: 0 <= b < |r.slots| ==> RingInv(r.slots[b].ring)
  }

  predicate InReport(numbers: seq<nat>, r: Relay, b: nat)
    requires |r.slots| == |numbers| && b <= |numbers|
  {
    if b < |numbers| then r.slots[b].inReport else r.unserved
  }

  /** The first byte of a report for bucket b. */
  predicate Opens(numbers: seq<nat>, r: Relay, k: Clock, b: nat)
    requires |r.slots| == |numbers| && b <= |numbers|
  {
    WordFor(numbers, k, b).Some? && !InReport(numbers, r, b)
  }

  predicate CongestedPulse(numbers: seq<nat>, r: Relay, k: Clock)
    requires |r.slots| == |numbers|
  {
    exists b :: 0 <= b < |numbers| && Opens(numbers, r, k, b) && !Admits(r.slots[b].ring)
  }

  predicate UnmatchedPulse(numbers: seq<nat>, r: Relay, k: Clock)
    requires |r.slots| == |numbers|
  {
    Opens(numbers, r, k, |numbers|)
  }

  function NextRelay(numbers: seq<nat>, r: Relay, k: Clock): (t: Relay)
    requires Sized(numbers, r, k)
    ensures |t.slots| == |numbers|
  {
    var stray := WordFor(numbers, k, |numbers|);
    Relay(seq(|numbers|, b requires 0 <= b < |numbers| =>
                NextSlot(r.slots[b], WordFor(numbers, k, b), k.readies[b], k.flush)),
          if stray.Some? then !stray.value.last else r.unserved)
  }

  // ---- The routing registers --------------------------------------------------------------------

  class ReportRelayRouter {
    var unserved: bool

    constructor ()
      ensures !unserved
    {
      unserved := false;
    }

    /** One clock of the shared side: which slot gets the byte, and the two drop pulses. */
    method Tick(numbers: seq<nat>, slots: seq<Slot>, k: Clock)
      returns (words: seq<Option<Word>>, congested: bool, unmatched: bool)
      requires Sized(numbers, Relay(slots, unserved), k)
      modifies this
      ensures |words| == |numbers| && forall b :: 0 <= b < |words| ==> words[b] == WordFor(numbers, k, b)
      ensures unserved == NextRelay(numbers, Relay(slots, old(unserved)), k).unserved
      ensures congested == CongestedPulse(numbers, Relay(slots, old(unserved)), k)
      ensures unmatched == UnmatchedPulse(numbers, Relay(slots, old(unserved)), k)
    {
      words := seq(|numbers|, _ => None);
      congested, unmatched := false, false;
      if k.arrival.Some? {
        var a := k.arrival.value;
        var selected := Selected(numbers, a.endpoint);
        if selected.Some? {
          var b := selected.value;
          words := words[b := Some(a.word)];
          congested := !slots[b].inReport && !Admits(slots[b].ring);
          assert WordFor(numbers, k, b).Some?;
        } else {
          unmatched := !unserved;
          unserved := !a.word.last;
        }
      }
    }

    /** The chain of multiplexers. */
    method Selected(numbers: seq<nat>, endpoint: nat) returns (selected: Option<nat>)
      ensures selected == Route(numbers, endpoint, |numbers|)
    {
      selected := None;
      var n := 0;
      while n < |numbers|
        invariant n <= |numbers| && selected == Route(numbers, endpoint, n)
      {
        if numbers[n] == endpoint {
          selected := Some(n);
        }
        n := n + 1;
      }
    }
  }

  // ---- Runs -------------------------------------------------------------------------------------

  datatype World = World(relay: Relay, ledgers: seq<Ledger>)

  predicate Step(numbers: seq<nat>, w: World, k: Clock, v: World) {
    Sized(numbers, w.relay, k) && |w.ledgers| == |v.ledgers| == |numbers| &&
    v.relay == NextRelay(numbers, w.relay, k) &&
    forall b :: 0 <= b < |numbers| ==>
      Bounded(w.ledgers[b], WordFor(numbers, k, b)) &&
      v.ledgers[b] == NextLedger(w.ledgers[b], w.relay.slots[b], WordFor(numbers, k, b), k.readies[b], k.flush)
  }

  /** A run from reset with distinct bindings that stay. */
  predicate IsRun(numbers: seq<nat>, run: seq<World>, ks: seq<Clock>) {
    Distinct(numbers) && |run| == |ks| + 1 && |run[0].relay.slots| == |run[0].ledgers| == |numbers| &&
    !run[0].relay.unserved &&
    (forall b :: 0 <= b < |numbers| ==> ReportRelay.Empty(Pair(run[0].relay.slots[b], run[0].ledgers[b]))) &&
    forall n :: 0 <= n < |ks| ==> Step(numbers, run[n], ks[n], run[n + 1])
  }

  /** One slot's part of a run. */
  function Lane(run: seq<World>, b: nat): (lane: seq<Pair>)
    requires forall n :: 0 <= n < |run| ==> b < |run[n].relay.slots| && b < |run[n].ledgers|
    ensures |lane| == |run|
    ensures forall n :: 0 <= n < |run| ==> lane[n] == Pair(run[n].relay.slots[b], run[n].ledgers[b])
  {
    seq(|run|, n requires 0 <= n < |run| => Pair(run[n].relay.slots[b], run[n].ledgers[b]))
  }

  function LaneInput(numbers: seq<nat>, k: Clock, b: nat): Input
    requires b < |k.readies|
  {
    Input(WordFor(numbers, k, b), k.readies[b], k.flush)
  }

  function LaneInputs(numbers: seq<nat>, ks: seq<Clock>, b: nat): (inputs: seq<Input>)
    requires forall n :: 0 <= n < |ks| ==> b < |ks[n].readies|
    ensures |inputs| == |ks| && forall n :: 0 <= n < |ks| ==> inputs[n] == LaneInput(numbers, ks[n], b)
  {
    seq(|ks|, n requires 0 <= n < |ks| => LaneInput(numbers, ks[n], b))
  }

  lemma {:induction false} Shapes(numbers: seq<nat>, run: seq<World>, ks: seq<Clock>, n: nat)
    requires IsRun(numbers, run, ks) && n <= |ks|
    ensures |run[n].relay.slots| == |run[n].ledgers| == |numbers| && (n < |ks| ==> |ks[n].readies| == |numbers|)
  {
    if n > 0 {
      assert Step(numbers, run[n - 1], ks[n - 1], run[n]);
    }
    if n < |ks| {
      assert Step(numbers, run[n], ks[n], run[n + 1]);
    }
  }

  predicate Shaped(numbers: seq<nat>, run: seq<World>, ks: seq<Clock>) {
    (forall n :: 0 <= n < |run| ==> |run[n].relay.slots| == |run[n].ledgers| == |numbers|) &&
    (forall n :: 0 <= n < |ks| ==> |ks[n].readies| == |numbers|)
  }

  /** Each slot runs on its own bytes as if it were alone. */
  lemma LaneIsRun(numbers: seq<nat>, run: seq<World>, ks: seq<Clock>, b: nat)
    requires IsRun(numbers, run, ks) && b < |numbers|
    ensures Shaped(numbers, run, ks) && ReportRelay.IsRun(Lane(run, b), LaneInputs(numbers, ks, b))
  {
    forall n | 0 <= n < |run|
      ensures |run[n].relay.slots| == |run[n].ledgers| == |numbers| && (n < |ks| ==> |ks[n].readies| == |numbers|)
    {
      Shapes(numbers, run, ks, n);
    }
    forall n | 0 <= n < |ks|
      ensures ReportRelay.Step(Lane(run, b)[n], LaneInputs(numbers, ks, b)[n], Lane(run, b)[n + 1])
    {
      assert Step(numbers, run[n], ks[n], run[n + 1]);
    }
  }

  // ---- The fate of a report at one slot -----------------------------------------------------------

  /** The words of clocks m to n. */
  function Words(inputs: seq<Input>, m: nat, n: nat): seq<Word>
    requires m <= n <= |inputs|
    decreases n
  {
    if m == n then []
    else Words(inputs, m, n - 1) + if inputs[n - 1].word.Some? then [inputs[n - 1].word.value] else []
  }

  /** A report of the slot: its first byte on clock m, its last on clock n. */
  predicate Spans(lane: seq<Pair>, inputs: seq<Input>, m: nat, n: nat) {
    ReportRelay.IsRun(lane, inputs) && m <= n < |inputs| && Starts(lane[m].slot, inputs[m].word) &&
    Unended(inputs, m, n) && inputs[n].word.Some? && inputs[n].word.value.last
  }

  predicate Flushed(inputs: seq<Input>, m: nat, n: nat)
    requires n <= |inputs|
  {
    exists j :: m <= j < n && inputs[j].flush
  }

  /** What a first byte that does not end its report does. */
  predicate Begun(p: Pair, i: Input, q: Pair) {
    i.word.Some? && q.slot.inReport && q.ledger.current == [i.word.value] &&
    (q.slot.accepting <==> Admits(p.slot.ring) && !i.flush)
  }

  /** What any clock within a report does. */
  predicate GoesOn(p: Pair, i: Input, q: Pair) {
    p.slot.inReport && (i.word.Some? ==> !i.word.value.last) ==>
      q.slot.inReport && q.ledger.current == p.ledger.current + (if i.word.Some? then [i.word.value] else []) &&
      (q.slot.accepting <==> p.slot.accepting && !i.flush)
  }

  lemma StepGoesOn(lane: seq<Pair>, inputs: seq<Input>, j: nat)
    requires ReportRelay.IsRun(lane, inputs) && j < |inputs|
    ensures GoesOn(lane[j], inputs[j], lane[j + 1])
    ensures Starts(lane[j].slot, inputs[j].word) && !inputs[j].word.value.last ==>
      Begun(lane[j], inputs[j], lane[j + 1])
  {
    RunKeepsInv(lane, inputs, j);
    assert ReportRelay.Step(lane[j], inputs[j], lane[j + 1]);
  }

  /** No word of clocks m to n ends a report. */
  predicate Unended(inputs: seq<Input>, m: nat, n: nat)
    requires n <= |inputs|
  {
    forall j :: m <= j < n && inputs[j].word.Some? ==> !inputs[j].word.value.last
  }

  /** Between its first byte and its last, the slot has the report as far as it has come, and accepts it
   *  if the room was there for it and no flush has come since. */
  lemma {:induction false} MidReport(lane: seq<Pair>, inputs: seq<Input>, m: nat, j: nat)
    requires m < j <= |inputs| < |lane| && Unended(inputs, m, j) && Begun(lane[m], inputs[m], lane[m + 1])
    requires forall k :: m <= k < j ==> GoesOn(lane[k], inputs[k], lane[k + 1])
    ensures lane[j].slot.inReport && lane[j].ledger.current == Words(inputs, m, j)
    ensures lane[j].slot.accepting <==> Admits(lane[m].slot.ring) && !Flushed(inputs, m, j)
    decreases j
  {
    if j > m + 1 {
      MidReport(lane, inputs, m, j - 1);
      assert GoesOn(lane[j - 1], inputs[j - 1], lane[j]);
    } else {
      assert Words(inputs, m, m) == [];
    }
  }

  /** The last byte of a report. */
  lemma LastByte(lane: seq<Pair>, inputs: seq<Input>, n: nat)
    requires ReportRelay.IsRun(lane, inputs) && n < |inputs| && inputs[n].word.Some? && inputs[n].word.value.last
    ensures var l, w := lane[n].ledger, inputs[n].word.value;
            lane[n + 1].ledger.whole == l.whole + [l.current + [w]] <==>
            !inputs[n].flush && (if lane[n].slot.inReport then lane[n].slot.accepting else Admits(lane[n].slot.ring))
    ensures !lane[n].slot.inReport ==> lane[n].ledger.current == []
  {
    RunKeepsInv(lane, inputs, n);
    assert ReportRelay.Step(lane[n], inputs[n], lane[n + 1]);
  }

  predicate Appended(lane: seq<Pair>, inputs: seq<Input>, m: nat, n: nat)
    requires m <= n < |inputs| && n + 1 < |lane|
  {
    lane[n + 1].ledger.whole == lane[n].ledger.whole + [Words(inputs, m, n + 1)]
  }

  /** A report that ends is queued whole exactly if the slot had room at its first byte and no flush came. */
  lemma QueuedExactly(lane: seq<Pair>, inputs: seq<Input>, m: nat, n: nat)
    requires Spans(lane, inputs, m, n)
    ensures Appended(lane, inputs, m, n) <==> Admits(lane[m].slot.ring) && !Flushed(inputs, m, n + 1)
  {
    if m < n {
      forall k | m <= k < n
        ensures GoesOn(lane[k], inputs[k], lane[k + 1])
      {
        StepGoesOn(lane, inputs, k);
      }
      StepGoesOn(lane, inputs, m);
      MidReport(lane, inputs, m, n);
    } else {
      assert Words(inputs, m, m) == [];
    }
    LastByte(lane, inputs, n);
  }

  // ---- And at the relay -----------------------------------------------------------------------------

  /** A report for bucket b: its first byte on clock m, its last on clock n. */
  predicate Report(numbers: seq<nat>, run: seq<World>, ks: seq<Clock>, b: nat, m: nat, n: nat) {
    IsRun(numbers, run, ks) && Shaped(numbers, run, ks) && b <= |numbers| && m <= n < |ks| &&
    Opens(numbers, run[m].relay, ks[m], b) &&
    (forall j :: m <= j < n && WordFor(numbers, ks[j], b).Some? ==> !WordFor(numbers, ks[j], b).value.last) &&
    WordFor(numbers, ks[n], b).Some? && WordFor(numbers, ks[n], b).value.last
  }

  /** The report was queued whole, by the bucket's own slot. */
  predicate Queued(numbers: seq<nat>, run: seq<World>, ks: seq<Clock>, b: nat, m: nat, n: nat)
    requires Report(numbers, run, ks, b, m, n)
  {
    b < |numbers| && Appended(Lane(run, b), LaneInputs(numbers, ks, b), m, n)
  }

  /** The slot has room for the report when it opens, and a flush overtakes it before it has ended. */
  predicate Overtaken(numbers: seq<nat>, run: seq<World>, ks: seq<Clock>, b: nat, m: nat, n: nat)
    requires Report(numbers, run, ks, b, m, n)
  {
    b < |numbers| && Admits(run[m].relay.slots[b].ring) && exists j :: m <= j <= n && ks[j].flush
  }

  lemma QueuedUnlessOvertaken(numbers: seq<nat>, run: seq<World>, ks: seq<Clock>, b: nat, m: nat, n: nat)
    requires Report(numbers, run, ks, b, m, n) && b < |numbers|
    ensures Queued(numbers, run, ks, b, m, n) <==>
            Admits(run[m].relay.slots[b].ring) && !Overtaken(numbers, run, ks, b, m, n)
  {
    var lane, inputs := Lane(run, b), LaneInputs(numbers, ks, b);
    LaneIsRun(numbers, run, ks, b);
    assert forall j :: m <= j <= n ==> inputs[j] == LaneInput(numbers, ks[j], b);
    QueuedExactly(lane, inputs, m, n);
    assert Flushed(inputs, m, n + 1) <==> exists j :: m <= j <= n && ks[j].flush by {
      assert forall j :: m <= j <= n ==> inputs[j].flush == ks[j].flush;
    }
  }

  predicate HasOneFate(numbers: seq<nat>, run: seq<World>, ks: seq<Clock>, b: nat, m: nat, n: nat)
    requires Report(numbers, run, ks, b, m, n)
  {
    var queued := Queued(numbers, run, ks, b, m, n);
    var congested := CongestedPulse(numbers, run[m].relay, ks[m]);
    var unmatched := UnmatchedPulse(numbers, run[m].relay, ks[m]);
    (queued || congested || unmatched) && !(queued && congested) && !(queued && unmatched) && !(congested && unmatched)
  }

  /**
   * Every report is exactly one of queued whole by the slot its endpoint is bound to, counted congested
   * on its first byte, or counted unmatched on its first byte; except a report with room that a flush
   * overtakes, on any clock from its first byte to its last, which is none of them.
   */
  lemma EveryReportHasOneFate(numbers: seq<nat>, run: seq<World>, ks: seq<Clock>, b: nat, m: nat, n: nat)
    requires Report(numbers, run, ks, b, m, n)
    ensures HasOneFate(numbers, run, ks, b, m, n) <==> !Overtaken(numbers, run, ks, b, m, n)
    ensures UnmatchedPulse(numbers, run[m].relay, ks[m]) <==> b == |numbers|
    ensures CongestedPulse(numbers, run[m].relay, ks[m]) <==> b < |numbers| && !Admits(run[m].relay.slots[b].ring)
  {
    if b < |numbers| {
      QueuedUnlessOvertaken(numbers, run, ks, b, m, n);
    }
  }

  /** A byte moves no other slot's queue or admission. */
  lemma OtherSlotsStay(numbers: seq<nat>, run: seq<World>, ks: seq<Clock>, n: nat, b: nat)
    requires IsRun(numbers, run, ks) && Shaped(numbers, run, ks) && n < |ks| && b < |numbers|
    requires WordFor(numbers, ks[n], b).None? && !ks[n].flush
    ensures var s, t := run[n].relay.slots[b], run[n + 1].relay.slots[b];
            t.inReport == s.inReport && t.accepting == s.accepting && RingInv(s.ring) && RingInv(t.ring) &&
            run[n + 1].ledgers[b].whole == run[n].ledgers[b].whole &&
            run[n + 1].ledgers[b].open == run[n].ledgers[b].open &&
            Contents(t.ring) == if Dequeues(s.ring, ks[n].readies[b]) then Contents(s.ring)[1..] else Contents(s.ring)
  {
    assert Step(numbers, run[n], ks[n], run[n + 1]);
    RingRefines(run[n].relay.slots[b].ring, None, ks[n].readies[b]);
  }

  /** Over any run every slot delivers whole reports in order, as one slot does alone. */
  lemma EverySlotDeliversWholeReports(numbers: seq<nat>, run: seq<World>, ks: seq<Clock>, n: nat, b: nat)
    requires IsRun(numbers, run, ks) && Shaped(numbers, run, ks) && n <= |ks| && b < |numbers|
    ensures var l := run[n].ledgers[b];
            l.delivered <= Flat(l.whole, |l.whole|) + l.open && forall k :: 0 <= k < |l.whole| ==> Whole(l.whole[k])
  {
    LaneIsRun(numbers, run, ks, b);
    DeliversWholeReports(Lane(run, b), LaneInputs(numbers, ks, b), n);
    assert Lane(run, b)[n] == Pair(run[n].relay.slots[b], run[n].ledgers[b]);
  }
}
