/** Reports as they arrive on the merged stream, and what becomes of each: told from the bytes alone. */
module RelayArrivals {
  import opened ReportRelay
  import opened RelayProgress
  import R = RelayRouting

  /** A byte of the endpoint bound to slot b; past the slots, of an endpoint bound to none. */
  predicate ComesFor(numbers: seq<nat>, k: R.Clock, b: nat)
    requires b <= |numbers|
  {
    k.arrival.Some? &&
    if b < |numbers| then k.arrival.value.endpoint == numbers[b] else k.arrival.value.endpoint !in numbers
  }

  predicate Last(k: R.Clock) { k.arrival.Some? && k.arrival.value.word.last }

  /** In the middle of a report: the latest byte before clock n was not a last one. */
  predicate Open(numbers: seq<nat>, ks: seq<R.Clock>, b: nat, n: nat)
    requires b <= |numbers| && n <= |ks|
  {
    n > 0 && if ComesFor(numbers, ks[n - 1], b) then !Last(ks[n - 1]) else Open(numbers, ks, b, n - 1)
  }

  function Byte(numbers: seq<nat>, k: R.Clock, b: nat): seq<Word>
    requires b <= |numbers|
  {
    if ComesFor(numbers, k, b) then [k.arrival.value.word] else []
  }

  /** The bytes that came on clocks m to n. */
  function Bytes(numbers: seq<nat>, ks: seq<R.Clock>, b: nat, m: nat, n: nat): seq<Word>
    requires b <= |numbers| && m <= n <= |ks|
    decreases n
  {
    if m == n then []
    else Bytes(numbers, ks, b, m, n - 1) + Byte(numbers, ks[n - 1], b)
  }

  lemma WordIs(numbers: seq<nat>, k: R.Clock, b: nat)
    requires Distinct(numbers) && b <= |numbers|
    ensures R.WordFor(numbers, k, b) == if ComesFor(numbers, k, b) then Some(k.arrival.value.word) else None
  {
    if k.arrival.Some? {
      R.BucketIsTheBinding(numbers, k.arrival.value.endpoint);
    }
  }

  lemma {:induction false} OpenIsInReport(numbers: seq<nat>, run: seq<R.World>, ks: seq<R.Clock>, b: nat, n: nat)
    requires R.IsRun(numbers, run, ks) && n <= |ks| && b <= |numbers|
    ensures |run[n].relay.slots| == |numbers|
    ensures R.InReport(numbers, run[n].relay, b) <==> Open(numbers, ks, b, n)
    decreases n
  {
    R.Shapes(numbers, run, ks, n);
    if n > 0 {
      OpenIsInReport(numbers, run, ks, b, n - 1);
      WordIs(numbers, ks[n - 1], b);
      assert R.Step(numbers, run[n - 1], ks[n - 1], run[n]);
    } else if b < |numbers| {
      assert ReportRelay.Empty(Pair(run[0].relay.slots[b], run[0].ledgers[b]));
    }
  }

  lemma {:induction false} WordsAre(numbers: seq<nat>, ks: seq<R.Clock>, b: nat, m: nat, n: nat, inputs: seq<Input>)
    requires Distinct(numbers) && b < |numbers| && m <= n <= |ks| == |inputs|
    requires forall j :: m <= j < n ==> b < |ks[j].readies| && inputs[j] == R.LaneInput(numbers, ks[j], b)
    ensures R.Words(inputs, m, n) == Bytes(numbers, ks, b, m, n)
    decreases n
  {
    if m < n {
      WordsAre(numbers, ks, b, m, n - 1, inputs);
      WordIs(numbers, ks[n - 1], b);
    }
  }

  /** A report: its first byte, none of that endpoint's being open, comes on clock m, and its last on clock n. */
  predicate Arrives(numbers: seq<nat>, ks: seq<R.Clock>, b: nat, m: nat, n: nat)
    requires b <= |numbers|
  {
    m <= n < |ks| && !Open(numbers, ks, b, m) && ComesFor(numbers, ks[m], b) &&
    ComesFor(numbers, ks[n], b) && Last(ks[n]) && forall j :: m <= j < n ==> !Ends(numbers, ks[j], b)
  }

  predicate Ends(numbers: seq<nat>, k: R.Clock, b: nat)
    requires b <= |numbers|
  {
    ComesFor(numbers, k, b) && Last(k)
  }

  lemma {:induction false} ArrivesIsReport(numbers: seq<nat>, run: seq<R.World>, ks: seq<R.Clock>, b: nat, m: nat,
      n: nat)
    requires R.IsRun(numbers, run, ks) && b <= |numbers| && Arrives(numbers, ks, b, m, n)
    ensures R.Report(numbers, run, ks, b, m, n)
  {
    forall j | 0 <= j < |run|
      ensures |run[j].relay.slots| == |run[j].ledgers| == |numbers| && (j < |ks| ==> |ks[j].readies| == |numbers|)
    {
      R.Shapes(numbers, run, ks, j);
    }
    OpenIsInReport(numbers, run, ks, b, m);
    WordIs(numbers, ks[m], b);
    WordIs(numbers, ks[n], b);
    forall j | m <= j < n && R.WordFor(numbers, ks[j], b).Some?
      ensures !R.WordFor(numbers, ks[j], b).value.last
    {
      WordIs(numbers, ks[j], b);
      assert !Ends(numbers, ks[j], b);
    }
  }

  /**
   * Over every run from reset: a report of a served endpoint is queued, with exactly the bytes that came, if and
   * only if at most 64 words of its slot are waiting at its first byte and no flush comes before it has ended.
   */
  lemma {:induction false} ArrivedIsQueued(numbers: seq<nat>, run: seq<R.World>, ks: seq<R.Clock>, b: nat, m: nat,
      n: nat)
    requires R.IsRun(numbers, run, ks) && b < |numbers| && Arrives(numbers, ks, b, m, n)
    ensures |run[m].ledgers| == |run[n].ledgers| == |run[n + 1].ledgers| == |numbers|
    ensures run[n + 1].ledgers[b].whole == run[n].ledgers[b].whole + [Bytes(numbers, ks, b, m, n + 1)] <==>
            Waiting(run[m].ledgers[b]) <= 64 && forall j :: m <= j <= n ==> !ks[j].flush
  {
    ArrivesIsReport(numbers, run, ks, b, m, n);
    RoomDecides(numbers, run, ks, b, m, n);
    var lane, inputs := R.Lane(run, b), R.LaneInputs(numbers, ks, b);
    WordsAre(numbers, ks, b, m, n + 1, inputs);
    assert lane[n] == Pair(run[n].relay.slots[b], run[n].ledgers[b]);
    assert lane[n + 1] == Pair(run[n + 1].relay.slots[b], run[n + 1].ledgers[b]);
  }

  /** The drop pulses: a first byte of an endpoint that is not served, and one there is no room for. */
  lemma {:induction false} PulsesAre(numbers: seq<nat>, run: seq<R.World>, ks: seq<R.Clock>, n: nat)
    requires R.IsRun(numbers, run, ks) && n < |ks|
    ensures |run[n].relay.slots| == |run[n].ledgers| == |numbers|
    ensures R.UnmatchedPulse(numbers, run[n].relay, ks[n]) <==>
            ComesFor(numbers, ks[n], |numbers|) && !Open(numbers, ks, |numbers|, n)
    ensures R.CongestedPulse(numbers, run[n].relay, ks[n]) <==>
            exists b :: 0 <= b < |numbers| && ComesFor(numbers, ks[n], b) && !Open(numbers, ks, b, n) &&
                        Waiting(run[n].ledgers[b]) > 64
  {
    R.Shapes(numbers, run, ks, n);
    WordIs(numbers, ks[n], |numbers|);
    OpenIsInReport(numbers, run, ks, |numbers|, n);
    forall b | 0 <= b < |numbers|
      ensures R.Opens(numbers, run[n].relay, ks[n], b) && !Admits(run[n].relay.slots[b].ring) <==>
              ComesFor(numbers, ks[n], b) && !Open(numbers, ks, b, n) && Waiting(run[n].ledgers[b]) > 64
    {
      SlotOpens(numbers, run, ks, b, n);
    }
  }

  lemma {:induction false} SlotOpens(numbers: seq<nat>, run: seq<R.World>, ks: seq<R.Clock>, b: nat, n: nat)
    requires R.IsRun(numbers, run, ks) && n < |ks| && b < |numbers|
    ensures |run[n].relay.slots| == |run[n].ledgers| == |numbers|
    ensures R.Opens(numbers, run[n].relay, ks[n], b) && !Admits(run[n].relay.slots[b].ring) <==>
            ComesFor(numbers, ks[n], b) && !Open(numbers, ks, b, n) && Waiting(run[n].ledgers[b]) > 64
  {
    R.Shapes(numbers, run, ks, n);
    WordIs(numbers, ks[n], b);
    OpenIsInReport(numbers, run, ks, b, n);
    R.LaneIsRun(numbers, run, ks, b);
    var lane := R.Lane(run, b);
    assert lane[n] == Pair(run[n].relay.slots[b], run[n].ledgers[b]);
    RunKeepsInv(lane, R.LaneInputs(numbers, ks, b), n);
    WaitingIsQueued(run[n].relay.slots[b], run[n].ledgers[b]);
  }
}
