/** A resync trigger's replays come to an end: what the tracker can wait for, and for how long. */
module BootProgress {
  import opened BootProtocol

  function Waiting(pending: seq<bool>): nat { Count(pending, |pending|) }

  /** Clocks left, of those on which nobody holds the tracker up. */
  function Rank(s: System): int {
    var t, w := s.tracker, 8 * Waiting(s.tracker.pending);
    match t.phase
    case Idle => -1
    case Select => w + 1
    case Offer =>
      if ResyncActive(s.relay) then w - 1
      else if t.current < |t.pending| && t.pending[t.current] then w
      else w + 2
    case Wait => if s.relay.Busy? then w - 2 else if s.relay.Finished? then w - 3 else w - 4
  }

  /**
   * A clock the tracker loses to others: its interface is offered and the relay has a forward, or takes
   * one, or a choice of the PC's is on its way; or its replay is with the control engine.
   */
  predicate HeldUp(s: System, i: Input) {
    (s.tracker.phase == Offer && s.tracker.current < |s.tracker.pending| &&
     s.tracker.pending[s.tracker.current] &&
     ((!s.relay.Free? && s.relay.op.Forward?) || i.start.Some? || s.tracker.apply.Some?)) ||
    (s.tracker.phase == Wait && s.relay.Busy? && i.finish == None)
  }

  lemma {:induction false} CountNoMore(a: seq<bool>, b: seq<bool>, n: nat)
    requires n <= |a| == |b| && forall k :: 0 <= k < n ==> (b[k] ==> a[k])
    ensures Count(b, n) <= Count(a, n)
    decreases n
  {
    if n > 0 {
      CountNoMore(a, b, n - 1);
    }
  }

  lemma {:induction false} SomeAreCounted(a: seq<bool>, n: nat, k: nat)
    requires k < n <= |a| && a[k]
    ensures Count(a, n) > 0
    decreases n
  {
    if k < n - 1 {
      SomeAreCounted(a, n - 1, k);
    }
  }

  /** Nothing is added outside a load, and a slot that goes is one less. */
  lemma {:induction false} Fewer(s: System, l: Ledger, i: Input)
    requires Inv(s, l) && !Loads(s.tracker)
    ensures Waiting(Next(s, i).tracker.pending) <= Waiting(s.tracker.pending)
    ensures forall k :: 0 <= k < |s.table| && s.tracker.pending[k] && !NextPending(s.tracker, s.pulses)[k] ==>
      Waiting(Next(s, i).tracker.pending) < Waiting(s.tracker.pending)
  {
    var a, b := s.tracker.pending, NextPending(s.tracker, s.pulses);
    CountNoMore(a, b, |a|);
    forall k | 0 <= k < |s.table| && a[k] && !b[k] ensures Count(b, |b|) < Count(a, |a|) {
      CountShrinks(a, b, |a|, k);
    }
  }

  lemma {:induction false} SelectMoves(s: System, l: Ledger, i: Input)
    requires Inv(s, l) && s.tracker.phase == Select
    ensures Next(s, i).tracker.phase != Idle ==> Rank(Next(s, i)) < Rank(s)
    ensures Next(s, i).tracker.phase == Idle <==> Waiting(s.tracker.pending) == 0
  {
    Fewer(s, l, i);
    var k := Lowest(s.tracker.pending, |s.tracker.pending|);
    if k < |s.tracker.pending| {
      SomeAreCounted(s.tracker.pending, |s.tracker.pending|, k);
    } else {
      NoneAreCounted(s.tracker.pending, |s.tracker.pending|);
    }
  }

  lemma {:induction false} NoneAreCounted(a: seq<bool>, n: nat)
    requires n <= |a| && forall k :: 0 <= k < n ==> !a[k]
    ensures Count(a, n) == 0
    decreases n
  {
    if n > 0 {
      NoneAreCounted(a, n - 1);
    }
  }

  lemma {:induction false} OfferMoves(s: System, l: Ledger, i: Input)
    requires Inv(s, l) && s.tracker.phase == Offer
    ensures Next(s, i).tracker.phase != Idle && Rank(Next(s, i)) <= Rank(s)
    ensures !HeldUp(s, i) ==> Rank(Next(s, i)) < Rank(s)
  {
    Fewer(s, l, i);
  }

  lemma {:induction false} WaitMoves(s: System, l: Ledger, i: Input)
    requires Inv(s, l) && s.tracker.phase == Wait
    ensures Next(s, i).tracker.phase != Idle && Rank(Next(s, i)) <= Rank(s)
    ensures !HeldUp(s, i) ==> Rank(Next(s, i)) < Rank(s)
  {
    Fewer(s, l, i);
    if s.pulses.resyncDone.Some? {
      ReplayShrinksPending(s, l, i);
    }
  }

  /** From clock m to n the tracker is at work. */
  predicate Working(table: seq<U8>, run: seq<Pair>, inputs: seq<Input>, m: nat, n: nat) {
    IsRun(table, run, inputs) && m <= n <= |inputs| && forall j :: m <= j <= n ==> AtWork(run[j].system)
  }

  predicate AtWork(s: System) { s.tracker.phase != Idle }

  /** On which clocks it is held up. */
  function Held(run: seq<Pair>, inputs: seq<Input>): (held: seq<bool>)
    requires |inputs| <= |run|
    ensures |held| == |inputs|
  {
    seq(|inputs|, k requires 0 <= k < |inputs| => HeldUp(run[k].system, inputs[k]))
  }

  /** How many clocks from m to n it is not. */
  function Moved(held: seq<bool>, m: nat, n: nat): nat
    requires m <= n <= |held|
  {
    if m == n then 0 else Moved(held, m, n - 1) + if held[n - 1] then 0 else 1
  }

  function Ranks(run: seq<Pair>): (r: seq<int>)
    ensures |r| == |run|
  {
    seq(|run|, k requires 0 <= k < |run| => Rank(run[k].system))
  }

  predicate FallsAt(r: seq<int>, held: seq<bool>, j: nat)
    requires |r| == |held| + 1 && j < |held|
  {
    r[j + 1] + (if held[j] then 0 else 1) <= r[j]
  }

  lemma {:induction false} RanksFall(r: seq<int>, held: seq<bool>, m: nat, n: nat)
    requires |r| == |held| + 1 && m <= n <= |held| && forall j :: m <= j < n ==> FallsAt(r, held, j)
    ensures r[n] + Moved(held, m, n) <= r[m]
    decreases n
  {
    if m < n {
      RanksFall(r, held, m, n - 1);
      assert FallsAt(r, held, n - 1);
    }
  }

  lemma MovesOn(table: seq<U8>, run: seq<Pair>, inputs: seq<Input>, n: nat)
    requires IsRun(table, run, inputs) && n < |inputs| && AtWork(run[n].system) && AtWork(run[n + 1].system)
    ensures Rank(run[n + 1].system) + (if HeldUp(run[n].system, inputs[n]) then 0 else 1) <= Rank(run[n].system)
  {
    RunKeepsInv(table, run, inputs, n);
    assert Step(run[n], inputs[n], run[n + 1]);
    match run[n].system.tracker.phase
    case Select => SelectMoves(run[n].system, run[n].ledger, inputs[n]);
    case Offer => OfferMoves(run[n].system, run[n].ledger, inputs[n]);
    case Wait => WaitMoves(run[n].system, run[n].ledger, inputs[n]);
  }

  lemma MovesAt(table: seq<U8>, run: seq<Pair>, inputs: seq<Input>, m: nat, n: nat, j: nat)
    requires Working(table, run, inputs, m, n) && m <= j < n
    ensures FallsAt(Ranks(run), Held(run, inputs), j)
  {
    assert AtWork(run[j].system) && AtWork(run[j + 1].system);
    MovesOn(table, run, inputs, j);
  }

  lemma {:induction false} CountIsAtMost(a: seq<bool>, n: nat)
    requires n <= |a|
    ensures Count(a, n) <= n
    decreases n
  {
    if n > 0 {
      CountIsAtMost(a, n - 1);
    }
  }

  /**
   * Over every run: of the clocks the tracker is at work on, without a break, at most eight a slot, and a few,
   * are its own; on the others it waits for the relay, for a choice of the PC's, or for its transfer.
   */
  lemma {:induction false} ReplaysEnd(table: seq<U8>, run: seq<Pair>, inputs: seq<Input>, m: nat, n: nat)
    requires Working(table, run, inputs, m, n)
    ensures Moved(Held(run, inputs), m, n) <= 8 * |table| + 6
  {
    forall j | m <= j < n ensures FallsAt(Ranks(run), Held(run, inputs), j) {
      MovesAt(table, run, inputs, m, n, j);
    }
    RanksFall(Ranks(run), Held(run, inputs), m, n);
    RankBounded(table, run, inputs, m, n);
  }

  lemma {:induction false} RankBounded(table: seq<U8>, run: seq<Pair>, inputs: seq<Input>, m: nat, n: nat)
    requires Working(table, run, inputs, m, n)
    ensures Rank(run[m].system) <= 8 * |table| + 2 && Rank(run[n].system) >= -4
  {
    RunKeepsInv(table, run, inputs, m);
    RunKeepsInv(table, run, inputs, n);
    TableStays(table, run, inputs, m);
    CountIsAtMost(run[m].system.tracker.pending, |table|);
  }

  lemma {:induction false} TableStays(table: seq<U8>, run: seq<Pair>, inputs: seq<Input>, n: nat)
    requires IsRun(table, run, inputs) && n <= |inputs|
    ensures run[n].system.table == table
    decreases n
  {
    if n > 0 {
      TableStays(table, run, inputs, n - 1);
      assert Step(run[n - 1], inputs[n - 1], run[n]);
    }
  }
}
