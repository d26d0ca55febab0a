/** The bus reset and its high-speed detection handshake (section 7.1.7.5 of USB 2.0). */
module ChirpHandshake {
  datatype Option<T> = None | Some(value: T)

  // The 60 MHz timings.
  const RESET_CYCLES: nat := 3_000_000
  const DETECT_CYCLES: nat := 150
  const DRIVE_CYCLES: nat := 3_000
  const TIMEOUT_CYCLES: nat := 450_000
  const TAIL_CYCLES: nat := 12_000
  const HOST_PAIRS: nat := 3
  const COUNTER_MODULUS: nat := 0x40_0000

  datatype Line = Se0 | J | K | Se1

  datatype Phase = BusReset | AwaitDeviceEnd | DriveK | DriveJ | Recovery | Detached

  datatype Reset = Reset(
    phase: Phase, resetCounter: nat, chirpCounter: nat, pairs: nat, chirpDone: bool, highSpeed: bool)

  datatype Input = Input(held: bool, line: Line, forceFullSpeed: bool)

  const START := Reset(BusReset, 0, 0, 0, false, false)

  function Bump(counter: nat): nat { if counter >= COUNTER_MODULUS - 1 then 0 else counter + 1 }

  /** What the host drives; nothing driven is SE0. */
  function Driven(r: Reset): Option<Line> {
    if r.phase == DriveK then Some(K) else if r.phase == DriveJ then Some(J) else None
  }

  predicate InReset(r: Reset) { r.phase != Recovery && r.phase != Detached }

  function NextBusReset(r: Reset, i: Input): Reset {
    if r.resetCounter == RESET_CYCLES - 1 then r.(phase := Recovery, resetCounter := 0)
    else
      var n := r.(resetCounter := Bump(r.resetCounter));
      if r.chirpDone || i.forceFullSpeed then n
      else if i.line != K then
        n.(chirpCounter := 0, chirpDone := r.resetCounter >= TIMEOUT_CYCLES - 1)
      else if r.chirpCounter >= DETECT_CYCLES - 1 then n.(phase := AwaitDeviceEnd, chirpCounter := 0, pairs := 0)
      else n.(chirpCounter := r.chirpCounter + 1)
  }

  function NextAwait(r: Reset, i: Input): Reset {
    if i.line == K then r.(chirpCounter := 0)
    else if r.chirpCounter >= DETECT_CYCLES - 1 then r.(phase := DriveK, chirpCounter := 0)
    else r.(chirpCounter := r.chirpCounter + 1)
  }

  function NextDrive(r: Reset): Reset {
    var n := r.(resetCounter := Bump(r.resetCounter));
    if r.chirpCounter < DRIVE_CYCLES - 1 then n.(chirpCounter := r.chirpCounter + 1)
    else if r.phase == DriveK then n.(phase := DriveJ, chirpCounter := 0)
    else
      var third := r.pairs == HOST_PAIRS - 1;
      n.(phase := if r.resetCounter >= RESET_CYCLES - TAIL_CYCLES then BusReset else DriveK,
         chirpCounter := 0, pairs := if r.pairs < HOST_PAIRS then r.pairs + 1 else r.pairs,
         highSpeed := third || r.highSpeed, chirpDone := third || r.chirpDone)
  }

  function Next(r: Reset, i: Input): Reset {
    if !InReset(r) then r
    else if !i.held then r.(phase := Detached, highSpeed := false)
    else
      match r.phase
      case BusReset => NextBusReset(r, i)
      case AwaitDeviceEnd => NextAwait(r, i)
      case _ => NextDrive(r)
  }

  /** The registers, as one clock of the reset states changes them. */
  class ChirpSequencer {
    var phase: Phase
    var resetCounter: nat
    var chirpCounter: nat
    var pairs: nat
    var chirpDone: bool
    var highSpeed: bool

    constructor ()
      ensures State() == START
    {
      phase, resetCounter, chirpCounter, pairs, chirpDone, highSpeed := BusReset, 0, 0, 0, false, false;
    }

    function State(): Reset
      reads this
    {
      Reset(phase, resetCounter, chirpCounter, pairs, chirpDone, highSpeed)
    }

    method Tick(i: Input) returns (driven: Option<Line>)
      modifies this
      ensures driven == Driven(old(State())) && State() == Next(old(State()), i)
    {
      driven := None;
      match phase
      case Recovery =>
      case Detached =>
      case BusReset =>
        if !i.held {
          phase, highSpeed := Detached, false;
        } else if resetCounter == RESET_CYCLES - 1 {
          phase, resetCounter := Recovery, 0;
        } else {
          if !chirpDone && !i.forceFullSpeed {
            if i.line == K {
              if chirpCounter >= DETECT_CYCLES - 1 {
                phase, chirpCounter, pairs := AwaitDeviceEnd, 0, 0;
              } else {
                chirpCounter := chirpCounter + 1;
              }
            } else {
              chirpCounter := 0;
              chirpDone := resetCounter >= TIMEOUT_CYCLES - 1;
            }
          }
          resetCounter := Bump(resetCounter);
        }
      case AwaitDeviceEnd =>
        if !i.held {
          phase, highSpeed := Detached, false;
        } else if i.line == K {
          chirpCounter := 0;
        } else if chirpCounter >= DETECT_CYCLES - 1 {
          phase, chirpCounter := DriveK, 0;
        } else {
          chirpCounter := chirpCounter + 1;
        }
      case DriveK =>
        driven := Some(K);
        if !i.held {
          phase, highSpeed := Detached, false;
        } else {
          resetCounter := Bump(resetCounter);
          if chirpCounter >= DRIVE_CYCLES - 1 {
            phase, chirpCounter := DriveJ, 0;
          } else {
            chirpCounter := chirpCounter + 1;
          }
        }
      case DriveJ =>
        driven := Some(J);
        if !i.held {
          phase, highSpeed := Detached, false;
        } else if chirpCounter >= DRIVE_CYCLES - 1 {
          chirpCounter := 0;
          if pairs < HOST_PAIRS {
            if pairs == HOST_PAIRS - 1 {
              highSpeed, chirpDone := true, true;
            }
            pairs := pairs + 1;
          }
          phase := if resetCounter >= RESET_CYCLES - TAIL_CYCLES then BusReset else DriveK;
          resetCounter := Bump(resetCounter);
        } else {
          chirpCounter := chirpCounter + 1;
          resetCounter := Bump(resetCounter);
        }
    }
  }

  // ---- Runs of a reset ----------------------------------------------------------------------

  /** Clocks of one reset with power and enable held and the speed policy left alone. */
  predicate IsRun(run: seq<Reset>, ins: seq<Input>, force: bool) {
    |run| == |ins| + 1 && run[0] == START &&
    forall n :: 0 <= n < |ins| ==>
      ins[n].held && ins[n].forceFullSpeed == force && InReset(run[n]) && run[n + 1] == Next(run[n], ins[n])
  }

  predicate Quiet(run: seq<Reset>, from: nat, to: nat) {
    forall j :: from <= j < to && j < |run| ==> Driven(run[j]).None?
  }

  /** What an unbroken alternation shows t cycles after it starts. */
  function Chirped(t: nat): Line { if t / 3_000 % 2 == 0 then K else J }

  predicate Alternates(run: seq<Reset>, from: nat, to: nat) {
    forall j :: from <= j < to && j < |run| ==> Driven(run[j]) == Some(Chirped(j - from))
  }

  /** Before the host answers: nothing driven yet, and a chirp that comes too late is not heard. */
  predicate Listening(r: Reset, force: bool) {
    r.pairs == 0 && !r.highSpeed && r.chirpCounter < DETECT_CYCLES &&
    (if r.phase == AwaitDeviceEnd then r.resetCounter < TIMEOUT_CYCLES + DETECT_CYCLES && !r.chirpDone
     else r.phase == BusReset && r.resetCounter < RESET_CYCLES &&
          (r.chirpDone || force || r.resetCounter < TIMEOUT_CYCLES + r.chirpCounter))
  }

  /** The host has been driving for the given number of cycles. */
  predicate Answering(r: Reset, driven: nat) {
    var pairs := driven / (2 * DRIVE_CYCLES);
    var into := driven % (2 * DRIVE_CYCLES);
    driven <= r.resetCounter < TIMEOUT_CYCLES + DETECT_CYCLES + driven &&
    r.resetCounter - into <= RESET_CYCLES - TAIL_CYCLES &&
    (if into < DRIVE_CYCLES then r.phase == DriveK && r.chirpCounter == into
     else r.phase == DriveJ && r.chirpCounter == into - DRIVE_CYCLES) &&
    r.pairs == (if pairs < HOST_PAIRS then pairs else HOST_PAIRS) &&
    r.highSpeed == (pairs >= HOST_PAIRS) && r.chirpDone == r.highSpeed
  }

  /** At least three whole pairs were driven. */
  predicate Answered(driven: nat) {
    driven % (2 * DRIVE_CYCLES) == 0 && driven >= HOST_PAIRS * 2 * DRIVE_CYCLES
  }

  /** After the last pair: the bus at rest for tail cycles, the reset not yet over. */
  predicate Resting(r: Reset, tail: nat) {
    r.phase == BusReset && r.highSpeed && r.chirpDone && r.resetCounter < RESET_CYCLES &&
    RESET_CYCLES - TAIL_CYCLES < r.resetCounter - tail <= RESET_CYCLES - TAIL_CYCLES + 2 * DRIVE_CYCLES
  }

  /** The first n cycles were quiet to a, an alternation to b and quiet since; b is n while it lasts. */
  predicate Shape(run: seq<Reset>, force: bool, n: nat, a: nat, b: nat) {
    a <= b <= n < |run| && Quiet(run, 0, a) && Alternates(run, a, b) && Quiet(run, b, n) &&
    var r := run[n];
    if b < n then
      Answered(b - a) &&
      (Resting(r, n - b) ||
       (r.phase == Recovery && r.highSpeed && 2 * DRIVE_CYCLES <= n - b < TAIL_CYCLES))
    else if a < b then (b == n && Answering(r, n - a)) || (Answered(b - a) && Resting(r, 0))
    else Listening(r, force) || Answering(r, 0) || (r.phase == Recovery && !r.highSpeed)
  }

  /** Position of the next cycle within its pair. */
  lemma PairAdvances(t: nat)
    ensures var pair := 2 * DRIVE_CYCLES;
            (t % pair < pair - 1 ==> (t + 1) % pair == t % pair + 1 && (t + 1) / pair == t / pair) &&
            (t % pair == pair - 1 ==> (t + 1) % pair == 0 && (t + 1) / pair == t / pair + 1)
  {
  }

  lemma ChirpedAt(t: nat)
    ensures Chirped(t) == if t % (2 * DRIVE_CYCLES) < DRIVE_CYCLES then K else J
  {
  }

  /** One more cycle of driving shows what the alternation shows there. */
  lemma AnswersOn(r: Reset, i: Input, driven: nat)
    requires Answering(r, driven) && i.held
    ensures Driven(r) == Some(Chirped(driven))
    ensures Answering(Next(r, i), driven + 1) || (Answered(driven + 1) && Resting(Next(r, i), 0))
  {
    ChirpedAt(driven);
    PairAdvances(driven);
    var pairs, into := driven / (2 * DRIVE_CYCLES), driven % (2 * DRIVE_CYCLES);
    assert driven == 2 * DRIVE_CYCLES * pairs + into;
    assert Next(r, i) == NextDrive(r);
    if into == 2 * DRIVE_CYCLES - 1 {
      PairEnds(r, driven, pairs);
    }
  }

  lemma PairEnds(r: Reset, driven: nat, pairs: nat)
    requires Answering(r, driven) && driven + 1 == 2 * DRIVE_CYCLES * (pairs + 1)
    ensures Answering(NextDrive(r), driven + 1) || (Answered(driven + 1) && Resting(NextDrive(r), 0))
  {
    PairAdvances(driven);
    assert driven / (2 * DRIVE_CYCLES) == pairs && driven % (2 * DRIVE_CYCLES) == 2 * DRIVE_CYCLES - 1;
  }

  lemma ListensOn(r: Reset, i: Input, force: bool)
    requires Listening(r, force) && i.held && i.forceFullSpeed == force
    ensures Driven(r).None?
    ensures var v := Next(r, i);
            Listening(v, force) || Answering(v, 0) || (v.phase == Recovery && !v.highSpeed)
  {
  }

  lemma RestsOn(r: Reset, i: Input, tail: nat)
    requires Resting(r, tail) && i.held
    ensures Driven(r).None?
    ensures var v := Next(r, i);
            Resting(v, tail + 1) ||
            (v.phase == Recovery && v.highSpeed && 2 * DRIVE_CYCLES <= tail + 1 < TAIL_CYCLES)
  {
  }

  lemma {:induction false} ShapeOf(run: seq<Reset>, ins: seq<Input>, force: bool, n: nat) returns (a: nat, b: nat)
    requires IsRun(run, ins, force) && n <= |ins|
    ensures Shape(run, force, n, a, b)
  {
    if n == 0 {
      a, b := 0, 0;
    } else {
      a, b := ShapeOf(run, ins, force, n - 1);
      var r, i := run[n - 1], ins[n - 1];
      assert run[n] == Next(r, i) && InReset(r);
      if b == n - 1 && Answering(r, n - 1 - a) {
        AnswersOn(r, i, n - 1 - a);
        b := n;
      } else if a == n - 1 {
        ListensOn(r, i, force);
        a, b := n, n;
      } else {
        RestsOn(r, i, n - 1 - b);
      }
    }
  }

  /**
   * Every reset that runs to its end is either silent and Full Speed, or holds one unbroken K-J
   * alternation of at least three whole pairs ending in 6000 to 11999 cycles of rest, inside the
   * 100 to 500 microseconds the standard allows, and High Speed.
   */
  lemma HandshakeShape(run: seq<Reset>, ins: seq<Input>, force: bool) returns (a: nat, b: nat)
    requires IsRun(run, ins, force) && run[|ins|].phase == Recovery
    ensures a <= b <= |ins| && Quiet(run, 0, a) && Alternates(run, a, b) && Quiet(run, b, |ins|)
    ensures run[|ins|].highSpeed <==> a < b
    ensures a < b ==> (b - a) % 6_000 == 0 && b - a >= 18_000 && 6_000 <= |ins| - b <= 11_999
  {
    a, b := ShapeOf(run, ins, force, |ins|);
  }

  /** high_speed goes up with the third pair and with nothing else. */
  lemma HighSpeedMeansThreePairs(run: seq<Reset>, ins: seq<Input>, force: bool, n: nat) returns (a: nat, b: nat)
    requires IsRun(run, ins, force) && n <= |ins|
    ensures a <= b <= n && Quiet(run, 0, a) && Alternates(run, a, b) && Quiet(run, b, n)
    ensures run[n].highSpeed <==> b - a >= 18_000
  {
    a, b := ShapeOf(run, ins, force, n);
  }

  /** The reset is never shorter than its 50 ms, whatever happens in it. */
  lemma {:induction false} ResetLasts(run: seq<Reset>, ins: seq<Input>, force: bool, n: nat)
    requires IsRun(run, ins, force) && n <= |ins|
    ensures InReset(run[n]) ==> run[n].resetCounter <= n
    ensures run[n].phase == Recovery ==> n >= 3_000_000
  {
    if n > 0 {
      ResetLasts(run, ins, force, n - 1);
      assert run[n] == Next(run[n - 1], ins[n - 1]);
    }
  }

  // ---- What starts and ends the device's chirp ----------------------------------------------

  /** The last c cycles before n all showed a line for which hears holds, or did not. */
  predicate Streak(ins: seq<Input>, n: nat, c: nat, wanted: bool) {
    c <= n <= |ins| && forall j :: n - c <= j < n ==> (ins[j].line == K) == wanted
  }

  /** In the listening states the chirp counter is the length of the current streak. */
  lemma {:induction false} CountsStreak(run: seq<Reset>, ins: seq<Input>, n: nat)
    requires IsRun(run, ins, false) && n <= |ins|
    ensures run[n].phase == BusReset && !run[n].chirpDone ==> Streak(ins, n, run[n].chirpCounter, true)
    ensures run[n].phase == AwaitDeviceEnd ==> Streak(ins, n, run[n].chirpCounter, false)
  {
    if n > 0 {
      CountsStreak(run, ins, n - 1);
      assert run[n] == Next(run[n - 1], ins[n - 1]);
    }
  }

  /** The handshake starts only on 150 cycles of device K, and the host answers only after 150 without. */
  lemma QualifiesBothEnds(run: seq<Reset>, ins: seq<Input>, n: nat)
    requires IsRun(run, ins, false) && n < |ins|
    ensures run[n].phase == BusReset && run[n + 1].phase == AwaitDeviceEnd ==> Streak(ins, n + 1, 150, true)
    ensures run[n].phase == AwaitDeviceEnd && run[n + 1].phase == DriveK ==> Streak(ins, n + 1, 150, false)
  {
    CountsStreak(run, ins, n);
    var a, b := ShapeOf(run, ins, false, n);
  }

  /** Still listening: the host has not answered, and has not begun to wait for the chirp's end. */
  predicate Unheard(r: Reset) { r.phase == BusReset && !r.highSpeed }

  lemma UnheardBefore(run: seq<Reset>, ins: seq<Input>, n: nat)
    requires IsRun(run, ins, false) && 0 < n <= |ins| && Unheard(run[n])
    ensures Unheard(run[n - 1]) && run[n] == NextBusReset(run[n - 1], ins[n - 1])
  {
    assert run[n] == Next(run[n - 1], ins[n - 1]);
    var a, b := ShapeOf(run, ins, false, n - 1);
    if run[n - 1].phase == DriveJ {
      AnswersOn(run[n - 1], ins[n - 1], n - 1 - a);
    }
  }

  /** The window for a chirp to begin is open for 7.5 ms, and closes for good on the next clock without K. */
  lemma {:induction false} WindowCloses(run: seq<Reset>, ins: seq<Input>, n: nat)
    requires IsRun(run, ins, false) && n <= |ins| && Unheard(run[n])
    ensures run[n].resetCounter == n
    ensures run[n].chirpDone <==> exists j :: 449_999 <= j < n && ins[j].line != K
    decreases n
  {
    if n > 0 {
      UnheardBefore(run, ins, n);
      CounterIsBounded(run, ins, false, n - 1);
      WindowCloses(run, ins, n - 1);
    }
  }

  /** 150 cycles of K are heard as long as the window for them is open. */
  lemma {:induction false} LongChirpIsHeard(run: seq<Reset>, ins: seq<Input>, m: nat, c: nat) returns (n: nat)
    requires IsRun(run, ins, false) && c <= 150 && m + c <= |ins| && Streak(ins, m + c, c, true)
    requires run[m].phase == BusReset && !run[m].chirpDone
    ensures m <= n <= m + c
    ensures run[n].phase == AwaitDeviceEnd ||
            (n == m + c && c < 150 && run[n].phase == BusReset && !run[n].chirpDone &&
             run[n].chirpCounter >= c)
    decreases c
  {
    if c == 0 {
      n := m;
    } else {
      n := LongChirpIsHeard(run, ins, m, c - 1);
      if run[n].phase == BusReset {
        var a, b := ShapeOf(run, ins, false, n);
        assert run[n + 1] == Next(run[n], ins[n]) && ins[n].line == K;
        n := n + 1;
      }
    }
  }

  /** Past the point of no return: the handshake is under way or done. */
  predicate Committed(r: Reset) {
    r.phase == AwaitDeviceEnd || r.phase == DriveK || r.phase == DriveJ || r.highSpeed
  }

  /** A device whose chirp was heard comes out of the reset at High Speed. */
  lemma {:induction false} HeardMeansHighSpeed(run: seq<Reset>, ins: seq<Input>, force: bool, m: nat, n: nat)
    requires IsRun(run, ins, force) && m <= n <= |ins| && run[m].phase == AwaitDeviceEnd
    ensures Committed(run[n])
    decreases n
  {
    if m < n {
      HeardMeansHighSpeed(run, ins, force, m, n - 1);
      assert run[n] == Next(run[n - 1], ins[n - 1]);
      var a, b := ShapeOf(run, ins, force, n);
    }
  }

  /** A device that never lets go of K is waited for without end: that state has no time limit. */
  lemma {:induction false} StuckChirpIsWaitedFor(run: seq<Reset>, ins: seq<Input>, force: bool, m: nat, n: nat)
    requires IsRun(run, ins, force) && m <= n <= |ins| && run[m].phase == AwaitDeviceEnd
    requires forall j :: m <= j < n ==> ins[j].line == K
    ensures run[n].phase == AwaitDeviceEnd
    decreases n
  {
    if m < n {
      StuckChirpIsWaitedFor(run, ins, force, m, n - 1);
      assert run[n] == Next(run[n - 1], ins[n - 1]);
    }
  }

  // ---- How long a reset lasts -----------------------------------------------------------------

  /** Cycles among the first n spent waiting for the device's K to end. */
  function Waits(run: seq<Reset>, n: nat): nat
    requires n <= |run|
  {
    if n == 0 then 0 else Waits(run, n - 1) + if run[n - 1].phase == AwaitDeviceEnd then 1 else 0
  }

  lemma CounterIsBounded(run: seq<Reset>, ins: seq<Input>, force: bool, n: nat)
    requires IsRun(run, ins, force) && n <= |ins|
    ensures InReset(run[n]) ==> run[n].resetCounter < RESET_CYCLES
    ensures run[n].phase != Detached
  {
    var a, b := ShapeOf(run, ins, force, n);
  }

  /** Only the wait stops the counter, and only its last value ends the reset. */
  lemma CounterSteps(r: Reset, i: Input)
    requires InReset(r) && i.held && r.resetCounter < RESET_CYCLES
    ensures var v := Next(r, i);
            var step := if r.phase == AwaitDeviceEnd then 0 else 1;
            (InReset(v) ==> v.resetCounter == r.resetCounter + step) &&
            (v.phase == Recovery ==> r.resetCounter + step == RESET_CYCLES)
  {
  }

  /** A reset lasts exactly its 50 ms and the wait for the device's K to end, which stops the reset counter. */
  lemma {:induction false} ResetTakes(run: seq<Reset>, ins: seq<Input>, force: bool, n: nat)
    requires IsRun(run, ins, force) && n <= |ins|
    ensures InReset(run[n]) ==> n == run[n].resetCounter + Waits(run, n) < 3_000_000 + Waits(run, n)
    ensures run[n].phase == Recovery ==> n == 3_000_000 + Waits(run, n)
  {
    CounterIsBounded(run, ins, force, n);
    if n > 0 {
      ResetTakes(run, ins, force, n - 1);
      CounterSteps(run[n - 1], ins[n - 1]);
    }
  }

  /** Once the device's K has ended the wait lasts no more than the 150 cycles that qualify its end. */
  lemma {:induction false} WaitEnds(run: seq<Reset>, ins: seq<Input>, force: bool, m: nat, n: nat)
    requires IsRun(run, ins, force) && m <= n <= |ins| && forall j :: m <= j < n ==> ins[j].line != K
    ensures Waits(run, n) <= Waits(run, m) +
                             if run[n].phase == AwaitDeviceEnd then run[n].chirpCounter else DETECT_CYCLES
    decreases n
  {
    if m < n {
      WaitEnds(run, ins, force, m, n - 1);
      assert run[n] == Next(run[n - 1], ins[n - 1]);
      var a, b := ShapeOf(run, ins, force, n - 1);
    }
  }

  /** A device that shows no K from cycle m on ends its reset within 50 ms, the wait so far and 150 cycles more. */
  lemma ResetEnds(run: seq<Reset>, ins: seq<Input>, force: bool, m: nat)
    requires IsRun(run, ins, force) && m <= |ins| && forall j :: m <= j < |ins| ==> ins[j].line != K
    ensures |ins| <= 3_000_000 + Waits(run, m) + 150
    ensures run[|ins|].phase == Recovery <==> |ins| == 3_000_000 + Waits(run, |ins|)
  {
    WaitEnds(run, ins, force, m, |ins|);
    ResetTakes(run, ins, force, |ins|);
    CounterIsBounded(run, ins, force, |ins|);
  }
}
