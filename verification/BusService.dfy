/** Who is served: the arbiter's order of precedence, its round of the pollers, and the multiplexer's. */
module BusService {
  import opened BusSharing

  // ---- The arbiter --------------------------------------------------------------------------

  /** Nothing in flight, no report being copied, and the device there. */
  predicate Idle(b: Bus, i: Input) { i.connected && b.engine.busy.None? && b.active.None? }

  /** The enumerator or the relay holds the control engine. */
  predicate Held(b: Bus, i: Input) { !i.ready || b.relay != Away }

  /** Control first: asking, holding and not out of time, it is granted an idle engine on that clock. */
  lemma ControlIsFirst(b: Bus, i: Input)
    requires Idle(b, i) && Held(b, i) && b.control.phase == Asking && !(b.control.nakked && i.expired)
    ensures GrantedTo(b, i) == Some(Control)
    ensures NextEngine(b, i).busy == Some(Ticket(Control, b.serial))
    ensures NextControl(b, i).phase == ControlPhase.Waiting(b.serial)
  {
  }

  /** Then a start of frame, unless a transaction ended on this clock or the one before. */
  lemma FrameIsNext(b: Bus, i: Input)
    requires i.connected && b.engine == Engine(None, None, false) && i.sofStart
    requires !(Held(b, i) && b.active.None? && b.control.phase == Asking && !(b.control.nakked && i.expired))
    ensures GrantedTo(b, i) == Some(Sof) && NextEngine(b, i).busy == Some(Ticket(Sof, b.serial))
  {
  }

  /** A clock the pollers have to themselves. */
  predicate Pollable(b: Bus, i: Input) { Idle(b, i) && !Held(b, i) && !i.sofStart }

  /** Then the poller pointed at, if it is due, and no other; the next one's turn comes one clock later. */
  lemma PollersInTurn(b: Bus, i: Input, count: nat)
    requires Inv(b, count) && |i.starts| == count && Pollable(b, i)
    ensures i.starts[b.arbiter.rotate] ==>
      GrantedTo(b, i) == Some(Poller(b.arbiter.rotate)) &&
      NextEngine(b, i).busy == Some(Ticket(Poller(b.arbiter.rotate), b.serial)) &&
      NextActive(b, i) == Some(Poll(b.arbiter.rotate, b.serial, false))
    ensures !i.starts[b.arbiter.rotate] ==>
      GrantedTo(b, i) == None && NextEngine(b, i).busy == None && NextActive(b, i) == None &&
      NextArbiter(b.arbiter, LinesOf(b, i), count).rotate ==
        if b.arbiter.ownerValid then (b.arbiter.owner + 1) % count else (b.arbiter.rotate + 1) % count
  {
    var r := b.arbiter.rotate;
    assert (r + 1) % count == if r + 1 == count then 0 else r + 1;
  }

  /** And nobody is ever granted out of order, or with a transaction in flight, or without asking. */
  lemma OnlyTheAsked(b: Bus, i: Input)
    requires GrantedTo(b, i).Some?
    ensures i.connected && b.engine.busy.None?
    ensures match GrantedTo(b, i).value
            case Control => Held(b, i) && b.active.None? && b.control.phase == Asking
            case Sof => i.sofStart && b.engine.done.None? && !b.engine.doneBefore
            case Poller(k) => Pollable(b, i) && k == b.arbiter.rotate && k < |i.starts| && i.starts[k]
  {
  }

  /** From clock m the bus is the pollers' and poller k is due, for as many clocks as there are pollers. */
  predicate FreeFor(run: seq<Bus>, inputs: seq<Input>, m: nat, k: nat, count: nat) {
    IsRun(run, inputs, count) && m + count <= |inputs| && k < count &&
    forall n :: m <= n < m + count ==> FreeAt(run[n], inputs[n], k)
  }

  predicate FreeAt(b: Bus, i: Input, k: nat) {
    Pollable(b, i) && b.engine.done.None? && k < |i.starts| && i.starts[k]
  }

  lemma NearerOrGranted(run: seq<Bus>, inputs: seq<Input>, n: nat, k: nat, count: nat)
    requires IsRun(run, inputs, count) && n < |inputs| && k < count && FreeAt(run[n], inputs[n], k)
    ensures run[n].arbiter.rotate < count && run[n + 1].arbiter.rotate < count
    ensures GrantedTo(run[n], inputs[n]) == None ==>
      run[n].arbiter.rotate != k &&
      Distance(run[n + 1].arbiter.rotate, k, count) < Distance(run[n].arbiter.rotate, k, count)
  {
    RunKeepsInv(run, inputs, n, count);
    RunKeepsInv(run, inputs, n + 1, count);
    assert Step(run[n], inputs[n], run[n + 1], count);
  }

  lemma {:induction false} NearerYet(run: seq<Bus>, inputs: seq<Input>, m: nat, k: nat, count: nat, n: nat)
    requires FreeFor(run, inputs, m, k, count) && m <= n <= m + count
    requires forall j :: m <= j < n ==> GrantedTo(run[j], inputs[j]) == None
    ensures run[m].arbiter.rotate < count && run[n].arbiter.rotate < count
    ensures Distance(run[n].arbiter.rotate, k, count) + (n - m) <= Distance(run[m].arbiter.rotate, k, count)
    decreases n
  {
    if n == m {
      RunKeepsInv(run, inputs, m, count);
    } else {
      NearerYet(run, inputs, m, k, count, n - 1);
      assert FreeAt(run[n - 1], inputs[n - 1], k);
      NearerOrGranted(run, inputs, n - 1, k, count);
    }
  }

  /** One round of such clocks starts a poll: the pointer cannot pass a due poller. */
  lemma {:induction false} RoundStartsAPoll(run: seq<Bus>, inputs: seq<Input>, m: nat, k: nat, count: nat)
    returns (n: nat)
    requires FreeFor(run, inputs, m, k, count)
    ensures m <= n < m + count && GrantedTo(run[n], inputs[n]).Some? && GrantedTo(run[n], inputs[n]).value.Poller?
  {
    if forall j :: m <= j < m + count ==> GrantedTo(run[j], inputs[j]) == None {
      NearerYet(run, inputs, m, k, count, m + count);
      n := m;
      assert false;
    }
    n :| m <= n < m + count && GrantedTo(run[n], inputs[n]) != None;
    assert FreeAt(run[n], inputs[n], k);
    OnlyTheAsked(run[n], inputs[n]);
  }

  // ---- The multiplexer ----------------------------------------------------------------------

  /** The d-th source from sel on, going round. */
  function Round(sel: nat, d: nat, count: nat): (k: nat)
    requires sel < count
    ensures k < count
  {
    (sel + d) % count
  }

  lemma RoundIs(sel: nat, d: nat, count: nat)
    requires sel < count && d < count
    ensures Round(sel, d, count) == if sel + d < count then sel + d else sel + d - count
  {
  }

  lemma {:induction false} FirstIs(sources: Sources, sel: nat, tried: nat, d: nat)
    requires sel < |sources| && tried <= d < |sources| && sources[Round(sel, d, |sources|)] != []
    requires forall e :: tried <= e < d ==> sources[Round(sel, e, |sources|)] == []
    ensures FirstValid(sources, sel, tried) == Some(Round(sel, d, |sources|))
    decreases d - tried
  {
    RoundIs(sel, tried, |sources|);
    if tried < d {
      FirstIs(sources, sel, tried + 1, d);
    }
  }

  lemma {:induction false} NoneIs(sources: Sources, sel: nat, tried: nat)
    requires sel < |sources| && tried <= |sources| && forall k :: 0 <= k < |sources| ==> sources[k] == []
    ensures FirstValid(sources, sel, tried) == None
    decreases |sources| - tried
  {
    if tried < |sources| {
      NoneIs(sources, sel, tried + 1);
    }
  }

  /** Free, the multiplexer takes the first source with a report, one round from where it stands. */
  lemma {:induction false} LocksOntoTheFirst(m: Mux, sources: Sources, ready: bool, d: nat)
    requires m.sel < |sources| && !m.locked && d < |sources| && sources[(m.sel + d) % |sources|] != []
    requires forall e :: 0 <= e < d ==> sources[Round(m.sel, e, |sources|)] == []
    ensures NextMux(m, sources, ready) == Mux((m.sel + d) % |sources|, true) && Emitted(m, sources, ready) == None
  {
    FirstIs(sources, m.sel, 0, d);
  }

  /** With no report anywhere it stays where it is. */
  lemma {:induction false} WaitsForAReport(m: Mux, sources: Sources, ready: bool)
    requires m.sel < |sources| && !m.locked && forall k :: 0 <= k < |sources| ==> sources[k] == []
    ensures NextMux(m, sources, ready) == m && Emitted(m, sources, ready) == None
  {
    NoneIs(sources, m.sel, 0);
  }

  /** Taken, it shows that source's next byte until the last is gone, and then stands one further on. */
  lemma ShowsItsSource(m: Mux, sources: Sources, ready: bool)
    requires m.sel < |sources| && m.locked
    ensures sources[m.sel] != [] && ready ==> Emitted(m, sources, ready) == Some(sources[m.sel][0])
    ensures sources[m.sel] != [] && ready && sources[m.sel][0].last ==>
            NextMux(m, sources, ready) == Mux((m.sel + 1) % |sources|, false)
    ensures sources[m.sel] != [] && !(ready && sources[m.sel][0].last) ==> NextMux(m, sources, ready) == m
    ensures sources[m.sel] == [] ==> NextMux(m, sources, ready) == Mux(m.sel, false)
  {
    assert (m.sel + 1) % |sources| == if m.sel + 1 == |sources| then 0 else m.sel + 1;
  }

  /** A clock on which a source's last byte is taken. */
  predicate Ends(m: Mux, sources: Sources, ready: bool) {
    Emitted(m, sources, ready).Some? && Emitted(m, sources, ready).value.last
  }

  lemma {:induction false} FirstIsBefore(sources: Sources, sel: nat, k: nat, tried: nat)
    requires sel < |sources| && k < |sources| && sources[k] != [] && tried <= Distance(sel, k, |sources|)
    ensures FirstValid(sources, sel, tried).Some?
    ensures var j := FirstValid(sources, sel, tried).value;
            Distance(j, k, |sources|) <= Distance(sel, k, |sources|)
    decreases |sources| - tried
  {
    if tried < Distance(sel, k, |sources|) {
      FirstIsBefore(sources, sel, k, tried + 1);
    }
  }

  /** While source k waits, every clock leaves it as near, and every report of another one nearer. */
  lemma {:induction false} EachReportBringsCloser(m: Mux, sources: Sources, ready: bool, k: nat)
    requires m.sel < |sources| && k < |sources| && sources[k] != [] && !(m.locked && m.sel == k)
    ensures NextMux(m, sources, ready).sel < |sources|
    ensures Distance(NextMux(m, sources, ready).sel, k, |sources|) + (if Ends(m, sources, ready) then 1 else 0) <=
            Distance(m.sel, k, |sources|)
  {
    if !m.locked {
      FirstIsBefore(sources, m.sel, k, 0);
    }
  }

  /** From clock to clock the multiplexer moves over sources that change as they like, k's report waiting. */
  predicate KeptWaiting(run: seq<Mux>, sources: seq<Sources>, ready: seq<bool>, k: nat, count: nat) {
    |run| == |sources| + 1 && |ready| == |sources| && k < count && run[0].sel < count &&
    forall n :: 0 <= n < |sources| ==> WaitingAt(run[n], sources[n], ready[n], run[n + 1], k, count)
  }

  predicate WaitingAt(m: Mux, s: Sources, ready: bool, next: Mux, k: nat, count: nat) {
    |s| == count && k < count && s[k] != [] && !(m.locked && m.sel == k) && m.sel < count &&
    next == NextMux(m, s, ready)
  }

  function Ended(run: seq<Mux>, sources: seq<Sources>, ready: seq<bool>, n: nat): nat
    requires n <= |sources| && |ready| == |sources| < |run|
  {
    if n == 0 then 0
    else Ended(run, sources, ready, n - 1) + if Ends(run[n - 1], sources[n - 1], ready[n - 1]) then 1 else 0
  }

  lemma {:induction false} EndedBounded(run: seq<Mux>, sources: seq<Sources>, ready: seq<bool>, k: nat, count: nat,
      n: nat)
    requires KeptWaiting(run, sources, ready, k, count) && n <= |sources|
    ensures run[n].sel < count
    ensures Ended(run, sources, ready, n) + Distance(run[n].sel, k, count) <= Distance(run[0].sel, k, count)
    decreases n
  {
    if n > 0 {
      EndedBounded(run, sources, ready, k, count, n - 1);
      assert WaitingAt(run[n - 1], sources[n - 1], ready[n - 1], run[n], k, count);
      EachReportBringsCloser(run[n - 1], sources[n - 1], ready[n - 1], k);
    }
  }

  /** However the others fill, a waiting report lets at most one report of each other source go first. */
  lemma {:induction false} ReportsInTurn(run: seq<Mux>, sources: seq<Sources>, ready: seq<bool>, k: nat, count: nat)
    requires KeptWaiting(run, sources, ready, k, count)
    ensures Ended(run, sources, ready, |sources|) <= count - 1
  {
    EndedBounded(run, sources, ready, k, count, |sources|);
  }
}
