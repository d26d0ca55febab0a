/** Which of the PC's choices a trigger's replays respect, and which they undo. */
module BootReplayRuns {
  import opened BootProtocol

  /** A choice about the interface completes on clock j. */
  predicate ChosenAt(run: seq<Pair>, inputs: seq<Input>, j: nat, interfaceNumber: U8)
    requires j < |inputs| < |run|
  {
    var c := Choice(run[j].system, inputs[j]);
    c.Some? && c.value.interfaceNumber == interfaceNumber
  }

  predicate ChosenBetween(run: seq<Pair>, inputs: seq<Input>, from: int, to: nat, interfaceNumber: U8)
    requires to <= |inputs| < |run|
  {
    exists j: nat :: from <= j < to && ChosenAt(run, inputs, j, interfaceNumber)
  }

  /** The pending slots are loaded on clock l and not again before clock n. */
  predicate LoadedAt(run: seq<Pair>, inputs: seq<Input>, l: nat, n: nat) {
    l < n <= |inputs| < |run| && Loads(run[l].system.tracker) &&
    forall j :: l < j < n ==> !Loads(run[j].system.tracker)
  }

  lemma {:induction false} TableStays(table: seq<U8>, run: seq<Pair>, inputs: seq<Input>, n: nat)
    requires IsRun(table, run, inputs) && n < |run|
    ensures run[n].system.table == table
  {
    if n > 0 {
      TableStays(table, run, inputs, n - 1);
      assert Step(run[n - 1], inputs[n - 1], run[n]);
    }
  }

  /** A choice of the last two clocks is in the pipeline. */
  lemma RecentIsInPipeline(table: seq<U8>, run: seq<Pair>, inputs: seq<Input>, l: nat, j: nat, k: nat)
    requires IsRun(table, run, inputs) && l <= |inputs| && l - 2 <= j < l && k < |table|
    requires ChosenAt(run, inputs, j, table[k])
    ensures table[k] in InPipeline(run[l].system)
    ensures j == l - 2 ==> Snooped(run[l].system.tracker, k)
  {
    assert Step(run[j], inputs[j], run[j + 1]);
    TableStays(table, run, inputs, j);
    TableStays(table, run, inputs, l);
    if j == l - 2 {
      assert Step(run[j + 1], inputs[j + 1], run[l]);
      assert Snooped(run[l].system.tracker, k);
    }
  }

  /** Every choice from two clocks before the load on is on the ledger. */
  lemma {:induction false} LedgerCovers(
    table: seq<U8>, run: seq<Pair>, inputs: seq<Input>, l: nat, n: nat, j: nat, k: nat)
    requires IsRun(table, run, inputs) && LoadedAt(run, inputs, l, n) && k < |table|
    requires l - 2 <= j < n && ChosenAt(run, inputs, j, table[k])
    ensures table[k] in run[n].ledger.chosen
    decreases n
  {
    assert Step(run[n - 1], inputs[n - 1], run[n]);
    if j == n - 1 {
    } else if n == l + 1 {
      RecentIsInPipeline(table, run, inputs, l, j, k);
    } else {
      LedgerCovers(table, run, inputs, l, n - 1, j, k);
    }
  }

  lemma {:induction false} PendingSinceLoad(
    table: seq<U8>, run: seq<Pair>, inputs: seq<Input>, l: nat, n: nat, k: nat)
    requires IsRun(table, run, inputs) && LoadedAt(run, inputs, l, n) && k < |table|
    ensures |run[n].system.tracker.pending| == |run[l].system.tracker.boot| == |table|
    ensures run[n].system.tracker.pending[k] ==>
              run[l].system.tracker.boot[k] && !Snooped(run[l].system.tracker, k)
    decreases n
  {
    RunKeepsInv(table, run, inputs, l);
    RunKeepsInv(table, run, inputs, n - 1);
    RunKeepsInv(table, run, inputs, n);
    TableStays(table, run, inputs, l);
    TableStays(table, run, inputs, n - 1);
    TableStays(table, run, inputs, n);
    assert Step(run[n - 1], inputs[n - 1], run[n]);
    if n > l + 1 {
      PendingSinceLoad(table, run, inputs, l, n - 1, k);
      PendingOnlyShrinks(run[n - 1].system, run[n - 1].ledger, inputs[n - 1], k);
    }
  }

  /**
   * The replays that follow a load on clock l go only to interfaces that were in boot two clocks before
   * it, and never to one the PC has chosen a protocol for since then.
   */
  lemma ReplaysRespectTheLoad(table: seq<U8>, run: seq<Pair>, inputs: seq<Input>, l: nat, n: nat)
    requires IsRun(table, run, inputs) && LoadedAt(run, inputs, l, n) && n < |inputs|
    requires Accepts(run[n].system, inputs[n])
    ensures var target := run[n].system.tracker.currentInterface;
            !ChosenBetween(run, inputs, l - 2, n, target) && target in table &&
            (l >= 2 ==> target in run[l - 2].system.device)
  {
    RunKeepsInv(table, run, inputs, n);
    TableStays(table, run, inputs, n);
    ReplayIsWanted(table, run, inputs, n);
    var t := run[n].system.tracker;
    var target, k := t.currentInterface, t.current;
    assert table[k] == target && t.pending[k];
    forall j: nat | l - 2 <= j < n && ChosenAt(run, inputs, j, target)
      ensures false
    {
      LedgerCovers(table, run, inputs, l, n, j, k);
    }
    PendingSinceLoad(table, run, inputs, l, n, k);
    if l >= 2 {
      TableStays(table, run, inputs, l - 2);
      MaskIsTwoCyclesLate(table, run, inputs, l - 2, k);
    }
  }

  predicate Rises(run: seq<Pair>, inputs: seq<Input>, n: nat)
    requires n < |inputs| < |run|
  {
    inputs[n].trigger && !run[n].system.tracker.triggerPrev
  }

  /** A trigger is kept until the tracker is idle, and then loads the pending slots. */
  lemma {:induction false} TriggerIsKept(table: seq<U8>, run: seq<Pair>, inputs: seq<Input>, n: nat, l: nat)
    requires IsRun(table, run, inputs) && n < l <= |inputs| && Rises(run, inputs, n)
    requires forall j :: n < j < l ==> run[j].system.tracker.phase != Idle
    ensures run[l].system.tracker.triggerSeen
    decreases l
  {
    assert Step(run[l - 1], inputs[l - 1], run[l]);
    if n < l - 1 {
      TriggerIsKept(table, run, inputs, n, l - 1);
    }
  }

  /**
   * A trigger that rises on clock n with the tracker idle undoes nothing the PC chooses after it: until
   * the next load, no replay goes to an interface whose choice completed on clock n or later.
   */
  lemma IdleTriggerUndoesNothing(table: seq<U8>, run: seq<Pair>, inputs: seq<Input>, n: nat, m: nat)
    requires IsRun(table, run, inputs) && n + 1 < m < |inputs| && Rises(run, inputs, n)
    requires run[n].system.tracker.phase == Idle && !run[n].system.tracker.triggerSeen
    requires forall j :: n + 1 < j < m ==> !Loads(run[j].system.tracker)
    requires Accepts(run[m].system, inputs[m])
    ensures !ChosenBetween(run, inputs, n, m, run[m].system.tracker.currentInterface)
  {
    assert Step(run[n], inputs[n], run[n + 1]);
    assert LoadedAt(run, inputs, n + 1, m);
    ReplaysRespectTheLoad(table, run, inputs, n + 1, m);
  }

  lemma NotSnooped(table: seq<U8>, run: seq<Pair>, inputs: seq<Input>, j: nat, k: nat)
    requires IsRun(table, run, inputs) && 2 <= j <= |inputs| && k < |table|
    requires !ChosenAt(run, inputs, j - 2, table[k])
    ensures !Snooped(run[j].system.tracker, k)
  {
    TableStays(table, run, inputs, j - 2);
    TableStays(table, run, inputs, j - 1);
    assert Step(run[j - 2], inputs[j - 2], run[j - 1]) && Step(run[j - 1], inputs[j - 1], run[j]);
  }

  // ---- And which choices a busy trigger does undo -------------------------------------------------

  /** Nothing touches the interface on clocks from j to l: no choice of the PC's, no replay. */
  predicate Untouched(run: seq<Pair>, inputs: seq<Input>, j: nat, l: nat, interfaceNumber: U8)
    requires l <= |inputs| < |run|
  {
    forall i :: j <= i < l ==>
      !ChosenAt(run, inputs, i, interfaceNumber) &&
      !(Succeeds(run[i].system.relay, inputs[i]) && run[i].system.relay.op == Replay(interfaceNumber))
  }

  lemma {:induction false} BootLasts(run: seq<Pair>, inputs: seq<Input>, table: seq<U8>, m: nat, l: nat,
    interfaceNumber: U8)
    requires IsRun(table, run, inputs) && m < l <= |inputs|
    requires Choice(run[m].system, inputs[m]) == Some(Protocol(interfaceNumber, true))
    requires Untouched(run, inputs, m + 1, l, interfaceNumber)
    ensures interfaceNumber in run[l].system.device
    decreases l
  {
    assert Step(run[l - 1], inputs[l - 1], run[l]);
    if m + 1 < l {
      BootLasts(run, inputs, table, m, l - 1, interfaceNumber);
    }
  }

  /** What a load on clock l leaves pending two clocks later. */
  lemma LoadedSlots(table: seq<U8>, run: seq<Pair>, inputs: seq<Input>, l: nat, k: nat)
    requires IsRun(table, run, inputs) && l + 2 <= |inputs| && k < |table| && Loads(run[l].system.tracker)
    ensures |run[l + 2].system.tracker.pending| == |run[l].system.tracker.boot| == |table|
    ensures run[l + 2].system.tracker.pending[k] <==>
            run[l].system.tracker.boot[k] &&
            !Snooped(run[l].system.tracker, k) && !Snooped(run[l + 1].system.tracker, k)
  {
    TableStays(table, run, inputs, l);
    TableStays(table, run, inputs, l + 1);
    RunKeepsInv(table, run, inputs, l);
    RunKeepsInv(table, run, inputs, l + 1);
    assert Step(run[l], inputs[l], run[l + 1]) && Step(run[l + 1], inputs[l + 1], run[l + 2]);
  }

  lemma BootAtLoad(table: seq<U8>, run: seq<Pair>, inputs: seq<Input>, l: nat, m: nat, k: nat)
    requires IsRun(table, run, inputs) && m + 3 <= l <= |inputs| && k < |table|
    requires Choice(run[m].system, inputs[m]) == Some(Protocol(table[k], true))
    requires Untouched(run, inputs, m + 1, l, table[k])
    ensures k < |run[l].system.tracker.boot| && run[l].system.tracker.boot[k]
  {
    BootLasts(run, inputs, table, m, l - 2, table[k]);
    TableStays(table, run, inputs, l - 2);
    MaskIsTwoCyclesLate(table, run, inputs, l - 2, k);
  }

  /**
   * A boot choice completed on clock m, the last word on its interface, is pending again when the replays
   * of a load on clock l begin exactly if m is at least three clocks before l.
   */
  lemma EarlierChoiceIsPending(table: seq<U8>, run: seq<Pair>, inputs: seq<Input>, l: nat, m: nat, k: nat)
    requires IsRun(table, run, inputs) && m < l && l + 2 <= |inputs| && k < |table| && Loads(run[l].system.tracker)
    requires Choice(run[m].system, inputs[m]) == Some(Protocol(table[k], true))
    requires Untouched(run, inputs, m + 1, l, table[k])
    ensures |run[l + 2].system.tracker.pending| == |table|
    ensures run[l + 2].system.tracker.pending[k] <==> m <= l - 3
  {
    LoadedSlots(table, run, inputs, l, k);
    if m <= l - 3 {
      BootAtLoad(table, run, inputs, l, m, k);
      NotSnooped(table, run, inputs, l, k);
      NotSnooped(table, run, inputs, l + 1, k);
    } else if m == l - 2 {
      RecentIsInPipeline(table, run, inputs, l, m, k);
    } else {
      RecentIsInPipeline(table, run, inputs, l + 1, m, k);
    }
  }

  // ---- To the end of the replays --------------------------------------------------------------

  predicate NonePending(t: Tracker) { forall k :: 0 <= k < |t.pending| ==> !t.pending[k] }

  lemma IdleStep(s: System, i: Input)
    requires s.tracker.phase == Idle ==> NonePending(s.tracker)
    ensures Next(s, i).tracker.phase == Idle ==> NonePending(Next(s, i).tracker)
  {
  }

  /** The tracker rests only with nothing pending. */
  lemma {:induction false} IdleMeansDone(table: seq<U8>, run: seq<Pair>, inputs: seq<Input>, n: nat)
    requires IsRun(table, run, inputs) && n <= |inputs| && run[n].system.tracker.phase == Idle
    ensures NonePending(run[n].system.tracker)
  {
    IdleOverRuns(table, run, inputs, n);
  }

  lemma {:induction false} IdleOverRuns(table: seq<U8>, run: seq<Pair>, inputs: seq<Input>, n: nat)
    requires IsRun(table, run, inputs) && n <= |inputs|
    ensures run[n].system.tracker.phase == Idle ==> NonePending(run[n].system.tracker)
    decreases n
  {
    if n > 0 {
      IdleOverRuns(table, run, inputs, n - 1);
      assert Step(run[n - 1], inputs[n - 1], run[n]);
      IdleStep(run[n - 1].system, inputs[n - 1]);
    }
  }

  /** A replay in the relay was accepted, and nothing else has been there since. */
  lemma {:induction false} ReplayWasAccepted(
    table: seq<U8>, run: seq<Pair>, inputs: seq<Input>, n: nat, interfaceNumber: U8) returns (a: nat)
    requires IsRun(table, run, inputs) && n <= |inputs|
    requires ResyncActive(run[n].system.relay) && run[n].system.relay.op == Replay(interfaceNumber)
    ensures a < n && Accepts(run[a].system, inputs[a])
    ensures run[a].system.tracker.currentInterface == interfaceNumber
    ensures forall b :: a < b <= n ==> ResyncActive(run[b].system.relay)
    decreases n
  {
    assert n > 0;
    assert Step(run[n - 1], inputs[n - 1], run[n]);
    if ResyncActive(run[n - 1].system.relay) {
      a := ReplayWasAccepted(table, run, inputs, n - 1, interfaceNumber);
    } else {
      a := n - 1;
    }
  }

  /** How a pending slot is cleared without a choice of the PC's: by the end of a replay to its interface. */
  lemma ClearedByReplay(s: System, l: Ledger, i: Input, k: nat)
    requires Inv(s, l) && k < |s.table| && s.tracker.pending[k] && !Loads(s.tracker) && !Snooped(s.tracker, k)
    requires Shaped(Next(s, i)) && !Next(s, i).tracker.pending[k]
    ensures s.tracker.phase == Wait && s.pulses.resyncDone.Some? && s.tracker.currentInterface == s.table[k]
  {
  }

  /** A replay's end is announced one clock after the relay has finished it, two after the device took it. */
  lemma AnnouncedReplay(s: System, l: Ledger, i: Input)
    requires Inv(s, l) && Next(s, i).pulses.resyncDone.Some?
    ensures s.relay == Finished(Replay(s.tracker.currentInterface), Next(s, i).pulses.resyncDone.value)
    ensures Next(s, i).tracker.currentInterface == s.tracker.currentInterface
  {
  }

  /** Every replay the relay ends from clock l to clock n succeeds. */
  predicate Serves(run: seq<Pair>, inputs: seq<Input>, l: nat, n: nat)
    requires n <= |inputs| < |run|
  {
    forall j :: l <= j < n && run[j].system.relay.Busy? && run[j].system.relay.op.Replay? && inputs[j].finish.Some? ==>
      inputs[j].finish.value
  }

  /** A finished replay, if replays succeed, has put its interface back into report protocol. */
  lemma {:induction false} FinishedIsTaken(
    table: seq<U8>, run: seq<Pair>, inputs: seq<Input>, l: nat, n: nat, interfaceNumber: U8)
    requires IsRun(table, run, inputs) && l < n <= |inputs| && Serves(run, inputs, l, n)
    requires run[n].system.relay.Finished? && run[n].system.relay.op == Replay(interfaceNumber)
    requires !ResyncActive(run[l].system.relay)
    ensures interfaceNumber !in run[n].system.device
    decreases n
  {
    assert Step(run[n - 1], inputs[n - 1], run[n]);
    assert run[n - 1].system.relay == Busy(Replay(interfaceNumber));
  }

  lemma {:induction false} StaysInReport(
    table: seq<U8>, run: seq<Pair>, inputs: seq<Input>, m: nat, n: nat, interfaceNumber: U8)
    requires IsRun(table, run, inputs) && m <= n <= |inputs| && interfaceNumber !in run[m].system.device
    requires !ChosenBetween(run, inputs, m, n, interfaceNumber)
    ensures interfaceNumber !in run[n].system.device
    decreases n
  {
    if m < n {
      StaysInReport(table, run, inputs, m, n - 1, interfaceNumber);
      assert Step(run[n - 1], inputs[n - 1], run[n]);
      assert !ChosenAt(run, inputs, n - 1, interfaceNumber);
    }
  }

  /** The clock on which a pending slot is cleared. */
  lemma {:induction false} ClearedAt(run: seq<Pair>, m: nat, n: nat, k: nat) returns (j: nat)
    requires m < n < |run| && forall b :: m <= b <= n ==> k < |run[b].system.tracker.pending|
    requires run[m].system.tracker.pending[k] && !run[n].system.tracker.pending[k]
    ensures m <= j < n && run[j].system.tracker.pending[k] && !run[j + 1].system.tracker.pending[k]
    decreases n
  {
    if run[n - 1].system.tracker.pending[k] {
      j := n - 1;
    } else {
      j := ClearedAt(run, m, n - 1, k);
    }
  }

  lemma PendingShape(table: seq<U8>, run: seq<Pair>, inputs: seq<Input>, n: nat)
    requires IsRun(table, run, inputs) && n <= |inputs|
    ensures run[n].system.table == table && |run[n].system.tracker.pending| == |table|
  {
    TableStays(table, run, inputs, n);
    RunKeepsInv(table, run, inputs, n);
  }

  /** A pending slot no choice clears is cleared by an accepted replay, and its interface leaves boot. */
  lemma PendingIsReplayed(table: seq<U8>, run: seq<Pair>, inputs: seq<Input>, l: nat, n: nat, k: nat)
    returns (a: nat)
    requires IsRun(table, run, inputs) && LoadedAt(run, inputs, l, n) && l + 2 <= n && k < |table|
    requires |run[l + 2].system.tracker.pending| == |table| && run[l + 2].system.tracker.pending[k]
    requires run[n].system.tracker.phase == Idle && Serves(run, inputs, l, n)
    requires !ChosenBetween(run, inputs, l, n, table[k])
    ensures l < a < n && Accepts(run[a].system, inputs[a]) && run[a].system.tracker.currentInterface == table[k]
    ensures table[k] !in run[n].system.device
  {
    IdleMeansDone(table, run, inputs, n);
    forall b | l + 2 <= b <= n
      ensures |run[b].system.tracker.pending| == |table|
    {
      PendingShape(table, run, inputs, b);
    }
    var j := ClearedAt(run, l + 2, n, k);
    RunKeepsInv(table, run, inputs, j);
    PendingShape(table, run, inputs, j);
    assert Step(run[j], inputs[j], run[j + 1]);
    RunKeepsInv(table, run, inputs, j + 1);
    assert !ChosenAt(run, inputs, j - 2, table[k]);
    NotSnooped(table, run, inputs, j, k);
    ClearedByReplay(run[j].system, run[j].ledger, inputs[j], k);
    RunKeepsInv(table, run, inputs, j - 1);
    assert Step(run[j - 1], inputs[j - 1], run[j]);
    AnnouncedReplay(run[j - 1].system, run[j - 1].ledger, inputs[j - 1]);
    a := ReplayWasAccepted(table, run, inputs, j - 1, table[k]);
    RunKeepsInv(table, run, inputs, l);
    assert !ResyncActive(run[l].system.relay) && !ResyncValid(run[l].system.tracker);
    FinishedIsTaken(table, run, inputs, l, j - 1, table[k]);
    StaysInReport(table, run, inputs, j - 1, n, table[k]);
  }

  /**
   * So a boot choice completed at least three clocks before a load, the last word on its interface, is
   * undone: by the time the replays are over, one to its interface has been accepted, and if the relay's
   * replays succeed the device has left boot protocol there.
   */
  lemma ChoiceIsUndone(
    table: seq<U8>, run: seq<Pair>, inputs: seq<Input>, m: nat, l: nat, n: nat, k: nat) returns (a: nat)
    requires IsRun(table, run, inputs) && m + 3 <= l && l + 2 <= n && k < |table| && LoadedAt(run, inputs, l, n)
    requires Choice(run[m].system, inputs[m]) == Some(Protocol(table[k], true))
    requires Untouched(run, inputs, m + 1, l, table[k]) && !ChosenBetween(run, inputs, l, n, table[k])
    requires run[n].system.tracker.phase == Idle && Serves(run, inputs, l, n)
    ensures l < a < n && Accepts(run[a].system, inputs[a]) && run[a].system.tracker.currentInterface == table[k]
    ensures table[k] !in run[n].system.device
  {
    EarlierChoiceIsPending(table, run, inputs, l, m, k);
    a := PendingIsReplayed(table, run, inputs, l, n, k);
  }
}
