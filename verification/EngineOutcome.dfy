/** What a report transaction comes to, told from the relay's ready clocks and the clocks the map was there. */
module EngineOutcome {
  import opened Bits
  import opened MapEntries
  import opened FieldPipeline
  import opened LayoutStates
  import opened EngineTransaction

  // ---- The clocks of OUTPUT -----------------------------------------------------------------

  /** The clocks before k on which the relay took a byte. */
  function Taken(cycles: seq<OutputCycle>, k: nat): set<nat>
    requires k <= |cycles|
  {
    set j: nat | j < k && cycles[j].ready
  }

  lemma {:induction false} TakenIsCounted(cycles: seq<OutputCycle>, k: nat)
    requires k <= |cycles|
    ensures |Taken(cycles, k)| == Accepted(cycles, false, k)
    decreases k
  {
    if k == 0 {
      assert Taken(cycles, 0) == {};
    } else {
      TakenIsCounted(cycles, k - 1);
      if cycles[k - 1].ready {
        assert Taken(cycles, k) == Taken(cycles, k - 1) + {k - 1};
      } else {
        assert Taken(cycles, k) == Taken(cycles, k - 1);
      }
    }
  }

  /** A report of n bytes is over with the relay's n-th ready clock. */
  lemma {:induction false} EndsWithTheNthReady(cycles: seq<OutputCycle>, n: nat, k: nat)
    ensures FinishesAt(cycles, false, n, k) <==>
            k < |cycles| && n > 0 && cycles[k].ready && |set j: nat | j < k && cycles[j].ready| == n - 1
  {
    if k < |cycles| {
      TakenIsCounted(cycles, k);
      assert Taken(cycles, k) == set j: nat | j < k && cycles[j].ready;
    }
  }

  lemma {:induction false} SuppressedCounts(cycles: seq<OutputCycle>, k: nat)
    requires k <= |cycles|
    ensures Accepted(cycles, true, k) == k
    decreases k
  {
    if k > 0 {
      SuppressedCounts(cycles, k - 1);
    }
  }

  /** A suppressed one needs no relay, and takes n clocks. */
  lemma {:induction false} SuppressedTakesNClocks(cycles: seq<OutputCycle>, n: nat, k: nat)
    ensures FinishesAt(cycles, true, n, k) <==> k + 1 == n <= |cycles|
  {
    if k < |cycles| {
      SuppressedCounts(cycles, k);
    }
  }

  lemma {:induction false} FinishExists(cycles: seq<OutputCycle>, suppressed: bool, n: nat, k: nat) returns (at: nat)
    requires k <= |cycles| && 0 < n <= Accepted(cycles, suppressed, k)
    ensures at < k && FinishesAt(cycles, suppressed, n, at)
    decreases k
  {
    if n <= Accepted(cycles, suppressed, k - 1) {
      at := FinishExists(cycles, suppressed, n, k - 1);
    } else {
      at := k - 1;
    }
  }

  // ---- Checks ahead of OUTPUT ---------------------------------------------------------------

  /** The map is looked at again for every entry, for every bit written, and twice for every bit moved. */
  lemma EveryBitIsWatched(e: MapEntry, t: Target, o: Overlay)
    requires o.Wellformed() && Matches(e, t) && FieldInBounds(e)
    ensures e.flags.button ==> EntryChecks(e, t, o) == e.bitWidth + 1
    ensures !e.flags.button && e.flags.relative ==> EntryChecks(e, t, o) == 2 * (e.bitWidth + 1)
    ensures !e.flags.button && !e.flags.relative && o.heldMask[e.channel] ==> EntryChecks(e, t, o) == e.bitWidth + 1
    ensures EntryChecks(e, t, o) >= 1
  {
  }

  lemma {:induction false} EveryEntryIsWatched(map_: seq<MapEntry>, t: Target, o: Overlay, n: nat)
    requires o.Wellformed() && Usable(map_, t) && n <= |map_|
    ensures MutationChecks(map_, t, o, n) >= n
    decreases n
  {
    if n > 0 {
      EveryEntryIsWatched(map_, t, o, n - 1);
    }
  }

  // ---- Outcomes -----------------------------------------------------------------------------

  /** The relay is ready often enough, or nothing has to go out. */
  predicate Roomy(t: Target, suppressed: bool, cycles: seq<OutputCycle>) {
    if suppressed then |t.native| <= |cycles|
    else |t.native| <= |set j: nat | j < |cycles| && cycles[j].ready|
  }

  /** A map that stays commits every report it has room for. */
  lemma {:induction false} StayingMapCommits(a: LayoutState, map_: seq<MapEntry>, t: Target, suppressed: bool,
      life: nat, cycles: seq<OutputCycle>)
    requires Usable(map_, t) && |a.held| == CHANNELS && 0 < |t.native| && Roomy(t, suppressed, cycles)
    requires forall j :: 0 <= j < |cycles| ==> cycles[j].alive
    requires life >= 3 + MutationChecks(map_, t, OverlayFor(a), |map_|)
    ensures Survives(a, map_, t, suppressed, life, cycles)
    ensures !LostEarly(a, map_, t, suppressed, life, cycles)
  {
    if suppressed {
      SuppressedCounts(cycles, |cycles|);
    } else {
      TakenIsCounted(cycles, |cycles|);
      assert Taken(cycles, |cycles|) == set j: nat | j < |cycles| && cycles[j].ready;
    }
    var k := FinishExists(cycles, suppressed, |t.native|, |cycles|);
    assert FinishesAt(cycles, suppressed, |t.native|, k) && AliveThrough(cycles, k + 1);
  }

  /** It commits only if it was there on every clock up to the last byte's. */
  lemma {:induction false} CommittedMapStayed(a: LayoutState, map_: seq<MapEntry>, t: Target, life: nat,
      cycles: seq<OutputCycle>) returns (k: nat)
    requires Usable(map_, t) && |a.held| == CHANNELS && Survives(a, map_, t, false, life, cycles)
    ensures life >= |map_| + 3 && k < |cycles| && cycles[k].ready
    ensures |set j: nat | j < k && cycles[j].ready| + 1 == |t.native|
    ensures forall j :: 0 <= j <= k ==> cycles[j].alive
  {
    k :| FinishesAt(cycles, false, |t.native|, k) && AliveThrough(cycles, k + 1);
    EndsWithTheNthReady(cycles, |t.native|, k);
    EveryEntryIsWatched(map_, t, OverlayFor(a), |map_|);
  }

  /** A clock without the map, and no byte taken before it. */
  predicate GoneFirst(cycles: seq<OutputCycle>, j: nat) {
    j < |cycles| && !cycles[j].alive && forall i :: 0 <= i < j ==> !cycles[i].ready
  }

  lemma {:induction false} NoneTaken(cycles: seq<OutputCycle>, k: nat)
    requires k <= |cycles|
    ensures Accepted(cycles, false, k) == 0 <==> forall i :: 0 <= i < k ==> !cycles[i].ready
    decreases k
  {
    if k > 0 {
      NoneTaken(cycles, k - 1);
    }
  }

  /** It is lost early if and only if it goes before the report is made, or before the relay takes a byte of it. */
  lemma {:induction false} LostEarlyIs(a: LayoutState, map_: seq<MapEntry>, t: Target, life: nat,
      cycles: seq<OutputCycle>)
    requires Usable(map_, t) && |a.held| == CHANNELS
    ensures LostEarly(a, map_, t, false, life, cycles) <==>
            life < 3 + MutationChecks(map_, t, OverlayFor(a), |map_|) || exists j :: GoneFirst(cycles, j)
  {
    forall j | 0 <= j < |cycles| ensures Accepted(cycles, false, j) == 0 && !cycles[j].alive <==> GoneFirst(cycles, j) {
      NoneTaken(cycles, j);
    }
    if !AliveUntilAccepted(cycles, false, |cycles|) {
      var j :| 0 <= j < |cycles| && Accepted(cycles, false, j) == 0 && !cycles[j].alive;
      assert GoneFirst(cycles, j);
    }
  }

  /** A map lost before a byte is out costs the report nothing: the device's own bytes go out, from the first on,
   *  or none of a report the device did not send. */
  lemma LostMapMeansNative(t: Target, o: Outcome)
    requires UntouchedOutcome(t, o)
    ensures !o.committed && o.ready == Kinds(false, false, false, false, false)
    ensures t.stationary ==> o.wire == [] && o.complete
    ensures !t.stationary ==> |o.wire| <= |t.native| && o.wire == t.native[..|o.wire|]
    ensures !t.stationary && o.complete ==> o.wire == t.native
  {
  }

  /** One lost later leaves the mutated report, begun or whole, and takes no command. */
  lemma LostLaterMeansMutated(o: Outcome, map_: seq<MapEntry>, t: Target, a: LayoutState)
    returns (out: seq<Byte>)
    requires Usable(map_, t) && |a.held| == CHANNELS && MutatedOutcome(o, map_, t, a, false)
    ensures !o.committed && o.ready == Kinds(false, false, false, false, false)
    ensures ReportOf(out, map_, t, a) && |o.wire| <= |out| && o.wire == out[..|o.wire|]
    ensures o.complete ==> o.wire == out
  {
    out :| ReportOf(out, map_, t, a) && o.wire <= out && (o.complete ==> o.wire == out);
  }

  /** What OUTPUT sends is the start of its lane; all of it if and only if it has ended; nothing if suppressed. */
  lemma {:induction false} OnlyWholeLanesEnd(lane: seq<Byte>, mapped: bool, suppressed: bool, cycles: seq<OutputCycle>,
      wire: seq<Byte>, e: Emission)
    requires EmissionOf(lane, mapped, suppressed, cycles, wire, e)
    ensures |wire| <= |lane| && wire == lane[..|wire|] && (suppressed ==> wire == [])
    ensures !suppressed && lane != [] ==> (e.Finished? <==> wire == lane)
    ensures e.LostBeforeFirstByte? ==> mapped && e.at < |cycles| && !cycles[e.at].alive
    ensures e.LostBeforeFirstByte? ==> forall j :: 0 <= j < e.at ==> cycles[j].alive && !(cycles[j].ready || suppressed)
    ensures e.Finished? && e.committed ==> mapped && e.at < |cycles| && forall j :: 0 <= j <= e.at ==> cycles[j].alive
  {
    if e.LostBeforeFirstByte? {
      forall j | 0 <= j < e.at ensures !(cycles[j].ready || suppressed) {
        AcceptedGrows(cycles, suppressed, j + 1, e.at);
      }
    }
  }
}
