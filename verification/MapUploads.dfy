/** A map's way from the sender to the engine, over whole runs: received, judged, published. */
module MapUploads {
  import opened MapEntries
  import opened MapValidation
  import opened MapStore
  import L = LayoutQueries

  /** The entries presented on clocks a to n. */
  function Presented(inputs: seq<Inputs>, a: nat, n: nat): seq<MapEntry>
    requires a <= n <= |inputs|
  {
    if a == n then []
    else Presented(inputs, a, n - 1) + if inputs[n - 1].entry.Some? then [inputs[n - 1].entry.value] else []
  }

  /** MAP_BEGIN on clock b, to a store at rest, and nothing but entries from then to clock c. */
  ghost predicate Uploads(run: seq<State>, inputs: seq<Inputs>, b: nat, c: nat) {
    L.IsRun(run, inputs) && b < c <= |inputs| && run[b].upload.phase.Idle? && inputs[b].begin &&
    forall j :: b < j < c ==> !inputs[j].abort && !inputs[j].invalidate && !inputs[j].commit
  }

  /** What has come of an upload begun with this metadata. */
  predicate Receiving(s: State, begun: Metadata, nativeOnly: bool, presented: seq<MapEntry>) {
    s.upload.phase.Receive? && s.upload.latched == begun && s.upload.latchedNativeOnly == nativeOnly &&
    s.history.presented == presented
  }

  lemma BeginStep(s: State, i: Inputs)
    requires Inv(s) && s.upload.phase.Idle? && i.begin
    ensures Shaped(Next(s, i)) && Receiving(Next(s, i), i.candidate, i.beginNativeOnly, [])
  {
  }

  lemma ReceiveStep(s: State, i: Inputs, begun: Metadata, nativeOnly: bool, presented: seq<MapEntry>)
    requires Inv(s) && Receiving(s, begun, nativeOnly, presented) && !i.abort && !i.invalidate && !i.commit
    ensures Receiving(Next(s, i), begun, nativeOnly,
                      presented + if i.entry.Some? then [i.entry.value] else [])
  {
  }

  /** The store has the sender's metadata and every entry presented, in order. */
  lemma {:induction false} UploadIsReceived(run: seq<State>, inputs: seq<Inputs>, b: nat, c: nat)
    requires Uploads(run, inputs, b, c)
    ensures Receiving(run[c], inputs[b].candidate, inputs[b].beginNativeOnly, Presented(inputs, b + 1, c))
    decreases c
  {
    L.RunKeepsInv(run, inputs, c - 1);
    assert L.Follows(run, inputs, c - 1);
    if c == b + 1 {
      BeginStep(run[b], inputs[b]);
    } else {
      UploadIsReceived(run, inputs, b, c - 1);
      ReceiveStep(run[c - 1], inputs[c - 1], inputs[b].candidate, inputs[b].beginNativeOnly,
                  Presented(inputs, b + 1, c - 1));
    }
  }

  // ---- The verdict ----------------------------------------------------------------------------

  /** The upload as the sender meant it. */
  function Meant(inputs: seq<Inputs>, b: nat, c: nat): Upload
    requires b < c <= |inputs|
  {
    var m := inputs[b].candidate;
    Upload(m.descriptorGeneration, m.mapGeneration, m.layoutCount, m.entriesCrc32, Presented(inputs, b + 1, c))
  }

  /** MAP_COMMIT repeats MAP_BEGIN field by field, for the live descriptors and as many entries as came. */
  predicate Repeats(begun: Metadata, i: Inputs, count: nat) {
    var m := i.candidate;
    m.descriptorGeneration == begun.descriptorGeneration && m.mapGeneration == begun.mapGeneration &&
    m.entryCount == begun.entryCount && m.layoutCount == begun.layoutCount &&
    m.entriesCrc32 == begun.entriesCrc32 && i.descriptorGeneration == begun.descriptorGeneration &&
    begun.entryCount == count <= 64 && begun.layoutCount <= 16
  }

  lemma RepeatsFits(s: State, i: Inputs, begun: Metadata, nativeOnly: bool, presented: seq<MapEntry>)
    requires Inv(s) && Receiving(s, begun, nativeOnly, presented)
    ensures MetadataFits(s.upload, i) <==> Repeats(begun, i, |presented|)
  {
  }

  /** Committed on clock c, and the validation's end not before clock v. */
  ghost predicate Judged(run: seq<State>, inputs: seq<Inputs>, b: nat, c: nat, v: nat) {
    Uploads(run, inputs, b, c) && c < v <= |inputs| && inputs[c].commit && !inputs[c].abort && !inputs[c].invalidate &&
    forall j :: c < j < v ==> run[j].upload.phase.Validating?
  }

  /** While it lasts: the same upload, and whether the descriptors have moved on. */
  predicate Checking(s: State, meant: Upload, nativeOnly: bool, moved: bool) {
    s.upload.validationActive && s.upload.latched.descriptorGeneration == meant.descriptorGeneration &&
    s.upload.latchedNativeOnly == nativeOnly && Offered(s) == meant && s.upload.generationChanged == moved
  }

  lemma CommitStep(s: State, i: Inputs, begun: Metadata, nativeOnly: bool, presented: seq<MapEntry>)
    requires Inv(s) && Receiving(s, begun, nativeOnly, presented) && i.commit && !i.abort && !i.invalidate
    ensures Shaped(Next(s, i))
    ensures var t, meant := Next(s, i), Offered(s);
            if t.upload.phase.Validating? then Repeats(begun, i, |presented|) && Checking(t, meant, nativeOnly, false)
            else t.upload.phase.Reject? && !(Repeats(begun, i, |presented|) && UploadOk(meant))
  {
    RepeatsFits(s, i, begun, nativeOnly, presented);
    NextKeepsInv(s, i);
    if MetadataFits(s.upload, i) && Next(s, i).upload.phase.Reject? {
      CommitRejectionIsRight(s, i);
    }
  }

  lemma CheckStep(s: State, i: Inputs, meant: Upload, nativeOnly: bool, moved: bool)
    requires Inv(s) && Checking(s, meant, nativeOnly, moved) && s.upload.phase.Validating?
    ensures var t, gone := Next(s, i), moved || i.descriptorGeneration != meant.descriptorGeneration;
            Shaped(t) && Checking(t, meant, nativeOnly, gone) &&
            (t.upload.phase.Accept? ==> UploadOk(meant)) && (t.upload.phase.Reject? ==> !UploadOk(meant)) &&
            (t.upload.phase.Validating? || t.upload.phase.Accept? || t.upload.phase.Reject?)
  {
    NextKeepsInv(s, i);
    CandidateStays(s, i);
    if Next(s, i).upload.phase.Reject? {
      RejectionIsRight(s, i);
    }
  }

  /** The descriptors have changed on some clock from a to n. */
  predicate Moved(inputs: seq<Inputs>, g: U16, a: nat, n: nat)
    requires n <= |inputs|
  {
    exists j :: a <= j < n && inputs[j].descriptorGeneration != g
  }

  lemma CommitStepAt(run: seq<State>, inputs: seq<Inputs>, b: nat, c: nat)
    requires Judged(run, inputs, b, c, c + 1)
    ensures var meant := Meant(inputs, b, c);
            if run[c + 1].upload.phase.Validating?
            then Repeats(inputs[b].candidate, inputs[c], |meant.entries|) &&
                 Checking(run[c + 1], meant, inputs[b].beginNativeOnly, false)
            else run[c + 1].upload.phase.Reject? &&
                 !(Repeats(inputs[b].candidate, inputs[c], |meant.entries|) && UploadOk(meant))
  {
    UploadIsReceived(run, inputs, b, c);
    L.RunKeepsInv(run, inputs, c);
    assert L.Follows(run, inputs, c);
    CommitStep(run[c], inputs[c], inputs[b].candidate, inputs[b].beginNativeOnly, Presented(inputs, b + 1, c));
  }

  lemma CheckStepAt(run: seq<State>, inputs: seq<Inputs>, n: nat, meant: Upload, nativeOnly: bool, moved: bool)
    requires L.IsRun(run, inputs) && n < |inputs|
    requires Checking(run[n], meant, nativeOnly, moved) && run[n].upload.phase.Validating?
    ensures var t, gone := run[n + 1], moved || inputs[n].descriptorGeneration != meant.descriptorGeneration;
            Checking(t, meant, nativeOnly, gone) &&
            (t.upload.phase.Accept? ==> UploadOk(meant)) && (t.upload.phase.Reject? ==> !UploadOk(meant)) &&
            (t.upload.phase.Validating? || t.upload.phase.Accept? || t.upload.phase.Reject?)
  {
    L.RunKeepsInv(run, inputs, n);
    assert L.Follows(run, inputs, n);
    CheckStep(run[n], inputs[n], meant, nativeOnly, moved);
  }

  lemma {:induction false} StaysChecking(run: seq<State>, inputs: seq<Inputs>, b: nat, c: nat, v: nat)
    requires Judged(run, inputs, b, c, v) && run[c + 1].upload.phase.Validating?
    ensures var meant := Meant(inputs, b, c);
            Checking(run[v], meant, inputs[b].beginNativeOnly, Moved(inputs, meant.descriptorGeneration, c + 1, v))
    ensures var t := run[v];
            (t.upload.phase.Accept? ==> UploadOk(Meant(inputs, b, c))) &&
            (t.upload.phase.Reject? ==> !UploadOk(Meant(inputs, b, c))) &&
            (t.upload.phase.Validating? || t.upload.phase.Accept? || t.upload.phase.Reject?)
    decreases v
  {
    CommitStepAt(run, inputs, b, c);
    if v > c + 1 {
      StaysChecking(run, inputs, b, c, v - 1);
      var g := Meant(inputs, b, c).descriptorGeneration;
      CheckStepAt(run, inputs, v - 1, Meant(inputs, b, c), inputs[b].beginNativeOnly, Moved(inputs, g, c + 1, v - 1));
      assert Moved(inputs, g, c + 1, v) <==>
             Moved(inputs, g, c + 1, v - 1) || inputs[v - 1].descriptorGeneration != g;
    }
  }

  /**
   * An upload is accepted if and only if MAP_COMMIT repeats MAP_BEGIN for the live descriptors and the map
   * the sender presented between them, entry by entry, is sound; otherwise it is rejected.
   */
  lemma UploadIsJudged(run: seq<State>, inputs: seq<Inputs>, b: nat, c: nat, v: nat)
    requires Judged(run, inputs, b, c, v) && !run[v].upload.phase.Validating?
    ensures var meant := Meant(inputs, b, c);
            if Repeats(inputs[b].candidate, inputs[c], |meant.entries|) && UploadOk(meant)
            then run[v].upload.phase.Accept? else run[v].upload.phase.Reject?
  {
    CommitStepAt(run, inputs, b, c);
    if run[c + 1].upload.phase.Validating? {
      StaysChecking(run, inputs, b, c, v);
    }
  }

  /** Clocks from a to n on which the validation of an entry ends. */
  function Turns(inputs: seq<Inputs>, a: nat, n: nat): nat
    requires a <= n <= |inputs|
  {
    if a == n then 0 else Turns(inputs, a, n - 1) + if inputs[n - 1].entryDone then 1 else 0
  }

  /** Entry x of so many is being validated; a map of none has one turn. */
  predicate At(s: State, x: nat, count: nat) {
    s.upload.phase == Validating(x) && |s.history.presented| == count && (x < count || (count == 0 && x == 0))
  }

  lemma TurnStep(s: State, i: Inputs, x: nat, count: nat)
    requires Inv(s) && At(s, x, count)
    ensures Shaped(Next(s, i))
    ensures Next(s, i).upload.phase.Validating? ==> At(Next(s, i), if i.entryDone then x + 1 else x, count)
  {
    NextKeepsInv(s, i);
    CandidateStays(s, i);
  }

  lemma FirstTurn(s: State, i: Inputs)
    requires Inv(s) && s.upload.phase.Receive? && i.commit && !i.abort && !i.invalidate
    ensures Shaped(Next(s, i))
    ensures Next(s, i).upload.phase.Validating? ==> At(Next(s, i), 0, |s.history.presented|)
  {
    NextKeepsInv(s, i);
  }

  lemma {:induction false} TurnsPass(run: seq<State>, inputs: seq<Inputs>, b: nat, c: nat, v: nat)
    requires Judged(run, inputs, b, c, v) && run[v].upload.phase.Validating?
    ensures At(run[v], Turns(inputs, c + 1, v), |Presented(inputs, b + 1, c)|)
    decreases v
  {
    UploadIsReceived(run, inputs, b, c);
    L.RunKeepsInv(run, inputs, v - 1);
    assert L.Follows(run, inputs, v - 1);
    if v == c + 1 {
      FirstTurn(run[c], inputs[c]);
    } else {
      TurnsPass(run, inputs, b, c, v - 1);
      TurnStep(run[v - 1], inputs[v - 1], Turns(inputs, c + 1, v - 1), |Presented(inputs, b + 1, c)|);
    }
  }

  /** And it is judged: as soon as each entry has had its turn, a map of none one. */
  lemma JudgementComes(run: seq<State>, inputs: seq<Inputs>, b: nat, c: nat, n: nat) returns (v: nat)
    requires Judged(run, inputs, b, c, c + 1) && c < n <= |inputs|
    requires var k := |Presented(inputs, b + 1, c)|; Turns(inputs, c + 1, n) >= if k == 0 then 1 else k
    ensures c < v <= n && Judged(run, inputs, b, c, v) && !run[v].upload.phase.Validating?
  {
    v := c + 1;
    while v < n && run[v].upload.phase.Validating?
      invariant c < v <= n && Judged(run, inputs, b, c, v)
    {
      v := v + 1;
    }
    if run[v].upload.phase.Validating? {
      TurnsPass(run, inputs, b, c, v);
    }
  }

  // ---- Publication ----------------------------------------------------------------------------

  lemma PublishStep(s: State, i: Inputs, meant: Upload, nativeOnly: bool, moved: bool)
    requires Inv(s) && Checking(s, meant, nativeOnly, moved) && s.upload.phase.Accept?
    ensures var t := Next(s, i);
            Shaped(t) &&
            if moved || i.descriptorGeneration != meant.descriptorGeneration then
              t.bank.activeBank == s.bank.activeBank && Active(t).(valid := false) == Active(s).(valid := false)
            else
              t.bank.activeBank == !s.bank.activeBank && ActiveHolds(t, meant) &&
              forall g :: ActiveValid(t, g) <==>
                g == meant.descriptorGeneration && !i.invalidate && !s.bank.invalidationLatched
    ensures var t := Next(s, i);
            !i.invalidate && !s.bank.invalidationLatched && t.bank.activeBank != s.bank.activeBank ==>
              t.bank.activeNativeOnly == nativeOnly
  {
    SpareOnly(s, i);
    assert Candidate(s) == Offered(s);
  }

  predicate Resting(u: UploadRegisters) {
    u.phase.Idle? || u.phase.Receive? ==> !u.validationActive
  }

  lemma {:induction false} StaysResting(run: seq<State>, inputs: seq<Inputs>, n: nat)
    requires L.IsRun(run, inputs) && n <= |inputs|
    ensures Resting(run[n].upload)
    decreases n
  {
    if n > 0 {
      StaysResting(run, inputs, n - 1);
      L.RunKeepsInv(run, inputs, n - 1);
      assert L.Follows(run, inputs, n - 1);
    }
  }

  /** Link or session lost on some clock from a to n. */
  predicate Lost(inputs: seq<Inputs>, a: nat, n: nat)
    requires n <= |inputs|
  {
    exists j :: a <= j < n && inputs[j].invalidate
  }

  lemma LatchStep(s: State, i: Inputs)
    requires Inv(s) && Resting(s.upload)
    ensures Shaped(Next(s, i))
    ensures s.upload.phase.Idle? && i.begin ==> (Next(s, i).bank.invalidationLatched <==> i.invalidate)
    ensures !s.upload.phase.Idle? && Busy(s.upload) ==>
              (Next(s, i).bank.invalidationLatched <==> s.bank.invalidationLatched || i.invalidate)
  {
    SpareOnly(s, i);
  }

  lemma LatchStepAt(run: seq<State>, inputs: seq<Inputs>, n: nat)
    requires L.IsRun(run, inputs) && n < |inputs|
    ensures run[n].upload.phase.Idle? && inputs[n].begin ==>
              (run[n + 1].bank.invalidationLatched <==> inputs[n].invalidate)
    ensures !run[n].upload.phase.Idle? && Busy(run[n].upload) ==>
              (run[n + 1].bank.invalidationLatched <==> run[n].bank.invalidationLatched || inputs[n].invalidate)
  {
    StaysResting(run, inputs, n);
    L.RunKeepsInv(run, inputs, n);
    assert L.Follows(run, inputs, n);
    LatchStep(run[n], inputs[n]);
  }

  lemma BusyAll(run: seq<State>, inputs: seq<Inputs>, b: nat, c: nat, v: nat, n: nat)
    requires Judged(run, inputs, b, c, v) && b < n < v
    ensures !run[n].upload.phase.Idle? && Busy(run[n].upload)
  {
    L.RunKeepsInv(run, inputs, n);
    if n <= c {
      UploadIsReceived(run, inputs, b, n);
    }
  }

  lemma {:induction false} LatchedIfLost(run: seq<State>, inputs: seq<Inputs>, b: nat, c: nat, v: nat, n: nat)
    requires Judged(run, inputs, b, c, v) && b < n <= v
    ensures run[n].bank.invalidationLatched <==> Lost(inputs, b, n)
    decreases n
  {
    LatchStepAt(run, inputs, n - 1);
    assert Lost(inputs, b, n) <==> (b < n - 1 && Lost(inputs, b, n - 1)) || inputs[n - 1].invalidate;
    if b < n - 1 {
      BusyAll(run, inputs, b, c, v, n - 1);
      LatchedIfLost(run, inputs, b, c, v, n - 1);
    }
  }

  lemma AcceptedAt(run: seq<State>, inputs: seq<Inputs>, b: nat, c: nat, v: nat)
    requires Judged(run, inputs, b, c, v) && v < |inputs| && run[v].upload.phase.Accept?
    ensures Inv(run[v]) && run[v + 1] == Next(run[v], inputs[v])
    ensures Checking(run[v], Meant(inputs, b, c), inputs[b].beginNativeOnly,
                     Moved(inputs, Meant(inputs, b, c).descriptorGeneration, c + 1, v))
    ensures run[v].bank.invalidationLatched <==> Lost(inputs, b, v)
  {
    CommitStepAt(run, inputs, b, c);
    StaysChecking(run, inputs, b, c, v);
    LatchedIfLost(run, inputs, b, c, v, v);
    L.RunKeepsInv(run, inputs, v);
    assert L.Follows(run, inputs, v);
  }

  lemma OneClockMore(inputs: seq<Inputs>, g: U16, a: nat, v: nat)
    requires a <= v < |inputs|
    ensures Lost(inputs, a, v + 1) <==> Lost(inputs, a, v) || inputs[v].invalidate
    ensures Moved(inputs, g, a, v + 1) <==> Moved(inputs, g, a, v) || inputs[v].descriptorGeneration != g
  {
  }

  /**
   * An accepted upload is published on the next clock, whole, if and only if the descriptors have not
   * changed since its commit; and it is in force for those descriptors if and only if link and session
   * have held since its begin.
   */
  lemma AcceptedIsPublished(run: seq<State>, inputs: seq<Inputs>, b: nat, c: nat, v: nat)
    requires Judged(run, inputs, b, c, v) && v < |inputs| && run[v].upload.phase.Accept?
    ensures var meant := Meant(inputs, b, c);
            var s, t := run[v], run[v + 1];
            Shaped(t) &&
            if Moved(inputs, meant.descriptorGeneration, c + 1, v + 1) then t.bank.activeBank == s.bank.activeBank
            else
              t.bank.activeBank == !s.bank.activeBank && ActiveHolds(t, meant) &&
              (forall g :: ActiveValid(t, g) <==> g == meant.descriptorGeneration && !Lost(inputs, b, v + 1)) &&
              (!Lost(inputs, b, v + 1) ==> t.bank.activeNativeOnly == inputs[b].beginNativeOnly)
  {
    var meant := Meant(inputs, b, c);
    AcceptedAt(run, inputs, b, c, v);
    PublishStep(run[v], inputs[v], meant, inputs[b].beginNativeOnly,
                Moved(inputs, meant.descriptorGeneration, c + 1, v));
    OneClockMore(inputs, meant.descriptorGeneration, b, v);
    OneClockMore(inputs, meant.descriptorGeneration, c + 1, v);
  }
}
