/** The plane's one-deep command hold and the engine's transaction flags, clock by clock. */
module CommandHold {
  import opened MapEntries
  import opened LayoutStates
  import opened EngineTransaction

  /** Clocks from latching a frame's type to its payload being staged: priming and 26 bytes. */
  const LOAD_CLOCKS: nat := 27

  datatype Command =
    | MoveBy(relative: RelativeCommand)
    | Press(button: ButtonCommand)
    | Hide(mask: MaskCommand)
    | Hold(absolute: AbsoluteCommand)
    | Reset(clear: ClearCommand)
    | NotCommand

  datatype Message = Message(command: Command, key: LayoutKey, generation: U16)

  /** What one clock of the plane's surroundings shows. rx is the link's queued frame. */
  datatype Clock = Clock(
    rx: Option<Message>, inWindow: bool, link: bool, session: bool, descriptorChanged: bool,
    activeValid: bool, activeGeneration: U16, activeBank: bool, boot: set<nat>, engine: EngineInput)

  /** What the engine's own surroundings do: a report whose layout is found, the pipeline's progress,
   *  the relay's ready and the last byte. */
  datatype EngineInput = EngineInput(
    begins: Option<LayoutKey>, proceeds: bool, checks: bool, outputReady: bool, last: bool, suppressed: bool)

  // ---- The plane ------------------------------------------------------------------------------

  /** id counts the frames staged so far, so that two equal frames stay two. */
  datatype Staging = Empty | Loading(next: Message, left: nat) | Staged(id: nat, message: Message, allowed: bool)

  datatype Plane = Plane(staging: Staging, payload: Option<Message>, arrivals: nat)

  predicate Invalidates(k: Clock) { !k.link || !k.session || k.descriptorChanged }

  /** A CLEAR names no endpoint. */
  predicate TargetsBoot(m: Message, boot: set<nat>) {
    m.command != NotCommand && !m.command.Reset? && m.key.endpointNumber < 16 && m.key.endpointNumber in boot
  }

  predicate Fresh(m: Message, k: Clock) {
    k.link && k.session && k.activeValid && m.generation == k.activeGeneration && !TargetsBoot(m, k.boot)
  }

  predicate Offers(s: Staging, k: Clock) {
    s.Staged? && s.allowed && s.message.command != NotCommand && Fresh(s.message, k)
  }

  function Raises(ready: Kinds, c: Command): bool {
    match c
    case MoveBy(_) => ready.relative
    case Press(_) => ready.button
    case Hide(_) => ready.mask
    case Hold(_) => ready.absolute
    case Reset(_) => ready.clear
    case NotCommand => false
  }

  /** rx_accept: a stale or foreign frame goes at once, a fresh command when its ready comes. */
  predicate Accepts(s: Staging, ready: Kinds, k: Clock) {
    s.Staged? && !Invalidates(k) && (Offers(s, k) ==> Raises(ready, s.message.command))
  }

  /** The sender's command is taken as done. */
  predicate Acknowledges(s: Staging, ready: Kinds, k: Clock) { Accepts(s, ready, k) && Offers(s, k) }

  function NextStaging(p: Plane, ready: Kinds, k: Clock): Staging {
    if Invalidates(k) then Empty
    else
      match p.staging
      case Empty => if k.rx.Some? then Loading(k.rx.value, LOAD_CLOCKS) else Empty
      case Loading(m, left) =>
        if k.rx.None? then Empty
        else if left <= 1 then Staged(p.arrivals, m, k.inWindow) else Loading(m, left - 1)
      case Staged(_, _, _) => if Accepts(p.staging, ready, k) then Empty else p.staging
  }

  /** The payload register keeps its bytes until the next frame's are written over them. */
  function NextPlane(p: Plane, ready: Kinds, k: Clock): Plane {
    var s := NextStaging(p, ready, k);
    Plane(s,
          if s.Staged? then Some(s.message) else if p.staging.Loading? then None else p.payload,
          if p.staging.Loading? && s.Staged? then p.arrivals + 1 else p.arrivals)
  }

  class ReportInjectionDataPlane {
    var staging: Staging
    var payload: Option<Message>
    var arrivals: nat

    constructor ()
      ensures State() == Plane(Empty, None, 0)
    {
      staging, payload, arrivals := Empty, None, 0;
    }

    function State(): Plane
      reads this
    {
      Plane(staging, payload, arrivals)
    }

    /** One clock of RX staging: the command's valid to the engine, its ready back. */
    method Tick(ready: Kinds, k: Clock) returns (acknowledged: bool)
      modifies this
      ensures State() == NextPlane(old(State()), ready, k)
      ensures acknowledged == Acknowledges(old(staging), ready, k)
    {
      acknowledged := false;
      var loading := staging.Loading?;
      if !k.link || !k.session || k.descriptorChanged {
        staging := Empty;
      } else {
        match staging
        case Empty =>
          if k.rx.Some? {
            staging := Loading(k.rx.value, LOAD_CLOCKS);
          }
        case Loading(m, left) =>
          if k.rx.None? {
            staging := Empty;
          } else if left <= 1 {
            staging, arrivals := Staged(arrivals, m, k.inWindow), arrivals + 1;
          } else {
            staging := Loading(m, left - 1);
          }
        case Staged(_, m, _) =>
          if Offers(staging, k) {
            acknowledged := Raises(ready, m.command);
          }
          if acknowledged || !Offers(staging, k) {
            staging := Empty;
          }
      }
      if staging.Staged? {
        payload := Some(staging.message);
      } else if loading {
        payload := None;
      }
    }
  }

  // ---- The engine -----------------------------------------------------------------------------

  datatype Phase = Resting | BaseCapture | Prepare | Mutate | Output

  /** The command a transaction registered in BASE_CAPTURE, with the frame it came from. */
  datatype Taken = Taken(id: nat, command: Command)

  /** flags are the transaction_* registers; folds is the command the working registers hold. */
  datatype Engine = Engine(
    phase: Phase, key: LayoutKey, generation: U16, bank: bool, taken: Option<Taken>, flags: Kinds,
    folds: Option<Command>, started: bool, invalidated: bool)

  /** snapshot_matches. */
  predicate Alive(e: Engine, k: Clock) {
    k.activeValid && k.activeGeneration == e.generation && k.activeBank == e.bank
  }

  function KindsOf(t: Option<Taken>): Kinds {
    if t.None? then NO_KINDS
    else
      var c := t.value.command;
      Kinds(c.MoveBy?, c.Press?, c.Hide?, c.Hold?, c.Reset?)
  }

  function TakenFrom(e: Engine, p: Plane, k: Clock): Option<Taken> {
    if Offers(p.staging, k) && (p.staging.message.command.Reset? || p.staging.message.key == e.key)
    then Some(Taken(p.staging.id, p.staging.message.command)) else None
  }

  /** Buttons and masks are read from the live payload in PREPARE, the rest was registered before it. */
  function Folding(t: Option<Taken>, payload: Option<Message>): Option<Command> {
    if t.Some? && (t.value.command.Press? || t.value.command.Hide?) then
      if payload.Some? then Some(payload.value.command) else None
    else if t.Some? then Some(t.value.command) else None
  }

  predicate Lost(e: Engine, k: Clock) { e.phase == Output && !Alive(e, k) }

  predicate TakesByte(e: Engine, k: Clock) {
    e.phase == Output && (k.engine.outputReady || k.engine.suppressed) && !(Lost(e, k) && !e.started)
  }

  predicate Finishes(e: Engine, k: Clock) { TakesByte(e, k) && k.engine.last }

  /** The record is written. */
  predicate Writes(e: Engine, k: Clock) { Finishes(e, k) && !e.invalidated && !Lost(e, k) }

  function Ready(e: Engine, k: Clock): Kinds { if Writes(e, k) then e.flags else NO_KINDS }

  function NextPhase(e: Engine, k: Clock): Phase {
    match e.phase
    case Resting => if k.engine.begins.Some? && k.activeValid then BaseCapture else Resting
    case BaseCapture => if Alive(e, k) then Prepare else Resting
    case Prepare => Mutate
    case Mutate => if k.engine.checks && !Alive(e, k) then Resting else if k.engine.proceeds then Output else Mutate
    case Output => if Finishes(e, k) || (Lost(e, k) && !e.started) then Resting else Output
  }

  function NextEngine(e: Engine, p: Plane, k: Clock): Engine {
    var phase := NextPhase(e, k);
    match e.phase
    case Resting =>
      if phase == Resting then e
      else Engine(BaseCapture, k.engine.begins.value, k.activeGeneration, k.activeBank, None, NO_KINDS, None,
        false, false)
    case BaseCapture => Engine(phase, e.key, e.generation, e.bank, TakenFrom(e, p, k), NO_KINDS, None, false, false)
    case Prepare =>
      Engine(phase, e.key, e.generation, e.bank, e.taken, KindsOf(e.taken), Folding(e.taken, p.payload), false, false)
    case Mutate => Engine(phase, e.key, e.generation, e.bank, e.taken, e.flags, e.folds, false, false)
    case Output =>
      Engine(phase, e.key, e.generation, e.bank, e.taken, if phase == Resting then NO_KINDS else e.flags, e.folds,
             e.started || TakesByte(e, k), e.invalidated || Lost(e, k))
  }

  // ---- Both, and what has happened --------------------------------------------------------------

  /** folded lists the commands written into a record, acked the frames acknowledged. */
  datatype History = History(folded: seq<Taken>, acked: seq<Taken>)

  /** The transaction under way: whether its map has been found or made invalid, and whether the frame it
   *  took has left the hold before its write. */
  datatype Fate = Fate(doomed: bool, orphaned: bool)

  datatype World = World(plane: Plane, engine: Engine, history: History, fate: Fate)

  predicate UnderWay(e: Engine) { e.phase == Prepare || e.phase == Mutate || e.phase == Output }

  predicate HoldsTaken(p: Plane, e: Engine) {
    e.taken.Some? && p.staging.Staged? && p.staging.id == e.taken.value.id
  }

  function NextFate(w: World, k: Clock): Fate {
    var e := w.engine;
    if !UnderWay(e) then Fate(false, false)
    else
      Fate(w.fate.doomed || Invalidates(k) || !Alive(e, k),
           w.fate.orphaned || (HoldsTaken(w.plane, e) && Accepts(w.plane.staging, Ready(e, k), k)))
  }

  function Next(w: World, k: Clock): World {
    var p, e, h, ready := w.plane, w.engine, w.history, Ready(w.engine, k);
    World(NextPlane(p, ready, k), NextEngine(e, p, k),
          History(if Writes(e, k) && e.taken.Some? && e.folds.Some?
                  then h.folded + [Taken(e.taken.value.id, e.folds.value)] else h.folded,
                  if Acknowledges(p.staging, ready, k)
                  then h.acked + [Taken(p.staging.id, p.staging.message.command)] else h.acked),
          NextFate(w, k))
  }

  /** A descriptor change is seen with the map already invalid, and a map lost during a transaction, by
   *  its own doing or by an invalidate, is not the same map again before the transaction ends. */
  predicate Coherent(w: World, k: Clock) {
    (k.descriptorChanged ==> !k.activeValid) && (UnderWay(w.engine) && w.fate.doomed ==> !Alive(w.engine, k))
  }

  predicate Intact(w: World) {
    var p, e := w.plane, w.engine;
    HoldsTaken(p, e) && p.staging.allowed && p.staging.message.command == e.taken.value.command &&
    p.staging.message.generation == e.generation && p.payload == Some(p.staging.message) &&
    e.taken.value.command != NotCommand && (!e.taken.value.command.Reset? ==> p.staging.message.key == e.key)
  }

  predicate IdsBelow(s: seq<Taken>, bound: nat) { forall n :: 0 <= n < |s| ==> s[n].id < bound }

  predicate Increasing(s: seq<Taken>) { forall m, n :: 0 <= m < n < |s| ==> s[m].id < s[n].id }

  predicate Inv(w: World) {
    var p, e, h := w.plane, w.engine, w.history;
    (p.staging.Staged? ==> p.staging.id < p.arrivals && IdsBelow(h.folded, p.staging.id)) &&
    IdsBelow(h.folded, p.arrivals) && Increasing(h.folded) &&
    (e.phase == Prepare ==> !w.fate.doomed && !w.fate.orphaned) &&
    (UnderWay(e) && e.taken.Some? ==>
       e.taken.value.id < p.arrivals && IdsBelow(h.folded, e.taken.value.id) &&
       (!w.fate.doomed && !w.fate.orphaned ==> Intact(w)) &&
       (w.fate.orphaned && p.staging.Staged? ==> e.taken.value.id < p.staging.id)) &&
    (e.phase == Mutate || e.phase == Output ==>
       e.flags == KindsOf(e.taken) && e.folds == (if e.taken.Some? then Some(e.taken.value.command) else None)) &&
    (e.invalidated && e.phase == Output ==> w.fate.doomed)
  }

  lemma RestingStep(w: World, k: Clock)
    requires Inv(w) && Coherent(w, k) && w.engine.phase == Resting
    ensures Inv(Next(w, k))
  {
  }

  lemma CaptureStep(w: World, k: Clock)
    requires Inv(w) && Coherent(w, k) && w.engine.phase == BaseCapture
    ensures Inv(Next(w, k))
  {
  }

  lemma PrepareStep(w: World, k: Clock)
    requires Inv(w) && Coherent(w, k) && w.engine.phase == Prepare
    ensures Inv(Next(w, k))
  {
  }

  lemma MutateStep(w: World, k: Clock)
    requires Inv(w) && Coherent(w, k) && w.engine.phase == Mutate
    ensures Inv(Next(w, k))
  {
  }

  lemma OutputStep(w: World, k: Clock)
    requires Inv(w) && Coherent(w, k) && w.engine.phase == Output && !Writes(w.engine, k)
    ensures Inv(Next(w, k))
  {
  }

  lemma WriteStep(w: World, k: Clock)
    requires Inv(w) && Coherent(w, k) && Writes(w.engine, k)
    ensures Inv(Next(w, k))
  {
  }

  lemma NextKeepsInv(w: World, k: Clock)
    requires Inv(w) && Coherent(w, k)
    ensures Inv(Next(w, k))
  {
    match w.engine.phase
    case Resting => RestingStep(w, k);
    case BaseCapture => CaptureStep(w, k);
    case Prepare => PrepareStep(w, k);
    case Mutate => MutateStep(w, k);
    case Output => if Writes(w.engine, k) { WriteStep(w, k); } else { OutputStep(w, k); }
  }

  // ---- Runs -------------------------------------------------------------------------------------

  const POWER_ON := World(
    Plane(Empty, None, 0),
    Engine(Resting, LayoutKey(0, 0, 0), 0, false, None, NO_KINDS, None, false, false),
    History([], []), Fate(false, false))

  predicate IsRun(run: seq<World>, ks: seq<Clock>) {
    |run| == |ks| + 1 && run[0] == POWER_ON &&
    forall n :: 0 <= n < |ks| ==> Coherent(run[n], ks[n]) && run[n + 1] == Next(run[n], ks[n])
  }

  lemma {:induction false} InvOverRuns(run: seq<World>, ks: seq<Clock>, n: nat)
    requires IsRun(run, ks) && n <= |ks|
    ensures Inv(run[n])
  {
    if n > 0 {
      InvOverRuns(run, ks, n - 1);
      NextKeepsInv(run[n - 1], ks[n - 1]);
    }
  }

  /** Over every run no frame's command is folded into more than one record write. */
  lemma FoldedAtMostOnce(run: seq<World>, ks: seq<Clock>, m: nat, n: nat)
    requires IsRun(run, ks) && m < n < |run[|ks|].history.folded|
    ensures run[|ks|].history.folded[m].id != run[|ks|].history.folded[n].id
  {
    InvOverRuns(run, ks, |ks|);
  }

  /** This clock's write folds a command in. */
  predicate Folds(w: World, k: Clock) { Writes(w.engine, k) && w.engine.taken.Some? }

  /** A write folds the very command its transaction took, though buttons and masks were read again
   *  from the payload; and a CLEAR finds its own flags still in the payload when the live masks drop. */
  lemma WriteFoldsWhatWasTaken(run: seq<World>, ks: seq<Clock>, n: nat)
    requires IsRun(run, ks) && n < |ks| && Folds(run[n], ks[n])
    ensures var w := run[n];
            run[n + 1].history.folded == w.history.folded + [w.engine.taken.value] &&
            Ready(w.engine, ks[n]) == KindsOf(w.engine.taken) &&
            (!w.fate.orphaned ==>
               w.plane.payload.Some? && w.plane.payload.value.command == w.engine.taken.value.command)
  {
    InvOverRuns(run, ks, n);
  }

  /** The frame in the hold leaves it on this clock. */
  predicate Leaves(w: World, k: Clock) {
    w.plane.staging.Staged? && !Next(w, k).plane.staging.Staged?
  }

  /** Unless its frame was dropped before, a folded command's frame is in the hold, and leaves it, on the
   *  step of the write: acknowledged, or refused only if link or boot protocol changed on that very clock. */
  lemma FoldedFrameLeaves(run: seq<World>, ks: seq<Clock>, n: nat)
    requires IsRun(run, ks) && n < |ks| && Folds(run[n], ks[n]) && !run[n].fate.orphaned
    ensures var w, k := run[n], ks[n];
            HoldsTaken(w.plane, w.engine) && Leaves(w, k) &&
            (Acknowledges(w.plane.staging, Ready(w.engine, k), k) <==>
             k.link && k.session && !TargetsBoot(w.plane.staging.message, k.boot))
  {
    InvOverRuns(run, ks, n);
  }

  /**
   * An acknowledged command is folded into a record on the step that acknowledges it, if and only if the
   * frame the transaction took was not dropped before: then the one acknowledged is another.
   */
  lemma AcknowledgedIsFolded(run: seq<World>, ks: seq<Clock>, n: nat)
    requires IsRun(run, ks) && n < |ks|
    requires Acknowledges(run[n].plane.staging, Ready(run[n].engine, ks[n]), ks[n])
    ensures var w, staged := run[n], run[n].plane.staging;
            Folds(w, ks[n]) &&
            run[n + 1].history.acked == w.history.acked + [Taken(staged.id, staged.message.command)] &&
            (w.engine.taken.value == Taken(staged.id, staged.message.command) <==> !w.fate.orphaned)
  {
    InvOverRuns(run, ks, n);
  }

  /** The endpoint of the transaction is in boot protocol, and its command names that endpoint. */
  predicate TakenInBoot(e: Engine, k: Clock) {
    e.taken.Some? && !e.taken.value.command.Reset? && e.key.endpointNumber < 16 && e.key.endpointNumber in k.boot
  }

  /** A transaction under way to clock n, its command taken on clock b. */
  predicate Transacting(run: seq<World>, ks: seq<Clock>, b: nat, n: nat) {
    IsRun(run, ks) && b < n < |ks| && run[b].engine.phase == BaseCapture &&
    forall j :: b < j <= n ==> UnderWay(run[j].engine)
  }

  /**
   * So the exception is exactly this: by its write, a transaction has lost the frame it took if and only
   * if, on some clock since taking it, its endpoint was in boot protocol.
   */
  lemma {:induction false} OrphanedOnlyByBoot(run: seq<World>, ks: seq<Clock>, b: nat, n: nat)
    requires Transacting(run, ks, b, n) && run[n].engine.taken.Some? && !run[n].fate.doomed
    ensures run[n].fate.orphaned <==> exists j :: b < j < n && TakenInBoot(run[j].engine, ks[j])
    decreases n
  {
    if b + 1 < n {
      assert run[n] == Next(run[n - 1], ks[n - 1]);
      OrphanedOnlyByBoot(run, ks, b, n - 1);
      InvOverRuns(run, ks, n - 1);
      if run[n].fate.orphaned && !run[n - 1].fate.orphaned {
        assert TakenInBoot(run[n - 1].engine, ks[n - 1]);
      }
    } else {
      InvOverRuns(run, ks, n);
      assert run[n] == Next(run[b], ks[b]);
    }
  }

  // ---- A command acknowledged for another -------------------------------------------------------

  const FIRST: LayoutKey := LayoutKey(0, 1, 0)
  const SECOND: LayoutKey := LayoutKey(0, 2, 0)

  function Click(key: LayoutKey): Message { Message(Press(ButtonCommand(1, 0, 1)), key, 5) }

  const STILL: EngineInput := EngineInput(None, false, true, false, false, false)

  /** A clock with link, session and map up. */
  function Tick(rx: Option<Message>, boot: set<nat>, engine: EngineInput): Clock {
    Clock(rx, true, true, true, false, true, 5, false, boot, engine)
  }

  lemma Extended(run: seq<World>, ks: seq<Clock>, k: Clock) returns (longer: seq<World>, more: seq<Clock>)
    requires IsRun(run, ks) && Coherent(run[|ks|], k)
    ensures IsRun(longer, more) && more == ks + [k] && longer == run + [Next(run[|ks|], k)]
  {
    longer, more := run + [Next(run[|ks|], k)], ks + [k];
  }

  /** The hold is empty and the engine keeps still: a frame is staged in 28 clocks. */
  lemma Stages(run: seq<World>, ks: seq<Clock>, m: Message) returns (longer: seq<World>, more: seq<Clock>)
    requires IsRun(run, ks) && run[|ks|].plane.staging == Empty && !run[|ks|].fate.doomed
    requires var e := run[|ks|].engine;
             (e.phase == Resting && !run[|ks|].fate.orphaned) ||
             (e.phase == Output && e.generation == 5 && !e.bank && !e.invalidated)
    ensures IsRun(longer, more)
    ensures var w, v := run[|ks|], longer[|more|];
            v.plane.staging == Staged(w.plane.arrivals, m, true) && v.plane.arrivals == w.plane.arrivals + 1 &&
            v.engine == w.engine && v.history == w.history && v.fate == w.fate
  {
    longer, more := Extended(run, ks, Tick(Some(m), {}, STILL));
    ghost var w := run[|ks|];
    while longer[|more|].plane.staging.Loading?
      invariant IsRun(longer, more)
      invariant var v := longer[|more|];
                v.engine == w.engine && v.history == w.history && v.fate == w.fate &&
                if v.plane.staging.Loading? then v.plane.staging.next == m && v.plane.arrivals == w.plane.arrivals
                else v.plane.staging == Staged(w.plane.arrivals, m, true) && v.plane.arrivals == w.plane.arrivals + 1
      decreases if longer[|more|].plane.staging.Loading? then longer[|more|].plane.staging.left + 1 else 0
    {
      longer, more := Extended(longer, more, Tick(Some(m), {}, STILL));
    }
  }

  /** From power-on to PREPARE, the first frame taken. */
  lemma TakesItsFrame() returns (run: seq<World>, ks: seq<Clock>)
    ensures IsRun(run, ks)
    ensures var w := run[|ks|];
            w.plane == Plane(Staged(0, Click(FIRST), true), Some(Click(FIRST)), 1) && w.fate == Fate(false, false) &&
            w.history == History([], []) && w.engine.folds == None &&
            w.engine == Engine(Prepare, FIRST, 5, false, Some(Taken(0, Click(FIRST).command)), NO_KINDS, None,
              false, false)
  {
    run, ks := Stages([POWER_ON], [], Click(FIRST));
    InvOverRuns(run, ks, |ks|);
    run, ks := Extended(run, ks, Tick(None, {}, STILL.(begins := Some(FIRST))));
    run, ks := Extended(run, ks, Tick(None, {}, STILL));
    InvOverRuns(run, ks, |ks|);
  }

  /** From power-on to the first clock of OUTPUT, the first frame taken and its endpoint gone to boot. */
  lemma LosesItsFrame() returns (run: seq<World>, ks: seq<Clock>)
    ensures IsRun(run, ks)
    ensures var w := run[|ks|];
            w.plane.staging == Empty && w.plane.arrivals == 1 && w.fate == Fate(false, true) &&
            w.history == History([], []) &&
            w.engine == Engine(Output, FIRST, 5, false, Some(Taken(0, Click(FIRST).command)),
                               Kinds(false, true, false, false, false), Some(Click(FIRST).command), false, false)
  {
    run, ks := TakesItsFrame();
    run, ks := Extended(run, ks, Tick(None, {}, STILL));
    run, ks := Extended(run, ks, Tick(None, {1}, STILL.(proceeds := true)));
  }

  /** A second click, for another report, is staged meanwhile, and the first one's write acknowledges it:
   *  it is never folded into anything. */
  lemma BootLosesACommand() returns (run: seq<World>, ks: seq<Clock>)
    ensures IsRun(run, ks)
    ensures run[|ks|].history == History([Taken(0, Click(FIRST).command)], [Taken(1, Click(SECOND).command)])
    ensures run[|ks|].plane.staging == Empty
  {
    run, ks := LosesItsFrame();
    run, ks := Stages(run, ks, Click(SECOND));
    run, ks := Extended(run, ks, Tick(None, {}, STILL.(outputReady := true, last := true)));
  }
}
