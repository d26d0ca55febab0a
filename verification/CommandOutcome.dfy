/** What becomes of a command frame: staged, turned away, or folded into the next report of its layout. */
module CommandOutcome {
  import opened MapEntries
  import opened LayoutStates
  import opened EngineTransaction
  import opened CommandHold

  /** Link and session up, the descriptors as they were. */
  predicate Linked(k: Clock) { k.link && k.session && !k.descriptorChanged }

  // ---- Staging ------------------------------------------------------------------------------

  /** A queued frame begins to load into an empty hold, and 27 clocks later it is staged. */
  lemma LoadBegins(p: Plane, ready: Kinds, k: Clock, m: Message)
    requires p.staging == Empty && Linked(k) && k.rx == Some(m)
    ensures NextStaging(p, ready, k) == Loading(m, 27)
  {
  }

  lemma LoadGoesOn(p: Plane, ready: Kinds, k: Clock, m: Message, left: nat)
    requires p.staging == Loading(m, left) && left > 0 && Linked(k) && k.rx.Some?
    ensures left > 1 ==> NextStaging(p, ready, k) == Loading(m, left - 1)
    ensures left == 1 ==> NextPlane(p, ready, k) == Plane(Staged(p.arrivals, m, k.inWindow), Some(m), p.arrivals + 1)
  {
  }

  /** A hold with nothing to load stays empty; a frame withdrawn while it loads is forgotten. */
  lemma NothingToLoad(p: Plane, ready: Kinds, k: Clock)
    requires !p.staging.Staged? && k.rx == None
    ensures NextStaging(p, ready, k) == Empty
  {
  }

  /** Without link or session, or with other descriptors, nothing is held. */
  lemma UnlinkedHoldsNothing(p: Plane, ready: Kinds, k: Clock)
    requires !Linked(k)
    ensures NextStaging(p, ready, k) == Empty && !Acknowledges(p.staging, ready, k)
  {
  }

  /** A command out of its window, of another map or for an endpoint in boot protocol; or no command at all. */
  predicate Stale(m: Message, allowed: bool, k: Clock) {
    !allowed || m.command == NotCommand || !k.activeValid || m.generation != k.activeGeneration ||
    (!m.command.Reset? && m.key.endpointNumber < 16 && m.key.endpointNumber in k.boot)
  }

  /** Such a frame is dropped on its first clock in the hold, and never acknowledged. */
  lemma StaleIsDropped(p: Plane, ready: Kinds, k: Clock)
    requires p.staging.Staged? && Linked(k) && Stale(p.staging.message, p.staging.allowed, k)
    ensures NextStaging(p, ready, k) == Empty && !Acknowledges(p.staging, ready, k)
  {
  }

  /** Any other stays until the engine is ready for a command of its kind, and is acknowledged then. */
  lemma FreshWaits(p: Plane, ready: Kinds, k: Clock)
    requires p.staging.Staged? && Linked(k) && !Stale(p.staging.message, p.staging.allowed, k)
    ensures var c := p.staging.message.command;
            var its := (c.MoveBy? && ready.relative) || (c.Press? && ready.button) || (c.Hide? && ready.mask) ||
                       (c.Hold? && ready.absolute) || (c.Reset? && ready.clear);
            NextStaging(p, ready, k) == (if its then Empty else p.staging) &&
            (Acknowledges(p.staging, ready, k) <==> its)
  {
  }

  // ---- Folding ------------------------------------------------------------------------------

  /** The surroundings stay: the map of generation g in bank b, and its endpoint out of boot protocol. */
  predicate Calm(k: Clock, m: Message, g: U16, b: bool) {
    Linked(k) && k.activeValid && k.activeGeneration == g && k.activeBank == b &&
    !(m.key.endpointNumber < 16 && m.key.endpointNumber in k.boot)
  }

  /** The frame is in the hold, allowed, and a command for the layout, or a CLEAR. */
  predicate Held(w: World, id: nat, m: Message, key: LayoutKey, g: U16) {
    w.plane.staging == Staged(id, m, true) && m.command != NotCommand && m.generation == g &&
    (m.command.Reset? || m.key == key)
  }

  /** A transaction on that layout has taken it. */
  predicate Carries(w: World, phase: Phase, id: nat, m: Message, key: LayoutKey, g: U16, b: bool) {
    Held(w, id, m, key, g) && w.plane.payload == Some(m) && w.engine.phase == phase && w.engine.key == key &&
    w.engine.generation == g && w.engine.bank == b && w.engine.taken == Some(Taken(id, m.command)) &&
    !w.engine.invalidated && (phase != Prepare ==> Prepared(w.engine, m))
  }

  predicate Prepared(e: Engine, m: Message) {
    e.folds == Some(m.command) &&
    e.flags == Kinds(m.command.MoveBy?, m.command.Press?, m.command.Hide?, m.command.Hold?, m.command.Reset?)
  }

  lemma Begins(w: World, k: Clock, id: nat, m: Message, key: LayoutKey, g: U16, b: bool)
    requires Held(w, id, m, key, g) && Calm(k, m, g, b) && w.engine.phase == Resting
    requires k.engine.begins == Some(key)
    ensures var v := Next(w, k);
            Held(v, id, m, key, g) && v.plane.payload == Some(m) && v.history == w.history &&
            v.engine == Engine(BaseCapture, key, g, b, None, NO_KINDS, None, false, false)
  {
  }

  lemma Takes(w: World, k: Clock, id: nat, m: Message, key: LayoutKey, g: U16, b: bool)
    requires Held(w, id, m, key, g) && Calm(k, m, g, b)
    requires w.engine == Engine(BaseCapture, key, g, b, None, NO_KINDS, None, false, false)
    ensures Carries(Next(w, k), Prepare, id, m, key, g, b) && Next(w, k).history == w.history
  {
  }

  lemma Prepares(w: World, k: Clock, id: nat, m: Message, key: LayoutKey, g: U16, b: bool)
    requires Carries(w, Prepare, id, m, key, g, b) && Calm(k, m, g, b)
    ensures Carries(Next(w, k), Mutate, id, m, key, g, b) && Next(w, k).history == w.history
  {
  }

  lemma Mutates(w: World, k: Clock, id: nat, m: Message, key: LayoutKey, g: U16, b: bool)
    requires Carries(w, Mutate, id, m, key, g, b) && Calm(k, m, g, b)
    ensures Carries(Next(w, k), if k.engine.proceeds then Output else Mutate, id, m, key, g, b)
    ensures Next(w, k).history == w.history
  {
  }

  /** The report's last byte is taken, by the relay or, for a suppressed one, by nobody. */
  predicate LastByte(k: Clock) { (k.engine.outputReady || k.engine.suppressed) && k.engine.last }

  lemma Outputs(w: World, k: Clock, id: nat, m: Message, key: LayoutKey, g: U16, b: bool)
    requires Carries(w, Output, id, m, key, g, b) && Calm(k, m, g, b)
    ensures !LastByte(k) ==> Carries(Next(w, k), Output, id, m, key, g, b) && Next(w, k).history == w.history
    ensures LastByte(k) ==>
      Next(w, k).plane.staging == Empty && Next(w, k).engine.phase == Resting &&
      Next(w, k).history == History(w.history.folded + [Taken(id, m.command)], w.history.acked + [Taken(id, m.command)])
  {
  }

  /** The transaction begins on clock b, enters OUTPUT after clock p and has its last byte taken on clock n. */
  predicate Reported(run: seq<World>, ks: seq<Clock>, b: nat, p: nat, n: nat, m: Message, key: LayoutKey) {
    IsRun(run, ks) && b + 3 <= p < n < |ks| && ks[b].engine.begins == Some(key) && run[b].engine.phase == Resting &&
    (forall j :: b + 3 <= j < p ==> !Proceeds(ks[j])) && Proceeds(ks[p]) &&
    (forall j :: p < j < n ==> !LastByte(ks[j])) && LastByte(ks[n]) &&
    forall j :: b <= j <= n ==> Calm(ks[j], m, ks[b].activeGeneration, ks[b].activeBank)
  }

  predicate Proceeds(k: Clock) { k.engine.proceeds }

  lemma {:induction false} StillMutating(run: seq<World>, ks: seq<Clock>, b: nat, p: nat, n: nat, id: nat, m: Message,
      key: LayoutKey, j: nat)
    requires Reported(run, ks, b, p, n, m, key) && Held(run[b], id, m, key, ks[b].activeGeneration)
    requires b + 3 <= j <= p
    ensures Carries(run[j], Mutate, id, m, key, ks[b].activeGeneration, ks[b].activeBank)
    ensures run[j].history == run[b].history
    decreases j
  {
    var g, bank := ks[b].activeGeneration, ks[b].activeBank;
    if j == b + 3 {
      assert Calm(ks[b], m, g, bank) && Calm(ks[b + 1], m, g, bank) && Calm(ks[b + 2], m, g, bank);
      Begins(run[b], ks[b], id, m, key, g, bank);
      Takes(run[b + 1], ks[b + 1], id, m, key, g, bank);
      Prepares(run[b + 2], ks[b + 2], id, m, key, g, bank);
    } else {
      StillMutating(run, ks, b, p, n, id, m, key, j - 1);
      assert Calm(ks[j - 1], m, g, bank) && !Proceeds(ks[j - 1]);
      Mutates(run[j - 1], ks[j - 1], id, m, key, g, bank);
    }
  }

  lemma {:induction false} StillGoingOut(run: seq<World>, ks: seq<Clock>, b: nat, p: nat, n: nat, id: nat, m: Message,
      key: LayoutKey, j: nat)
    requires Reported(run, ks, b, p, n, m, key) && Held(run[b], id, m, key, ks[b].activeGeneration)
    requires p < j <= n
    ensures Carries(run[j], Output, id, m, key, ks[b].activeGeneration, ks[b].activeBank)
    ensures run[j].history == run[b].history
    decreases j
  {
    var g, bank := ks[b].activeGeneration, ks[b].activeBank;
    if j == p + 1 {
      StillMutating(run, ks, b, p, n, id, m, key, p);
      assert Calm(ks[p], m, g, bank) && Proceeds(ks[p]);
      Mutates(run[p], ks[p], id, m, key, g, bank);
    } else {
      StillGoingOut(run, ks, b, p, n, id, m, key, j - 1);
      assert Calm(ks[j - 1], m, g, bank) && !LastByte(ks[j - 1]);
      Outputs(run[j - 1], ks[j - 1], id, m, key, g, bank);
    }
  }

  /**
   * A fresh command held for a layout when a report of it begins is folded into that report's write and
   * acknowledged with its last byte, and not before: the hold is then free.
   */
  lemma {:induction false} FreshCommandIsFolded(run: seq<World>, ks: seq<Clock>, b: nat, p: nat, n: nat, id: nat,
      m: Message, key: LayoutKey)
    requires Reported(run, ks, b, p, n, m, key) && Held(run[b], id, m, key, ks[b].activeGeneration)
    ensures forall j :: b <= j <= n && (j == b || j >= b + 3) ==> run[j].history == run[b].history
    ensures run[n + 1].history == History(run[b].history.folded + [Taken(id, m.command)],
                                          run[b].history.acked + [Taken(id, m.command)])
    ensures run[n + 1].plane.staging == Empty && run[n + 1].engine.phase == Resting
  {
    forall j | b + 3 <= j <= n ensures run[j].history == run[b].history {
      if j <= p {
        StillMutating(run, ks, b, p, n, id, m, key, j);
      } else {
        StillGoingOut(run, ks, b, p, n, id, m, key, j);
      }
    }
    StillGoingOut(run, ks, b, p, n, id, m, key, n);
    assert Calm(ks[n], m, ks[b].activeGeneration, ks[b].activeBank);
    Outputs(run[n], ks[n], id, m, key, ks[b].activeGeneration, ks[b].activeBank);
  }

  // ---- A map lost on the way ----------------------------------------------------------------

  /** The map the transaction began under is not the one in force. */
  predicate MapGone(e: Engine, k: Clock) {
    !k.activeValid || k.activeGeneration != e.generation || k.activeBank != e.bank
  }

  /** Until the first byte is out, a transaction whose map is gone ends on the clock that sees it, unwritten. */
  lemma LostBeforeTheReport(w: World, k: Clock)
    requires MapGone(w.engine, k)
    requires w.engine.phase == BaseCapture || (w.engine.phase == Mutate && k.engine.checks) ||
             (w.engine.phase == Output && !w.engine.started)
    ensures Next(w, k).engine.phase == Resting && Next(w, k).history.folded == w.history.folded
    ensures Ready(w.engine, k) == Kinds(false, false, false, false, false)
  {
  }

  /** From then on the report goes out to its last byte, but nothing is written and no command taken. */
  lemma LostInMidReport(w: World, k: Clock)
    requires w.engine.phase == Output && w.engine.started && (MapGone(w.engine, k) || w.engine.invalidated)
    ensures Next(w, k).history.folded == w.history.folded
    ensures Ready(w.engine, k) == Kinds(false, false, false, false, false)
    ensures var e := Next(w, k).engine;
            if LastByte(k) then e.phase == Resting else e.phase == Output && e.started && e.invalidated
  {
  }

  /** No layout, no map: no transaction. */
  lemma NothingBegins(w: World, k: Clock)
    requires w.engine.phase == Resting && (k.engine.begins == None || !k.activeValid)
    ensures Next(w, k).engine == w.engine && Next(w, k).history.folded == w.history.folded
  {
  }
}
