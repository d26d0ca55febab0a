/** Arbiter, clients and transaction engine together: what a success that a client acts on has sent. */
module SharedTransactions {
  import B = BusSharing
  import E = TransactionEngine
  import O = TransactionOutcome

  type U8 = E.U8

  /** The shared bus and the one engine behind it, clock by clock. payload is what each transaction's
   *  starter has to send, by the transaction's number. */
  datatype Session = Session(
    count: nat, bus: seq<B.Bus>, inputs: seq<B.Input>, engine: seq<O.World>, wires: seq<E.Wire>, offers: seq<U8>,
    payload: nat -> seq<U8>)

  /** The wires of one clock: start, connection and done, and tx_payload as the starter drives it for as long
   *  as the engine's inputs are its own. */
  predicate Wired(x: Session, n: nat)
    requires n < |x.inputs| && n < |x.bus| && n < |x.engine| && n < |x.wires| && n < |x.offers|
  {
    var b, i, v, w := x.bus[n], x.inputs[n], x.engine[n], x.wires[n];
    w.connected == i.connected && (w.start.Some? <==> B.GrantedTo(b, i).Some?) &&
    (w.start.Some? ==> w.start.value.length <= |x.payload(b.serial)|) &&
    (i.connected ==> (i.finish <==> E.Ends(v.e, w).Some?)) &&
    (b.engine.busy.Some? && B.OwnInputs(b, i, b.engine.busy.value) ==>
       var p := x.payload(b.engine.busy.value.id);
       v.e.tx.index < |p| ==> x.offers[n] == p[v.e.tx.index])
  }

  /** A session from reset. */
  predicate Runs(x: Session) {
    B.IsRun(x.bus, x.inputs, x.count) && O.IsRun(x.engine, x.wires, x.offers) && |x.wires| == |x.inputs| &&
    x.engine[0].e.phase == E.Idle && !x.engine[0].e.report.done &&
    forall n :: 0 <= n < |x.inputs| ==> Wired(x, n)
  }

  predicate Agrees(b: B.Engine, e: E.Engine) {
    (b.busy.Some? <==> e.phase != E.Idle) && (b.done.Some? <==> e.report.done)
  }

  /** One clock of the engine, as the bus sees it. */
  lemma EngineClock(e: E.Engine, w: E.Wire)
    requires e.phase == E.Idle && w.start.Some? ==> w.connected
    ensures E.Next(e, w).phase != E.Idle <==> E.Begins(e, w) || (e.phase != E.Idle && E.Ends(e, w).None?)
    ensures E.Next(e, w).report.done <==> E.Ends(e, w).Some?
  {
  }

  lemma EndsWithConnection(e: E.Engine, w: E.Wire)
    requires e.phase != E.Idle && !w.connected
    ensures E.Ends(e, w).Some?
  {
  }

  lemma GrantsAreConnected(b: B.Bus, i: B.Input)
    requires B.GrantedTo(b, i).Some?
    ensures i.connected && b.engine.busy.None?
  {
  }

  lemma {:induction false} StaysAgreed(x: Session, n: nat)
    requires Runs(x) && n <= |x.inputs|
    ensures Agrees(x.bus[n].engine, x.engine[n].e)
    decreases n
  {
    if n > 0 {
      var m := n - 1;
      StaysAgreed(x, m);
      var b, i, e, w := x.bus[m], x.inputs[m], x.engine[m].e, x.wires[m];
      assert Wired(x, m);
      assert B.Step(b, i, x.bus[n], x.count);
      assert x.engine[n] == O.NextWorld(x.engine[m], w, x.offers[m]);
      if B.GrantedTo(b, i).Some? {
        GrantsAreConnected(b, i);
      }
      EngineClock(e, w);
      if b.engine.busy.Some? && !i.connected {
        EndsWithConnection(e, w);
      }
    }
  }

  /** A transaction over on clock n has been in flight on every clock since its grant. */
  lemma {:induction false} InFlight(x: Session, j: nat, n: nat, t: B.Ticket)
    requires Runs(x) && n <= |x.inputs| && B.Current(x.bus[n].engine) == B.Some(t) && t.id < j < n
    ensures x.bus[j].engine.busy == B.Some(t)
    decreases n
  {
    B.GrantedOnItsClock(x.bus, x.inputs, n, t, x.count);
    if j < n - 1 {
      InFlight(x, j, n - 1, t);
    }
  }

  /** The clock of its grant is the last on which the engine began anything. */
  lemma BegunOnItsClock(x: Session, n: nat, t: B.Ticket)
    requires Runs(x) && n <= |x.inputs| && x.bus[n].engine.done == B.Some(t)
    ensures O.Last(x.engine, x.wires, t.id, n)
    ensures x.bus[t.id].serial == t.id && x.wires[t.id].start.value.length <= |x.payload(t.id)|
  {
    B.RunKeepsInv(x.bus, x.inputs, n, x.count);
    B.GrantedOnItsClock(x.bus, x.inputs, n, t, x.count);
    B.SerialIsClock(x.bus, x.inputs, t.id, x.count);
    StaysAgreed(x, t.id);
    GrantsAreConnected(x.bus[t.id], x.inputs[t.id]);
    assert Wired(x, t.id);
    forall j | t.id < j < n
      ensures !E.Begins(x.engine[j].e, x.wires[j])
    {
      InFlight(x, j, n, t);
      StaysAgreed(x, j);
    }
  }

  lemma TakenInRange(v: O.World, w: E.Wire)
    requires O.Inv(v) && E.Sends(v.e, w)
    ensures v.e.tx.index < v.e.job.length
  {
  }

  lemma LengthOf(x: Session, m: nat, j: nat)
    requires Runs(x) && m < j <= |x.inputs| && O.Last(x.engine, x.wires, m, j)
    requires x.wires[m].start.value.length <= |x.payload(m)|
    ensures x.engine[j].e.job.length == x.wires[m].start.value.length
  {
    O.NothingSentYet(x.engine, x.wires, x.offers, m);
    forall k | m < k < j
      ensures O.Carries(x.engine[k], x.wires[k], x.offers[k], x.engine[k + 1], x.payload(m))
    {
      O.SentNext(x.engine, x.wires, x.offers, k, x.payload(m));
    }
    O.CarriesOn(x.engine, x.wires, x.offers, m, j, x.payload(m));
  }

  /** On each clock of a transaction not given up, what its starter drives is what is taken. */
  lemma OffersOwn(x: Session, j: nat, n: nat, t: B.Ticket)
    requires Runs(x) && n <= |x.inputs| && x.bus[n].engine.done == B.Some(t) && t.client != B.Sof && t.id < j < n
    requires B.Attends(x.bus[n], t)
    ensures O.PresentsAt(x.engine[j], x.wires[j], x.offers[j], x.payload(t.id))
  {
    B.RunKeepsInv(x.bus, x.inputs, n, x.count);
    B.DoneIsHeard(x.bus, x.inputs, n, t, x.count);
    InFlight(x, j, n, t);
    B.InputsStayWithStarter(x.bus, x.inputs, j, t, x.count);
    assert Wired(x, j);
    BegunOnItsClock(x, n, t);
    LengthOf(x, t.id, j);
    O.InvOverRuns(x.engine, x.wires, x.offers, j);
    if E.Sends(x.engine[j].e, x.wires[j]) {
      TakenInRange(x.engine[j], x.wires[j]);
    }
  }

  /**
   * Whatever is granted, given up, disabled or lost around it: when a client acts on the success of its
   * OUT or SETUP, exactly its own payload has been sent, every byte and in order.
   */
  lemma HeardSuccessSentItsPayload(x: Session, n: nat, t: B.Ticket)
    requires Runs(x) && n <= |x.inputs| && x.bus[n].engine.done == B.Some(t) && t.client != B.Sof
    requires B.Attends(x.bus[n], t) && x.engine[n].e.report.status == E.Success
    requires x.engine[n].e.job.token == E.Out || x.engine[n].e.job.token == E.Setup
    ensures var v, p := x.engine[n], x.payload(t.id);
            v.e.job.length <= |p| && v.s.sent == p[..v.e.job.length]
  {
    B.RunKeepsInv(x.bus, x.inputs, n, x.count);
    StaysAgreed(x, n);
    BegunOnItsClock(x, n, t);
    forall j | t.id < j < n
      ensures O.PresentsAt(x.engine[j], x.wires[j], x.offers[j], x.payload(t.id))
    {
      OffersOwn(x, j, n, t);
    }
    O.SuccessMeansSent(x.engine, x.wires, x.offers, t.id, n, x.payload(t.id));
  }
}
