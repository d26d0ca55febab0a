/** Every step of a control transfer, told from the answers, and that a transfer with a good device succeeds. */
module ControlOutcome {
  import opened ControlTransfer
  import opened ControlGuarantees

  // ---- Starting, asking, failing --------------------------------------------------------------

  predicate Failed(c: Control, status: Status, transferred: nat) {
    c.phase == Idle && c.report == Report(true, status, transferred, false)
  }

  lemma Begun(c: Control, i: Input)
    requires c.phase.Idle? && i.start.Some?
    ensures var n := NextControl(c, i);
            if i.connected then
              n.phase == Issue(Setup) && n.order == i.start.value && n.data.offset == 0 && n.data.toggle &&
              n.nak == NakTimer(false, 0) && !n.report.done && n.report.transferred == 0
            else Failed(n, Disconnected, 0)
  {
  }

  lemma Rests(c: Control, i: Input)
    requires c.phase.Idle? && i.start.None?
    ensures NextControl(c, i) == c.(report := c.report.(done := false, setAddress := false))
  {
  }

  /** 500 ms of NAKs have passed. */
  predicate Overdue(c: Control) { c.nak.active && c.nak.count >= 29_999_999 }

  lemma GivesUp(c: Control, i: Input)
    requires !c.phase.Idle? && (!i.connected || (!c.phase.Stream? && Overdue(c)))
    ensures Failed(NextControl(c, i), if i.connected then Timeout else Disconnected, c.report.transferred)
  {
  }

  /** A clock on which neither end comes. */
  predicate Alive(c: Control, i: Input) { i.connected && (c.phase.Stream? || !Overdue(c)) }

  function Ticked(n: NakTimer): NakTimer { if n.active then NakTimer(true, n.count + 1) else n }

  lemma Asks(c: Control, i: Input)
    requires Alive(c, i) && (c.phase.Issue? || (c.phase.Wait? && i.result.None?))
    ensures var n := NextControl(c, i);
            n.phase == (if c.phase.Issue? && i.ready then Wait(c.phase.stage) else c.phase) && n.order == c.order &&
            n.data == c.data && n.nak == Ticked(c.nak) && !n.report.done && n.report.transferred == c.report.transferred
  {
  }

  // ---- The answers, stage by stage --------------------------------------------------------------

  /** Asked again, the data stage where it was. */
  predicate Again(n: Control, c: Control, stage: Stage, nak: NakTimer) {
    n.phase == Issue(stage) && n.order == c.order && n.data == c.data && n.nak == nak && !n.report.done &&
    n.report.transferred == c.report.transferred
  }

  lemma SetupAnswered(c: Control, i: Input, r: Result)
    requires c.phase == Wait(Setup) && Alive(c, i) && i.result == Some(r)
    ensures var n := NextControl(c, i);
            if r.status == Nak then Again(n, c, Setup, NakTimer(true, Ticked(c.nak).count))
            else if r.status != Success then Failed(n, r.status, c.report.transferred)
            else
              n.phase == Issue(if c.order.length == 0 then Closing
                               else if c.order.requestType >= 0x80 then Read else Write) &&
              n.order == c.order && n.data == c.data && n.nak == NakTimer(false, 0) && !n.report.done
  {
  }

  lemma ReadAnswered(c: Control, i: Input, r: Result)
    requires c.phase == Wait(Read) && Alive(c, i) && i.result == Some(r) && c.data.offset <= c.order.length
    ensures var n, left := NextControl(c, i), c.order.length - c.data.offset;
            if r.status == Nak then Again(n, c, Read, NakTimer(true, Ticked(c.nak).count))
            else if r.status != Success then Failed(n, r.status, c.report.transferred)
            else if r.duplicate then Again(n, c, Read, Ticked(c.nak))
            else if r.length > left || r.length > c.order.maxPacket then Failed(n, Overflow, c.report.transferred)
            else
              n.order == c.order && n.data.offset == c.data.offset && n.data.toggle == !c.data.toggle &&
              n.nak == NakTimer(false, 0) && !n.report.done && n.report.transferred == c.report.transferred &&
              if r.length == 0 then n.phase == Issue(Closing)
              else
                n.phase == Stream && n.data.packetLength == r.length && n.data.streamIndex == 0 &&
                n.data.final == (r.length < c.order.maxPacket || r.length == left)
  {
  }

  /** A byte of the packet is handed on whenever it is taken, and the last one ends it. */
  lemma Streamed(c: Control, i: Input)
    requires c.phase == Stream && i.connected && c.data.streamIndex < c.data.packetLength
    ensures var n, d := NextControl(c, i), c.data;
            n.order == c.order && !n.report.done && n.data.toggle == d.toggle && n.nak == c.nak &&
            if i.dataReady && d.streamIndex + 1 == d.packetLength then
              n.phase == Issue(if d.final then Closing else Read) && n.data.offset == d.offset + d.packetLength &&
              n.report.transferred == d.offset + d.packetLength
            else
              n.phase == Stream &&
              n.data == d.(streamIndex := if i.dataReady then d.streamIndex + 1 else d.streamIndex) &&
              n.report.transferred == c.report.transferred
  {
  }

  lemma WriteAnswered(c: Control, i: Input, r: Result)
    requires c.phase == Wait(Write) && Alive(c, i) && i.result == Some(r) && c.data.offset <= c.order.length
    ensures var n, left := NextControl(c, i), c.order.length - c.data.offset;
            if r.status == Nak then Again(n, c, Write, NakTimer(true, Ticked(c.nak).count))
            else if r.status != Success then Failed(n, r.status, c.report.transferred)
            else
              var sent := if left > c.order.maxPacket then c.order.maxPacket else left;
              n.phase == Issue(if sent == left then Closing else Write) && n.order == c.order &&
              n.data.offset == c.data.offset + sent == n.report.transferred && n.data.toggle == !c.data.toggle &&
              n.nak == NakTimer(false, 0) && !n.report.done
  {
  }

  /** The status stage of a read is an OUT; of anything else an IN, which must be empty. */
  lemma StatusAnswered(c: Control, i: Input, r: Result)
    requires c.phase == Wait(Closing) && Alive(c, i) && i.result == Some(r)
    ensures var n, o := NextControl(c, i), c.order;
            var isOut := o.length != 0 && o.requestType >= 0x80;
            if r.status == Nak then Again(n, c, Closing, NakTimer(true, Ticked(c.nak).count))
            else if r.status != Success then Failed(n, r.status, c.report.transferred)
            else if !isOut && r.duplicate then Again(n, c, Closing, Ticked(c.nak))
            else if !isOut && r.length != 0 then Failed(n, Overflow, c.report.transferred)
            else
              n.phase == Idle && n.report ==
                Report(true, Success, c.report.transferred, o.requestType == 0 && o.request == 5 && o.value < 128)
  {
  }

  // ---- A good device and a good line ------------------------------------------------------------

  /** Everything sent arrives, everything asked is answered, and the status stage is in order. */
  predicate Clean(e: Event) {
    e.connected && e.start.None? && e.reply.Answers? && e.arrives && e.acked && e.closing == Result(Success, 0, false)
  }

  /** The device will answer the read o with the packets of some response. */
  predicate Answerable(packets: seq<seq<U8>>, o: Order) {
    Reads(o) ==>
      Splits(packets, Flat(packets, |packets|), o) && forall k :: 0 <= k < |packets| ==> |packets[k]| <= o.maxPacket
  }

  /** Nothing has gone wrong, nor will it. */
  predicate Smooth(w: World) {
    var c, d, o := w.c, w.device, w.c.order;
    Inv(w) && !c.nak.active &&
    match c.phase
    case Idle => c.report.done && c.report.status == Success
    case Stream => Answerable(d.packets, o) && d.sent == w.taken && w.result.None?
    case Issue(s) =>
      (s != Setup ==> Answerable(d.packets, o) && w.result.None?) && (s == Read ==> d.sent == w.taken)
    case Wait(s) =>
      (s != Setup ==> Answerable(d.packets, o)) &&
      (w.result.None? && s == Read ==> d.sent == w.taken) &&
      (w.result.Some? ==>
         w.result.value.status == Success && !w.result.value.duplicate &&
         (s == Setup ==> Answerable(d.packets, o)) && (s == Read ==> d.sent == w.taken + 1) &&
         (s == Closing ==> w.result.value.length == 0))
  }

  /** More was wanted, so the device has a packet left, and it fits. */
  lemma PacketLeft(w: World)
    requires Inv(w) && (w.c.phase == Issue(Read) || w.c.phase == Wait(Read)) && Answerable(w.device.packets, w.c.order)
    requires ReadSoFar(w)
    ensures w.taken < |w.device.packets|
    ensures var n := |w.device.packets[w.taken]|;
            n <= w.c.order.maxPacket && n <= w.c.order.length - w.c.data.offset
  {
    var p := w.device.packets;
    if w.taken < |p| {
      FlatGrows(p, w.taken + 1, |p|);
      assert Flat(p, w.taken + 1) == Flat(p, w.taken) + p[w.taken];
    }
  }

  /** What a SETUP that gets through makes of the device is a device that can answer. */
  predicate Obliges(w: World, e: Event) {
    w.c.phase == Wait(Setup) ==> Answerable(e.packets, w.c.order)
  }

  lemma SmoothSetup(w: World, e: Event)
    requires Smooth(w) && Fair(e) && Clean(e) && Obliges(w, e)
    requires w.c.phase == Issue(Setup) || w.c.phase == Wait(Setup)
    ensures Smooth(Next(w, e))
  {
    NextKeepsInv(w, e);
  }

  lemma SmoothAsk(w: World, e: Event)
    requires Smooth(w) && Fair(e) && Clean(e) && (w.c.phase.Issue? || w.c.phase.Wait?) && w.c.phase.stage != Setup
    requires w.result.None? && w.c.phase.stage != Read
    ensures Smooth(Next(w, e))
  {
    NextKeepsInv(w, e);
    Asks(w.c, InputOf(w, e));
    var v := Next(w, e);
    assert !v.c.phase.Idle?;
    assert !v.c.nak.active;
    assert v.device.packets == w.device.packets && v.c.order == w.c.order;
    assert v.result.Some? ==> v.result.value.status == Success;
  }

  lemma SmoothRead(w: World, e: Event)
    requires Smooth(w) && Fair(e) && Clean(e) && (w.c.phase == Issue(Read) || w.c.phase == Wait(Read))
    requires w.result.None?
    ensures Smooth(Next(w, e))
  {
    NextKeepsInv(w, e);
    if w.c.phase == Wait(Read) {
      PacketLeft(w);
    }
  }

  lemma SmoothHear(w: World, e: Event)
    requires Smooth(w) && Fair(e) && Clean(e) && w.c.phase.Wait? && w.c.phase.stage != Setup && w.result.Some?
    ensures Smooth(Next(w, e))
  {
    NextKeepsInv(w, e);
    var i, r := InputOf(w, e), w.result.value;
    match w.c.phase.stage
    case Read =>
      PacketLeft(w);
      ReadAnswered(w.c, i, r);
    case Write => WriteAnswered(w.c, i, r);
    case Closing => StatusAnswered(w.c, i, r);
  }

  lemma SmoothStream(w: World, e: Event)
    requires Smooth(w) && Fair(e) && Clean(e) && w.c.phase.Stream?
    ensures Smooth(Next(w, e))
  {
    NextKeepsInv(w, e);
  }

  lemma SmoothStep(w: World, e: Event)
    requires Smooth(w) && Fair(e) && Clean(e) && Obliges(w, e) && !w.c.phase.Idle?
    ensures Smooth(Next(w, e))
  {
    if w.c.phase.Stream? {
      SmoothStream(w, e);
    } else if w.c.phase.stage == Setup {
      SmoothSetup(w, e);
    } else if w.c.phase.Issue? || w.result.None? {
      if w.c.phase.stage == Read {
        SmoothRead(w, e);
      } else {
        SmoothAsk(w, e);
      }
    } else {
      SmoothHear(w, e);
    }
  }

  lemma SmoothStart(w: World, e: Event)
    requires Inv(w) && Fair(e) && w.c.phase.Idle? && e.start.Some? && e.connected
    ensures Smooth(Next(w, e)) && Next(w, e).c.phase == Issue(Setup) && Next(w, e).c.order == e.start.value
  {
    NextKeepsInv(w, e);
  }

  /** A transfer begun on clock m with a good device and a good line from then to clock n, and not over before. */
  predicate GoesWell(run: seq<World>, es: seq<Event>, m: nat, n: nat) {
    IsRun(run, es) && m < n <= |es| && run[m].c.phase.Idle? && es[m].start.Some? && es[m].connected &&
    forall j :: m < j < n ==> !run[j].c.phase.Idle? && Clean(es[j]) && Obliges(run[j], es[j])
  }

  lemma SmoothStepAt(run: seq<World>, es: seq<Event>, n: nat)
    requires IsRun(run, es) && n < |es| && Smooth(run[n]) && Clean(es[n]) && Obliges(run[n], es[n])
    requires !run[n].c.phase.Idle?
    ensures Smooth(run[n + 1])
  {
    SmoothStep(run[n], es[n]);
  }

  lemma {:induction false} StaysSmooth(run: seq<World>, es: seq<Event>, m: nat, n: nat)
    requires GoesWell(run, es, m, n)
    ensures Smooth(run[n])
    decreases n
  {
    if n == m + 1 {
      InvOverRuns(run, es, m);
      SmoothStart(run[m], es[m]);
    } else {
      StaysSmooth(run, es, m, n - 1);
      SmoothStepAt(run, es, n - 1);
    }
  }

  /** It never fails: when it is over it has succeeded. */
  lemma GoodTransferSucceeds(run: seq<World>, es: seq<Event>, m: nat, n: nat)
    requires GoesWell(run, es, m, n) && run[n].c.phase.Idle?
    ensures run[n].c.report.done && run[n].c.report.status == Success
  {
    StaysSmooth(run, es, m, n);
  }

  // ---- And it is soon over ------------------------------------------------------------------------

  /** The line is free, the answer comes and the byte is taken at once. */
  predicate Prompt(e: Event) { e.ready && e.finish && e.dataReady }

  /** Clocks it may still take. */
  function Left(w: World): int {
    200 * Rank(w.c) +
    match w.c.phase
    case Idle => 0
    case Stream => 64 - w.c.data.streamIndex
    case Issue(_) => if w.job.Some? then 4 else 3
    case Wait(_) => if w.result.None? then 2 else 1
  }

  lemma HearsOrWaits(w: World, e: Event)
    requires Smooth(w) && Fair(e) && Clean(e) && Obliges(w, e) && Prompt(e) && (w.c.phase.Issue? || w.c.phase.Wait?)
    ensures Left(Next(w, e)) < Left(w)
  {
    RankFalls(w, e);
    SmoothStep(w, e);
  }

  lemma HandsOnByte(w: World, e: Event)
    requires Smooth(w) && Fair(e) && Clean(e) && Prompt(e) && w.c.phase.Stream?
    ensures Left(Next(w, e)) < Left(w)
  {
    RankFalls(w, e);
  }

  lemma {:induction false} LeftFalls(run: seq<World>, es: seq<Event>, m: nat, n: nat)
    requires GoesWell(run, es, m, n) && forall j :: m < j < n ==> Prompt(es[j])
    ensures 0 <= Left(run[n]) <= Left(run[m + 1]) - (n - m - 1)
    decreases n
  {
    StaysSmooth(run, es, m, n);
    LeftIsNatural(run[n]);
    if n > m + 1 {
      LeftFalls(run, es, m, n - 1);
      StaysSmooth(run, es, m, n - 1);
      FallsAt(run, es, n - 1);
    }
  }

  lemma LeftIsNatural(w: World)
    requires Inv(w)
    ensures 0 <= Left(w)
  {
  }

  lemma FallsAt(run: seq<World>, es: seq<Event>, n: nat)
    requires IsRun(run, es) && n < |es| && Smooth(run[n]) && !run[n].c.phase.Idle?
    requires Clean(es[n]) && Prompt(es[n]) && Obliges(run[n], es[n])
    ensures Left(run[n + 1]) < Left(run[n])
  {
    if run[n].c.phase.Stream? {
      HandsOnByte(run[n], es[n]);
    } else {
      HearsOrWaits(run[n], es[n]);
    }
  }

  /** With prompt taking on top it is over within 400 clocks a byte asked for, and some. */
  lemma GoodTransferEnds(run: seq<World>, es: seq<Event>, m: nat) returns (n: nat)
    requires IsRun(run, es) && m < |es| && run[m].c.phase.Idle? && es[m].start.Some? && es[m].connected
    requires m + 605 + 400 * es[m].start.value.length <= |es|
    requires forall j :: m < j < |es| ==> Clean(es[j]) && Prompt(es[j]) && Obliges(run[j], es[j])
    ensures m < n <= m + 605 + 400 * es[m].start.value.length && GoesWell(run, es, m, n)
    ensures run[n].c.report.done && run[n].c.report.status == Success
  {
    var bound := 605 + 400 * es[m].start.value.length;
    n := m + 1;
    while n < m + bound && !run[n].c.phase.Idle?
      invariant m < n <= m + bound && GoesWell(run, es, m, n)
    {
      n := n + 1;
    }
    LeftAtStart(run, es, m);
    LeftFalls(run, es, m, n);
    if run[n].c.phase.Idle? {
      GoodTransferSucceeds(run, es, m, n);
    } else {
      StillLeft(run, es, n);
    }
  }

  lemma LeftAtStart(run: seq<World>, es: seq<Event>, m: nat)
    requires IsRun(run, es) && m < |es| && run[m].c.phase.Idle? && es[m].start.Some? && es[m].connected
    ensures Left(run[m + 1]) <= 604 + 400 * es[m].start.value.length
  {
    InvOverRuns(run, es, m);
    SmoothStart(run[m], es[m]);
  }

  lemma StillLeft(run: seq<World>, es: seq<Event>, n: nat)
    requires IsRun(run, es) && n <= |es| && !run[n].c.phase.Idle?
    ensures Left(run[n]) > 0
  {
    InvOverRuns(run, es, n);
  }
}
