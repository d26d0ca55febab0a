/** What a transaction's status means: what was sent, what was received, what was acknowledged, and when. */
module TransactionOutcome {
  import opened TransactionEngine

  /**
   * The transaction on the wire. sent is the payload bytes taken for transmission, pid and bytes the
   * data packet received, acks the handshakes issued, before the memory when the transaction began.
   */
  datatype Story = Story(sent: seq<U8>, pid: Option<Pid>, bytes: seq<U8>, acks: nat, before: seq<U8>)

  datatype World = World(e: Engine, s: Story)

  predicate Issues(e: Engine, w: Wire) { e.phase == AckGap && w.connected && w.turnaround }

  /** offered is the byte tx_payload shows on this clock, live, for the index the engine shows. */
  function NextStory(e: Engine, s: Story, w: Wire, offered: U8): Story {
    if Begins(e, w) then Story([], None, [], 0, e.memory)
    else if Sends(e, w) then s.(sent := s.sent + [offered])
    else if Arrives(e, w) then s.(pid := w.complete)
    else if Listens(e, w) && e.job.token == In && w.byte.Some? then
      s.(pid := Some(w.byte.value.0), bytes := s.bytes + [w.byte.value.1])
    else if Issues(e, w) then s.(acks := s.acks + 1)
    else s
  }

  function NextWorld(v: World, w: Wire, offered: U8): World {
    World(Next(v.e, w), NextStory(v.e, v.s, w, offered))
  }

  /** A request has at most 64 bytes to send. The receiver answers an IN with one packet's bytes and
   *  then its end; the data generator stays valid until it has taken the last byte. */
  predicate Civil(v: World, w: Wire) {
    (w.start.Some? ==> w.start.value.length <= MEMORY_BYTES) &&
    (w.byte.Some? ==> v.s.pid.None? || v.s.pid == Some(w.byte.value.0)) &&
    (w.complete.Some? ==> v.s.pid.None? || v.s.pid == w.complete) &&
    (v.e.phase == SendData && v.e.tx.started && !w.dataValid ==> v.e.job.length == 0 || v.e.tx.complete)
  }

  // ---- The invariant ------------------------------------------------------------------------

  predicate SendInv(e: Engine, s: Story) {
    (if e.tx.complete then e.job.length > 0 && LastByte(e) && |s.sent| == e.job.length
     else (e.tx.index < e.job.length || e.tx.index == 0) && |s.sent| == e.tx.index) &&
    e.tx.index <= e.job.length
  }

  /** What has been stored of the packet so far. */
  predicate ReceiveInv(e: Engine, s: Story) {
    var held := if |s.bytes| < MEMORY_BYTES then |s.bytes| else MEMORY_BYTES;
    |e.memory| == MEMORY_BYTES && e.rx.count == held && e.rx.overflow == (|s.bytes| > MEMORY_BYTES) &&
    (if s.pid == Some(Expected(e.job)) then e.memory[..held] == s.bytes[..held] else e.memory == s.before) &&
    (s.pid.None? ==> s.bytes == [])
  }

  /** A good packet in, no more than fits. */
  predicate Arrived(e: Engine, s: Story) {
    e.job.token == In && !e.rx.overflow && s.pid.Some? && s.pid.value != Other &&
    e.rx.duplicate == (s.pid.value != Expected(e.job)) && e.report.toggle == (s.pid.value == Data1)
  }

  /** What the done pulse and its status promise. */
  predicate Meant(e: Engine, s: Story) {
    var r := e.report;
    match r.status
    case Success =>
      (e.job.token == In ==>
         s.acks == 1 && |s.bytes| <= MEMORY_BYTES && s.pid.Some? && r.toggle == (s.pid.value == Data1) &&
         r.duplicate == (s.pid.value != Expected(e.job)) &&
         (if r.duplicate then r.length == 0 && e.memory == s.before
          else r.length == |s.bytes| && r.length <= |e.memory| && e.memory[..r.length] == s.bytes)) &&
      (e.job.token == Out || e.job.token == Setup ==> |s.sent| == e.job.length)
    case Overflow => s.acks == 0 && |s.bytes| > MEMORY_BYTES && r.length == 0
    case Disconnected => r.length == 0
    case _ => s.acks == 0 && r.length == 0
  }

  predicate Inv(v: World) {
    var e, s := v.e, v.s;
    |e.memory| == MEMORY_BYTES &&
    match e.phase
    case Idle => e.report.done && !(e.report.status == Disconnected) ==> Meant(e, s)
    case AckGap => ReceiveInv(e, s) && Arrived(e, s) && s.acks == 0
    case SendAck => ReceiveInv(e, s) && Arrived(e, s) && s.acks == 1
    case AckDrain =>
      ReceiveInv(e, s) && Arrived(e, s) && s.acks == 1 && e.report.length == (if e.rx.duplicate then 0 else e.rx.count)
    case AwaitResponse =>
      e.job.token != Sof && ReceiveInv(e, s) && s.acks == 0 && e.rx.deadline < DEADLINE_CYCLES &&
      (e.job.token != In ==> SendInv(e, s) && |s.sent| == e.job.length)
    case SofDrain => e.job.token == Sof && e.report.length == 0
    case _ =>
      ReceiveInv(e, s) && s.acks == 0 && SendInv(e, s) && s.bytes == [] && s.pid.None? &&
      (e.phase == DataGap || e.phase == SendData ==> e.job.token == Out || e.job.token == Setup) &&
      (e.phase != SendData ==> s.sent == [] && !e.tx.complete && e.tx.index == 0)
  }

  lemma IdleStep(v: World, w: Wire, offered: U8)
    requires Inv(v) && Civil(v, w) && v.e.phase == Idle
    ensures Inv(NextWorld(v, w, offered))
  {
  }

  lemma TokenStep(v: World, w: Wire, offered: U8)
    requires Inv(v) && Civil(v, w) &&
      (v.e.phase == TokenStart || v.e.phase == TokenSend || v.e.phase == DataGap)
    ensures Inv(NextWorld(v, w, offered))
  {
  }

  lemma SendStep(v: World, w: Wire, offered: U8)
    requires Inv(v) && Civil(v, w) && v.e.phase == SendData
    ensures Inv(NextWorld(v, w, offered))
  {
  }

  lemma ListenStep(v: World, w: Wire, offered: U8)
    requires Inv(v) && Civil(v, w) && v.e.phase == AwaitResponse && Listens(v.e, w)
    ensures Inv(NextWorld(v, w, offered))
  {
  }

  lemma AnswerStep(v: World, w: Wire, offered: U8)
    requires Inv(v) && Civil(v, w) && v.e.phase == AwaitResponse && !Listens(v.e, w)
    ensures Inv(NextWorld(v, w, offered))
  {
  }

  lemma AckStep(v: World, w: Wire, offered: U8)
    requires Inv(v) && Civil(v, w) && (v.e.phase == AckGap || v.e.phase == SendAck)
    ensures Inv(NextWorld(v, w, offered))
  {
  }

  lemma DrainStep(v: World, w: Wire, offered: U8)
    requires Inv(v) && Civil(v, w) && (v.e.phase == AckDrain || v.e.phase == SofDrain)
    ensures Inv(NextWorld(v, w, offered))
  {
  }

  lemma NextKeepsInv(v: World, w: Wire, offered: U8)
    requires Inv(v) && Civil(v, w)
    ensures Inv(NextWorld(v, w, offered))
  {
    match v.e.phase
    case Idle => IdleStep(v, w, offered);
    case TokenStart => TokenStep(v, w, offered);
    case TokenSend => TokenStep(v, w, offered);
    case DataGap => TokenStep(v, w, offered);
    case SendData => SendStep(v, w, offered);
    case AwaitResponse => if Listens(v.e, w) { ListenStep(v, w, offered); } else { AnswerStep(v, w, offered); }
    case AckGap => AckStep(v, w, offered);
    case SendAck => AckStep(v, w, offered);
    case AckDrain => DrainStep(v, w, offered);
    case SofDrain => DrainStep(v, w, offered);
  }

  // ---- Runs ---------------------------------------------------------------------------------

  predicate IsRun(run: seq<World>, wires: seq<Wire>, offers: seq<U8>) {
    |run| == |wires| + 1 && |offers| == |wires| && Inv(run[0]) &&
    forall n :: 0 <= n < |wires| ==>
      Civil(run[n], wires[n]) && run[n + 1] == NextWorld(run[n], wires[n], offers[n])
  }

  lemma {:induction false} InvOverRuns(run: seq<World>, wires: seq<Wire>, offers: seq<U8>, n: nat)
    requires IsRun(run, wires, offers) && n <= |wires|
    ensures Inv(run[n])
  {
    if n > 0 {
      InvOverRuns(run, wires, offers, n - 1);
      NextKeepsInv(run[n - 1], wires[n - 1], offers[n - 1]);
    }
  }

  predicate Finished(v: World, token: Token) {
    v.e.phase == Idle && v.e.report.done && v.e.report.status != Disconnected && v.e.job.token == token
  }

  /** An IN is acknowledged exactly when it succeeds, and then its report is the packet: all its bytes
   *  when the toggle was the expected one, a marked duplicate and an untouched memory when not. */
  lemma ReceivedIsReported(run: seq<World>, wires: seq<Wire>, offers: seq<U8>, n: nat)
    requires IsRun(run, wires, offers) && n <= |wires| && Finished(run[n], In)
    ensures var e, s, r := run[n].e, run[n].s, run[n].e.report;
            s.acks == (if r.status == Success then 1 else 0) &&
            (r.status == Success ==>
               s.pid.Some? && (r.duplicate <==> s.pid.value != Expected(e.job)) &&
               (!r.duplicate ==> r.length == |s.bytes| <= |e.memory| && e.memory[..r.length] == s.bytes) &&
               (r.duplicate ==> r.length == 0 && e.memory == s.before)) &&
            (r.status != Success ==> r.length == 0) && (r.status == Overflow ==> |s.bytes| > MEMORY_BYTES)
  {
    InvOverRuns(run, wires, offers, n);
    assert Meant(run[n].e, run[n].s);
  }

  /** The transaction begun on clock m is still the last one on clock n. */
  predicate Last(run: seq<World>, wires: seq<Wire>, m: nat, n: nat) {
    m < n < |run| == |wires| + 1 && Begins(run[m].e, wires[m]) &&
    forall j :: m < j < n ==> !Begins(run[j].e, wires[j])
  }

  lemma SentOneMore(v: World, w: Wire, offered: U8, p: seq<U8>)
    requires Inv(v) && Civil(v, w) && !Begins(v.e, w) && |v.s.sent| <= v.e.job.length <= |p|
    ensures var u := NextWorld(v, w, offered);
            u.e.job == v.e.job && |u.s.sent| <= u.e.job.length &&
            (u.s.sent == p[..|u.s.sent|] <==>
             v.s.sent == p[..|v.s.sent|] &&
             (Sends(v.e, w) ==> v.e.tx.index < |p| && offered == p[v.e.tx.index]))
  {
    if Sends(v.e, w) {
      var n := |v.s.sent|;
      assert n == v.e.tx.index < |p|;
      assert p[..n + 1] == p[..n] + [p[n]];
    }
  }

  lemma NothingSentYet(run: seq<World>, wires: seq<Wire>, offers: seq<U8>, m: nat)
    requires IsRun(run, wires, offers) && m < |wires| && Begins(run[m].e, wires[m])
    ensures run[m + 1].e.job.length == wires[m].start.value.length && run[m + 1].s.sent == []
  {
    assert run[m + 1] == NextWorld(run[m], wires[m], offers[m]);
  }

  /** The byte clock n takes, if any, is p's at its index. */
  predicate PresentsAt(v: World, w: Wire, offered: U8, p: seq<U8>) {
    Sends(v.e, w) ==> v.e.tx.index < |p| && offered == p[v.e.tx.index]
  }

  /** Clock n starts no transaction and sends no more than the job's bytes, p's so far or not. */
  predicate Carries(v: World, w: Wire, offered: U8, u: World, p: seq<U8>) {
    |v.s.sent| <= v.e.job.length <= |p| ==>
      u.e.job == v.e.job && |u.s.sent| <= u.e.job.length &&
      (u.s.sent == p[..|u.s.sent|] <==> v.s.sent == p[..|v.s.sent|] && PresentsAt(v, w, offered, p))
  }

  lemma SentNext(run: seq<World>, wires: seq<Wire>, offers: seq<U8>, n: nat, p: seq<U8>)
    requires IsRun(run, wires, offers) && n < |wires| && !Begins(run[n].e, wires[n])
    ensures Carries(run[n], wires[n], offers[n], run[n + 1], p)
  {
    InvOverRuns(run, wires, offers, n);
    assert run[n + 1] == NextWorld(run[n], wires[n], offers[n]);
    if |run[n].s.sent| <= run[n].e.job.length <= |p| {
      SentOneMore(run[n], wires[n], offers[n], p);
    }
  }

  lemma {:induction false} CarriesOn(
    run: seq<World>, wires: seq<Wire>, offers: seq<U8>, m: nat, n: nat, p: seq<U8>)
    requires m < n < |run| == |wires| + 1 && |offers| == |wires|
    requires run[m + 1].s.sent == [] && run[m + 1].e.job.length <= |p|
    requires forall j :: m < j < n ==> Carries(run[j], wires[j], offers[j], run[j + 1], p)
    ensures run[n].e.job == run[m + 1].e.job && |run[n].s.sent| <= run[n].e.job.length
    ensures run[n].s.sent == p[..|run[n].s.sent|] <==>
            forall j :: m < j < n ==> PresentsAt(run[j], wires[j], offers[j], p)
    decreases n
  {
    if m + 1 < n {
      CarriesOn(run, wires, offers, m, n - 1, p);
      assert Carries(run[n - 1], wires[n - 1], offers[n - 1], run[n], p);
    }
  }

  /**
   * An OUT or SETUP that succeeds has sent as many bytes as it has, in order; and they are those of p if
   * and only if its starter's port showed p, byte for byte, on the clocks they were taken.
   */
  lemma SuccessMeansSent(run: seq<World>, wires: seq<Wire>, offers: seq<U8>, m: nat, n: nat, p: seq<U8>)
    requires IsRun(run, wires, offers) && Last(run, wires, m, n) && wires[m].start.value.length <= |p|
    requires Finished(run[n], Out) || Finished(run[n], Setup)
    requires run[n].e.report.status == Success
    ensures run[n].e.job.length == wires[m].start.value.length
    ensures run[n].s.sent == p[..run[n].e.job.length] <==>
            forall j :: m < j < n ==> PresentsAt(run[j], wires[j], offers[j], p)
  {
    InvOverRuns(run, wires, offers, n);
    assert Meant(run[n].e, run[n].s);
    NothingSentYet(run, wires, offers, m);
    forall j | m < j < n
      ensures Carries(run[j], wires[j], offers[j], run[j + 1], p)
    {
      SentNext(run, wires, offers, j, p);
    }
    CarriesOn(run, wires, offers, m, n, p);
  }

  /** An unbroken wait for the response, clocks m to n. */
  predicate Awaits(run: seq<World>, m: nat, n: nat) {
    m <= n < |run| && forall k :: m <= k <= n ==> run[k].e.phase == AwaitResponse
  }

  lemma {:induction false} DeadlineCounts(run: seq<World>, wires: seq<Wire>, offers: seq<U8>, m: nat, n: nat)
    requires IsRun(run, wires, offers) && Awaits(run, m, n)
    ensures run[n].e.rx.deadline == run[m].e.rx.deadline + (n - m)
    decreases n
  {
    if m < n {
      DeadlineCounts(run, wires, offers, m, n - 1);
      assert run[n] == NextWorld(run[n - 1], wires[n - 1], offers[n - 1]);
    }
  }

  /** Whatever the line does, noise included, the wait is over within the deadline. */
  lemma WaitIsBounded(run: seq<World>, wires: seq<Wire>, offers: seq<U8>, m: nat, n: nat)
    requires IsRun(run, wires, offers) && Awaits(run, m, n)
    ensures n - m < DEADLINE_CYCLES
  {
    DeadlineCounts(run, wires, offers, m, n);
    InvOverRuns(run, wires, offers, n);
  }
}
