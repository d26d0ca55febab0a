/** Data toggles on the TARGET bus: the interrupt-IN poller and the interrupt-OUT writer. */
module InterruptLinks {
  type U8 = x: int | 0 <= x < 0x100

  type Packet = seq<U8>

  const MAX_TRANSPORT_ERRORS: nat := 3

  /** The transaction engine's receive memory; a longer packet is not acknowledged. */
  const RECEIVE_BYTES: nat := 64

  // ---- The IN poller ------------------------------------------------------------------------

  /** How one IN transaction ends. A report that arrives is acknowledged; the ACK may be lost. */
  datatype PollOutcome = NoData | Nak | Stall | Data(ackArrives: bool)

  datatype Poller = Poller(expected: bool, errors: nat, failed: bool)

  /** The device's side: the report it is on and the toggle it sends it with. */
  datatype Source = Source(index: nat, toggle: bool)

  /** exposed is every report handed to the stream. */
  datatype InLink = InLink(poller: Poller, source: Source, exposed: seq<Packet>)

  const IN_START: InLink := InLink(Poller(false, 0, false), Source(0, false), [])

  predicate Exposable(r: Packet, maxPacket: nat) { 0 < |r| <= maxPacket }

  /** Three errors in a row end the polling. */
  function Erred(p: Poller, expected: bool): Poller {
    if p.errors >= MAX_TRANSPORT_ERRORS - 1 then Poller(expected, MAX_TRANSPORT_ERRORS, true)
    else Poller(expected, p.errors + 1, false)
  }

  /** What the poller makes of a report acknowledged with this toggle. */
  function Received(p: Poller, toggle: bool, r: Packet, maxPacket: nat): Poller {
    if toggle != p.expected then Poller(p.expected, 0, false)
    else if |r| > maxPacket then Erred(p, !p.expected)
    else Poller(!p.expected, 0, false)
  }

  /** The transaction's status, acted on; r is the report the device sent with this toggle. */
  function PollerAfter(p: Poller, o: PollOutcome, toggle: bool, r: Packet, maxPacket: nat): Poller {
    match o
    case NoData => Erred(p, p.expected)
    case Nak => Poller(p.expected, 0, false)
    case Stall => Poller(p.expected, p.errors, true)
    case Data(_) => if |r| > RECEIVE_BYTES then Erred(p, p.expected) else Received(p, toggle, r, maxPacket)
  }

  predicate Exposes(p: Poller, o: PollOutcome, toggle: bool, r: Packet, maxPacket: nat) {
    o.Data? && |r| <= RECEIVE_BYTES && toggle == p.expected && Exposable(r, maxPacket)
  }

  function NextIn(l: InLink, reports: nat -> Packet, maxPacket: nat, o: PollOutcome): InLink {
    var p, d, r := l.poller, l.source, reports(l.source.index);
    if p.failed then l
    else
      InLink(PollerAfter(p, o, d.toggle, r, maxPacket),
             if o.Data? && o.ackArrives && |r| <= RECEIVE_BYTES then Source(d.index + 1, !d.toggle) else d,
             if Exposes(p, o, d.toggle, r, maxPacket) then l.exposed + [r] else l.exposed)
  }

  class InterruptInPoller {
    var expectedToggle: bool
    var errorCount: nat
    var failed: bool

    constructor ()
      ensures State() == IN_START.poller
    {
      expectedToggle, errorCount, failed := false, 0, false;
    }

    function State(): Poller
      reads this
    {
      Poller(expectedToggle, errorCount, failed)
    }

    method RecordTransportError()
      modifies `errorCount, `failed
      requires !failed
      ensures State() == Erred(old(State()), expectedToggle)
    {
      if errorCount >= MAX_TRANSPORT_ERRORS - 1 {
        errorCount, failed := MAX_TRANSPORT_ERRORS, true;
      } else {
        errorCount := errorCount + 1;
      }
    }

    /** transaction.done: exposes says whether the report is copied and streamed. */
    method Done(o: PollOutcome, toggle: bool, r: Packet, maxPacket: nat) returns (exposes: bool)
      requires !failed
      modifies this
      ensures State() == PollerAfter(old(State()), o, toggle, r, maxPacket)
      ensures exposes == Exposes(old(State()), o, toggle, r, maxPacket)
    {
      exposes := false;
      if o.Nak? {
        errorCount := 0;
      } else if o.Stall? {
        failed := true;
      } else if o.NoData? || |r| > RECEIVE_BYTES {
        RecordTransportError();
      } else if toggle != expectedToggle {
        errorCount := 0;
      } else {
        expectedToggle := !expectedToggle;
        if |r| > maxPacket {
          RecordTransportError();
        } else {
          errorCount, exposes := 0, |r| != 0;
        }
      }
    }
  }

  /** The in-bound reports among the device's first n, in order. */
  function InBound(reports: nat -> Packet, maxPacket: nat, n: nat): seq<Packet> {
    if n == 0 then []
    else
      InBound(reports, maxPacket, n - 1) +
      if Exposable(reports(n - 1), maxPacket) then [reports(n - 1)] else []
  }

  /** In step, or one ACK behind: then the device still sends a report the poller already has. */
  predicate InInv(l: InLink, reports: nat -> Packet, maxPacket: nat) {
    var seen := if l.poller.expected == l.source.toggle then l.source.index else l.source.index + 1;
    l.exposed == InBound(reports, maxPacket, seen) &&
    (l.poller.expected != l.source.toggle ==> |reports(l.source.index)| <= RECEIVE_BYTES)
  }

  lemma InStep(l: InLink, reports: nat -> Packet, maxPacket: nat, o: PollOutcome)
    requires InInv(l, reports, maxPacket)
    ensures InInv(NextIn(l, reports, maxPacket, o), reports, maxPacket)
  {
  }

  function RunIn(reports: nat -> Packet, maxPacket: nat, os: seq<PollOutcome>, n: nat): InLink
    requires n <= |os|
  {
    if n == 0 then IN_START else NextIn(RunIn(reports, maxPacket, os, n - 1), reports, maxPacket, os[n - 1])
  }

  lemma {:induction false} RunInKeeps(reports: nat -> Packet, maxPacket: nat, os: seq<PollOutcome>, n: nat)
    requires n <= |os|
    ensures InInv(RunIn(reports, maxPacket, os, n), reports, maxPacket)
    decreases n
  {
    if n > 0 {
      RunInKeeps(reports, maxPacket, os, n - 1);
      InStep(RunIn(reports, maxPacket, os, n - 1), reports, maxPacket, os[n - 1]);
    }
  }

  /** Whatever is lost, every in-bound report the device has moved past was exposed once, in order,
   *  and nothing else was, save perhaps the one whose ACK is still owed. */
  lemma ExposesOnceInOrder(reports: nat -> Packet, maxPacket: nat, os: seq<PollOutcome>)
    ensures var l := RunIn(reports, maxPacket, os, |os|);
            l.exposed == InBound(reports, maxPacket, l.source.index) ||
            l.exposed == InBound(reports, maxPacket, l.source.index + 1)
  {
    RunInKeeps(reports, maxPacket, os, |os|);
  }

  // ---- The poller's buffer ------------------------------------------------------------------

  /** A word of the report stream: a byte with its first and last flags. */
  datatype Word = Word(data: U8, first: bool, last: bool)

  class ReportBuffer {
    const memory: array<U8>
    var reportLength: nat
    var full: bool

    constructor ()
      ensures memory.Length == RECEIVE_BYTES && fresh(memory) && !full
    {
      memory := new U8[RECEIVE_BYTES];
      reportLength, full := 0, false;
    }

    /** Copy out of the engine's receive memory, one byte a cycle. */
    method Copy(received: Packet)
      requires memory.Length == RECEIVE_BYTES && 0 < |received| <= RECEIVE_BYTES && !full
      modifies this, memory
      ensures full && reportLength == |received| && memory[..reportLength] == received
    {
      reportLength := |received|;
      var copyIndex := 0;
      while copyIndex < reportLength
        invariant copyIndex <= reportLength == |received|
        invariant memory[..copyIndex] == received[..copyIndex]
      {
        memory[copyIndex] := received[copyIndex];
        copyIndex := copyIndex + 1;
      }
      full := true;
    }

    /** The stream hands the report on, byte by byte, and only then may the next poll start. */
    method Drain() returns (words: seq<Word>)
      requires memory.Length == RECEIVE_BYTES && full && 0 < reportLength <= RECEIVE_BYTES
      modifies this
      ensures !full && |words| == old(reportLength)
      ensures forall i :: 0 <= i < |words| ==>
                words[i] == Word(memory[i], i == 0, i == |words| - 1)
    {
      words := [];
      var streamIndex := 0;
      while streamIndex < reportLength
        invariant streamIndex == |words| <= reportLength == old(reportLength)
        invariant forall i :: 0 <= i < |words| ==>
                    words[i] == Word(memory[i], i == 0, i == reportLength - 1)
      {
        words := words + [Word(memory[streamIndex], streamIndex == 0, streamIndex == reportLength - 1)];
        streamIndex := streamIndex + 1;
      }
      full, reportLength := false, 0;
    }
  }

  // ---- The OUT writer -----------------------------------------------------------------------

  /** What ends an attempt, or the packet between two: it is lost, refused, stalled, arrives with or
   *  without its ACK arriving back, or a flush drops it before its next attempt. */
  datatype SendOutcome = Lost | Refused | Stalled | Arrives(ackArrives: bool) | Flushed

  /** index is the packet being sent; attempts counts its failures since the last NAK. */
  datatype Writer = Writer(index: nat, toggle: bool, attempts: nat)

  /**
   * accepted lists the packets the device took, written those the writer counted, dirty those dropped
   * after an attempt had arrived; arrived says an attempt of the packet being sent has.
   */
  datatype OutLink = OutLink(
    writer: Writer, expected: bool, accepted: seq<nat>, written: seq<nat>, dropped: nat, dirty: seq<nat>,
    arrived: bool)

  const OUT_START: OutLink := OutLink(Writer(0, false, 0), false, [], [], 0, [], false)

  function DropWriter(w: Writer): Writer { Writer(w.index + 1, w.toggle, 0) }

  /** No handshake: resend with the same toggle, until the budget is gone. */
  predicate Exhausted(w: Writer) { w.attempts >= MAX_TRANSPORT_ERRORS - 1 }

  function NextWriter(w: Writer, o: SendOutcome): Writer {
    if o == Arrives(true) then Writer(w.index + 1, !w.toggle, 0)
    else if o == Refused then Writer(w.index, w.toggle, 0)
    else if o == Stalled || o == Flushed || Exhausted(w) then DropWriter(w)
    else Writer(w.index, w.toggle, w.attempts + 1)
  }

  predicate Drops(w: Writer, o: SendOutcome) {
    o == Stalled || o == Flushed || ((o == Lost || o == Arrives(false)) && Exhausted(w))
  }

  class InterruptOutWriter {
    ghost var index: nat
    var toggle: bool
    var attempts: nat

    constructor ()
      ensures State() == OUT_START.writer
    {
      index, toggle, attempts := 0, false, 0;
    }

    ghost function State(): Writer
      reads this
    {
      Writer(index, toggle, attempts)
    }

    /** SEND's verdict on an attempt, or READY's flush: the two pulses say how the packet ended. */
    method Done(o: SendOutcome) returns (written: bool, dropped: bool)
      modifies this
      ensures State() == NextWriter(old(State()), o)
      ensures written == (o == Arrives(true)) && dropped == Drops(old(State()), o)
    {
      written, dropped := false, false;
      if o == Arrives(true) {
        toggle, written := !toggle, true;
      } else if o.Refused? {
        attempts := 0;
      } else if o.Stalled? || o.Flushed? {
        dropped := true;
      } else if attempts >= MAX_TRANSPORT_ERRORS - 1 {
        dropped := true;
      } else {
        attempts := attempts + 1;
      }
      if written || dropped {
        index, attempts := index + 1, 0;
      }
    }
  }

  /** A device takes a packet with the toggle it expects and discards any other; it ACKs both. */
  predicate Takes(l: OutLink, o: SendOutcome) { o.Arrives? && l.writer.toggle == l.expected }

  function NextOut(l: OutLink, o: SendOutcome): OutLink {
    var arrived := l.arrived || o.Arrives?;
    var dropped := Drops(l.writer, o);
    OutLink(
      NextWriter(l.writer, o),
      if Takes(l, o) then !l.expected else l.expected,
      if Takes(l, o) then l.accepted + [l.writer.index] else l.accepted,
      if o == Arrives(true) then l.written + [l.writer.index] else l.written,
      if dropped then l.dropped + 1 else l.dropped,
      if dropped && arrived then l.dirty + [l.writer.index] else l.dirty,
      arrived && o != Arrives(true) && !dropped)
  }

  predicate Rising(s: seq<nat>, bound: nat) {
    (forall j, k :: 0 <= j < k < |s| ==> s[j] < s[k]) && forall k :: 0 <= k < |s| ==> s[k] < bound
  }

  function UpTo(n: nat): seq<nat> { seq(n, i => i) }

  /** The toggles are apart: the device will discard what arrives. */
  predicate Apart(l: OutLink) { l.writer.toggle != l.expected }

  /** Some packet before p was dropped after an attempt of it had arrived, and none was written since. */
  predicate AfterDirtyDrop(dirty: seq<nat>, written: seq<nat>, p: nat) {
    exists q :: q in dirty && q < p && forall r :: r in written ==> !(q < r < p)
  }

  /** Packets below this may have reached the device. */
  function Reach(l: OutLink): nat { if l.arrived then l.writer.index + 1 else l.writer.index }

  predicate OutInv(l: OutLink) {
    Rising(l.accepted, Reach(l)) && Rising(l.written, l.writer.index) && Rising(l.dirty, l.writer.index) &&
    (forall p :: p in l.written ==> p !in l.dirty) &&
    (Apart(l) <==> l.arrived || AfterDirtyDrop(l.dirty, l.written, l.writer.index)) &&
    (l.arrived ==> (l.writer.index in l.accepted <==> !AfterDirtyDrop(l.dirty, l.written, l.writer.index))) &&
    (forall p :: p in l.written ==> (p !in l.accepted <==> AfterDirtyDrop(l.dirty, l.written, p))) &&
    (l.dropped == 0 ==>
       l.dirty == [] && l.written == UpTo(l.writer.index) && l.accepted == UpTo(Reach(l)))
  }

  lemma UpToGrows(n: nat)
    ensures UpTo(n) + [n] == UpTo(n + 1)
  {
  }

  lemma RisingGrows(s: seq<nat>, x: nat)
    requires Rising(s, x)
    ensures Rising(s + [x], x + 1) && Rising(s, x + 1) && x !in s
  {
  }

  /** Later packets do not change what came before an earlier one. */
  lemma LaterDoesNotMatter(dirty: seq<nat>, written: seq<nat>, more: seq<nat>, moreWritten: seq<nat>, p: nat)
    requires forall q :: q in more ==> q >= p
    requires forall r :: r in moreWritten ==> r >= p
    ensures AfterDirtyDrop(dirty + more, written + moreWritten, p) <==> AfterDirtyDrop(dirty, written, p)
  {
    if AfterDirtyDrop(dirty, written, p) {
      var q :| q in dirty && q < p && forall r :: r in written ==> !(q < r < p);
      assert q in dirty + more;
    }
    if AfterDirtyDrop(dirty + more, written + moreWritten, p) {
      var q :| q in dirty + more && q < p && forall r :: r in written + moreWritten ==> !(q < r < p);
      assert q in dirty;
      forall r | r in written
        ensures !(q < r < p)
      {
        assert r in written + moreWritten;
      }
    }
  }

  lemma AcceptedRises(l: OutLink, o: SendOutcome)
    requires OutInv(l)
    ensures Rising(NextOut(l, o).accepted, Reach(NextOut(l, o)))
  {
    if Takes(l, o) {
      RisingGrows(l.accepted, l.writer.index);
    }
  }

  /** Until the first drop the device has every packet in turn. */
  lemma AcceptedIsWhole(l: OutLink, o: SendOutcome)
    requires OutInv(l) && l.dropped == 0 == NextOut(l, o).dropped
    ensures NextOut(l, o).accepted == UpTo(Reach(NextOut(l, o)))
  {
    assert !AfterDirtyDrop(l.dirty, l.written, l.writer.index);
    UpToGrows(l.writer.index);
  }

  lemma WrittenRises(l: OutLink, o: SendOutcome)
    requires OutInv(l)
    ensures var m := NextOut(l, o);
      Rising(m.written, m.writer.index) && (m.dropped == 0 ==> m.written == UpTo(m.writer.index))
  {
    RisingGrows(l.written, l.writer.index);
    UpToGrows(l.writer.index);
  }

  lemma DirtyRises(l: OutLink, o: SendOutcome)
    requires OutInv(l)
    ensures var m := NextOut(l, o); Rising(m.dirty, m.writer.index) && (m.dropped == 0 ==> m.dirty == [])
    ensures forall p :: p in NextOut(l, o).written ==> p !in NextOut(l, o).dirty
  {
    RisingGrows(l.dirty, l.writer.index);
  }

  /** The packet being sent: whether the device has it. */
  lemma CurrentKept(l: OutLink, o: SendOutcome)
    requires OutInv(l)
    ensures var m, index := NextOut(l, o), l.writer.index;
            (l.arrived || o.Arrives? ==> (index in m.accepted <==> !AfterDirtyDrop(l.dirty, l.written, index))) &&
            (!(l.arrived || o.Arrives?) ==> index !in m.accepted)
  {
    if !l.arrived {
      RisingGrows(l.accepted, l.writer.index);
    }
  }

  /** Everything written before keeps its fate. */
  lemma WrittenKept(l: OutLink, o: SendOutcome, p: nat)
    requires OutInv(l) && p in l.written
    ensures var m := NextOut(l, o); p !in m.accepted <==> AfterDirtyDrop(m.dirty, m.written, p)
  {
    var m, index := NextOut(l, o), l.writer.index;
    assert p < index && (p in m.accepted <==> p in l.accepted);
    var more := if Drops(l.writer, o) && (l.arrived || o.Arrives?) then [index] else [];
    var moreWritten := if o == Arrives(true) then [index] else [];
    assert m.dirty == l.dirty + more && m.written == l.written + moreWritten;
    LaterDoesNotMatter(l.dirty, l.written, more, moreWritten, p);
  }

  /** Whether the next packet meets the device's toggle. */
  lemma DebtKept(l: OutLink, o: SendOutcome)
    requires OutInv(l)
    ensures var m := NextOut(l, o);
            Apart(m) <==> m.arrived || AfterDirtyDrop(m.dirty, m.written, m.writer.index)
  {
    var m, index := NextOut(l, o), l.writer.index;
    if o == Arrives(true) {
      assert index in m.written;
      forall q | q in m.dirty && q < index + 1
        ensures exists r :: r in m.written && q < r < index + 1
      {
        assert q != index;
      }
    } else if Drops(l.writer, o) {
      if l.arrived || o.Arrives? {
        assert index in m.dirty;
        assert forall r :: r in m.written ==> r < index;
      } else {
        NothingDroppedMeanwhile(l.dirty, l.written, index);
      }
    }
  }

  /** A packet that comes and goes without a trace leaves the debt to the next. */
  lemma NothingDroppedMeanwhile(dirty: seq<nat>, written: seq<nat>, p: nat)
    requires forall q :: q in dirty ==> q < p
    requires forall r :: r in written ==> r < p
    ensures AfterDirtyDrop(dirty, written, p + 1) <==> AfterDirtyDrop(dirty, written, p)
  {
    if AfterDirtyDrop(dirty, written, p) {
      var q :| q in dirty && q < p && forall r :: r in written ==> !(q < r < p);
      assert forall r :: r in written ==> !(q < r < p + 1);
    }
    if AfterDirtyDrop(dirty, written, p + 1) {
      var q :| q in dirty && q < p + 1 && forall r :: r in written ==> !(q < r < p + 1);
      assert forall r :: r in written ==> !(q < r < p);
    }
  }

  lemma FatesKept(l: OutLink, o: SendOutcome)
    requires OutInv(l)
    ensures var m := NextOut(l, o);
            forall p :: p in m.written ==> (p !in m.accepted <==> AfterDirtyDrop(m.dirty, m.written, p))
  {
    var m := NextOut(l, o);
    forall p | p in m.written
      ensures p !in m.accepted <==> AfterDirtyDrop(m.dirty, m.written, p)
    {
      if p in l.written {
        WrittenKept(l, o, p);
      } else {
        assert p == l.writer.index && m.written == l.written + [p] && m.dirty == l.dirty + [];
        CurrentKept(l, o);
        LaterDoesNotMatter(l.dirty, l.written, [], [p], p);
      }
    }
  }

  lemma OutStep(l: OutLink, o: SendOutcome)
    requires OutInv(l)
    ensures OutInv(NextOut(l, o))
  {
    AcceptedRises(l, o);
    if NextOut(l, o).dropped == 0 {
      AcceptedIsWhole(l, o);
    }
    WrittenRises(l, o);
    DirtyRises(l, o);
    CurrentKept(l, o);
    DebtKept(l, o);
    FatesKept(l, o);
  }

  function RunOut(os: seq<SendOutcome>, n: nat): OutLink
    requires n <= |os|
  {
    if n == 0 then OUT_START else NextOut(RunOut(os, n - 1), os[n - 1])
  }

  lemma {:induction false} RunOutKeeps(os: seq<SendOutcome>, n: nat)
    requires n <= |os|
    ensures OutInv(RunOut(os, n))
    decreases n
  {
    if n > 0 {
      RunOutKeeps(os, n - 1);
      OutStep(RunOut(os, n - 1), os[n - 1]);
    }
  }

  /** The device takes each packet at most once and in order, whatever is lost, dropped or flushed; and
   *  until the first drop, every packet counted as written exactly once. */
  lemma TakesOnceInOrder(os: seq<SendOutcome>)
    ensures var l := RunOut(os, |os|);
            (forall j, k :: 0 <= j < k < |l.accepted| ==> l.accepted[j] < l.accepted[k]) &&
            (l.dropped == 0 ==> l.written <= l.accepted && |l.accepted| <= |l.written| + 1)
  {
    RunOutKeeps(os, |os|);
  }

  /**
   * After a drop it can fail, and exactly so: over every run, a packet counted as written was never taken
   * by the device if and only if it is the first one written after the drop of a packet an attempt of
   * which had arrived. That attempt's lost ACK leaves the toggles apart, and the device discards what it
   * takes for a repeat.
   */
  lemma WrittenButLost(os: seq<SendOutcome>, p: nat)
    requires p in RunOut(os, |os|).written
    ensures var l := RunOut(os, |os|); p !in l.accepted <==> AfterDirtyDrop(l.dirty, l.written, p)
  {
    RunOutKeeps(os, |os|);
  }

  /** Every dropped packet an attempt of which arrived, and only those, is on the dirty list. */
  lemma DirtyDrops(os: seq<SendOutcome>, n: nat)
    requires n < |os|
    ensures var l, m := RunOut(os, n), RunOut(os, n + 1);
            m.dirty == l.dirty +
              (if Drops(l.writer, os[n]) && (l.arrived || os[n].Arrives?) then [l.writer.index] else []) &&
            (m.arrived <==> (l.arrived || os[n].Arrives?) && m.writer.index == l.writer.index)
  {
  }

  /** A lost ACK and a flush are enough. */
  lemma FlushLosesThePacketAfter()
    ensures var l := RunOut([Arrives(false), Flushed, Arrives(true)], 3);
            l.dropped == 1 && l.written == [1] && l.accepted == [0]
  {
    var os := [Arrives(false), Flushed, Arrives(true)];
    var l1 := NextOut(OUT_START, os[0]);
    var l2 := NextOut(l1, os[1]);
    assert RunOut(os, 0) == OUT_START && RunOut(os, 1) == l1 && RunOut(os, 2) == l2;
    assert l2.accepted == [] + [0];
  }

  /** So are three lost ACKs in a row. */
  lemma LostAcksReachIt()
    ensures var l := RunOut([Arrives(false), Arrives(false), Arrives(false), Arrives(true)], 4);
            l.dropped == 1 && l.written == [1] && l.accepted == [0]
  {
    var os := [Arrives(false), Arrives(false), Arrives(false), Arrives(true)];
    var l1 := NextOut(OUT_START, os[0]);
    var l2 := NextOut(l1, os[1]);
    var l3 := NextOut(l2, os[2]);
    assert RunOut(os, 0) == OUT_START && RunOut(os, 1) == l1 && RunOut(os, 2) == l2;
    assert RunOut(os, 3) == l3;
    assert l3.accepted == [] + [0];
  }
}
