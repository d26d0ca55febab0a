/** When the interrupt endpoints give up: the poller for good, the writer on a packet. */
module InterruptErrors {
  import opened InterruptLinks

  // ---- The poller -----------------------------------------------------------------------------

  /** Poll i brings nothing of use: no packet, one past 64 bytes, or a new one past the endpoint's size. */
  predicate Errs(reports: nat -> Packet, maxPacket: nat, os: seq<PollOutcome>, i: nat)
    requires i < |os|
  {
    var l := RunIn(reports, maxPacket, os, i);
    var r := reports(l.source.index);
    os[i] == NoData ||
    (os[i].Data? && (|r| > 64 || (l.source.toggle == l.poller.expected && |r| > maxPacket)))
  }

  /** A STALL, or the third error in a row. */
  predicate Ends(reports: nat -> Packet, maxPacket: nat, os: seq<PollOutcome>, i: nat)
    requires i < |os|
  {
    os[i] == Stall ||
    (i >= 2 && Errs(reports, maxPacket, os, i - 2) && Errs(reports, maxPacket, os, i - 1) &&
     Errs(reports, maxPacket, os, i))
  }

  predicate Ended(reports: nat -> Packet, maxPacket: nat, os: seq<PollOutcome>, n: nat)
    requires n <= |os|
  {
    exists i :: 0 <= i < n && Ends(reports, maxPacket, os, i)
  }

  /** Errors in a row before poll n. */
  function InARow(reports: nat -> Packet, maxPacket: nat, os: seq<PollOutcome>, n: nat): nat
    requires n <= |os|
  {
    if n > 0 && Errs(reports, maxPacket, os, n - 1) then InARow(reports, maxPacket, os, n - 1) + 1 else 0
  }

  lemma RowOfThree(reports: nat -> Packet, maxPacket: nat, os: seq<PollOutcome>, n: nat)
    requires n < |os|
    ensures InARow(reports, maxPacket, os, n) >= 2 && Errs(reports, maxPacket, os, n) <==>
            n >= 2 && Errs(reports, maxPacket, os, n - 2) && Errs(reports, maxPacket, os, n - 1) &&
            Errs(reports, maxPacket, os, n)
  {
  }

  lemma PollStep(l: InLink, reports: nat -> Packet, maxPacket: nat, o: PollOutcome)
    requires !l.poller.failed && l.poller.errors <= 2
    ensures var n, r := NextIn(l, reports, maxPacket, o), reports(l.source.index);
            var errs := o == NoData ||
                        (o.Data? && (|r| > 64 || (l.source.toggle == l.poller.expected && |r| > maxPacket)));
            (n.poller.failed <==> o == Stall || (errs && l.poller.errors == 2)) &&
            (!n.poller.failed ==> n.poller.errors == if errs then l.poller.errors + 1 else 0)
  {
  }

  lemma {:induction false} CountsInARow(reports: nat -> Packet, maxPacket: nat, os: seq<PollOutcome>, n: nat)
    requires n <= |os|
    ensures var p := RunIn(reports, maxPacket, os, n).poller;
            (p.failed <==> Ended(reports, maxPacket, os, n)) &&
            (!p.failed ==> p.errors == InARow(reports, maxPacket, os, n) <= 2)
    decreases n
  {
    if n > 0 {
      CountsInARow(reports, maxPacket, os, n - 1);
      var l := RunIn(reports, maxPacket, os, n - 1);
      RowOfThree(reports, maxPacket, os, n - 1);
      assert Ended(reports, maxPacket, os, n) <==>
             Ended(reports, maxPacket, os, n - 1) || Ends(reports, maxPacket, os, n - 1);
      if !l.poller.failed {
        PollStep(l, reports, maxPacket, os[n - 1]);
      }
    }
  }

  /** Polling stops for good with the first STALL or the third error in a row, and with nothing else: any report
   *  that can be used, a repeated one and a NAK all start the count afresh. */
  lemma PollingStops(reports: nat -> Packet, maxPacket: nat, os: seq<PollOutcome>, n: nat)
    requires n <= |os|
    ensures RunIn(reports, maxPacket, os, n).poller.failed <==> Ended(reports, maxPacket, os, n)
  {
    CountsInARow(reports, maxPacket, os, n);
  }

  // ---- The writer -----------------------------------------------------------------------------

  /** The attempt brings no handshake. */
  predicate Unheard(o: SendOutcome) { o == Lost || o == Arrives(false) }

  /** Attempts in a row without a handshake before attempt n, the packet the same. */
  function Silences(os: seq<SendOutcome>, n: nat): nat
    requires n <= |os|
  {
    if n == 0 || !Unheard(os[n - 1]) then 0
    else if Silences(os, n - 1) == 2 then 0 else Silences(os, n - 1) + 1
  }

  lemma {:induction false} CountsSilences(os: seq<SendOutcome>, n: nat)
    requires n <= |os|
    ensures RunOut(os, n).writer.attempts == Silences(os, n) <= 2
    decreases n
  {
    if n > 0 {
      CountsSilences(os, n - 1);
    }
  }

  /** A packet is dropped by a STALL, by a flush, or by the third attempt in a row that brings no handshake; a
   *  NAK starts the count afresh, and only a drop or an ACK moves on to the next packet. */
  lemma PacketIsDropped(os: seq<SendOutcome>, n: nat)
    requires n < |os|
    ensures var w, v := RunOut(os, n), RunOut(os, n + 1);
            var drops := os[n] == Stalled || os[n] == Flushed || (Unheard(os[n]) && Silences(os, n) == 2);
            v.dropped == w.dropped + (if drops then 1 else 0) &&
            v.writer.index == w.writer.index + (if drops || os[n] == Arrives(true) then 1 else 0) &&
            v.writer.toggle == (if os[n] == Arrives(true) then !w.writer.toggle else w.writer.toggle)
  {
    CountsSilences(os, n);
  }
}
