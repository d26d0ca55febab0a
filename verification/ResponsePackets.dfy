/** RESPOND: a forwarded response split into packets, each resent until its ACK arrives. */
module ResponsePackets {
  type U8 = x: int | 0 <= x < 0x100

  const BUFFER_BYTES: nat := 64

  /** pkt_base, tx_data_pid (true is DATA1) and whether a packet's ACK is due. */
  datatype Sender = Sender(base: nat, pid: bool, expectingAck: bool)

  /** The AUX host's side of the data stage: the PID it expects next and what it has put together. */
  datatype Host = Host(expected: bool, got: seq<U8>, done: bool)

  /** A response, the packet size it is split at, and the wLength the host asked for. */
  datatype Transfer = Transfer(response: seq<U8>, packet: nat, requested: nat)

  /** What a target may answer: no more than the buffer holds or the host asked for. */
  predicate Sound(t: Transfer) {
    |t.response| <= BUFFER_BYTES && |t.response| <= t.requested && 0 < t.packet <= BUFFER_BYTES
  }

  function End(t: Transfer, base: nat): nat {
    if |t.response| < base + t.packet then |t.response| else base + t.packet
  }

  /** The packet the next IN token gets: empty once everything has been acknowledged. */
  function Packet(t: Transfer, base: nat): seq<U8>
    requires base <= |t.response|
  {
    t.response[base..End(t, base)]
  }

  /** One IN token: did the data packet arrive, and if so did the ACK? */
  datatype Exchange = Exchange(dataArrives: bool, ackArrives: bool)

  datatype Link = Link(sender: Sender, host: Host)

  const START: Link := Link(Sender(0, true, false), Host(true, [], false))

  function Deliver(t: Transfer, h: Host, pid: bool, data: seq<U8>): Host {
    if pid != h.expected then h
    else
      var got := h.got + data;
      Host(!h.expected, got, |data| < t.packet || |got| >= t.requested)
  }

  function Acked(t: Transfer, s: Sender): Sender {
    if s.expectingAck then Sender(End(t, s.base), !s.pid, false) else s
  }

  /** A host that has the whole response sends no more IN tokens. */
  function Next(t: Transfer, l: Link, x: Exchange): Link
    requires l.sender.base <= |t.response|
  {
    if l.host.done then l
    else
      var sent := Sender(l.sender.base, l.sender.pid, true);
      if !x.dataArrives then Link(sent, l.host)
      else
        var host := Deliver(t, l.host, sent.pid, Packet(t, sent.base));
        Link(if x.ackArrives then Acked(t, sent) else sent, host)
  }

  // ---- The registers ------------------------------------------------------------------------

  class ForwardedResponder {
    var base: nat
    var pid: bool
    var expectingAck: bool

    constructor ()
      ensures State() == START.sender
    {
      base, pid, expectingAck := 0, true, false;
    }

    function State(): Sender
      reads this
    {
      Sender(base, pid, expectingAck)
    }

    /** An IN token: the packet streams out of the relay's buffer from pkt_base to pkt_last. */
    method Answer(t: Transfer) returns (data: seq<U8>)
      requires Sound(t) && base <= |t.response|
      modifies `expectingAck
      ensures data == Packet(t, base) && State() == Sender(base, pid, true)
    {
      expectingAck, data := true, [];
      var end := if |t.response| < base + t.packet then |t.response| else base + t.packet;
      var cursor := base;
      while cursor < end
        invariant base <= cursor <= end
        invariant data == t.response[base..cursor]
      {
        data := data + [t.response[cursor]];
        cursor := cursor + 1;
      }
    }

    /** The host's ACK after an IN to endpoint 0. */
    method Advance(t: Transfer)
      requires Sound(t) && base <= |t.response|
      modifies this
      ensures State() == Acked(t, old(State()))
    {
      if expectingAck {
        base := if |t.response| < base + t.packet then |t.response| else base + t.packet;
        pid, expectingAck := !pid, false;
      }
    }
  }

  // ---- Every loss pattern -------------------------------------------------------------------

  /** How much of the response the host has, given whether it already has the sender's current packet. */
  function Held(t: Transfer, l: Link): nat {
    if l.host.expected == l.sender.pid then l.sender.base else End(t, l.sender.base)
  }

  predicate Inv(t: Transfer, l: Link) {
    Sound(t) && l.sender.base <= |t.response| && Held(t, l) <= |t.response| &&
    l.host.got == t.response[..Held(t, l)] &&
    (l.host.expected != l.sender.pid ==> l.sender.expectingAck) &&
    (l.host.done ==> l.host.got == t.response) &&
    (!l.host.done && l.host.expected != l.sender.pid ==> End(t, l.sender.base) == l.sender.base + t.packet)
  }

  lemma NextKeepsInv(t: Transfer, l: Link, x: Exchange)
    requires Inv(t, l)
    ensures Inv(t, Next(t, l, x))
  {
    if !l.host.done && x.dataArrives && l.host.expected == l.sender.pid {
      assert t.response[..l.sender.base] + Packet(t, l.sender.base) == t.response[..End(t, l.sender.base)];
    }
  }

  function Run(t: Transfer, xs: seq<Exchange>, n: nat): (l: Link)
    requires Sound(t) && n <= |xs|
    ensures Inv(t, l)
  {
    if n == 0 then START
    else
      var before := Run(t, xs, n - 1);
      NextKeepsInv(t, before, xs[n - 1]);
      Next(t, before, xs[n - 1])
  }

  /** Whatever is lost, repeated or acknowledged late, the host never holds a byte too many, too few
   *  or out of place: a prefix while the stage runs, the whole response once it ends. */
  lemma Reassembles(t: Transfer, xs: seq<Exchange>, n: nat)
    requires Sound(t) && n <= |xs|
    ensures var h := Run(t, xs, n).host; h.got <= t.response && (h.done ==> h.got == t.response)
  {
    var l := Run(t, xs, n);
    assert t.response[..Held(t, l)] <= t.response;
  }

  /** Exchanges of the first n in which both packets got through. */
  function Clean(xs: seq<Exchange>, n: nat): nat
    requires n <= |xs|
  {
    if n == 0 then 0 else Clean(xs, n - 1) + if xs[n - 1].dataArrives && xs[n - 1].ackArrives then 1 else 0
  }

  /** A clean exchange ends the stage or moves the sender on. */
  lemma CleanProgress(t: Transfer, l: Link)
    requires Inv(t, l) && !l.host.done
    ensures var m := Next(t, l, Exchange(true, true));
            m.host.done || m.sender.base >= l.sender.base + 1
  {
  }

  lemma {:induction false} CleanMovesOn(t: Transfer, xs: seq<Exchange>, n: nat)
    requires Sound(t) && n <= |xs|
    ensures Run(t, xs, n).host.done || Run(t, xs, n).sender.base >= Clean(xs, n)
    decreases n
  {
    if n > 0 {
      CleanMovesOn(t, xs, n - 1);
      if !Run(t, xs, n - 1).host.done {
        CleanProgress(t, Run(t, xs, n - 1));
      }
    }
  }

  /** So the stage always ends: a response of k bytes needs at most k + 1 clean exchanges, one of them
   *  the zero-length packet when k is a multiple of the packet size and more was asked for. */
  lemma Completes(t: Transfer, xs: seq<Exchange>)
    requires Sound(t) && Clean(xs, |xs|) > |t.response|
    ensures Run(t, xs, |xs|).host.done && Run(t, xs, |xs|).host.got == t.response
  {
    CleanMovesOn(t, xs, |xs|);
  }

  /** The data stage of an exact multiple ends with a zero-length packet, unless wLength is met. */
  lemma EndsWithShortPacket(t: Transfer, l: Link, x: Exchange)
    requires Inv(t, l) && !l.host.done && Next(t, l, x).host.done
    ensures |Packet(t, l.sender.base)| < t.packet || |t.response| == t.requested
  {
  }
}
