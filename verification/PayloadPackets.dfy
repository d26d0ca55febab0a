/**
 The PC's OUT data stage, packet by packet, into CAPTURE_OUT: when the bytes handed to the relay are the
 PC's. Section 8.5.3 of USB 2.0.
 */
module PayloadPackets {
  type U8 = x: int | 0 <= x < 0x100

  /** The width of the handler's byte counter. */
  const CURSOR_MODULUS: nat := 0x1_0000

  /** The PC has these wLength bytes to send, in packets of endpoint 0's size. */
  datatype Transfer = Transfer(payload: seq<U8>, packet: nat)

  /**
   * One OUT token with its data packet. Missed: none of it is forwarded; it is lost, or NAKed for having
   * begun before the capture. Damaged: its bytes are forwarded as they come, but it fails its checksum and
   * gets no handshake. Good: it is forwarded and acknowledged, and the ACK arrives or is lost.
   */
  datatype Exchange = Missed | Damaged(bytes: seq<U8>) | Good(ackArrives: bool)

  /** forwarded is what the capture has handed on, base how much the PC has seen acknowledged. */
  datatype Stage = Stage(capturing: bool, forwarded: seq<U8>, base: nat)

  const START := Stage(true, [], 0)

  predicate Sound(t: Transfer) { t.packet > 0 }

  function End(t: Transfer, base: nat): nat {
    if |t.payload| < base + t.packet then |t.payload| else base + t.packet
  }

  /** What the PC sends next, and again until it sees it acknowledged. */
  function Packet(t: Transfer, base: nat): seq<U8>
    requires base <= |t.payload|
  {
    t.payload[base..End(t, base)]
  }

  /** The PC has a packet to send, and CAPTURE_OUT is there to take it; later it is met with silence. */
  predicate Sending(t: Transfer, g: Stage) { g.capturing && g.base < |t.payload| }

  function Next(t: Transfer, g: Stage, x: Exchange): Stage {
    if !Sending(t, g) then g
    else
      match x
      case Missed => g
      case Damaged(bytes) => g.(forwarded := g.forwarded + bytes)
      case Good(ackArrives) =>
        var forwarded := g.forwarded + Packet(t, g.base);
        Stage(|forwarded| % CURSOR_MODULUS < |t.payload|, forwarded, if ackArrives then End(t, g.base) else g.base)
  }

  function Run(t: Transfer, xs: seq<Exchange>, n: nat): (g: Stage)
    requires n <= |xs|
    ensures g.base <= |t.payload| && g.base <= |g.forwarded|
  {
    if n == 0 then START else Next(t, Run(t, xs, n - 1), xs[n - 1])
  }

  /** The relay takes the first wLength bytes. */
  function Captured(t: Transfer, g: Stage): seq<U8> {
    if |g.forwarded| < |t.payload| then g.forwarded else g.forwarded[..|t.payload|]
  }

  // ---- The condition ------------------------------------------------------------------------

  /** Exchange i forwards the whole packet that begins at base. */
  predicate Forwards(t: Transfer, xs: seq<Exchange>, i: nat, base: nat)
    requires i < |xs|
  {
    xs[i].Good? && Sending(t, Run(t, xs, i)) && Run(t, xs, i).base == base
  }

  /** This packet has been forwarded before: its ACK was lost. */
  predicate Repeated(t: Transfer, xs: seq<Exchange>, j: nat)
    requires j <= |xs|
  {
    exists i :: 0 <= i < j && Forwards(t, xs, i, Run(t, xs, j).base)
  }

  /** Exchange j puts bytes into the unfilled capture that are damaged, or there already. */
  predicate Disturbs(t: Transfer, xs: seq<Exchange>, j: nat)
    requires j < |xs|
  {
    var g := Run(t, xs, j);
    Sending(t, g) && |g.forwarded| < |t.payload| &&
    match xs[j]
    case Missed => false
    case Damaged(bytes) => bytes != []
    case Good(_) => Repeated(t, xs, j)
  }

  predicate Orderly(t: Transfer, xs: seq<Exchange>, n: nat)
    requires n <= |xs|
  {
    forall j :: 0 <= j < n ==> !Disturbs(t, xs, j)
  }

  // ---- Undisturbed, the capture is the payload ------------------------------------------------

  /** As far as it is filled the capture is the payload; unfilled, it ends where the PC's next packet
   *  begins, or after that packet if its ACK was lost. */
  predicate InOrder(t: Transfer, xs: seq<Exchange>, n: nat)
    requires n <= |xs|
  {
    var g := Run(t, xs, n);
    Captured(t, g) <= t.payload &&
    (|g.forwarded| < |t.payload| ==>
       |g.forwarded| == g.base || (|g.forwarded| == End(t, g.base) && Repeated(t, xs, n)))
  }

  lemma RepeatedStays(t: Transfer, xs: seq<Exchange>, n: nat)
    requires n < |xs| && Run(t, xs, n + 1).base == Run(t, xs, n).base
    requires Repeated(t, xs, n) || (xs[n].Good? && Sending(t, Run(t, xs, n)))
    ensures Repeated(t, xs, n + 1)
  {
    var base := Run(t, xs, n).base;
    if Repeated(t, xs, n) {
      var i :| 0 <= i < n && Forwards(t, xs, i, base);
      assert Forwards(t, xs, i, Run(t, xs, n + 1).base);
    } else {
      assert Forwards(t, xs, n, Run(t, xs, n + 1).base);
    }
  }

  lemma GoodInOrder(t: Transfer, xs: seq<Exchange>, n: nat)
    requires Sound(t) && n < |xs| && InOrder(t, xs, n) && !Disturbs(t, xs, n)
    requires xs[n].Good? && Sending(t, Run(t, xs, n))
    ensures InOrder(t, xs, n + 1)
  {
    var g := Run(t, xs, n);
    if |g.forwarded| < |t.payload| {
      assert g.forwarded == t.payload[..g.base];
      assert t.payload[..g.base] + Packet(t, g.base) == t.payload[..End(t, g.base)];
      if !xs[n].ackArrives {
        RepeatedStays(t, xs, n);
      }
    } else {
      assert Captured(t, Run(t, xs, n + 1)) == Captured(t, g);
    }
  }

  /** Whatever else happens leaves the capture as it is. */
  lemma OtherInOrder(t: Transfer, xs: seq<Exchange>, n: nat)
    requires n < |xs| && InOrder(t, xs, n) && !Disturbs(t, xs, n)
    requires !(xs[n].Good? && Sending(t, Run(t, xs, n)))
    ensures InOrder(t, xs, n + 1)
  {
    var g, h := Run(t, xs, n), Run(t, xs, n + 1);
    assert h.base == g.base && g.forwarded <= h.forwarded;
    if |g.forwarded| < |t.payload| {
      assert h.forwarded == g.forwarded;
    } else {
      assert h.forwarded[..|t.payload|] == g.forwarded[..|t.payload|];
    }
    if Repeated(t, xs, n) {
      RepeatedStays(t, xs, n);
    }
  }

  lemma {:induction false} OrderlyInOrder(t: Transfer, xs: seq<Exchange>, n: nat)
    requires Sound(t) && n <= |xs| && Orderly(t, xs, n)
    ensures InOrder(t, xs, n)
    decreases n
  {
    if n > 0 {
      OrderlyInOrder(t, xs, n - 1);
      if Sending(t, Run(t, xs, n - 1)) && xs[n - 1].Good? {
        GoodInOrder(t, xs, n - 1);
      } else {
        OtherInOrder(t, xs, n - 1);
      }
    }
  }

  // ---- Disturbed, it need not be --------------------------------------------------------------

  /** The same exchanges over other bytes. */
  predicate SameShape(t: Transfer, xs: seq<Exchange>, u: Transfer, ys: seq<Exchange>) {
    |u.payload| == |t.payload| && u.packet == t.packet && |ys| == |xs| &&
    forall j :: 0 <= j < |xs| ==>
      match xs[j]
      case Missed => ys[j] == Missed
      case Damaged(bytes) => ys[j].Damaged? && |ys[j].bytes| == |bytes|
      case Good(_) => ys[j] == xs[j]
  }

  predicate Alike(g: Stage, h: Stage) {
    h.capturing == g.capturing && h.base == g.base && |h.forwarded| == |g.forwarded|
  }

  lemma NextAlike(t: Transfer, g: Stage, x: Exchange, u: Transfer, h: Stage, y: Exchange)
    requires |u.payload| == |t.payload| && u.packet == t.packet && Alike(g, h) && g.base <= |t.payload|
    requires x.Missed? ==> y.Missed?
    requires x.Damaged? ==> y.Damaged? && |y.bytes| == |x.bytes|
    requires x.Good? ==> y == x
    ensures Alike(Next(t, g, x), Next(u, h, y))
  {
  }

  lemma {:induction false} ShapeKept(t: Transfer, xs: seq<Exchange>, u: Transfer, ys: seq<Exchange>, n: nat)
    requires SameShape(t, xs, u, ys) && n <= |xs|
    ensures Alike(Run(t, xs, n), Run(u, ys, n))
    decreases n
  {
    if n > 0 {
      ShapeKept(t, xs, u, ys, n - 1);
      NextAlike(t, Run(t, xs, n - 1), xs[n - 1], u, Run(u, ys, n - 1), ys[n - 1]);
    }
  }

  lemma {:induction false} ForwardedStays(t: Transfer, xs: seq<Exchange>, m: nat, n: nat)
    requires m <= n <= |xs|
    ensures Run(t, xs, m).forwarded <= Run(t, xs, n).forwarded
    decreases n
  {
    if m < n {
      ForwardedStays(t, xs, m, n - 1);
    }
  }

  /** A payload of zeros, with a one at k. */
  function Marked(length: nat, k: nat): (s: seq<U8>)
    ensures |s| == length && forall i :: 0 <= i < length ==> s[i] == if i == k then 1 else 0
  {
    seq(length, i => if i == k then 1 else 0)
  }

  /** All damage is ones. */
  function Loud(xs: seq<Exchange>): (ys: seq<Exchange>)
    ensures |ys| == |xs|
    ensures forall j :: 0 <= j < |xs| ==>
      ys[j] == if xs[j].Damaged? then Damaged(seq(|xs[j].bytes|, i => 1)) else xs[j]
  {
    seq(|xs|, j requires 0 <= j < |xs| =>
      if xs[j].Damaged? then Damaged(seq(|xs[j].bytes|, i => 1)) else xs[j])
  }

  lemma {:induction false} FirstDisturbance(t: Transfer, xs: seq<Exchange>, n: nat) returns (j: nat)
    requires n <= |xs| && !Orderly(t, xs, n)
    ensures j < n && Orderly(t, xs, j) && Disturbs(t, xs, j)
    decreases n
  {
    if Orderly(t, xs, n - 1) {
      j := n - 1;
    } else {
      j := FirstDisturbance(t, xs, n - 1);
    }
  }

  /** A stage whose next byte out of place is a one, over a zero. */
  lemma OneOverZero(u: Transfer, ys: seq<Exchange>, j: nat)
    requires j < |ys|
    requires var g, h := Run(u, ys, j), Run(u, ys, j + 1);
      |g.forwarded| < |u.payload| && |g.forwarded| < |h.forwarded| && h.forwarded[|g.forwarded|] == 1 &&
      u.payload[|g.forwarded|] == 0
    ensures !(Captured(u, Run(u, ys, |ys|)) <= u.payload)
  {
    var at := |Run(u, ys, j).forwarded|;
    ForwardedStays(u, ys, j + 1, |ys|);
    assert Captured(u, Run(u, ys, |ys|))[at] == 1;
  }

  lemma DamageShows(t: Transfer, xs: seq<Exchange>, j: nat) returns (u: Transfer, ys: seq<Exchange>)
    requires j < |xs| && Disturbs(t, xs, j) && xs[j].Damaged?
    ensures SameShape(t, xs, u, ys) && !(Captured(u, Run(u, ys, |ys|)) <= u.payload)
  {
    u, ys := Transfer(Marked(|t.payload|, |t.payload|), t.packet), Loud(xs);
    ShapeKept(t, xs, u, ys, j);
    assert Run(u, ys, j + 1) == Next(u, Run(u, ys, j), ys[j]);
    OneOverZero(u, ys, j);
  }

  lemma RepeatShows(t: Transfer, xs: seq<Exchange>, j: nat) returns (u: Transfer, ys: seq<Exchange>)
    requires Sound(t) && j < |xs| && Orderly(t, xs, j) && Disturbs(t, xs, j) && xs[j].Good?
    ensures SameShape(t, xs, u, ys) && !(Captured(u, Run(u, ys, |ys|)) <= u.payload)
  {
    OrderlyInOrder(t, xs, j);
    RepeatedEnds(t, xs, j);
    var base := Run(t, xs, j).base;
    u, ys := Transfer(Marked(|t.payload|, base), t.packet), Loud(xs);
    ShapeKept(t, xs, u, ys, j);
    var h := Run(u, ys, j);
    assert Run(u, ys, j + 1) == Next(u, h, ys[j]);
    assert Packet(u, base)[0] == 1;
    assert (h.forwarded + Packet(u, base))[|h.forwarded|] == 1;
    OneOverZero(u, ys, j);
  }

  /** A packet forwarded on exchange i is in the capture from then on. */
  lemma ForwardedEnds(t: Transfer, xs: seq<Exchange>, i: nat, j: nat, base: nat)
    requires Sound(t) && i < j <= |xs| && Forwards(t, xs, i, base)
    ensures |Run(t, xs, j).forwarded| > base
  {
    assert Run(t, xs, i + 1) == Next(t, Run(t, xs, i), xs[i]);
    ForwardedStays(t, xs, i + 1, j);
  }

  lemma RepeatedEnds(t: Transfer, xs: seq<Exchange>, j: nat)
    requires Sound(t) && j < |xs| && Repeated(t, xs, j)
    ensures |Run(t, xs, j).forwarded| > Run(t, xs, j).base
  {
    var base := Run(t, xs, j).base;
    var i :| 0 <= i < j && Forwards(t, xs, i, base);
    ForwardedEnds(t, xs, i, j, base);
  }

  /** What is captured is the payload's beginning, whatever the bytes. */
  ghost predicate Faithful(t: Transfer, xs: seq<Exchange>) {
    forall u, ys :: SameShape(t, xs, u, ys) ==> Captured(u, Run(u, ys, |ys|)) <= u.payload
  }

  lemma {:induction false} OrderIsShape(t: Transfer, xs: seq<Exchange>, u: Transfer, ys: seq<Exchange>, j: nat)
    requires SameShape(t, xs, u, ys) && j < |xs|
    ensures Disturbs(u, ys, j) ==> Disturbs(t, xs, j)
  {
    ShapeKept(t, xs, u, ys, j);
    if Disturbs(u, ys, j) && xs[j].Good? {
      var i :| 0 <= i < j && Forwards(u, ys, i, Run(u, ys, j).base);
      ShapeKept(t, xs, u, ys, i);
      assert Forwards(t, xs, i, Run(t, xs, j).base);
    }
  }

  /**
   * Over all exchanges: the bytes captured are the PC's, whatever they are, if and only if no exchange
   * puts bytes into the unfilled capture that are damaged, or a repeat because an ACK was lost.
   */
  lemma CapturedIsThePayload(t: Transfer, xs: seq<Exchange>)
    requires Sound(t)
    ensures Faithful(t, xs) <==> Orderly(t, xs, |xs|)
  {
    if Orderly(t, xs, |xs|) {
      forall u, ys | SameShape(t, xs, u, ys)
        ensures Captured(u, Run(u, ys, |ys|)) <= u.payload
      {
        forall j | 0 <= j < |ys|
          ensures !Disturbs(u, ys, j)
        {
          OrderIsShape(t, xs, u, ys, j);
        }
        OrderlyInOrder(u, ys, |ys|);
      }
    } else {
      var j := FirstDisturbance(t, xs, |xs|);
      var u, ys;
      if xs[j].Good? {
        u, ys := RepeatShows(t, xs, j);
      } else {
        u, ys := DamageShows(t, xs, j);
      }
    }
  }

  // ---- What the PC can tell -------------------------------------------------------------------

  /** The ACK of exchange i was lost. */
  predicate LosesAck(t: Transfer, xs: seq<Exchange>, i: nat)
    requires i < |xs|
  {
    xs[i] == Good(false) && Sending(t, Run(t, xs, i))
  }

  /** Then too much has been forwarded for the PC's last packet ever to be taken. */
  predicate FallsShort(t: Transfer, g: Stage) {
    g.base < |t.payload| && |g.forwarded| >= End(t, g.base) && (g.capturing ==> End(t, g.base) < |t.payload|)
  }

  lemma FallsShortStays(t: Transfer, g: Stage, x: Exchange)
    requires Sound(t) && g.base <= |t.payload| && g.base <= |g.forwarded|
    requires |Next(t, g, x).forwarded| < CURSOR_MODULUS
    requires FallsShort(t, g) || (Sending(t, g) && x == Good(false))
    ensures FallsShort(t, Next(t, g, x))
  {
  }

  lemma {:induction false} LostAckFallsShort(t: Transfer, xs: seq<Exchange>, i: nat, n: nat)
    requires Sound(t) && i < n <= |xs| && LosesAck(t, xs, i) && |Run(t, xs, n).forwarded| < CURSOR_MODULUS
    ensures FallsShort(t, Run(t, xs, n))
    decreases n
  {
    ForwardedStays(t, xs, n - 1, n);
    if i < n - 1 {
      LostAckFallsShort(t, xs, i, n - 1);
    }
    FallsShortStays(t, Run(t, xs, n - 1), xs[n - 1]);
  }

  /** Exchange j puts damaged bytes into the unfilled capture. */
  predicate Spoils(t: Transfer, xs: seq<Exchange>, j: nat)
    requires j < |xs|
  {
    Disturbs(t, xs, j) && xs[j].Damaged?
  }

  /**
   * A PC that sees every packet acknowledged has lost no ACK; what the target is given for its payload
   * is then right, whatever the bytes, if and only if no damaged packet came before the capture was full.
   */
  lemma AcknowledgedStage(t: Transfer, xs: seq<Exchange>)
    requires Sound(t) && t.payload != [] && Run(t, xs, |xs|).base == |t.payload|
    requires |Run(t, xs, |xs|).forwarded| < CURSOR_MODULUS
    ensures forall i :: 0 <= i < |xs| ==> !LosesAck(t, xs, i)
    ensures Faithful(t, xs) <==> forall j :: 0 <= j < |xs| ==> !Spoils(t, xs, j)
  {
    forall i | 0 <= i < |xs|
      ensures !LosesAck(t, xs, i)
    {
      if LosesAck(t, xs, i) {
        LostAckFallsShort(t, xs, i, |xs|);
      }
    }
    CapturedIsThePayload(t, xs);
    forall j | 0 <= j < |xs| && Disturbs(t, xs, j)
      ensures Spoils(t, xs, j)
    {
      if xs[j].Good? && Repeated(t, xs, j) {
        var i :| 0 <= i < j && Forwards(t, xs, i, Run(t, xs, j).base);
        AcknowledgedMovesOn(t, xs, i, j);
      }
    }
  }

  /** A packet acknowledged and seen to be is not the PC's next again. */
  lemma AcknowledgedMovesOn(t: Transfer, xs: seq<Exchange>, i: nat, j: nat)
    requires Sound(t) && i < j < |xs| && Forwards(t, xs, i, Run(t, xs, i).base) && !LosesAck(t, xs, i)
    ensures Run(t, xs, j).base > Run(t, xs, i).base
  {
    assert Run(t, xs, i + 1) == Next(t, Run(t, xs, i), xs[i]);
    BaseRises(t, xs, i + 1, j);
  }

  lemma {:induction false} BaseRises(t: Transfer, xs: seq<Exchange>, m: nat, n: nat)
    requires m <= n <= |xs|
    ensures Run(t, xs, m).base <= Run(t, xs, n).base
    decreases n
  {
    if m < n {
      BaseRises(t, xs, m, n - 1);
    }
  }
}
