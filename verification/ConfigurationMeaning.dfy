/** What an accepted configuration is, and what the parser makes of one written out plainly. */
module ConfigurationMeaning {
  import opened ConfigurationParser

  // ---- Accepted endpoints can be served -------------------------------------------------------

  predicate Servable(e: InEndpoint) {
    1 <= e.number <= 15 && 1 <= e.maxPacketSize <= 64 && 1 <= e.interval && 1 <= e.reportLength <= 2048
  }

  predicate Writable(e: OutEndpoint) {
    1 <= e.number <= 15 && 1 <= e.maxPacketSize <= 64 && 1 <= e.interval
  }

  predicate Usable(endpoints: seq<InEndpoint>, out: Option<OutEndpoint>) {
    |endpoints| <= 4 && (forall k :: 0 <= k < |endpoints| ==> Servable(endpoints[k])) &&
    (forall j, k :: 0 <= j < k < |endpoints| ==> endpoints[j].number != endpoints[k].number) &&
    (out.Some? ==> Writable(out.value))
  }

  predicate UsableSoFar(w: Walked) {
    Usable(w.endpoints, w.out) && w.reportLength <= 2048
  }

  lemma {:induction false} SubordinatesBounded(d: seq<U8>, at: nat, n: nat, before: nat)
    requires at + 3 * n <= |d| && before <= 2048
    ensures Subordinates(d, at, n, before).Ok? ==> Subordinates(d, at, n, before).value <= 2048
    decreases n
  {
    if n > 0 {
      if d[at] != REPORT {
        SubordinatesBounded(d, at + 3, n - 1, before);
      } else if Word(d, at + 1) <= 2048 {
        SubordinatesBounded(d, at + 3, n - 1, Word(d, at + 1));
      }
    }
  }

  lemma DescriptorKeepsUsable(d: seq<U8>, at: nat, w: Walked)
    requires Framed(d, at) && UsableSoFar(w)
    ensures WalkDescriptor(d, at, w).Ok? ==> UsableSoFar(WalkDescriptor(d, at, w).value)
  {
    if d[at + 1] == HID && w.isHid && d[at] >= 9 {
      var length: int, count: nat := d[at], d[at + 5];
      if length == 6 + 3 * count {
        SubordinatesBounded(d, at + 6, count, w.reportLength);
      }
    }
  }

  lemma {:induction false} WalkKeepsUsable(d: seq<U8>, at: nat, w: Walked)
    requires at <= |d| && UsableSoFar(w)
    ensures Walk(d, at, w).Ok? ==> UsableSoFar(Walk(d, at, w).value)
    decreases |d| - at
  {
    if at < |d| && Framed(d, at) {
      DescriptorKeepsUsable(d, at, w);
      if WalkDescriptor(d, at, w).Ok? {
        WalkKeepsUsable(d, at + d[at], WalkDescriptor(d, at, w).value);
      }
    }
  }

  /** Every accepted configuration has one to four IN endpoints with distinct numbers, each of them and the
   *  OUT endpoint with a packet size, an interval and a report length that can be served. */
  lemma AcceptedIsUsable(d: seq<U8>)
    requires Parsed(d).Ok?
    ensures var c := Parsed(d).value;
            1 <= |c.endpoints| && Usable(c.endpoints, c.out) && 9 <= |d| <= 1024 && c.value == d[5] && c.value != 0
  {
    WalkKeepsUsable(d, 9, NOTHING_WALKED);
  }

  // ---- A configuration written out ------------------------------------------------------------

  /** An endpoint, attributes telling its transfer type. */
  datatype Endpoint = Endpoint(isIn: bool, number: nat, attributes: U8, packet: nat, interval: U8)

  /** An interface setting; report is its report descriptor's length, 0 for none. */
  datatype Interface = Interface(number: U8, alternate: U8, class_: U8, report: nat, endpoints: seq<Endpoint>)

  predicate Sized(e: Endpoint) { e.number <= 15 && e.packet < 0x1_0000 }

  predicate AllSized(es: seq<Endpoint>) { |es| < 0x100 && forall k :: 0 <= k < |es| ==> Sized(es[k]) }

  predicate Plain(i: Interface) { AllSized(i.endpoints) && i.report <= 2048 && (i.report != 0 ==> i.class_ == 3) }

  function Low(v: nat): U8 { v % 0x100 }

  function High(v: nat): U8 { v / 0x100 % 0x100 }

  function EndpointBytes(e: Endpoint): seq<U8>
    requires Sized(e)
  {
    [7, 5, if e.isIn then 0x80 + e.number else e.number, e.attributes, Low(e.packet), High(e.packet), e.interval]
  }

  function EndpointsBytes(es: seq<Endpoint>): seq<U8>
    requires AllSized(es)
  {
    if es == [] then [] else EndpointBytes(es[0]) + EndpointsBytes(es[1..])
  }

  function HidBytes(report: nat): seq<U8> {
    if report == 0 then [] else [9, 0x21, 0x11, 0x01, 0, 1, 0x22, Low(report), High(report)]
  }

  function InterfaceBytes(i: Interface): seq<U8>
    requires Plain(i)
  {
    InterfaceHead(i) + (HidBytes(i.report) + EndpointsBytes(i.endpoints))
  }

  predicate AllPlain(list: seq<Interface>) { forall k :: 0 <= k < |list| ==> Plain(list[k]) }

  function InterfacesBytes(list: seq<Interface>): seq<U8>
    requires AllPlain(list)
  {
    if list == [] then [] else InterfaceBytes(list[0]) + InterfacesBytes(list[1..])
  }

  function ConfigurationBytes(value: U8, count: U8, list: seq<Interface>): seq<U8>
    requires AllPlain(list)
  {
    var rest := InterfacesBytes(list);
    [9, 2, Low(9 + |rest|), High(9 + |rest|), count, value, 0, 0x80, 50] + rest
  }

  // ---- What it binds --------------------------------------------------------------------------

  /** Interrupt endpoints of a HID interface's default setting are the ones bound. */
  predicate Bound(i: Interface, e: Endpoint) { i.class_ == 3 && i.alternate == 0 && e.attributes % 4 == 3 }

  function Ins(i: Interface, es: seq<Endpoint>): seq<InEndpoint> {
    if es == [] then []
    else
      (if Bound(i, es[0]) && es[0].isIn
       then [InEndpoint(i.number, es[0].number, es[0].packet, es[0].interval, i.report)] else []) +
      Ins(i, es[1..])
  }

  function Outs(i: Interface, es: seq<Endpoint>): seq<OutEndpoint> {
    if es == [] then []
    else
      (if Bound(i, es[0]) && !es[0].isIn
       then [OutEndpoint(i.number, es[0].number, es[0].packet, es[0].interval)] else []) +
      Outs(i, es[1..])
  }

  function AllIns(list: seq<Interface>): seq<InEndpoint> {
    if list == [] then [] else Ins(list[0], list[0].endpoints) + AllIns(list[1..])
  }

  function AllOuts(list: seq<Interface>): seq<OutEndpoint> {
    if list == [] then [] else Outs(list[0], list[0].endpoints) + AllOuts(list[1..])
  }

  /** The first OUT endpoint that can be written is the one bound. */
  function FirstWritable(outs: seq<OutEndpoint>): Option<OutEndpoint> {
    if outs == [] then None else if Writable(outs[0]) then Some(outs[0]) else FirstWritable(outs[1..])
  }

  function Settings(list: seq<Interface>): nat {
    if list == [] then 0 else (if list[0].alternate == 0 then 1 else 0) + Settings(list[1..])
  }

  // ---- The walk over it -----------------------------------------------------------------------

  predicate Laid(d: seq<U8>, at: nat, bytes: seq<U8>) {
    at + |bytes| <= |d| && d[at..at + |bytes|] == bytes
  }

  lemma LaidParts(d: seq<U8>, at: nat, a: seq<U8>, b: seq<U8>)
    requires Laid(d, at, a + b)
    ensures Laid(d, at, a) && Laid(d, at + |a|, b)
  {
    assert d[at..at + |a|] == (a + b)[..|a|];
    assert d[at + |a|..at + |a| + |b|] == (a + b)[|a|..];
  }

  lemma LaidAt(d: seq<U8>, at: nat, bytes: seq<U8>, k: nat)
    requires Laid(d, at, bytes) && k < |bytes|
    ensures d[at + k] == bytes[k]
  {
    assert d[at..at + |bytes|][k] == d[at + k];
  }

  lemma WordOf(v: nat)
    requires v < 0x1_0000
    ensures Low(v) as int + 0x100 * High(v) as int == v
  {
  }

  /** What the OUT endpoints met so far leave: the one kept, and whether any was not. */
  function Kept(w: Walked, outs: seq<OutEndpoint>): Walked
    decreases |outs|
  {
    if outs == [] then w
    else if w.out.None? && Writable(outs[0]) then Kept(w.(out := Some(outs[0])), outs[1..])
    else Kept(w.(outIgnored := true), outs[1..])
  }

  lemma Single(i: Interface, e: Endpoint)
    ensures Ins(i, [e]) ==
            if Bound(i, e) && e.isIn then [InEndpoint(i.number, e.number, e.packet, e.interval, i.report)] else []
    ensures Outs(i, [e]) ==
            if Bound(i, e) && !e.isIn then [OutEndpoint(i.number, e.number, e.packet, e.interval)] else []
  {
    assert [e][1..] == [];
  }

  lemma AddressOf(e: Endpoint)
    requires Sized(e)
    ensures var address: U8 := if e.isIn then 0x80 + e.number else e.number;
            IsIn(address) == e.isIn && Number(address) == e.number && !ReservedBits(address)
  {
  }

  lemma NotRefused(endpoints: seq<InEndpoint>, e: InEndpoint)
    requires Usable(endpoints + [e], None)
    ensures !HasNumber(endpoints, e.number) && Servable(e) && |endpoints| < 4
  {
    var all := endpoints + [e];
    assert all[|endpoints|] == e;
    forall k | 0 <= k < |endpoints|
      ensures endpoints[k].number != e.number
    {
      assert all[k] == endpoints[k];
    }
  }

  predicate Within(i: Interface, w: Walked) {
    w.isHid == (i.class_ == 3) && w.altNonzero == (i.alternate != 0) && w.interfaceNumber == i.number &&
    (w.isHid ==> w.reportLength == i.report)
  }

  lemma EndpointRead(d: seq<U8>, at: nat, e: Endpoint)
    requires Sized(e) && Laid(d, at, EndpointBytes(e))
    ensures at + 7 <= |d| && d[at] == 7 && d[at + 1] == 5 && d[at + 3] == e.attributes && d[at + 6] == e.interval
    ensures d[at + 2] == (if e.isIn then 0x80 + e.number else e.number) && Word(d, at + 4) == e.packet
  {
    var b := EndpointBytes(e);
    forall k | 0 <= k < 7
      ensures d[at + k] == b[k]
    {
      LaidAt(d, at, b, k);
    }
    WordOf(e.packet);
  }

  lemma CapturedOut(e: Endpoint, address: U8, w: Walked)
    requires address == e.number <= 15
    ensures CaptureOut(address, e.packet, e.interval, w) ==
            Kept(w, [OutEndpoint(w.interfaceNumber, e.number, e.packet, e.interval)])
  {
    var out := OutEndpoint(w.interfaceNumber, e.number, e.packet, e.interval);
    assert [out][1..] == [];
    assert Kept(w.(outIgnored := true), []) == w.(outIgnored := true);
  }

  lemma EndpointWalks(d: seq<U8>, at: nat, i: Interface, e: Endpoint, w: Walked)
    requires Sized(e) && Laid(d, at, EndpointBytes(e)) && Within(i, w)
    requires Usable(w.endpoints + Ins(i, [e]), None)
    ensures Framed(d, at) && d[at] == 7
    ensures WalkDescriptor(d, at, w) == Ok(Kept(w.(endpoints := w.endpoints + Ins(i, [e])), Outs(i, [e])))
  {
    EndpointRead(d, at, e);
    Single(i, e);
    AddressOf(e);
    assert w.endpoints + [] == w.endpoints;
    if Bound(i, e) && e.isIn {
      NotRefused(w.endpoints, InEndpoint(i.number, e.number, e.packet, e.interval, i.report));
    } else if Bound(i, e) {
      CapturedOut(e, d[at + 2], w);
    }
  }

  lemma {:induction false} KeptOn(w: Walked, a: seq<OutEndpoint>, b: seq<OutEndpoint>)
    ensures Kept(Kept(w, a), b) == Kept(w, a + b)
    decreases |a|
  {
    if a == [] {
      assert a + b == b;
    } else {
      assert (a + b)[1..] == a[1..] + b;
      KeptOn(if w.out.None? && Writable(a[0]) then w.(out := Some(a[0])) else w.(outIgnored := true), a[1..], b);
    }
  }

  /** OUT endpoints and the tables of IN endpoints do not meet. */
  lemma {:induction false} KeptApart(w: Walked, outs: seq<OutEndpoint>, endpoints: seq<InEndpoint>)
    ensures Kept(w.(endpoints := endpoints), outs) == Kept(w, outs).(endpoints := endpoints)
    ensures Kept(w, outs).endpoints == w.endpoints && Kept(w, outs).interfaceCount == w.interfaceCount
    ensures var k := Kept(w, outs); k.isHid == w.isHid && k.altNonzero == w.altNonzero &&
                                    k.interfaceNumber == w.interfaceNumber && k.reportLength == w.reportLength
    decreases |outs|
  {
    if outs != [] {
      KeptApart(if w.out.None? && Writable(outs[0]) then w.(out := Some(outs[0])) else w.(outIgnored := true),
                outs[1..], endpoints);
    }
  }

  /** After an interface's endpoints. */
  function Bind(w: Walked, ins: seq<InEndpoint>, outs: seq<OutEndpoint>): Walked {
    Kept(w.(endpoints := w.endpoints + ins), outs)
  }

  lemma BindOn(w: Walked, a: seq<InEndpoint>, b: seq<InEndpoint>, x: seq<OutEndpoint>, y: seq<OutEndpoint>)
    ensures Bind(Bind(w, a, x), b, y) == Bind(w, a + b, x + y)
  {
    var v := w.(endpoints := w.endpoints + a);
    KeptApart(v, x, v.endpoints + b);
    KeptApart(v.(endpoints := v.endpoints + b), x, v.endpoints + b);
    KeptOn(v.(endpoints := v.endpoints + b), x, y);
    assert w.endpoints + a + b == w.endpoints + (a + b);
  }

  lemma UsablePrefix(a: seq<InEndpoint>, b: seq<InEndpoint>)
    requires Usable(a + b, None)
    ensures Usable(a, None)
  {
    assert forall k :: 0 <= k < |a| ==> (a + b)[k] == a[k];
  }

  /** The walk, as a function of where it is: spelled out only where a descriptor is walked. */
  type Walker = (nat, Walked) -> Result<Walked>

  ghost predicate Walks(f: Walker, d: seq<U8>) {
    forall at: nat, w: Walked {:trigger Walk(d, at, w)} :: at <= |d| ==> f(at, w) == Walk(d, at, w)
  }

  lemma StepWalks(f: Walker, d: seq<U8>, at: nat, w: Walked, v: Walked)
    requires Walks(f, d) && Framed(d, at) && WalkDescriptor(d, at, w) == Ok(v)
    ensures f(at, w) == f(at + d[at], v)
  {
    assert Walk(d, at, w) == Walk(d, at + d[at], v);
  }

  lemma {:induction false} EndpointsWalk(f: Walker, d: seq<U8>, at: nat, i: Interface, es: seq<Endpoint>, w: Walked)
    requires Walks(f, d)
    requires AllSized(es) && Laid(d, at, EndpointsBytes(es)) && Within(i, w)
    requires Usable(w.endpoints + Ins(i, es), None)
    ensures f(at, w) == f(at + |EndpointsBytes(es)|, Bind(w, Ins(i, es), Outs(i, es)))
    decreases |es|
  {
    if es == [] {
      assert w.endpoints + [] == w.endpoints;
    } else {
      var e, rest := es[0], es[1..];
      LaidParts(d, at, EndpointBytes(e), EndpointsBytes(rest));
      Single(i, e);
      assert w.endpoints + Ins(i, es) == (w.endpoints + Ins(i, [e])) + Ins(i, rest);
      UsablePrefix(w.endpoints + Ins(i, [e]), Ins(i, rest));
      EndpointWalks(d, at, i, e, w);
      var v := Bind(w, Ins(i, [e]), Outs(i, [e]));
      KeptApart(w.(endpoints := w.endpoints + Ins(i, [e])), Outs(i, [e]), []);
      StepWalks(f, d, at, w, v);
      EndpointsWalk(f, d, at + 7, i, rest, v);
      BindOn(w, Ins(i, [e]), Ins(i, rest), Outs(i, [e]), Outs(i, rest));
    }
  }

  lemma OneReport(d: seq<U8>, at: nat, report: nat)
    requires at + 3 <= |d| && d[at] == 0x22 && Word(d, at + 1) == report && 0 < report <= 2048
    ensures Subordinates(d, at, 1, 0) == Ok(report)
  {
    assert Subordinates(d, at + 3, 0, report) == Ok(report);
  }

  lemma HidWalks(f: Walker, d: seq<U8>, at: nat, i: Interface, w: Walked)
    requires Walks(f, d)
    requires Plain(i) && Laid(d, at, HidBytes(i.report)) && w.isHid == (i.class_ == 3) && w.reportLength == 0
    ensures f(at, w) ==
            f(at + |HidBytes(i.report)|, if i.class_ == 3 then w.(reportLength := i.report) else w)
  {
    if i.report != 0 {
      var b := HidBytes(i.report);
      forall k | 0 <= k < 9
        ensures d[at + k] == b[k]
      {
        LaidAt(d, at, b, k);
      }
      WordOf(i.report);
      OneReport(d, at + 6, i.report);
      StepWalks(f, d, at, w, w.(reportLength := i.report));
    }
  }

  /** After an interface. */
  function Passed(w: Walked, i: Interface): Walked {
    Bind(Entered(w, i).(reportLength := i.report), Ins(i, i.endpoints), Outs(i, i.endpoints))
  }

  /** On entering an interface. */
  function Entered(w: Walked, i: Interface): Walked {
    Walked(w.endpoints, w.out, w.outIgnored, w.interfaceCount + if i.alternate == 0 then 1 else 0,
           i.class_ == 3, i.alternate != 0, i.number, 0)
  }

  function InterfaceHead(i: Interface): seq<U8>
    requires Plain(i)
  {
    [9, 4, i.number, i.alternate, |i.endpoints|, i.class_, 0, 0, 0]
  }

  lemma HeadWalks(f: Walker, d: seq<U8>, at: nat, i: Interface, w: Walked)
    requires Walks(f, d)
    requires Plain(i) && Laid(d, at, InterfaceHead(i)) && Entered(w, i).interfaceCount <= 4
    ensures f(at, w) == f(at + 9, Entered(w, i))
  {
    forall k | 0 <= k < 9
      ensures d[at + k] == InterfaceHead(i)[k]
    {
      LaidAt(d, at, InterfaceHead(i), k);
    }
    StepWalks(f, d, at, w, Entered(w, i));
  }

  lemma InterfaceLaid(d: seq<U8>, at: nat, i: Interface)
    requires Plain(i) && Laid(d, at, InterfaceBytes(i))
    ensures Laid(d, at, InterfaceHead(i)) && Laid(d, at + 9, HidBytes(i.report))
    ensures Laid(d, at + 9 + |HidBytes(i.report)|, EndpointsBytes(i.endpoints))
    ensures |InterfaceBytes(i)| == 9 + |HidBytes(i.report)| + |EndpointsBytes(i.endpoints)|
  {
    LaidParts(d, at, InterfaceHead(i), HidBytes(i.report) + EndpointsBytes(i.endpoints));
    LaidParts(d, at + 9, HidBytes(i.report), EndpointsBytes(i.endpoints));
  }

  lemma OpeningWalks(f: Walker, d: seq<U8>, at: nat, i: Interface, w: Walked)
    requires Walks(f, d)
    requires Plain(i) && Laid(d, at, InterfaceHead(i)) && Laid(d, at + 9, HidBytes(i.report))
    requires Entered(w, i).interfaceCount <= 4
    ensures f(at, w) ==
            f(at + 9 + |HidBytes(i.report)|, Entered(w, i).(reportLength := i.report))
  {
    HeadWalks(f, d, at, i, w);
    HidWalks(f, d, at + 9, i, Entered(w, i));
    assert (if i.class_ == 3 then Entered(w, i).(reportLength := i.report) else Entered(w, i)) ==
           Entered(w, i).(reportLength := i.report);
  }

  lemma InterfaceWalks(f: Walker, d: seq<U8>, at: nat, i: Interface, w: Walked)
    requires Walks(f, d)
    requires Plain(i) && Laid(d, at, InterfaceBytes(i)) && Entered(w, i).interfaceCount <= 4
    requires Usable(w.endpoints + Ins(i, i.endpoints), None)
    ensures at + |InterfaceBytes(i)| <= |d| && f(at, w) == f(at + |InterfaceBytes(i)|, Passed(w, i))
  {
    InterfaceLaid(d, at, i);
    OpeningWalks(f, d, at, i, w);
    EndpointsWalk(f, d, at + 9 + |HidBytes(i.report)|, i, i.endpoints, Entered(w, i).(reportLength := i.report));
  }

  lemma {:induction false} KeptIs(w: Walked, outs: seq<OutEndpoint>)
    ensures Kept(w, outs).out == if w.out.Some? then w.out else FirstWritable(outs)
    ensures Kept(w, outs).outIgnored <==>
            w.outIgnored || (if w.out.None? && FirstWritable(outs).Some? then |outs| > 1 else |outs| > 0)
    decreases |outs|
  {
    if outs != [] {
      KeptIs(if w.out.None? && Writable(outs[0]) then w.(out := Some(outs[0])) else w.(outIgnored := true), outs[1..]);
    }
  }

  /** What a walk from w over these interfaces leaves. */
  predicate Leaves(r: Result<Walked>, w: Walked, list: seq<Interface>) {
    r.Ok? && r.value.endpoints == w.endpoints + AllIns(list) &&
    r.value.interfaceCount == w.interfaceCount + Settings(list) &&
    r.value.out == Kept(w, AllOuts(list)).out && r.value.outIgnored == Kept(w, AllOuts(list)).outIgnored
  }

  lemma PassedOne(w: Walked, i: Interface, outs: seq<OutEndpoint>)
    ensures var v := Passed(w, i);
            v.endpoints == w.endpoints + Ins(i, i.endpoints) && v.interfaceCount == Entered(w, i).interfaceCount &&
            Kept(v, outs).out == Kept(w, Outs(i, i.endpoints) + outs).out &&
            Kept(v, outs).outIgnored == Kept(w, Outs(i, i.endpoints) + outs).outIgnored
  {
    var mine := Outs(i, i.endpoints);
    var u := Entered(w, i).(reportLength := i.report);
    var t := u.(endpoints := u.endpoints + Ins(i, i.endpoints));
    KeptApart(t, mine, []);
    KeptOn(t, mine, outs);
    KeptIs(t, mine + outs);
    KeptIs(w, mine + outs);
  }

  lemma InsOn(endpoints: seq<InEndpoint>, list: seq<Interface>)
    requires list != []
    ensures endpoints + AllIns(list) == (endpoints + Ins(list[0], list[0].endpoints)) + AllIns(list[1..])
  {
  }

  lemma LeavesOn(r: Result<Walked>, w: Walked, list: seq<Interface>)
    requires list != [] && Leaves(r, Passed(w, list[0]), list[1..])
    ensures Leaves(r, w, list)
  {
    PassedOne(w, list[0], AllOuts(list[1..]));
    InsOn(w.endpoints, list);
  }

  predicate Fits(d: seq<U8>, at: nat, list: seq<Interface>, w: Walked) {
    AllPlain(list) && Laid(d, at, InterfacesBytes(list)) && at + |InterfacesBytes(list)| == |d| &&
    w.interfaceCount + Settings(list) <= 4 && Usable(w.endpoints + AllIns(list), None)
  }

  lemma FirstFits(d: seq<U8>, at: nat, list: seq<Interface>, w: Walked)
    requires Fits(d, at, list, w) && list != []
    ensures var i := list[0];
            Laid(d, at, InterfaceBytes(i)) && Fits(d, at + |InterfaceBytes(i)|, list[1..], Passed(w, i)) &&
            Entered(w, i).interfaceCount <= 4 && Usable(w.endpoints + Ins(i, i.endpoints), None)
  {
    var i, rest := list[0], list[1..];
    LaidParts(d, at, InterfaceBytes(i), InterfacesBytes(rest));
    InsOn(w.endpoints, list);
    UsablePrefix(w.endpoints + Ins(i, i.endpoints), AllIns(rest));
    PassedOne(w, i, []);
  }

  lemma FirstWalks(f: Walker, d: seq<U8>, at: nat, list: seq<Interface>, w: Walked)
    requires Walks(f, d) && Fits(d, at, list, w) && list != []
    ensures var i := list[0];
            Fits(d, at + |InterfaceBytes(i)|, list[1..], Passed(w, i)) &&
            f(at, w) == f(at + |InterfaceBytes(i)|, Passed(w, i))
  {
    FirstFits(d, at, list, w);
    InterfaceWalks(f, d, at, list[0], w);
  }

  lemma NoneLeft(f: Walker, d: seq<U8>, w: Walked)
    requires Walks(f, d)
    ensures Leaves(f(|d|, w), w, [])
  {
    assert Walk(d, |d|, w) == Ok(w);
    assert w.endpoints + [] == w.endpoints;
  }

  lemma FirstLeaves(f: Walker, d: seq<U8>, at: nat, list: seq<Interface>, w: Walked)
    requires Walks(f, d)
    requires Fits(d, at, list, w) && list != []
    requires var n := at + |InterfaceBytes(list[0])|;
             n <= |d| ==> Leaves(f(n, Passed(w, list[0])), Passed(w, list[0]), list[1..])
    ensures Leaves(f(at, w), w, list)
  {
    FirstWalks(f, d, at, list, w);
    LeavesOn(f(at + |InterfaceBytes(list[0])|, Passed(w, list[0])), w, list);
  }

  lemma {:induction false} InterfacesWalk(f: Walker, d: seq<U8>, at: nat, list: seq<Interface>, w: Walked)
    requires Walks(f, d)
    requires Fits(d, at, list, w)
    ensures Leaves(f(at, w), w, list)
    decreases |list|
  {
    if list == [] {
      NoneLeft(f, d, w);
    } else {
      FirstWalks(f, d, at, list, w);
      InterfacesWalk(f, d, at + |InterfaceBytes(list[0])|, list[1..], Passed(w, list[0]));
      FirstLeaves(f, d, at, list, w);
    }
  }

  lemma HeaderFits(value: U8, count: U8, list: seq<Interface>)
    requires AllPlain(list) && value != 0 && |InterfacesBytes(list)| <= 1015 && 1 <= count <= 4
    ensures var d := ConfigurationBytes(value, count, list);
            CheckHeader(d) == Ok(()) && d[4] == count && d[5] == value && Laid(d, 9, InterfacesBytes(list)) &&
            |d| == 9 + |InterfacesBytes(list)|
  {
    var rest := InterfacesBytes(list);
    var d := ConfigurationBytes(value, count, list);
    WordOf(9 + |rest|);
    assert Word(d, 2) == |d| == 9 + |rest|;
    assert d[9..9 + |rest|] == rest;
  }

  /**
   * A configuration written out plainly is parsed into what it describes: in order the interrupt-IN
   * endpoints of the default settings of its HID interfaces, each with its interface's report length, and
   * the first interrupt-OUT endpoint that can be written, telling whether there were others; if its IN
   * endpoints can be served, it has one to four interfaces, and it fits in 1024 bytes.
   */
  lemma DescribedIsParsed(value: U8, count: U8, list: seq<Interface>)
    requires AllPlain(list) && value != 0 && |InterfacesBytes(list)| <= 1015
    requires 1 <= count <= 4 && count == Settings(list) && AllIns(list) != [] && Usable(AllIns(list), None)
    ensures var outs := AllOuts(list);
            var out := FirstWritable(outs);
            Parsed(ConfigurationBytes(value, count, list)) ==
            Ok(Configuration(value, AllIns(list), out, |outs| > if out.Some? then 1 else 0))
  {
    var d := ConfigurationBytes(value, count, list);
    HeaderFits(value, count, list);
    assert NOTHING_WALKED.endpoints + AllIns(list) == AllIns(list);
    var f: Walker := (at: nat, w: Walked) => if at <= |d| then Walk(d, at, w) else Err(Malformed);
    InterfacesWalk(f, d, 9, list, NOTHING_WALKED);
    KeptIs(NOTHING_WALKED, AllOuts(list));
  }
}
