/** The streaming configuration parser and the whole-buffer one agree. */
module ParserAgreement {
  import opened ConfigurationParser
  import opened ConfigurationStream

  predicate Faulted(s: Registers) {
    s.faults.malformed || s.faults.oversized || s.faults.unsupported
  }

  // ---- Runs ---------------------------------------------------------------------------------

  type Stepper = (Registers, U8) -> Registers

  /** f is the machine's byte step; the trigger keeps the step folded until it is named. */
  ghost predicate Steps(f: Stepper, e: Expected) {
    forall s, x {:trigger Advance(s, x, e)} :: f(s, x) == Advance(s, x, e)
  }

  /** The registers after the n bytes from an offset, for any byte step. */
  function Fold(f: Stepper, s: Registers, d: seq<U8>, at: nat, n: nat): Registers
    requires at + n <= |d|
  {
    if n == 0 then s else f(Fold(f, s, d, at, n - 1), d[at + n - 1])
  }

  lemma {:induction false} RunFolds(f: Stepper, s: Registers, d: seq<U8>, n: nat, e: Expected)
    requires Steps(f, e) && n <= |d|
    ensures Run(s, d, 0, n, e) == Fold(f, s, d, 0, n)
    decreases n
  {
    if n > 0 {
      RunFolds(f, s, d, n - 1, e);
    }
  }

  lemma {:induction false} RunSplits(f: Stepper, s: Registers, d: seq<U8>, at: nat, m: nat, n: nat)
    requires at + m + n <= |d|
    ensures Fold(f, s, d, at, m + n) == Fold(f, Fold(f, s, d, at, m), d, at + m, n)
    decreases n
  {
    if n > 0 {
      RunSplits(f, s, d, at, m, n - 1);
    }
  }

  lemma FaultSticks(f: Stepper, s: Registers, x: U8, e: Expected)
    requires Steps(f, e) && Faulted(s)
    ensures Faulted(f(s, x))
  {
    assert f(s, x) == Advance(s, x, e);
  }

  lemma FrameStep(f: Stepper, s: Registers, x: U8, e: Expected)
    requires Steps(f, e)
    ensures f(s, x).frame == NextFrame(s.frame, x)
  {
    assert f(s, x) == Advance(s, x, e);
  }

  /** A fault once raised is never lost. */
  lemma {:induction false} FaultsStick(f: Stepper, s: Registers, d: seq<U8>, at: nat, n: nat, e: Expected)
    requires Steps(f, e)
    requires at + n <= |d|
    requires Faulted(s)
    ensures Faulted(Fold(f, s, d, at, n))
    decreases n
  {
    if n > 0 {
      FaultsStick(f, s, d, at, n - 1, e);
      FaultSticks(f, Fold(f, s, d, at, n - 1), d[at + n - 1], e);
    }
  }

  lemma {:induction false} BytesAreCounted(f: Stepper, s: Registers, d: seq<U8>, at: nat, n: nat, e: Expected)
    requires Steps(f, e)
    requires at + n <= |d| < BYTE_COUNT_MODULUS
    requires s.frame.byteCount == at
    ensures Fold(f, s, d, at, n).frame.byteCount == at + n
    decreases n
  {
    if n > 0 {
      BytesAreCounted(f, s, d, at, n - 1, e);
      FrameStep(f, Fold(f, s, d, at, n - 1), d[at + n - 1], e);
    }
  }

  /** Between two descriptors, nothing wrong so far. */
  predicate Boundary(s: Registers, at: nat) {
    s.frame.position == 0 && s.frame.byteCount == at && !Faulted(s)
  }

  lemma FirstByte(f: Stepper, s: Registers, d: seq<U8>, at: nat, e: Expected)
    requires Steps(f, e)
    requires at < |d| < BYTE_COUNT_MODULUS && Boundary(s, at)
    ensures Fold(f, s, d, at, 1) ==
            Registers(Frame(at + 1, 1, d[at], s.frame.kind), s.context, s.hid, s.endpoint,
                      Faults(d[at] < 2, false, false), s.tables)
  {
    assert Fold(f, s, d, at, 0) == s;
    assert f(s, d[at]) == Advance(s, d[at], e);
  }

  lemma SecondByte(f: Stepper, s: Registers, d: seq<U8>, at: nat, e: Expected)
    requires Steps(f, e)
    requires at + 1 < |d| < BYTE_COUNT_MODULUS && Boundary(s, at)
    ensures var t, opens := Fold(f, s, d, at, 2), at > 0 && d[at + 1] == INTERFACE;
            t.tables == s.tables &&
            t.hid.reportLength == (if opens then 0 else s.hid.reportLength) &&
            (at > 0 && d[at + 1] == HID ==> t.hid.phase == 0) &&
            t.context == (if opens then
                            Context(false, false, s.context.interfaceNumber,
                                    (s.context.interfaceCount + 1) % INTERFACE_COUNT_MODULUS,
                                    s.context.declared)
                          else s.context) &&
            (Faulted(t) <==>
               d[at] < 2 ||
               TypeByteMalformed(Frame(at + 1, 1, d[at], s.frame.kind), s.context.isHid, d[at + 1]))
  {
    FirstByte(f, s, d, at, e);
    var t := Fold(f, s, d, at, 1);
    assert f(t, d[at + 1]) == Advance(t, d[at + 1], e);
  }

  /** The frame registers inside a descriptor of declared length d[at]. */
  lemma {:induction false} FrameInside(f: Stepper, s: Registers, d: seq<U8>, at: nat, k: nat, e: Expected)
    requires Steps(f, e)
    requires 2 <= k && at + k <= |d| < BYTE_COUNT_MODULUS && k < d[at] as int && Boundary(s, at)
    ensures Fold(f, s, d, at, k).frame == Frame(at + k, k, d[at], d[at + 1])
    decreases k
  {
    if k == 2 {
      FirstByte(f, s, d, at, e);
      FrameStep(f, Fold(f, s, d, at, 1), d[at + 1], e);
    } else {
      FrameInside(f, s, d, at, k - 1, e);
      FrameStep(f, Fold(f, s, d, at, k - 1), d[at + k - 1], e);
    }
  }

  lemma FrameCloses(f: Stepper, s: Registers, d: seq<U8>, at: nat, e: Expected)
    requires Steps(f, e)
    requires Framed(d, at) && |d| < BYTE_COUNT_MODULUS && Boundary(s, at)
    ensures Fold(f, s, d, at, d[at]).frame == Frame(at + d[at], 0, d[at], d[at + 1])
  {
    var n: nat := d[at];
    FirstByte(f, s, d, at, e);
    if n > 2 {
      FrameInside(f, s, d, at, n - 1, e);
    }
    FrameStep(f, Fold(f, s, d, at, n - 1), d[at + n - 1], e);
  }

  // ---- What the stream does about a repeated configuration descriptor -----------------------

  /** The checks the stream has made after n bytes of a configuration-type descriptor. */
  predicate EchoSoFar(d: seq<U8>, at: nat, n: nat, e: Expected)
    requires 2 <= n && at + n <= |d|
  {
    d[at + 1] == CONFIGURATION ==>
      (n > 2 ==> d[at + 2] as int == e.total % 0x100) &&
      (n > 3 ==> d[at + 3] as int == e.total / 0x100 % 0x100) &&
      (n > 4 ==> 1 <= d[at + 4] <= MAX_INTERFACES) &&
      (n > 5 ==> d[at + 5] == e.value)
  }

  function DeclaredSoFar(d: seq<U8>, at: nat, n: nat, before: U8): U8
    requires 2 <= n && at + n <= |d|
  {
    if d[at + 1] == CONFIGURATION && n > 4 then d[at + 4] else before
  }

  predicate EchoOk(d: seq<U8>, at: nat, e: Expected)
    requires Framed(d, at)
  {
    EchoSoFar(d, at, d[at], e)
  }

  /** Every configuration-type descriptor from an offset on repeats what the header announced. */
  predicate Echoes(d: seq<U8>, at: nat, e: Expected)
    requires at <= |d|
    decreases |d| - at
  {
    Framed(d, at) ==> EchoOk(d, at, e) && Echoes(d, at + d[at], e)
  }

  /** The interface count the stream is left with: the last one it was shown. */
  function LastDeclared(d: seq<U8>, at: nat, before: U8): U8
    requires at <= |d|
    decreases |d| - at
  {
    if !Framed(d, at) then before
    else LastDeclared(d, at + d[at], DeclaredSoFar(d, at, d[at], before))
  }

  // ---- One descriptor -----------------------------------------------------------------------

  function Forget(out: Option<OutEndpoint>): Option<OutBinding> {
    match out
    case None => None
    case Some(o) => Some(OutBinding(o.number, o.maxPacketSize, o.interval))
  }

  /** The registers hold what the walk has gathered; an interface's context matters only while HID. */
  predicate Matches(s: Registers, w: Walked) {
    s.context.isHid == w.isHid &&
    (w.isHid ==>
       s.context.altNonzero == w.altNonzero && s.context.interfaceNumber == w.interfaceNumber &&
       s.hid.reportLength == w.reportLength) &&
    s.context.interfaceCount == w.interfaceCount <= MAX_INTERFACES &&
    s.tables == Tables(w.endpoints, Forget(w.out), w.outIgnored)
  }

  /** After a whole descriptor, the stream has faulted exactly when the walk stops or the echo fails. */
  predicate Follows(s: Registers, t: Registers, d: seq<U8>, at: nat, w: Walked, e: Expected)
    requires Framed(d, at)
  {
    var r := WalkDescriptor(d, at, w);
    (Faulted(t) <==> r.Err? || !EchoOk(d, at, e)) &&
    (!Faulted(t) ==>
       Matches(t, r.value) && t.context.declared == DeclaredSoFar(d, at, d[at], s.context.declared))
  }

  // Descriptors the walk skips, and configuration-type ones.

  predicate Skipped(s: Registers, d: seq<U8>, at: nat)
    requires Framed(d, at)
  {
    d[at + 1] != INTERFACE && d[at + 1] != ENDPOINT && (d[at + 1] == HID ==> !s.context.isHid) &&
    (at == 0 ==> d[0] == 9 && d[1] == CONFIGURATION)
  }

  predicate SkipInside(s: Registers, t: Registers, d: seq<U8>, at: nat, k: nat, e: Expected)
    requires 2 <= k && at + k <= |d|
  {
    t.context == Context(s.context.isHid, s.context.altNonzero, s.context.interfaceNumber,
                         s.context.interfaceCount, DeclaredSoFar(d, at, k, s.context.declared)) &&
    t.hid.reportLength == s.hid.reportLength && t.tables == s.tables &&
    (Faulted(t) <==> !EchoSoFar(d, at, k, e))
  }

  lemma SkipStep(f: Stepper, s: Registers, t: Registers, d: seq<U8>, at: nat, k: nat, e: Expected)
    requires Steps(f, e)
    requires Framed(d, at) && 2 <= k < d[at] as int && t.frame == Frame(at + k, k, d[at], d[at + 1])
    requires Skipped(s, d, at) && SkipInside(s, t, d, at, k, e)
    ensures SkipInside(s, f(t, d[at + k]), d, at, k + 1, e)
  {
    assert f(t, d[at + k]) == Advance(t, d[at + k], e);
  }

  lemma {:induction false} SkipBytes(f: Stepper, s: Registers, d: seq<U8>, at: nat, k: nat, e: Expected)
    requires Steps(f, e)
    requires Framed(d, at) && |d| < BYTE_COUNT_MODULUS && Boundary(s, at)
    requires Skipped(s, d, at) && 2 <= k <= d[at] as int
    ensures SkipInside(s, Fold(f, s, d, at, k), d, at, k, e)
    decreases k
  {
    if k == 2 {
      SecondByte(f, s, d, at, e);
    } else {
      SkipBytes(f, s, d, at, k - 1, e);
      FrameInside(f, s, d, at, k - 1, e);
      SkipStep(f, s, Fold(f, s, d, at, k - 1), d, at, k - 1, e);
    }
  }

  lemma SkippedDescriptor(f: Stepper, s: Registers, d: seq<U8>, at: nat, w: Walked, e: Expected)
    requires Steps(f, e)
    requires Framed(d, at) && |d| < BYTE_COUNT_MODULUS && Boundary(s, at)
    requires Skipped(s, d, at) && Matches(s, w)
    ensures Follows(s, Fold(f, s, d, at, d[at]), d, at, w, e)
  {
    SkipBytes(f, s, d, at, d[at], e);
  }

  // Interface descriptors.

  predicate InterfaceInside(s: Registers, t: Registers, d: seq<U8>, at: nat, k: nat)
    requires 2 <= k && at + k <= |d|
  {
    var alt := k > 3 && d[at + 3] != 0;
    t.context == Context(k > 5 && d[at + 5] == 3, alt,
                         if k > 2 then d[at + 2] else s.context.interfaceNumber,
                         if alt then s.context.interfaceCount else s.context.interfaceCount + 1,
                         s.context.declared) &&
    t.hid.reportLength == 0 && t.tables == s.tables &&
    (Faulted(t) <==> k > 3 && !alt && s.context.interfaceCount + 1 > MAX_INTERFACES)
  }

  lemma InterfaceStep(f: Stepper, s: Registers, t: Registers, d: seq<U8>, at: nat, k: nat, e: Expected)
    requires Steps(f, e)
    requires Framed(d, at) && 2 <= k < d[at] as int && t.frame == Frame(at + k, k, d[at], d[at + 1])
    requires d[at] == 9 && d[at + 1] == INTERFACE && s.context.interfaceCount <= MAX_INTERFACES
    requires InterfaceInside(s, t, d, at, k)
    ensures InterfaceInside(s, f(t, d[at + k]), d, at, k + 1)
  {
    assert f(t, d[at + k]) == Advance(t, d[at + k], e);
  }

  lemma {:induction false} InterfaceBytes(f: Stepper, s: Registers, d: seq<U8>, at: nat, k: nat, e: Expected)
    requires Steps(f, e)
    requires Framed(d, at) && |d| < BYTE_COUNT_MODULUS && Boundary(s, at) && at > 0
    requires d[at] == 9 && d[at + 1] == INTERFACE && s.context.interfaceCount <= MAX_INTERFACES
    requires 2 <= k <= 9
    ensures InterfaceInside(s, Fold(f, s, d, at, k), d, at, k)
    decreases k
  {
    if k == 2 {
      SecondByte(f, s, d, at, e);
    } else {
      InterfaceBytes(f, s, d, at, k - 1, e);
      FrameInside(f, s, d, at, k - 1, e);
      InterfaceStep(f, s, Fold(f, s, d, at, k - 1), d, at, k - 1, e);
    }
  }

  /** A length the type does not allow faults on the type byte. */
  lemma WrongLengthFaults(f: Stepper, s: Registers, d: seq<U8>, at: nat, e: Expected)
    requires Steps(f, e)
    requires Framed(d, at) && |d| < BYTE_COUNT_MODULUS && Boundary(s, at) && at > 0
    requires (d[at + 1] == INTERFACE && d[at] != 9) ||
             (d[at + 1] == ENDPOINT && d[at] != 7 && d[at] != 9) ||
             (d[at + 1] == HID && s.context.isHid && d[at] < 9)
    ensures Faulted(Fold(f, s, d, at, d[at]))
  {
    SecondByte(f, s, d, at, e);
    RunSplits(f, s, d, at, 2, d[at] - 2);
    FaultsStick(f, Fold(f, s, d, at, 2), d, at + 2, d[at] - 2, e);
  }

  lemma InterfaceDescriptor(f: Stepper, s: Registers, d: seq<U8>, at: nat, w: Walked, e: Expected)
    requires Steps(f, e)
    requires Framed(d, at) && |d| < BYTE_COUNT_MODULUS && Boundary(s, at) && at > 0
    requires d[at + 1] == INTERFACE && Matches(s, w)
    ensures Follows(s, Fold(f, s, d, at, d[at]), d, at, w, e)
  {
    if d[at] == 9 {
      InterfaceBytes(f, s, d, at, 9, e);
    } else {
      WrongLengthFaults(f, s, d, at, e);
    }
  }

  // Endpoint descriptors.

  predicate EndpointInside(s: Registers, t: Registers, d: seq<U8>, at: nat, k: nat)
    requires 2 <= k && at + k <= |d|
  {
    t.context == s.context && t.hid.reportLength == s.hid.reportLength && t.tables == s.tables &&
    !Faulted(t) &&
    (k > 2 ==> t.endpoint.address == d[at + 2]) &&
    (k > 3 ==> t.endpoint.attributes == d[at + 3]) &&
    (k > 4 ==> t.endpoint.sizeLow == d[at + 4]) &&
    (k > 5 ==> t.endpoint.size == Word(d, at + 4)) &&
    (k > 6 ==> t.endpoint.interval == d[at + 6])
  }

  lemma EndpointStep(f: Stepper, s: Registers, t: Registers, d: seq<U8>, at: nat, k: nat, e: Expected)
    requires Steps(f, e)
    requires Framed(d, at) && 2 <= k < d[at] as int && t.frame == Frame(at + k, k, d[at], d[at + 1])
    requires (d[at] == 7 || d[at] == 9) && d[at + 1] == ENDPOINT && k < d[at] as int - 1
    requires EndpointInside(s, t, d, at, k)
    ensures EndpointInside(s, f(t, d[at + k]), d, at, k + 1)
  {
    assert f(t, d[at + k]) == Advance(t, d[at + k], e);
  }

  lemma {:induction false} EndpointBytesLatched(f: Stepper, s: Registers, d: seq<U8>, at: nat, k: nat, e: Expected)
    requires Steps(f, e)
    requires Framed(d, at) && |d| < BYTE_COUNT_MODULUS && Boundary(s, at) && at > 0
    requires (d[at] == 7 || d[at] == 9) && d[at + 1] == ENDPOINT
    requires 2 <= k < d[at] as int
    ensures EndpointInside(s, Fold(f, s, d, at, k), d, at, k)
    decreases k
  {
    if k == 2 {
      SecondByte(f, s, d, at, e);
    } else {
      EndpointBytesLatched(f, s, d, at, k - 1, e);
      FrameInside(f, s, d, at, k - 1, e);
      EndpointStep(f, s, Fold(f, s, d, at, k - 1), d, at, k - 1, e);
    }
  }

  lemma EndpointLastByte(f: Stepper, s: Registers, t: Registers, d: seq<U8>, at: nat, w: Walked, e: Expected)
    requires Steps(f, e)
    requires Framed(d, at) && (d[at] == 7 || d[at] == 9) && d[at + 1] == ENDPOINT
    requires t.frame == Frame(at + d[at] - 1, d[at] - 1, d[at], ENDPOINT)
    requires EndpointInside(s, t, d, at, d[at] - 1) && Matches(s, w)
    ensures Follows(s, f(t, d[at + d[at] - 1]), d, at, w, e)
  {
    var x := d[at + d[at] - 1];
    assert f(t, x) == Advance(t, x, e);
    assert IntervalNow(t.endpoint, t.frame, x) == d[at + 6];
  }

  lemma EndpointDescriptor(f: Stepper, s: Registers, d: seq<U8>, at: nat, w: Walked, e: Expected)
    requires Steps(f, e)
    requires Framed(d, at) && |d| < BYTE_COUNT_MODULUS && Boundary(s, at) && at > 0
    requires d[at + 1] == ENDPOINT && Matches(s, w)
    ensures Follows(s, Fold(f, s, d, at, d[at]), d, at, w, e)
  {
    if d[at] == 7 || d[at] == 9 {
      var n: nat := d[at];
      EndpointBytesLatched(f, s, d, at, n - 1, e);
      FrameInside(f, s, d, at, n - 1, e);
      EndpointLastByte(f, s, Fold(f, s, d, at, n - 1), d, at, w, e);
    } else {
      WrongLengthFaults(f, s, d, at, e);
    }
  }

  // HID descriptors of a HID interface.

  lemma {:induction false} SubordinatesSnoc(d: seq<U8>, at: nat, n: nat, reportLength: nat)
    requires at + 3 * (n + 1) <= |d|
    ensures Subordinates(d, at, n + 1, reportLength) ==
            (var r := Subordinates(d, at, n, reportLength);
             if r.Err? then r else Subordinates(d, at + 3 * n, 1, r.value))
    decreases n
  {
    if n > 0 {
      var length := Word(d, at + 1);
      if d[at] != REPORT {
        SubordinatesSnoc(d, at + 3, n - 1, reportLength);
      } else if reportLength == 0 && 0 < length <= MAX_REPORT_SIZE {
        SubordinatesSnoc(d, at + 3, n - 1, length);
      }
    }
  }

  /** k bytes into a HID descriptor, with the table's first (k - 6) / 3 entries complete. */
  predicate HidInside(s: Registers, t: Registers, d: seq<U8>, at: nat, k: nat)
    requires 2 <= k && at + k <= |d|
  {
    t.context == s.context && t.tables == s.tables &&
    (k > 5 ==> t.hid.count == d[at + 5]) &&
    if k < 6 then !Faulted(t) && t.hid.phase == 0 && t.hid.reportLength == s.hid.reportLength
    else
      var j := (k - 6) / 3;
      var r := Subordinates(d, at + 6, j, s.hid.reportLength);
      t.hid.phase == (k - 6) % 3 &&
      (t.hid.phase >= 1 ==> t.hid.kind == d[at + 6 + 3 * j]) &&
      (t.hid.phase == 2 ==> t.hid.low == d[at + 7 + 3 * j]) &&
      (Faulted(t) <==> d[at + 5] == 0 || r.Err?) &&
      (!Faulted(t) ==> t.hid.reportLength == r.value)
  }

  lemma HidStep(f: Stepper, s: Registers, t: Registers, d: seq<U8>, at: nat, k: nat, e: Expected)
    requires Steps(f, e)
    requires 2 <= k && at + k < |d| && k < d[at] as int - 1 && s.context.isHid
    requires t.frame == Frame(at + k, k, d[at], HID)
    requires HidInside(s, t, d, at, k)
    ensures HidInside(s, f(t, d[at + k]), d, at, k + 1)
  {
    assert f(t, d[at + k]) == Advance(t, d[at + k], e);
    if k >= 6 && (k - 6) % 3 == 2 {
      var j := (k - 6) / 3;
      SubordinatesSnoc(d, at + 6, j, s.hid.reportLength);
      assert Subordinates(d, at + 9 + 3 * j, 0, t.hid.reportLength) == Ok(t.hid.reportLength);
    }
  }

  lemma {:induction false} HidBytes(f: Stepper, s: Registers, d: seq<U8>, at: nat, k: nat, e: Expected)
    requires Steps(f, e)
    requires Framed(d, at) && |d| < BYTE_COUNT_MODULUS && Boundary(s, at) && at > 0
    requires d[at] >= 9 && d[at + 1] == HID && s.context.isHid
    requires 2 <= k < d[at] as int
    ensures HidInside(s, Fold(f, s, d, at, k), d, at, k)
    decreases k
  {
    if k == 2 {
      SecondByte(f, s, d, at, e);
    } else {
      HidBytes(f, s, d, at, k - 1, e);
      FrameInside(f, s, d, at, k - 1, e);
      HidStep(f, s, Fold(f, s, d, at, k - 1), d, at, k - 1, e);
    }
  }

  /** The last byte closes the last table entry and checks the declared length. */
  lemma HidLastByte(f: Stepper, s: Registers, t: Registers, d: seq<U8>, at: nat, e: Expected)
    requires Steps(f, e)
    requires Framed(d, at) && d[at] >= 9 && s.context.isHid
    requires t.frame == Frame(at + d[at] - 1, d[at] - 1, d[at], HID)
    requires HidInside(s, t, d, at, d[at] - 1)
    ensures var u := f(t, d[at + d[at] - 1]);
            var length: int, count: nat := d[at], d[at + 5];
            u.context == s.context && u.tables == s.tables &&
            (Faulted(u) <==>
               length != 6 + 3 * count || Subordinates(d, at + 6, count, s.hid.reportLength).Err?) &&
            (!Faulted(u) ==>
               u.hid.reportLength == Subordinates(d, at + 6, count, s.hid.reportLength).value)
  {
    var n: nat, count: nat := d[at], d[at + 5];
    assert f(t, d[at + n - 1]) == Advance(t, d[at + n - 1], e);
    if n == 6 + 3 * count {
      SubordinatesSnoc(d, at + 6, count - 1, s.hid.reportLength);
      assert (n - 7) / 3 == count - 1;
      assert Subordinates(d, at + 6 + 3 * count, 0, t.hid.reportLength) == Ok(t.hid.reportLength);
    }
  }

  lemma HidDescriptor(f: Stepper, s: Registers, d: seq<U8>, at: nat, w: Walked, e: Expected)
    requires Steps(f, e)
    requires Framed(d, at) && |d| < BYTE_COUNT_MODULUS && Boundary(s, at) && at > 0
    requires d[at + 1] == HID && s.context.isHid && Matches(s, w)
    ensures Follows(s, Fold(f, s, d, at, d[at]), d, at, w, e)
  {
    if d[at] < 9 {
      WrongLengthFaults(f, s, d, at, e);
    } else {
      var n: nat := d[at];
      HidBytes(f, s, d, at, n - 1, e);
      FrameInside(f, s, d, at, n - 1, e);
      HidLastByte(f, s, Fold(f, s, d, at, n - 1), d, at, e);
    }
  }

  // ---- The whole buffer ---------------------------------------------------------------------

  lemma DescriptorFollows(f: Stepper, s: Registers, d: seq<U8>, at: nat, w: Walked, e: Expected)
    requires Steps(f, e)
    requires Framed(d, at) && |d| < BYTE_COUNT_MODULUS && Boundary(s, at) && at > 0
    requires Matches(s, w)
    ensures Follows(s, Fold(f, s, d, at, d[at]), d, at, w, e)
  {
    if d[at + 1] == INTERFACE {
      InterfaceDescriptor(f, s, d, at, w, e);
    } else if d[at + 1] == ENDPOINT {
      EndpointDescriptor(f, s, d, at, w, e);
    } else if d[at + 1] == HID && s.context.isHid {
      HidDescriptor(f, s, d, at, w, e);
    } else {
      SkippedDescriptor(f, s, d, at, w, e);
    }
  }

  /** What is left does not frame a descriptor: the stream ends faulted or mid-descriptor. */
  lemma BrokenTail(f: Stepper, s: Registers, d: seq<U8>, at: nat, e: Expected)
    requires Steps(f, e)
    requires at < |d| < BYTE_COUNT_MODULUS && Boundary(s, at) && !Framed(d, at)
    ensures var t := Fold(f, s, d, at, |d| - at); Faulted(t) || t.frame.position != 0
  {
    FirstByte(f, s, d, at, e);
    if d[at] < 2 {
      RunSplits(f, s, d, at, 1, |d| - at - 1);
      FaultsStick(f, Fold(f, s, d, at, 1), d, at + 1, |d| - at - 1, e);
    } else if at + 2 <= |d| {
      FrameInside(f, s, d, at, |d| - at, e);
    }
  }

  /** The stream reaches the end unfaulted on a descriptor boundary, with these tables. */
  predicate EndsAs(t: Registers, walked: Result<Walked>, echoes: bool, declared: U8) {
    (!Faulted(t) && t.frame.position == 0 <==> walked.Ok? && echoes) &&
    (walked.Ok? && echoes ==> Matches(t, walked.value) && t.context.declared == declared)
  }

  lemma {:induction false} WalkFollowed(f: Stepper, s: Registers, d: seq<U8>, at: nat, w: Walked, e: Expected)
    requires Steps(f, e)
    requires 0 < at <= |d| < BYTE_COUNT_MODULUS && Boundary(s, at) && Matches(s, w)
    ensures EndsAs(Fold(f, s, d, at, |d| - at), Walk(d, at, w), Echoes(d, at, e),
                   LastDeclared(d, at, s.context.declared))
    decreases |d| - at
  {
    if at == |d| {
    } else if !Framed(d, at) {
      BrokenTail(f, s, d, at, e);
    } else {
      var n: nat := d[at];
      var t := Fold(f, s, d, at, n);
      DescriptorFollows(f, s, d, at, w, e);
      FrameCloses(f, s, d, at, e);
      RunSplits(f, s, d, at, n, |d| - at - n);
      if Faulted(t) {
        FaultsStick(f, t, d, at + n, |d| - at - n, e);
      } else {
        WalkFollowed(f, t, d, at + n, WalkDescriptor(d, at, w).value, e);
      }
    }
  }

  /** The nine header bytes of the full read. */
  lemma HeaderFollowed(f: Stepper, stale: Registers, d: seq<U8>, e: Expected)
    requires Steps(f, e)
    requires 9 <= |d| < BYTE_COUNT_MODULUS
    ensures var t := Fold(f, Prepared(stale), d, 0, 9);
            if d[0] == 9 && d[1] == CONFIGURATION && EchoSoFar(d, 0, 9, e) then
              Boundary(t, 9) && Matches(t, NOTHING_WALKED) && t.context.declared == d[4]
            else Faulted(t)
  {
    var s := Prepared(stale);
    if d[0] == 9 && d[1] == CONFIGURATION {
      SkipBytes(f, s, d, 0, 9, e);
      FrameCloses(f, s, d, 0, e);
    } else {
      SecondByte(f, s, d, 0, e);
      RunSplits(f, s, d, 0, 2, 7);
      FaultsStick(f, Fold(f, s, d, 0, 2), d, 2, 7, e);
    }
  }

  /** The full read repeats the header and passes the whole-buffer parser's own header check. */
  predicate HeaderMatches(d: seq<U8>, e: Expected) {
    CheckHeader(d).Ok? && |d| == e.total && d[5] == e.value
  }

  predicate WalkAccepts(d: seq<U8>, declared: U8)
    requires |d| >= 9
  {
    var walked := Walk(d, 9, NOTHING_WALKED);
    walked.Ok? && walked.value.interfaceCount == declared as int && walked.value.endpoints != []
  }

  function BufferTables(c: Configuration): Tables {
    Tables(c.endpoints, Forget(c.out), c.outIgnored)
  }

  function WalkTables(d: seq<U8>): Tables
    requires |d| >= 9 && Walk(d, 9, NOTHING_WALKED).Ok?
  {
    var w := Walk(d, 9, NOTHING_WALKED).value;
    Tables(w.endpoints, Forget(w.out), w.outIgnored)
  }

  lemma HeaderEcho(d: seq<U8>, e: Expected)
    requires 9 <= e.total <= MAX_CONFIGURATION_SIZE && e.value != 0 && |d| == e.total
    ensures d[0] == 9 && d[1] == CONFIGURATION && EchoSoFar(d, 0, 9, e) <==> HeaderMatches(d, e)
  {
  }

  /** A full read of the announced length. */
  lemma FullRead(f: Stepper, stale: Registers, d: seq<U8>, e: Expected)
    requires Steps(f, e)
    requires 9 <= e.total <= MAX_CONFIGURATION_SIZE && e.value != 0 && |d| == e.total
    ensures var t := Fold(f, Prepared(stale), d, 0, |d|);
            if HeaderMatches(d, e) then
              EndsAs(t, Walk(d, 9, NOTHING_WALKED), Echoes(d, 9, e), LastDeclared(d, 9, d[4]))
            else Faulted(t)
  {
    var s := Prepared(stale);
    var t := Fold(f, s, d, 0, 9);
    HeaderEcho(d, e);
    HeaderFollowed(f, stale, d, e);
    RunSplits(f, s, d, 0, 9, |d| - 9);
    if HeaderMatches(d, e) {
      WalkFollowed(f, t, d, 9, NOTHING_WALKED, e);
    } else {
      FaultsStick(f, t, d, 9, |d| - 9, e);
    }
  }

  lemma FinishVerdict(t: Registers, d: seq<U8>, e: Expected, walked: Result<Walked>, echoes: bool, declared: U8)
    requires t.frame.byteCount == |d| == e.total && EndsAs(t, walked, echoes, declared)
    ensures Finish(t, |d|, e).Ok? <==>
            walked.Ok? && echoes && walked.value.interfaceCount == declared as int &&
            walked.value.endpoints != []
    ensures Finish(t, |d|, e).Ok? ==>
              walked.Ok? && Finish(t, |d|, e).value ==
                Tables(walked.value.endpoints, Forget(walked.value.out), walked.value.outIgnored)
  {
  }

  /**
   * The stream's verdict on any header and any full read: exactly the whole-buffer walk, with
   * later configuration-type descriptors checked against the header and the last of them
   * deciding how many interfaces are expected. Whatever an earlier capture left in the registers
   * does not matter.
   */
  lemma StreamVerdict(stale: Registers, h: seq<U8>, d: seq<U8>)
    requires |d| < BYTE_COUNT_MODULUS
    ensures var e := HeaderVerdict(h);
            Streamed(stale, h, d).Ok? <==>
            e.Ok? && HeaderMatches(d, e.value) && Echoes(d, 9, e.value) &&
            WalkAccepts(d, LastDeclared(d, 9, d[4]))
    ensures Streamed(stale, h, d).Ok? ==> Streamed(stale, h, d).value == WalkTables(d)
  {
    var header := HeaderVerdict(h);
    if header.Ok? {
      var e, s := header.value, Prepared(stale);
      var f := (r: Registers, x: U8) => Advance(r, x, e);
      RunFolds(f, s, d, |d|, e);
      BytesAreCounted(f, s, d, 0, |d|, e);
      if |d| == e.total {
        FullRead(f, stale, d, e);
        if HeaderMatches(d, e) {
          FinishVerdict(Run(s, d, 0, |d|, e), d, e, Walk(d, 9, NOTHING_WALKED), Echoes(d, 9, e),
                        LastDeclared(d, 9, d[4]));
        }
      }
    }
  }

  // ---- Agreement ----------------------------------------------------------------------------

  /** No configuration-type descriptor after the header. */
  predicate NoSecondConfiguration(d: seq<U8>, at: nat)
    requires at <= |d|
    decreases |d| - at
  {
    Framed(d, at) ==> d[at + 1] != CONFIGURATION && NoSecondConfiguration(d, at + d[at])
  }

  lemma {:induction false} NothingToEcho(d: seq<U8>, at: nat, before: U8, e: Expected)
    requires at <= |d| && NoSecondConfiguration(d, at)
    ensures Echoes(d, at, e) && LastDeclared(d, at, before) == before
    decreases |d| - at
  {
    if Framed(d, at) {
      NothingToEcho(d, at + d[at], before, e);
    }
  }

  /** What a device answering both requests from one descriptor sends first. */
  function HeaderOf(d: seq<U8>): seq<U8> {
    if |d| < 9 then d else d[..9]
  }

  lemma HeaderOfAccepted(d: seq<U8>)
    ensures CheckHeader(d).Ok? ==>
              HeaderVerdict(HeaderOf(d)) == Ok(Expected(|d|, d[5])) &&
              HeaderMatches(d, Expected(|d|, d[5]))
    ensures HeaderVerdict(HeaderOf(d)).Ok? && HeaderMatches(d, HeaderVerdict(HeaderOf(d)).value) ==>
              CheckHeader(d).Ok?
  {
    if |d| >= 9 {
      assert Word(HeaderOf(d), 2) == Word(d, 2);
    }
  }

  /** Same verdict and same tables on every byte string with no second configuration descriptor. */
  lemma ParsersAgree(stale: Registers, d: seq<U8>)
    requires |d| < BYTE_COUNT_MODULUS
    requires |d| >= 9 ==> NoSecondConfiguration(d, 9)
    ensures Streamed(stale, HeaderOf(d), d).Ok? <==> Parsed(d).Ok?
    ensures Parsed(d).Ok? ==> Streamed(stale, HeaderOf(d), d) == Ok(BufferTables(Parsed(d).value))
  {
    var h := HeaderOf(d);
    StreamVerdict(stale, h, d);
    HeaderOfAccepted(d);
    if CheckHeader(d).Ok? {
      NothingToEcho(d, 9, d[4], Expected(|d|, d[5]));
    }
  }

  /** Whatever the device sends in answer to the two requests, an accepted read would parse. */
  lemma StreamAcceptsOnlyParsable(stale: Registers, h: seq<U8>, d: seq<U8>)
    requires |d| < BYTE_COUNT_MODULUS
    requires |d| >= 9 ==> NoSecondConfiguration(d, 9)
    requires Streamed(stale, h, d).Ok?
    ensures Parsed(d).Ok? && Streamed(stale, h, d).value == BufferTables(Parsed(d).value)
    ensures Parsed(d).value.value == h[5]
  {
    StreamVerdict(stale, h, d);
    NothingToEcho(d, 9, d[4], HeaderVerdict(h).value);
  }

  /** With later configuration descriptors: what the buffer parser accepts, the stream accepts
   *  exactly when they all repeat the header and the last one declares the same interface count. */
  lemma AcceptedBufferStreams(stale: Registers, d: seq<U8>)
    requires |d| < BYTE_COUNT_MODULUS && Parsed(d).Ok?
    ensures Streamed(stale, HeaderOf(d), d).Ok? <==>
            Echoes(d, 9, Expected(|d|, d[5])) && LastDeclared(d, 9, d[4]) == d[4]
  {
    StreamVerdict(stale, HeaderOf(d), d);
    HeaderOfAccepted(d);
  }

  /** What the stream accepts, the buffer parser accepts exactly when that last count is the first. */
  lemma StreamedBufferAccepts(stale: Registers, d: seq<U8>)
    requires |d| < BYTE_COUNT_MODULUS && Streamed(stale, HeaderOf(d), d).Ok?
    ensures |d| >= 9 && (Parsed(d).Ok? <==> LastDeclared(d, 9, d[4]) == d[4])
  {
    StreamVerdict(stale, HeaderOf(d), d);
    HeaderOfAccepted(d);
  }

  // ---- Two devices the parsers disagree about -----------------------------------------------

  /** One HID interface with an interrupt-IN endpoint, ended by a second configuration descriptor. */
  function TwoConfigurations(count: U8, value: U8): seq<U8> {
    [9, 2, 49, 0, count, value, 0, 0, 50] +
    [9, 4, 0, 0, 1, 3, 1, 2, 0] +
    [9, 0x21, 0x11, 1, 0, 1, 0x22, 52, 0] +
    [7, 5, 0x81, 3, 8, 0, 10] +
    [9, 2, 49, 0, 1, 1, 0, 0, 50] +
    [6, 0, 0, 0, 0, 0]
  }

  lemma WalkOfTwo(count: U8, value: U8)
    ensures var d := TwoConfigurations(count, value);
            |d| == 49 &&
            Walk(d, 9, NOTHING_WALKED) ==
            Ok(Walked([InEndpoint(0, 1, 8, 10, 52)], None, false, 1, true, false, 0, 52))
    ensures var d, e := TwoConfigurations(count, value), Expected(49, value);
            (Echoes(d, 9, e) <==> value == 1) && LastDeclared(d, 9, d[4]) == 1
  {
    var d, e := TwoConfigurations(count, value), Expected(49, value);
    var w1 := Walked([], None, false, 1, true, false, 0, 0);
    var w2 := Walked([], None, false, 1, true, false, 0, 52);
    var w3 := Walked([InEndpoint(0, 1, 8, 10, 52)], None, false, 1, true, false, 0, 52);
    assert WalkDescriptor(d, 9, NOTHING_WALKED) == Ok(w1);
    assert Subordinates(d, 27, 0, 52) == Ok(52);
    assert Subordinates(d, 24, 1, 0) == Ok(52);
    assert WalkDescriptor(d, 18, w1) == Ok(w2);
    assert InRefusal(0x81, 8, 10, 52, []) == None;
    assert w2.endpoints + [InEndpoint(0, 1, 8, 10, 52)] == w3.endpoints;
    assert CaptureIn(0x81, 8, 10, w2) == Ok(w3);
    assert Word(d, 31) == 8;
    assert WalkDescriptor(d, 27, w2) == Ok(w3);
    assert WalkDescriptor(d, 34, w3) == Ok(w3);
    assert WalkDescriptor(d, 43, w3) == Ok(w3);
    assert Walk(d, 49, w3) == Ok(w3);
    assert Walk(d, 43, w3) == Ok(w3);
    assert Walk(d, 34, w3) == Ok(w3);
    assert Walk(d, 27, w2) == Ok(w3);
    assert Walk(d, 18, w1) == Ok(w3);
    assert Echoes(d, 49, e) && Echoes(d, 43, e);
    assert EchoOk(d, 34, e) <==> value == 1;
    assert Echoes(d, 34, e) <==> value == 1;
    assert Echoes(d, 27, e) <==> value == 1;
    assert Echoes(d, 18, e) <==> value == 1;
    assert LastDeclared(d, 49, 1) == 1;
    assert LastDeclared(d, 43, 1) == 1;
    assert LastDeclared(d, 34, d[4]) == 1;
    assert LastDeclared(d, 27, d[4]) == 1;
    assert LastDeclared(d, 18, d[4]) == 1;
  }

  /** The buffer parser takes it, the stream refuses: the second value differs from the first. */
  lemma BufferAloneAccepts(stale: Registers)
    ensures var d := TwoConfigurations(1, 2);
            Parsed(d).Ok? && Streamed(stale, HeaderOf(d), d).Err?
  {
    var d := TwoConfigurations(1, 2);
    WalkOfTwo(1, 2);
    assert CheckHeader(d).Ok?;
    AcceptedBufferStreams(stale, d);
  }

  /** The stream takes it, the buffer parser refuses: the second count hides the first one's lie. */
  lemma StreamAloneAccepts(stale: Registers)
    ensures var d := TwoConfigurations(3, 1);
            Streamed(stale, HeaderOf(d), d).Ok? && Parsed(d).Err?
  {
    var d := TwoConfigurations(3, 1);
    WalkOfTwo(3, 1);
    assert CheckHeader(d).Ok?;
    HeaderOfAccepted(d);
    StreamVerdict(stale, HeaderOf(d), d);
  }
}
