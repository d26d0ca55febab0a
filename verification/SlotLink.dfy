/** The fixed-slot master: how a slot is built, and which received slots it publishes. */
module SlotLink {
  import opened Bits
  import opened Crc16
  import opened CrcStrength
  import opened SlotCodec

  // ---- What a damaged slot cannot do --------------------------------------------------------

  lemma TailParity(w: seq<bool>, low: Octet, high: Octet)
    requires |w| == 256 && Carries(w, 240, low) && Carries(w, 248, high)
    ensures Parity(w, 256) == Odd(Parity(w, 240), Parity(low + high, 16))
  {
    OctetParity(w, 240, low);
    OctetParity(w, 248, high);
    PairParityFrom(low, high, low + high, 8);
  }

  lemma WirePrefix(o: seq<Octet>, p: seq<Octet>)
    requires p <= o
    ensures WireOf(p) == WireOf(o)[..8 * |p|]
  {
  }

  /** A slot under a right checksum has an even number of ones in all 256 bits. */
  lemma SealedIsEven(slot: seq<Byte>)
    requires |slot| == FRAME_SIZE && CrcOk(slot)
    ensures !Parity(Wire(slot), 256)
  {
    var w, body := Wire(slot), slot[..CHECKED];
    var o := AllOctets(slot);
    WireCarriesAll(o);
    assert Carries(w, 8 * 30, o[30]) && Carries(w, 8 * 31, o[31]);
    TailParity(w, o[30], o[31]);
    WirePrefix(o, AllOctets(body));
    PrefixParity(w, Wire(body), 240);
    CrcParity(body);
  }

  /** Any odd number of flipped bits, anywhere in the slot, is refused. */
  lemma OddFlipsAreRefused(kind: Byte, sequence: Byte, payload: seq<Byte>, damaged: seq<Byte>)
    requires PackSlot(kind, sequence, payload).Ok? && |damaged| == FRAME_SIZE
    requires Ones(Flips(Wire(PackSlot(kind, sequence, payload).value), Wire(damaged)), 256) % 2 == 1
    ensures UnpackSlot(damaged).Err?
  {
    var slot := PackSlot(kind, sequence, payload).value;
    SealedIsOk(Body(kind, sequence, payload));
    SealedIsEven(slot);
    ParityIsOddOnes(Flips(Wire(slot), Wire(damaged)), 256);
    FlipsParity(Wire(slot), Wire(damaged), 256);
    if CrcOk(damaged) {
      SealedIsEven(damaged);
    }
  }

  /** A burst of at most 16 bits under the checksum, with the checksum itself intact, is refused. */
  lemma BurstsAreRefused(kind: Byte, sequence: Byte, payload: seq<Byte>, damaged: seq<Byte>, at: nat)
    requires PackSlot(kind, sequence, payload).Ok? && |damaged| == FRAME_SIZE && at + 16 <= 240
    requires var slot := PackSlot(kind, sequence, payload).value;
             damaged != slot && damaged[30..] == slot[30..] &&
             WithinBurst(Flips(Wire(slot[..CHECKED]), Wire(damaged[..CHECKED])), at)
    ensures UnpackSlot(damaged).Err?
  {
    var slot := PackSlot(kind, sequence, payload).value;
    var a, b := slot[..CHECKED], damaged[..CHECKED];
    SealedIsOk(Body(kind, sequence, payload));
    assert slot[30] == slot[30..][0] == damaged[30] && slot[31] == slot[30..][1] == damaged[31];
    assert a != b by {
      assert slot == a + slot[30..] && damaged == b + damaged[30..];
    }
    var flipped := FirstFlip(a, b);
    BurstIsSeen(Init(), a, b, at, flipped);
  }

  lemma FlipInOctet(w: seq<bool>, v: seq<bool>, at: nat, a: Octet, b: Octet) returns (flipped: nat)
    requires |w| == |v| && at + 8 <= |w| && Carries(w, at, a) && Carries(v, at, b) && a != b
    ensures flipped < |w| && w[flipped] != v[flipped]
  {
    var i :| 0 <= i < 8 && a[i] != b[i];
    flipped := at + 7 - i;
    assert w[flipped] == a[7 - (flipped - at)] && v[flipped] == b[7 - (flipped - at)];
  }

  lemma FirstFlip(a: seq<Byte>, b: seq<Byte>) returns (flipped: nat)
    requires |a| == |b| && a != b
    ensures flipped < 8 * |a| && Wire(a)[flipped] != Wire(b)[flipped]
  {
    var k :| 0 <= k < |a| && a[k] != b[k];
    var o, p := AllOctets(a), AllOctets(b);
    if o[k] == p[k] {
      SameBitsSameByte(a[k], b[k]);
    }
    WireCarriesAll(o);
    WireCarriesAll(p);
    flipped := FlipInOctet(WireOf(o), WireOf(p), 8 * k, o[k], p[k]);
  }

  // ---- Receiving ----------------------------------------------------------------------------

  datatype Verdict = NotReady | WrongSof | WrongType | WrongLength | WrongCrc | IdleSlot | QueueFull | Published

  /** The order in which the validator looks, which is not the order unpack_slot looks in. */
  function Judged(slot: seq<Byte>, ready: bool, free: bool): Verdict
    requires |slot| == FRAME_SIZE
  {
    if !ready then NotReady
    else if slot[0] != SOF then WrongSof
    else if !KnownType(slot[1]) then WrongType
    else if slot[3] != LengthByte(slot[1]) then WrongLength
    else if !CrcOk(slot) then WrongCrc
    else if slot[1] == IDLE then IdleSlot
    else if free then Published
    else QueueFull
  }

  /** The gateware publishes exactly the messages unpack_slot accepts, flags aside. */
  lemma PublishedUnpacks(slot: seq<Byte>, free: bool)
    requires |slot| == FRAME_SIZE
    ensures Judged(slot, true, free) == Published || Judged(slot, true, free) == QueueFull <==>
            (UnpackSlot(slot).Ok? || UnpackSlot(slot) == Err(BadFlags)) && slot[1] != IDLE
    ensures Judged(slot, true, free) == IdleSlot <==> UnpackSlot(slot).Ok? && slot[1] == IDLE
  {
  }

  const COUNTER_LIMIT: nat := 0xFFFF_FFFF

  /** Saturating counters of refused slots. */
  datatype Refusals = Refusals(sof: nat, kind: nat, length: nat, crc: nat, queueFull: nat)

  function Bumped(count: nat, bump: bool): nat { if bump && count != COUNTER_LIMIT then count + 1 else count }

  function Counted(c: Refusals, v: Verdict): Refusals {
    Refusals(Bumped(c.sof, v == WrongSof), Bumped(c.kind, v == WrongType), Bumped(c.length, v == WrongLength),
             Bumped(c.crc, v == WrongCrc), Bumped(c.queueFull, v == QueueFull))
  }

  /** The queued decoded message. */
  datatype Queued = Queued(valid: bool, kind: Byte, sequence: Byte)

  /** The header bytes and checksum verdict gathered while a slot shifts in. */
  datatype Captured = Captured(sof: Byte, kind: Byte, sequence: Byte, length: Byte, crcOk: bool)

  function CapturedFrom(slot: seq<Byte>): Captured
    requires |slot| == FRAME_SIZE
  {
    Captured(slot[0], slot[1], slot[2], slot[3], CrcOk(slot))
  }

  class SPISlotMaster {
    const txMemory: array<Byte>
    const rxMemory: array<Byte>
    var publishedBank: bool
    var rx: Queued
    var refusals: Refusals

    constructor ()
      ensures Valid() && fresh(txMemory) && fresh(rxMemory) && !rx.valid
    {
      txMemory := new Byte[FRAME_SIZE];
      rxMemory := new Byte[2 * FRAME_SIZE];
      publishedBank, rx, refusals := false, Queued(false, 0, 0), Refusals(0, 0, 0, 0, 0);
    }

    ghost predicate Valid() {
      txMemory.Length == FRAME_SIZE && rxMemory.Length == 2 * FRAME_SIZE && txMemory != rxMemory
    }

    function Base(bank: bool): nat { if bank then FRAME_SIZE else 0 }

    /** What the published bank holds. */
    function PublishedSlot(): seq<Byte>
      reads `publishedBank, rxMemory
      requires Valid()
    {
      rxMemory[Base(publishedBank)..Base(publishedBank) + FRAME_SIZE]
    }

    /** The byte multiplexer: header, payload, then the finished checksum, low byte first. */
    method TransmitByte(kind: Byte, sequence: Byte, payload: Payload, index: nat, crc: Reg) returns (b: Byte)
      requires kind != IDLE && index < FRAME_SIZE
      requires index >= CHECKED ==> crc == Crc(Init(), Body(kind, sequence, payload), CHECKED)
      ensures b == Sealed(Body(kind, sequence, payload))[index]
    {
      b := SOF;
      if index == 1 {
        b := kind;
      } else if index == 2 {
        b := sequence;
      } else if index == 3 {
        b := 26;
      } else if 4 <= index < CHECKED {
        b := payload[index - 4];
      } else if index == 30 {
        b := ByteOf(crc[..8]);
      } else if index == 31 {
        b := ByteOf(crc[8..]);
      }
    }

    /** The transmit frame, one byte a step; the payload is asked for byte by byte. */
    method BuildSlot(kind: Byte, sequence: Byte, payload: Payload)
      requires Valid() && kind != IDLE
      modifies txMemory
      ensures txMemory[..] == Sealed(Body(kind, sequence, payload))
    {
      ghost var slot := Sealed(Body(kind, sequence, payload));
      SealedIsOk(Body(kind, sequence, payload));
      var crc: Reg := Init();
      var index := 0;
      while index < FRAME_SIZE
        invariant index <= FRAME_SIZE
        invariant txMemory[..index] == slot[..index]
        invariant crc == Crc(Init(), slot[..CHECKED], if index < CHECKED then index else CHECKED)
      {
        var b := TransmitByte(kind, sequence, payload, index, crc);
        crc := StepCrc(crc, slot, b, index);
        txMemory[index] := b;
        index := index + 1;
      }
    }

    /** One byte of the incoming slot: never into the published bank. */
    method CaptureByte(index: nat, b: Byte, bank: bool)
      requires Valid() && index < FRAME_SIZE && bank != publishedBank
      modifies rxMemory
      ensures rxMemory[..] == old(rxMemory[..])[Base(bank) + index := b]
      ensures PublishedSlot() == old(PublishedSlot())
    {
      rxMemory[Base(bank) + index] := b;
    }

    /** The slot shifts in, one byte a step. */
    method Capture(slot: seq<Byte>, bank: bool) returns (c: Captured)
      requires Valid() && |slot| == FRAME_SIZE && bank != publishedBank
      modifies rxMemory
      ensures rxMemory[Base(bank)..Base(bank) + FRAME_SIZE] == slot
      ensures PublishedSlot() == old(PublishedSlot())
      ensures c == CapturedFrom(slot)
    {
      var crc: Reg := Init();
      var sof: Byte, kind: Byte, sequence: Byte, length: Byte, low: Byte, high: Byte := 0, 0, 0, 0, 0, 0;
      var index := 0;
      while index < FRAME_SIZE
        invariant index <= FRAME_SIZE
        invariant PublishedSlot() == old(PublishedSlot())
        invariant rxMemory[Base(bank)..Base(bank) + index] == slot[..index]
        invariant crc == Crc(Init(), slot[..CHECKED], if index < CHECKED then index else CHECKED)
        invariant index > 0 ==> sof == slot[0]
        invariant index > 1 ==> kind == slot[1]
        invariant index > 2 ==> sequence == slot[2]
        invariant index > 3 ==> length == slot[3]
        invariant index > 30 ==> low == slot[30]
        invariant index > 31 ==> high == slot[31]
      {
        var b := slot[index];
        CaptureByte(index, b, bank);
        crc := StepCrc(crc, slot, b, index);
        if index == 0 {
          sof := b;
        } else if index == 1 {
          kind := b;
        } else if index == 2 {
          sequence := b;
        } else if index == 3 {
          length := b;
        } else if index == 30 {
          low := b;
        } else if index == 31 {
          high := b;
        }
        index := index + 1;
      }
      c := Captured(sof, kind, sequence, length, crc == Received(low, high));
    }

    /** The first thirty bytes go under the checksum. */
    method StepCrc(before: Reg, ghost slot: seq<Byte>, b: Byte, index: nat) returns (after: Reg)
      requires |slot| == FRAME_SIZE && index < FRAME_SIZE && b == slot[index]
      requires before == Crc(Init(), slot[..CHECKED], if index < CHECKED then index else CHECKED)
      ensures after == Crc(Init(), slot[..CHECKED], if index + 1 < CHECKED then index + 1 else CHECKED)
    {
      after := before;
      if index < CHECKED {
        after := ByteFolded(before, Octets(b));
        FoldedIsStepped(before, Octets(b));
      }
    }

    /** The validator: one counter, one publication, or nothing. */
    method Validate(ghost slot: seq<Byte>, ready: bool, rxReady: bool, bank: bool, c: Captured)
      requires Valid() && |slot| == FRAME_SIZE && c == CapturedFrom(slot)
      modifies `publishedBank, `rx, `refusals
      ensures var v := Judged(slot, ready, !old(rx).valid || rxReady);
              publishedBank == (if v == Published then bank else old(publishedBank)) &&
              rx == (if v == Published then Queued(true, slot[1], slot[2])
                     else Queued(old(rx).valid && !rxReady, old(rx).kind, old(rx).sequence)) &&
              refusals == Counted(old(refusals), v)
    {
      var free := !rx.valid || rxReady;
      rx := rx.(valid := rx.valid && !rxReady);
      if ready && c.sof != SOF {
        refusals := refusals.(sof := Bumped(refusals.sof, true));
      } else if ready && !KnownType(c.kind) {
        refusals := refusals.(kind := Bumped(refusals.kind, true));
      } else if ready && c.length != LengthByte(c.kind) {
        refusals := refusals.(length := Bumped(refusals.length, true));
      } else if ready && !c.crcOk {
        refusals := refusals.(crc := Bumped(refusals.crc, true));
      } else if ready && c.kind != IDLE && free {
        rx, publishedBank := Queued(true, c.kind, c.sequence), bank;
      } else if ready && c.kind != IDLE {
        refusals := refusals.(queueFull := Bumped(refusals.queueFull, true));
      }
    }

    /** A whole slot: captured into the other bank, then validated; what is queued is never disturbed. */
    method ReceiveSlot(slot: seq<Byte>, ready: bool, rxReady: bool)
      requires Valid() && |slot| == FRAME_SIZE
      modifies this, rxMemory
      ensures var v := Judged(slot, ready, !old(rx).valid || rxReady);
              (if v == Published then rx == Queued(true, slot[1], slot[2]) && PublishedSlot() == slot
               else rx == Queued(old(rx).valid && !rxReady, old(rx).kind, old(rx).sequence) &&
                    PublishedSlot() == old(PublishedSlot())) &&
              refusals == Counted(old(refusals), v)
    {
      var bank := !publishedBank;
      var c := Capture(slot, bank);
      Validate(slot, ready, rxReady, bank, c);
    }

    /** The byte the plane reads at a payload address. */
    method ReadPayload(address: nat) returns (b: Byte)
      requires Valid() && address < MAX_PAYLOAD
      ensures b == PublishedSlot()[4..30][address]
    {
      b := rxMemory[Base(publishedBank) + address + 4];
    }
  }

  /** The built frame is pack_slot's, for every message pack_slot would pack. */
  lemma BuiltIsPacked(kind: Byte, sequence: Byte, payload: Payload)
    requires KnownType(kind) && kind != IDLE && FlagsAllowed(kind, payload)
    ensures PackSlot(kind, sequence, payload) == Ok(Sealed(Body(kind, sequence, payload)))
    ensures Judged(Sealed(Body(kind, sequence, payload)), true, true) == Published
  {
    RoundTrip(kind, sequence, payload);
    PublishedUnpacks(Sealed(Body(kind, sequence, payload)), true);
  }
}
