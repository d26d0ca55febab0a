/** A map entry is its 26 payload bytes: what the CRC runs over decides every field. */
module EntryPayload {
  import opened Bits
  import opened MapEntries
  import W = WirePayload

  /** The flags byte as the number the wire carries. */
  function FlagsNumber(f: Flags): (n: nat)
    ensures n < 0x100
  {
    (if f.signed then 1 else 0) + (if f.relative then 2 else 0) + (if f.button then 4 else 0) +
    (if f.x then 8 else 0) + (if f.y then 16 else 0) + (if f.wheel then 32 else 0) +
    (if f.pan then 64 else 0) + (if f.undefined then 128 else 0)
  }

  lemma FlagsAgree(f: Flags)
    ensures FlagsByte(f) as int == FlagsNumber(f)
  {
  }

  /** The fields in wire order. */
  function ValuesOf(e: MapEntry): seq<W.Value> {
    [W.Number(e.descriptorGeneration), W.Number(e.mapGeneration), W.Number(e.entryIndex),
     W.Number(e.interfaceNumber), W.Number(e.endpointNumber), W.Number(e.reportId),
     W.Number(e.usagePage), W.Number(e.usage), W.Number(e.bitOffset), W.Number(e.bitWidth),
     W.Number(FlagsNumber(e.flags)), W.Number(e.logicalMinimum), W.Number(e.logicalMaximum),
     W.Number(e.reportLength), W.Number(e.channel)]
  }

  /** The register's bytes are these numbers. */
  predicate Carries(bytes: seq<Byte>, numbers: seq<W.U8>) {
    |bytes| == |numbers| && forall i :: 0 <= i < |bytes| ==> bytes[i] as int == numbers[i]
  }

  /** The entry as a MAP_ENTRY frame delivers it: its payload is the packing of its fields. */
  ghost predicate Framed(e: MapEntry) {
    && W.WellFormed(W.MAP_ENTRY)
    && W.Pack(W.MAP_ENTRY, ValuesOf(e)).Ok?
    && Carries(e.payload, W.Pack(W.MAP_ENTRY, ValuesOf(e)).value)
  }

  lemma ValueFits(e: MapEntry, k: nat)
    requires k < 15
    ensures W.Fits(W.MAP_ENTRY.fields[k], ValuesOf(e)[k])
  {
    SpansAre();
  }

  lemma SpansAre()
    ensures W.Span(1) == 0x100 && W.Span(2) == 0x1_0000 && W.Span(4) == 0x1_0000_0000
  {
    assert W.Span(2) == 0x100 * W.Span(1) && W.Span(3) == 0x100 * W.Span(2) && W.Span(4) == 0x100 * W.Span(3);
  }

  /** Every entry without the undefined flag has a frame. */
  lemma EveryEntryPacks(e: MapEntry)
    requires !e.flags.undefined
    ensures W.WellFormed(W.MAP_ENTRY) && W.Pack(W.MAP_ENTRY, ValuesOf(e)).Ok?
  {
    W.LayoutFills(W.MapEntry);
    forall k | 0 <= k < 15
      ensures W.Fits(W.MAP_ENTRY.fields[k], ValuesOf(e)[k])
    {
      ValueFits(e, k);
    }
  }

  /** Framed entries with the same 26 bytes are the same entry: no field escapes the checksum. */
  lemma PayloadDeterminesEntry(a: MapEntry, b: MapEntry)
    requires Framed(a) && Framed(b) && a.payload == b.payload
    ensures a == b
  {
    var p, q := W.Pack(W.MAP_ENTRY, ValuesOf(a)).value, W.Pack(W.MAP_ENTRY, ValuesOf(b)).value;
    assert forall i :: 0 <= i < |p| ==> p[i] == a.payload[i] as int == q[i];
    assert p == q;
    W.RoundTrip(W.MAP_ENTRY, ValuesOf(a));
    W.RoundTrip(W.MAP_ENTRY, ValuesOf(b));
    SameValues(a, b);
  }

  lemma SameValues(a: MapEntry, b: MapEntry)
    requires ValuesOf(a) == ValuesOf(b) && a.payload == b.payload
    ensures a == b
  {
    var v, w := ValuesOf(a), ValuesOf(b);
    assert forall k :: 0 <= k < 15 ==> v[k] == w[k];
    assert v[0] == w[0] && v[1] == w[1] && v[2] == w[2] && v[3] == w[3] && v[4] == w[4];
    assert v[5] == w[5] && v[6] == w[6] && v[7] == w[7] && v[8] == w[8] && v[9] == w[9];
    assert v[10] == w[10] && v[11] == w[11] && v[12] == w[12] && v[13] == w[13] && v[14] == w[14];
  }
}
