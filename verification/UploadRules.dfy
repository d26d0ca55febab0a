/** The rules an upload is accepted by, one by one and with their numbers. */
module UploadRules {
  import opened Bits
  import opened Crc
  import opened MapEntries
  import opened MapValidation

  // ---- One entry ----------------------------------------------------------------------------

  /** How many of the four axes a field names. */
  function Axes(f: Flags): nat {
    (if f.x then 1 else 0) + (if f.y then 1 else 0) + (if f.wheel then 1 else 0) + (if f.pan then 1 else 0)
  }

  /** The flags byte: bits 0 to 2 signed, relative and button, 3 to 6 the axes, bit 7 never. */
  predicate FlagsSay(b: Byte, f: Flags) {
    (f.signed <==> b & 0x01 != 0) && (f.relative <==> b & 0x02 != 0) && (f.button <==> b & 0x04 != 0) &&
    (f.x <==> b & 0x08 != 0) && (f.y <==> b & 0x10 != 0) && (f.wheel <==> b & 0x20 != 0) &&
    (f.pan <==> b & 0x40 != 0) && (f.undefined <==> b & 0x80 != 0)
  }

  lemma FlagsByteSays(f: Flags)
    ensures FlagsSay(FlagsByte(f), f)
  {
  }

  /** A button, a relative field of one axis, or an absolute one of a known channel and at most 16 bits. */
  predicate OfAClass(e: MapEntry) {
    var f := e.flags;
    if f.button then !f.relative && !f.signed && Axes(f) == 0 && e.channel == 0
    else if f.relative then Axes(f) == 1 && e.channel == 0
    else Axes(f) == 0 && e.channel <= 6 && e.bitWidth <= 16
  }

  predicate EntryFits(e: MapEntry, i: nat, descriptorGeneration: U16, mapGeneration: U16) {
    e.descriptorGeneration == descriptorGeneration && e.mapGeneration == mapGeneration && e.entryIndex == i &&
    e.endpointNumber != 0 && 1 <= e.reportLength <= 64 && 1 <= e.bitWidth <= 32 &&
    e.bitOffset + e.bitWidth <= 8 * e.reportLength && (e.reportId == 0 || e.bitOffset >= 8) &&
    e.logicalMinimum <= e.logicalMaximum && !e.flags.undefined && OfAClass(e)
  }

  lemma EntryFitsIs(e: MapEntry, i: nat, u: Upload)
    ensures EntryOk(e, i, u) <==> EntryFits(e, i, u.descriptorGeneration, u.mapGeneration)
  {
  }

  // ---- The checksum -------------------------------------------------------------------------

  /** The entries' payloads one after the other, as the sender checksums them. */
  function Joined(entries: seq<MapEntry>, n: nat): seq<Byte>
    requires n <= |entries|
  {
    if n == 0 then [] else Joined(entries, n - 1) + entries[n - 1].payload
  }

  lemma {:induction false} CrcOfFront(crc: bv32, a: seq<Byte>, b: seq<Byte>, n: nat)
    requires n <= |a|
    ensures Crc32(crc, a + b, n) == Crc32(crc, a, n)
    decreases n
  {
    if n > 0 {
      CrcOfFront(crc, a, b, n - 1);
    }
  }

  lemma {:induction false} CrcJoins(crc: bv32, a: seq<Byte>, b: seq<Byte>, n: nat)
    requires n <= |b|
    ensures Crc32(crc, a + b, |a| + n) == Crc32(Crc32(crc, a, |a|), b, n)
    decreases n
  {
    if n == 0 {
      CrcOfFront(crc, a, b, |a|);
    } else {
      CrcJoins(crc, a, b, n - 1);
      assert (a + b)[|a| + n - 1] == b[n - 1];
    }
  }

  /** The register carried from entry to entry is the checksum of all their bytes. */
  lemma {:induction false} EntriesAreJoined(entries: seq<MapEntry>, n: nat)
    requires n <= |entries|
    ensures EntriesCrc(entries, n) == Crc32(0xFFFF_FFFF, Joined(entries, n), |Joined(entries, n)|)
    decreases n
  {
    if n > 0 {
      EntriesAreJoined(entries, n - 1);
      var p := entries[n - 1].payload;
      CrcJoins(0xFFFF_FFFF, Joined(entries, n - 1), p, |p|);
    }
  }

  // ---- The whole upload ---------------------------------------------------------------------

  /** Entries of one layout agree on its length, and no bit of it is in two of them. */
  ghost predicate Share(a: MapEntry, b: MapEntry) {
    a.interfaceNumber == b.interfaceNumber && a.endpointNumber == b.endpointNumber && a.reportId == b.reportId ==>
      a.reportLength == b.reportLength && forall p :: !(Covers(a, p) && Covers(b, p))
  }

  lemma SharesIs(a: MapEntry, b: MapEntry)
    requires 1 <= a.bitWidth && 1 <= b.bitWidth
    ensures Compatible(a, b) <==> Share(a, b)
  {
    if !Disjoint(a, b) {
      var p := if a.bitOffset > b.bitOffset then a.bitOffset else b.bitOffset;
      assert a.bitOffset + a.bitWidth > b.bitOffset && b.bitOffset + b.bitWidth > a.bitOffset;
      assert Covers(a, p) && Covers(b, p);
    }
  }

  predicate AllFit(u: Upload) {
    forall i :: 0 <= i < |u.entries| ==> EntryFits(u.entries[i], i, u.descriptorGeneration, u.mapGeneration)
  }

  ghost predicate AllShare(u: Upload) {
    forall i, j :: 0 <= i < j < |u.entries| ==> Share(u.entries[i], u.entries[j])
  }

  /** The rules, of an upload's metadata and its entries. */
  ghost predicate Sound(u: Upload) {
    AllFit(u) && AllShare(u) && |set i: nat | i < |u.entries| :: Key(u.entries[i])| == u.layoutCount &&
    Crc32(0xFFFF_FFFF, Joined(u.entries, |u.entries|), |Joined(u.entries, |u.entries|)|) ^ 0xFFFF_FFFF ==
      u.entriesCrc32
  }

  lemma PrefixFits(u: Upload)
    ensures PrefixOk(u, |u.entries|) ==> AllFit(u)
  {
    if PrefixOk(u, |u.entries|) {
      forall i | 0 <= i < |u.entries|
        ensures EntryFits(u.entries[i], i, u.descriptorGeneration, u.mapGeneration)
      {
        EntryFitsIs(u.entries[i], i, u);
      }
    }
  }

  lemma PrefixShares(u: Upload)
    requires AllFit(u)
    ensures PrefixOk(u, |u.entries|) ==> AllShare(u)
  {
    if PrefixOk(u, |u.entries|) {
      forall i, j | 0 <= i < j < |u.entries| ensures Share(u.entries[i], u.entries[j]) {
        assert Compatible(u.entries[i], u.entries[j]);
        SharesIs(u.entries[i], u.entries[j]);
      }
    }
  }

  lemma PrefixIs(u: Upload)
    requires AllFit(u) && AllShare(u)
    ensures PrefixOk(u, |u.entries|)
  {
    forall i | 0 <= i < |u.entries| ensures EntryOk(u.entries[i], i, u) {
      EntryFitsIs(u.entries[i], i, u);
    }
    forall i, j | 0 <= i < j < |u.entries| ensures Compatible(u.entries[i], u.entries[j]) {
      assert Share(u.entries[i], u.entries[j]);
      SharesIs(u.entries[i], u.entries[j]);
    }
  }

  lemma RestIs(u: Upload)
    ensures |Keys(u.entries, |u.entries|)| == |set i: nat | i < |u.entries| :: Key(u.entries[i])|
    ensures CrcMatches(u) <==>
            Crc32(0xFFFF_FFFF, Joined(u.entries, |u.entries|), |Joined(u.entries, |u.entries|)|) ^ 0xFFFF_FFFF ==
              u.entriesCrc32
  {
    EntriesAreJoined(u.entries, |u.entries|);
    assert Keys(u.entries, |u.entries|) == set i: nat | i < |u.entries| :: Key(u.entries[i]);
  }

  /** What the validator accepts is exactly what keeps these rules. */
  lemma UploadRulesAre(u: Upload)
    ensures UploadOk(u) <==> Sound(u)
  {
    PrefixFits(u);
    if AllFit(u) {
      PrefixShares(u);
      if AllShare(u) {
        PrefixIs(u);
      }
    }
    RestIs(u);
  }
}
