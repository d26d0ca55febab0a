/** Validation pays for the pipeline: what an accepted map lets the engine assume. */
module MapGuarantees {
  import opened MapEntries
  import opened MapValidation
  import opened MapStore
  import opened FieldPipeline

  /** Every accepted map keeps its fields inside their reports and apart from each other. */
  lemma AcceptedMapIsUsable(u: Upload, t: Target)
    requires UploadOk(u)
    ensures Usable(u.entries, t) && NoOverlap(u.entries, t)
  {
    forall j, k | 0 <= j < k < |u.entries| && Matches(u.entries[j], t) && Matches(u.entries[k], t)
      ensures Disjoint(u.entries[j], u.entries[k])
    {
      assert Compatible(u.entries[j], u.entries[k]);
    }
  }

  /** The map the engine finds active and valid, on any clock of any run, is such a map. */
  lemma ActiveMapIsUsable(s: State, descriptorGeneration: U16, t: Target)
    requires Reachable(s) && ActiveValid(s, descriptorGeneration)
    ensures var u := s.history.published.At(s.bank.activeBank);
      ActiveHolds(s, u) && Usable(u.entries, t) && NoOverlap(u.entries, t)
  {
    ReachableInv(s);
    AcceptedMapIsUsable(s.history.published.At(s.bank.activeBank), t);
  }

  /** The entry lookup: what its registers keep of one clock, and the word read on it. */
  datatype Lookup = Lookup(
    inRange: bool, bank: bool, descriptorGeneration: U16, mapGeneration: U16, entry: MapEntry)

  type EntryIndex = n: nat | n < MAX_FIELDS

  function Looked(s: State, index: EntryIndex, descriptorGeneration: U16): Lookup
    requires Shaped(s)
  {
    Lookup(
      ActiveValid(s, descriptorGeneration) && index < Active(s).entryCount,
      s.bank.activeBank, Active(s).descriptorGeneration, Active(s).mapGeneration,
      s.memory.At(s.bank.activeBank).entries[index])
  }

  predicate LookupValid(p: Lookup, s: State, descriptorGeneration: U16)
    requires Shaped(s)
  {
    && p.inRange && ActiveValid(s, descriptorGeneration)
    && p.bank == s.bank.activeBank
    && p.descriptorGeneration == Active(s).descriptorGeneration
    && p.mapGeneration == Active(s).mapGeneration
  }

  /**
    A lookup asked on one clock of any run is valid on the next exactly if the map it asked is
    still the one in force, and then carries that map's entry.
   */
  lemma LookupReadsTheActiveMap(s: State, i: Inputs, index: EntryIndex, g: U16)
    requires Reachable(s)
    ensures var p, s' := Looked(s, index, i.descriptorGeneration), Next(s, i);
      && Shaped(s')
      && (LookupValid(p, s', g) <==>
            && ActiveValid(s, i.descriptorGeneration) && index < |s.history.published.At(s.bank.activeBank).entries|
            && !Publishes(s.upload, i) && ActiveValid(s', g))
      && (LookupValid(p, s', g) ==>
            var u := s'.history.published.At(s'.bank.activeBank);
            ActiveHolds(s', u) && index < |u.entries| && p.entry == u.entries[index])
  {
    ReachableInv(s);
    NextKeepsInv(s, i);
    if Publishes(s.upload, i) {
      PublicationIsAtomic(s, i);
    } else {
      ActiveBankIsStable(s, i);
    }
  }
}
