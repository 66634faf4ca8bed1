/** Small indexes: one snapshot with at most one symbol and one hierarchy edge, for showing what an index can hold. */
module LoneSnapshot {
  import opened Prelude
  import opened Relation
  import opened Canonical
  import opened Tables
  import opened Store
  import opened Lookups
  import opened RecordKeys
  import opened Replacement

  predicate Lone(s: Snapshot) {
    && |s.symbols| <= 1 && |s.hierarchy| <= 1
    && s.applications == [] && s.occurrences == [] && s.references == [] && s.calls == []
    && s.types == [] && s.diagnostics == []
  }

  predicate LoneFits(s: Snapshot) {
    s.symbols != [] ==> Distinct(s.symbols[0].appliedSymbols) && s.symbols[0].nameRange.bytes.start <= I64_MAX
  }

  /** A lone snapshot that passed validation can be committed to an empty index, which is then well stored. */
  lemma LoneCommits(s: Snapshot)
    requires Lone(s) && LoneFits(s) && Acceptable(s)
    ensures Replace([], s) == Ok([s]) && WellStored([s])
  {
    hide SnapshotRows, Acceptable;
    LoneReplaces([], s);
  }

  lemma LoneReplaces(c: seq<Snapshot>, s: Snapshot)
    requires WellStored(c) && Without(c, s.sourceUnit.id) == []
    requires Lone(s) && LoneFits(s) && Acceptable(s)
    ensures Replace(c, s) == Ok([s]) && WellStored([s])
  {
    hide Acceptable, WellStored, NothingTwice, OffsetsFit, NothingShared, Replace;
    LoneStorable(s);
    ReplaceExactly(c, s);
    forall o | o in c ensures o.sourceUnit.id == s.sourceUnit.id {
      WithoutMember(c, s.sourceUnit.id, o);
    }
    ReplaceKeeps(c, s);
    AloneAfter(c, s);
  }

  lemma AloneAfter(c: seq<Snapshot>, s: Snapshot)
    requires Without(c, s.sourceUnit.id) == []
    ensures Replace(c, s).Ok? ==> Replace(c, s).value == [s]
  {
    assert [] + [s] == [s];
  }

  lemma LoneStorable(s: Snapshot)
    requires Lone(s) && LoneFits(s)
    ensures NothingTwice(s) && OffsetsFit(s)
  {
  }

  // Validation.

  function NoRange(u: string): SourceRange {
    SourceRange(u, ByteRange(0, 0))
  }

  lemma LoneAcceptable(s: Snapshot)
    requires Lone(s) && s.provenance.protocolVersion == WORKER_PROTOCOL_VERSION
    requires forall x :: x in s.symbols ==>
      && x.provenance == s.provenance
      && x.declaration == NoRange(s.sourceUnit.id) && x.nameRange == NoRange(s.sourceUnit.id)
    requires forall e :: e in s.hierarchy ==> e.provenance == s.provenance
    ensures Acceptable(s)
  {
    FactsExactly(s.sourceUnit.id, s);
  }
}
