/** When the rows of snapshots clash, told over their records: which identities a snapshot may hold once, and which may
    not be shared between two of them. */
module RecordKeys {
  import opened Prelude
  import opened Relation
  import opened Canonical
  import opened Tables

  /** Nothing that the index keeps once occurs twice in the records of a snapshot. */
  predicate NothingTwice(s: Snapshot) {
    && SymbolsOnce(s.symbols) && ApplicationsOnce(s.applications)
    && OccurrencesOnce(s.occurrences) && ReferencesOnce(s.references) && CallsOnce(s.calls)
    && EdgesOnce(s.hierarchy) && TypesOnce(s.types) && DiagnosticsOnce(s.diagnostics)
  }

  /** No two symbols have one id, and no symbol lists an annotation twice. */
  predicate SymbolsOnce(symbols: seq<SymbolRecord>) {
    && (forall i, j :: 0 <= i < j < |symbols| ==> symbols[i].id != symbols[j].id)
    && (forall i :: 0 <= i < |symbols| ==> Distinct(symbols[i].appliedSymbols))
  }

  /** No two applications have one id, and no two arguments of one have one position. */
  predicate ApplicationsOnce(applications: seq<ApplicationFact>) {
    && (forall i, j :: 0 <= i < j < |applications| ==> applications[i].id != applications[j].id)
    && (forall i :: 0 <= i < |applications| ==> PositionsDistinct(applications[i].arguments))
  }

  predicate PositionsDistinct(arguments: seq<ApplicationArgument>) {
    forall i, j :: 0 <= i < j < |arguments| ==> arguments[i].position != arguments[j].position
  }

  predicate OccurrencesOnce(occurrences: seq<SourceOccurrence>) {
    forall i, j :: 0 <= i < j < |occurrences| ==>
      occurrences[i].range.bytes != occurrences[j].range.bytes || occurrences[i].kind != occurrences[j].kind
  }

  predicate ReferencesOnce(references: seq<ReferenceEdge>) {
    forall i, j :: 0 <= i < j < |references| ==>
      || references[i].source.range.bytes != references[j].source.range.bytes
      || references[i].target != references[j].target
  }

  predicate CallsOnce(calls: seq<CallEdge>) {
    forall i, j :: 0 <= i < j < |calls| ==>
      calls[i].source.range.bytes != calls[j].source.range.bytes || calls[i].target != calls[j].target
  }

  predicate EdgesOnce(hierarchy: seq<HierarchyEdge>) {
    forall i, j :: 0 <= i < j < |hierarchy| ==>
      hierarchy[i].subtype != hierarchy[j].subtype || hierarchy[i].supertype != hierarchy[j].supertype
  }

  predicate TypesOnce(types: seq<TypeRecord>) {
    forall i, j :: 0 <= i < j < |types| ==> types[i].id != types[j].id
  }

  /** A diagnostic with a range is listed once; without one it may be listed as often as it comes. */
  predicate DiagnosticsOnce(diagnostics: seq<DiagnosticRecord>) {
    forall i, j :: 0 <= i < j < |diagnostics| && diagnostics[i].range.Some? ==> diagnostics[i] != diagnostics[j]
  }

  /** Two snapshots are of different units and share no symbol id and no application id. */
  predicate NothingShared(a: Snapshot, b: Snapshot) {
    && a.sourceUnit.id != b.sourceUnit.id
    && (forall x, y :: x in a.symbols && y in b.symbols ==> x.id != y.id)
    && (forall x, y :: x in a.applications && y in b.applications ==> x.id != y.id)
  }

  // The rows of one snapshot.

  lemma HeadKeys(head: Row, rows: seq<Row>)
    requires forall i :: 0 <= i < |rows| ==> KeyOf(rows[i]) != KeyOf(head)
    ensures KeysDistinct(KeyOf, [head] + rows) <==> KeysDistinct(KeyOf, rows)
  {
    hide KeyOf;
    assert ([head] + rows)[1..] == rows;
  }

  lemma SymbolRowKeys(u: string, x: SymbolRecord)
    ensures KeysDistinct(KeyOf, SymbolRows(u, x)) <==> Distinct(x.appliedSymbols)
  {
    hide KeysDistinct;
    var names, f := x.appliedSymbols, (a: string) => AnnotationRow(u, x.id, a);
    KeysDistinctMap(KeyOf, names, f);
    MapAt(names, f);
    HeadKeys(SymbolRowOf(u, x), Map(names, f));
  }

  lemma SymbolsApart(u: string, x: SymbolRecord, y: SymbolRecord)
    ensures Apart(KeyOf, SymbolRows(u, x), SymbolRows(u, y)) <==> x.id != y.id
  {
    var a, b := SymbolRows(u, x), SymbolRows(u, y);
    assert a[0] == SymbolRowOf(u, x) && b[0] == SymbolRowOf(u, y);
    if Apart(KeyOf, a, b) {
      assert FreshKey(KeyOf, b[0], a);
    }
    MapAt(x.appliedSymbols, (s: string) => AnnotationRow(u, x.id, s));
    MapAt(y.appliedSymbols, (s: string) => AnnotationRow(u, y.id, s));
  }

  lemma SymbolKeys(s: Snapshot)
    ensures KeysDistinct(KeyOf, Part(s, SYMBOLS)) <==> SymbolsOnce(s.symbols)
  {
    hide KeysDistinct, Apart;
    var u, xs := s.sourceUnit.id, s.symbols;
    KeysDistinctBlocks(KeyOf, xs, (x: SymbolRecord) => SymbolRows(u, x));
    forall i | 0 <= i < |xs| ensures KeysDistinct(KeyOf, SymbolRows(u, xs[i])) <==> Distinct(xs[i].appliedSymbols) {
      SymbolRowKeys(u, xs[i]);
    }
    forall i, j | 0 <= i < j < |xs|
      ensures Apart(KeyOf, SymbolRows(u, xs[i]), SymbolRows(u, xs[j])) <==> xs[i].id != xs[j].id
    {
      SymbolsApart(u, xs[i], xs[j]);
    }
  }

  lemma ApplicationRowKeys(u: string, x: ApplicationFact)
    ensures KeysDistinct(KeyOf, ApplicationRows(u, x)) <==> PositionsDistinct(x.arguments)
  {
    hide KeysDistinct;
    var f := (a: ApplicationArgument) => ArgumentRow(x.id, a);
    KeysDistinctMap(KeyOf, x.arguments, f);
    MapAt(x.arguments, f);
    HeadKeys(ApplicationRowOf(u, x), Map(x.arguments, f));
  }

  lemma ApplicationsApart(u: string, x: ApplicationFact, y: ApplicationFact)
    ensures Apart(KeyOf, ApplicationRows(u, x), ApplicationRows(u, y)) <==> x.id != y.id
  {
    var a, b := ApplicationRows(u, x), ApplicationRows(u, y);
    assert a[0] == ApplicationRowOf(u, x) && b[0] == ApplicationRowOf(u, y);
    if Apart(KeyOf, a, b) {
      assert FreshKey(KeyOf, b[0], a);
    }
    MapAt(x.arguments, (g: ApplicationArgument) => ArgumentRow(x.id, g));
    MapAt(y.arguments, (g: ApplicationArgument) => ArgumentRow(y.id, g));
  }

  lemma ApplicationKeys(s: Snapshot)
    ensures KeysDistinct(KeyOf, Part(s, APPLICATIONS)) <==> ApplicationsOnce(s.applications)
  {
    hide KeysDistinct, Apart, PositionsDistinct;
    var u, xs := s.sourceUnit.id, s.applications;
    KeysDistinctBlocks(KeyOf, xs, (x: ApplicationFact) => ApplicationRows(u, x));
    forall i | 0 <= i < |xs|
      ensures KeysDistinct(KeyOf, ApplicationRows(u, xs[i])) <==> PositionsDistinct(xs[i].arguments)
    {
      ApplicationRowKeys(u, xs[i]);
    }
    forall i, j | 0 <= i < j < |xs|
      ensures Apart(KeyOf, ApplicationRows(u, xs[i]), ApplicationRows(u, xs[j])) <==> xs[i].id != xs[j].id
    {
      ApplicationsApart(u, xs[i], xs[j]);
    }
  }

  lemma OccurrenceKeys(s: Snapshot)
    ensures KeysDistinct(KeyOf, Part(s, OCCURRENCES)) <==> OccurrencesOnce(s.occurrences)
  {
    hide KeysDistinct;
    KeysDistinctMap(KeyOf, s.occurrences, (x: SourceOccurrence) => OccurrenceRowOf(s.sourceUnit.id, x));
  }

  lemma ReferenceKeys(s: Snapshot)
    ensures KeysDistinct(KeyOf, Part(s, REFERENCES)) <==> ReferencesOnce(s.references)
  {
    hide KeysDistinct;
    KeysDistinctMap(KeyOf, s.references, (x: ReferenceEdge) => ReferenceRowOf(s.sourceUnit.id, x));
  }

  lemma CallKeys(s: Snapshot)
    ensures KeysDistinct(KeyOf, Part(s, CALLS)) <==> CallsOnce(s.calls)
  {
    hide KeysDistinct;
    KeysDistinctMap(KeyOf, s.calls, (x: CallEdge) => CallRowOf(s.sourceUnit.id, x));
  }

  lemma EdgeKeys(s: Snapshot)
    ensures KeysDistinct(KeyOf, Part(s, HIERARCHY)) <==> EdgesOnce(s.hierarchy)
  {
    hide KeysDistinct;
    KeysDistinctMap(KeyOf, s.hierarchy, (x: HierarchyEdge) => HierarchyRowOf(s.sourceUnit.id, x));
  }

  lemma TypeKeys(s: Snapshot)
    ensures KeysDistinct(KeyOf, Part(s, TYPES)) <==> TypesOnce(s.types)
  {
    hide KeysDistinct;
    KeysDistinctMap(KeyOf, s.types, (x: TypeRecord) => TypeRowOf(s.sourceUnit.id, x));
  }

  lemma DiagnosticKeys(s: Snapshot)
    ensures KeysDistinct(KeyOf, Part(s, DIAGNOSTICS)) <==> DiagnosticsOnce(s.diagnostics)
  {
    hide KeysDistinct;
    KeysDistinctMap(KeyOf, s.diagnostics, (x: DiagnosticRecord) => DiagnosticRowOf(s.sourceUnit.id, x));
  }

  lemma HeaderKeys(s: Snapshot)
    ensures KeysDistinct(KeyOf, Part(s, HEADER))
  {
    var u := s.sourceUnit.id;
    var a, b := SnapshotRow(u, s.sourceUnit, s.provenance, s.publicApi), ProvenanceRow(u, s.provenance);
    assert [a, b][1..] == [b] && [b][1..] == [];
  }

  lemma KeyTellsPart(a: Row, b: Row)
    ensures KeyOf(a).Some? && KeyOf(a) == KeyOf(b) ==> PartOf(a) == PartOf(b)
  {
  }

  /** Keys of two different kinds of record never meet. */
  lemma PartsApart(s: Snapshot, j: nat, k: nat)
    requires j < k < PARTS
    ensures Apart(KeyOf, Part(s, j), Part(s, k))
  {
    hide Part;
    var a, b := Part(s, j), Part(s, k);
    forall i | 0 <= i < |b| ensures FreshKey(KeyOf, b[i], a) {
      PartTagged(s, k, b[i]);
      forall h | 0 <= h < |a| && KeyOf(b[i]).Some? ensures KeyOf(a[h]) != KeyOf(b[i]) {
        PartTagged(s, j, a[h]);
        KeyTellsPart(a[h], b[i]);
      }
    }
  }

  lemma {:induction false} JoinedApart(s: Snapshot, j: nat, k: nat)
    requires j < k <= PARTS
    ensures Apart(KeyOf, Part(s, j), Joined((i: nat) => Part(s, i), k, PARTS))
    decreases PARTS - k
  {
    hide Part, KeyOf;
    if k < PARTS {
      var part := (i: nat) => Part(s, i);
      PartsApart(s, j, k);
      JoinedApart(s, j, k + 1);
      ApartConcat(KeyOf, Part(s, j), Part(s, k), Joined(part, k + 1, PARTS));
    }
  }

  predicate PartsKeyed(s: Snapshot, k: nat)
    requires k <= PARTS
    decreases PARTS - k
  {
    k == PARTS || (KeysDistinct(KeyOf, Part(s, k)) && PartsKeyed(s, k + 1))
  }

  lemma {:induction false} JoinedKeys(s: Snapshot, k: nat)
    requires k <= PARTS
    ensures KeysDistinct(KeyOf, Joined((j: nat) => Part(s, j), k, PARTS)) <==> PartsKeyed(s, k)
    decreases PARTS - k
  {
    if k < PARTS {
      hide Part, KeyOf, KeysDistinct, Apart;
      JoinedKeys(s, k + 1);
      JoinedApart(s, k, k + 1);
      KeysDistinctConcat(KeyOf, Part(s, k), Joined((j: nat) => Part(s, j), k + 1, PARTS));
    }
  }

  /** The rows of one snapshot have distinct keys exactly when its records hold nothing twice. */
  lemma SnapshotKeysExactly(s: Snapshot)
    ensures KeysDistinct(KeyOf, SnapshotRows(s)) <==> NothingTwice(s)
  {
    hide Part, KeysDistinct, SymbolsOnce, ApplicationsOnce, OccurrencesOnce, ReferencesOnce, CallsOnce, EdgesOnce,
      TypesOnce, DiagnosticsOnce;
    JoinedKeys(s, 0);
    HeaderKeys(s);
    SymbolKeys(s);
    ApplicationKeys(s);
    OccurrenceKeys(s);
    ReferenceKeys(s);
    CallKeys(s);
    EdgeKeys(s);
    TypeKeys(s);
    DiagnosticKeys(s);
  }
}
