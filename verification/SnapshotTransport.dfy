/** A whole snapshot as the worker protocol carries it: one growing provenance table shared by all records, and edges
    that point into the snapshot's occurrences. */
module SnapshotTransport {
  import opened Prelude
  import opened Canonical
  import opened WorkerProto

  // The provenance table.

  function Position<T(==)>(s: seq<T>, x: T): (r: Option<nat>)
    ensures r.Some? ==> r.value < |s| && s[r.value] == x
    ensures r.None? <==> x !in s
  {
    if s == [] then None
    else if s[0] == x then Some(0)
    else
      assert s == [s[0]] + s[1..];
      match Position(s[1..], x)
      case None => None
      case Some(i) => Some(i + 1)
  }

  /** The provenance's place in the table, cut to 32 bits; a provenance not yet there goes to the table's end. */
  function Intern(table: seq<Provenance>, p: Provenance): (seq<Provenance>, nat) {
    match Position(table, p)
    case Some(i) => (table, Cut32(i))
    case None => (table + [p], Cut32(|table|))
  }

  function InternAll(table: seq<Provenance>, ps: seq<Provenance>): (seq<Provenance>, seq<nat>)
    decreases |ps|
  {
    if ps == [] then (table, [])
    else
      var (grown, i) := Intern(table, ps[0]);
      var (final, rest) := InternAll(grown, ps[1..]);
      (final, [i] + rest)
  }

  predicate Resolves(indexes: seq<nat>, table: seq<Provenance>, ps: seq<Provenance>) {
    && |indexes| == |ps|
    && (forall i :: 0 <= i < |ps| ==> indexes[i] < |table| && table[indexes[i]] == ps[i])
  }

  /** The table only grows at its end, never repeats an entry, and, while its places fit 32 bits, every index handed out
      names its provenance. */
  lemma {:induction false} InternAllResolves(table: seq<Provenance>, ps: seq<Provenance>)
    ensures var (final, indexes) := InternAll(table, ps);
      && table <= final && |final| <= |table| + |ps| && |indexes| == |ps|
      && (|final| <= U32_LIMIT ==> Resolves(indexes, final, ps))
      && (Distinct(table) ==> Distinct(final))
    decreases |ps|
  {
    hide Cut32;
    if ps != [] {
      InternAllResolves(Intern(table, ps[0]).0, ps[1..]);
    }
  }

  lemma {:induction false} InternAllStep(table: seq<Provenance>, ps: seq<Provenance>, p: Provenance)
    ensures var (grown, indexes) := InternAll(table, ps);
      var (final, i) := Intern(grown, p);
      InternAll(table, ps + [p]) == (final, indexes + [i])
    decreases |ps|
  {
    if ps == [] {
      var (grown, i) := Intern(table, p);
      assert ps + [p] == [p] && (ps + [p])[1..] == ps;
      assert InternAll(grown, ps) == (grown, []) && [i] + [] == [] + [i];
    } else {
      assert (ps + [p])[1..] == ps[1..] + [p] && (ps + [p])[0] == ps[0];
      var (first, i) := Intern(table, ps[0]);
      InternAllStep(first, ps[1..], p);
      var (grown, rest) := InternAll(first, ps[1..]);
      var j := Intern(grown, p).1;
      assert [i] + (rest + [j]) == ([i] + rest) + [j];
    }
  }

  /** Finds a provenance in the table or adds it: the table keeps its entries and repeats none, and while its places fit
      32 bits the index names the provenance. */
  method ProvenanceIndex(table: seq<Provenance>, p: Provenance) returns (grown: seq<Provenance>, index: nat)
    ensures (grown, index) == Intern(table, p)
    ensures table <= grown && p in grown && |grown| <= |table| + 1
    ensures |grown| <= U32_LIMIT ==> index < |grown| && grown[index] == p
    ensures Distinct(table) ==> Distinct(grown)
    ensures p in table ==> grown == table
  {
    hide Cut32, Distinct;
    InternKeeps(table, p);
    var found := FirstPosition(table, p);
    match found
    case Some(i) => return table, Cut32(i);
    case None => return table + [p], Cut32(|table|);
  }

  method FirstPosition<T(==)>(table: seq<T>, p: T) returns (found: Option<nat>)
    ensures found == Position(table, p)
  {
    for i := 0 to |table|
      invariant Position(table, p) == Ahead(Position(table[i..], p), i)
    {
      assert table[i..][1..] == table[i + 1..];
      if table[i] == p {
        return Some(i);
      }
    }
    assert table[|table|..] == [];
    found := None;
  }

  lemma InternKeeps(table: seq<Provenance>, p: Provenance)
    ensures var (grown, index) := Intern(table, p);
      && table <= grown && p in grown && |grown| <= |table| + 1
      && (|grown| <= U32_LIMIT ==> index < |grown| && grown[index] == p)
      && (Distinct(table) ==> Distinct(grown))
      && (p in table ==> grown == table)
  {
    hide Cut32;
  }

  function Ahead(found: Option<nat>, count: nat): Option<nat> {
    if found.None? then None else Some(count + found.value)
  }

  method AssignIndexes(table: seq<Provenance>, ps: seq<Provenance>) returns (grown: seq<Provenance>, indexes: seq<nat>)
    ensures (grown, indexes) == InternAll(table, ps)
  {
    grown, indexes := table, [];
    for i := 0 to |ps|
      invariant (grown, indexes) == InternAll(table, ps[..i])
    {
      InternAllStep(table, ps[..i], ps[i]);
      assert ps[..i + 1] == ps[..i] + [ps[i]];
      var index: nat;
      grown, index := ProvenanceIndex(grown, ps[i]);
      indexes := indexes + [index];
    }
    assert ps[..|ps|] == ps;
  }

  // Encoding.

  function Numbered<R, P>(records: seq<R>, indexes: seq<nat>, out: (R, nat) -> P): (r: seq<P>)
    requires |records| == |indexes|
    ensures |r| == |records|
    ensures forall i :: 0 <= i < |r| ==> r[i] == out(records[i], indexes[i])
  {
    if records == [] then [] else [out(records[0], indexes[0])] + Numbered(records[1..], indexes[1..], out)
  }

  datatype Assignment = Assignment(
    table: seq<Provenance>, symbols: seq<nat>, applications: seq<nat>, occurrences: seq<nat>, hierarchy: seq<nat>,
    types: seq<nat>, diagnostics: seq<nat>)

  function SymbolProvenances(v: Snapshot): seq<Provenance> {
    Map(v.symbols, (s: SymbolRecord) => s.provenance)
  }

  function ApplicationProvenances(v: Snapshot): seq<Provenance> {
    Map(v.applications, (a: ApplicationFact) => a.provenance)
  }

  function OccurrenceProvenances(v: Snapshot): seq<Provenance> {
    Map(v.occurrences, (o: SourceOccurrence) => o.provenance)
  }

  function HierarchyProvenances(v: Snapshot): seq<Provenance> {
    Map(v.hierarchy, (e: HierarchyEdge) => e.provenance)
  }

  function TypeProvenances(v: Snapshot): seq<Provenance> {
    Map(v.types, (t: TypeRecord) => t.provenance)
  }

  function DiagnosticProvenances(v: Snapshot): seq<Provenance> {
    Map(v.diagnostics, (d: DiagnosticRecord) => d.provenance)
  }

  /** One table for all the records, started by the snapshot's own provenance. */
  function Assigned(v: Snapshot): Assignment {
    var (t1, symbols) := InternAll([v.provenance], SymbolProvenances(v));
    var (t2, applications) := InternAll(t1, ApplicationProvenances(v));
    var (t3, occurrences) := InternAll(t2, OccurrenceProvenances(v));
    var (t4, hierarchy) := InternAll(t3, HierarchyProvenances(v));
    var (t5, types) := InternAll(t4, TypeProvenances(v));
    var (t6, diagnostics) := InternAll(t5, DiagnosticProvenances(v));
    Assignment(t6, symbols, applications, occurrences, hierarchy, types, diagnostics)
  }

  lemma Stays(indexes: seq<nat>, table: seq<Provenance>, grown: seq<Provenance>, ps: seq<Provenance>)
    requires Resolves(indexes, table, ps) && table <= grown
    ensures Resolves(indexes, grown, ps)
  {
  }

  lemma OneIsDistinct(p: Provenance)
    ensures Distinct([p])
  {
  }

  /** Every record's index still names its provenance in the finished table, whose first entry is the snapshot's. */
  lemma AssignedResolves(v: Snapshot)
    requires |Assigned(v).table| <= U32_LIMIT
    ensures var a := Assigned(v);
      && Resolves(a.symbols, a.table, SymbolProvenances(v))
      && Resolves(a.applications, a.table, ApplicationProvenances(v))
      && Resolves(a.occurrences, a.table, OccurrenceProvenances(v))
      && Resolves(a.hierarchy, a.table, HierarchyProvenances(v))
      && Resolves(a.types, a.table, TypeProvenances(v))
      && Resolves(a.diagnostics, a.table, DiagnosticProvenances(v))
      && a.table != [] && a.table[0] == v.provenance && Distinct(a.table)
  {
    hide Resolves, Distinct, Cut32, InternAll;
    OneIsDistinct(v.provenance);
    var (t1, symbols) := InternAll([v.provenance], SymbolProvenances(v));
    InternAllResolves([v.provenance], SymbolProvenances(v));
    var (t2, applications) := InternAll(t1, ApplicationProvenances(v));
    InternAllResolves(t1, ApplicationProvenances(v));
    var (t3, occurrences) := InternAll(t2, OccurrenceProvenances(v));
    InternAllResolves(t2, OccurrenceProvenances(v));
    var (t4, hierarchy) := InternAll(t3, HierarchyProvenances(v));
    InternAllResolves(t3, HierarchyProvenances(v));
    var (t5, types) := InternAll(t4, TypeProvenances(v));
    InternAllResolves(t4, TypeProvenances(v));
    var (t6, diagnostics) := InternAll(t5, DiagnosticProvenances(v));
    InternAllResolves(t5, DiagnosticProvenances(v));
    Stays(symbols, t1, t6, SymbolProvenances(v));
    Stays(applications, t2, t6, ApplicationProvenances(v));
    Stays(occurrences, t3, t6, OccurrenceProvenances(v));
    Stays(hierarchy, t4, t6, HierarchyProvenances(v));
    Stays(types, t5, t6, TypeProvenances(v));
  }

  /** Every relation's place in its snapshot's occurrences; a relation whose occurrence is absent cannot be written. */
  function ReferenceWriter(occurrences: seq<SourceOccurrence>): ReferenceEdge -> Decoded<ProtoReference> {
    (e: ReferenceEdge) =>
      var source :- Present(Position(occurrences, e.source), "relation.source_occurrence");
      Ok(ReferenceOut(e, Cut32(source)))
  }

  function CallWriter(occurrences: seq<SourceOccurrence>): CallEdge -> Decoded<ProtoCall> {
    (e: CallEdge) =>
      var source :- Present(Position(occurrences, e.source), "relation.source_occurrence");
      Ok(CallOut(e, Cut32(source)))
  }

  function Written(v: Snapshot): Decoded<ProtoSnapshot> {
    AssignedCounts(v);
    var a := Assigned(v);
    var references :- TryMap(v.references, ReferenceWriter(v.occurrences));
    var calls :- TryMap(v.calls, CallWriter(v.occurrences));
    Ok(ProtoSnapshot(
      Some(SourceUnitOut(v.sourceUnit)), v.structuralFingerprint, v.publicApi, a.table,
      Numbered(v.symbols, a.symbols, SymbolOut), Numbered(v.applications, a.applications, ApplicationOut),
      Numbered(v.occurrences, a.occurrences, OccurrenceOut), references, calls,
      Numbered(v.hierarchy, a.hierarchy, HierarchyOut), Numbered(v.types, a.types, TypeOut),
      Numbered(v.diagnostics, a.diagnostics, DiagnosticOut), CompletenessText(v.completeness), 0))
  }

  lemma AssignedCounts(v: Snapshot)
    ensures var a := Assigned(v);
      && |a.symbols| == |v.symbols| && |a.applications| == |v.applications|
      && |a.occurrences| == |v.occurrences| && |a.hierarchy| == |v.hierarchy|
      && |a.types| == |v.types| && |a.diagnostics| == |v.diagnostics|
      && |a.table| <= 1 + |v.symbols| + |v.applications| + |v.occurrences| + |v.hierarchy| + |v.types| + |v.diagnostics|
  {
    hide Resolves, Distinct;
    var t1 := InternAll([v.provenance], SymbolProvenances(v)).0;
    InternAllResolves([v.provenance], SymbolProvenances(v));
    var t2 := InternAll(t1, ApplicationProvenances(v)).0;
    InternAllResolves(t1, ApplicationProvenances(v));
    var t3 := InternAll(t2, OccurrenceProvenances(v)).0;
    InternAllResolves(t2, OccurrenceProvenances(v));
    var t4 := InternAll(t3, HierarchyProvenances(v)).0;
    InternAllResolves(t3, HierarchyProvenances(v));
    var t5 := InternAll(t4, TypeProvenances(v)).0;
    InternAllResolves(t4, TypeProvenances(v));
    InternAllResolves(t5, DiagnosticProvenances(v));
    ProvenanceCounts(v);
  }

  lemma ProvenanceCounts(v: Snapshot)
    ensures |SymbolProvenances(v)| == |v.symbols| && |ApplicationProvenances(v)| == |v.applications|
    ensures |OccurrenceProvenances(v)| == |v.occurrences| && |HierarchyProvenances(v)| == |v.hierarchy|
    ensures |TypeProvenances(v)| == |v.types| && |DiagnosticProvenances(v)| == |v.diagnostics|
  {
    MapAt(v.symbols, (s: SymbolRecord) => s.provenance);
    MapAt(v.applications, (a: ApplicationFact) => a.provenance);
    MapAt(v.occurrences, (o: SourceOccurrence) => o.provenance);
    MapAt(v.hierarchy, (e: HierarchyEdge) => e.provenance);
    MapAt(v.types, (t: TypeRecord) => t.provenance);
    MapAt(v.diagnostics, (d: DiagnosticRecord) => d.provenance);
  }

  method WriteSnapshot(v: Snapshot) returns (r: Decoded<ProtoSnapshot>)
    ensures r == Written(v)
  {
    AssignedCounts(v);
    var table := [v.provenance];
    var symbols, applications, occurrences, hierarchy, types, diagnostics;
    table, symbols := AssignIndexes(table, SymbolProvenances(v));
    table, applications := AssignIndexes(table, ApplicationProvenances(v));
    table, occurrences := AssignIndexes(table, OccurrenceProvenances(v));
    var references := TryMap(v.references, ReferenceWriter(v.occurrences));
    if references.Err? {
      return Err(references.error);
    }
    var calls := TryMap(v.calls, CallWriter(v.occurrences));
    if calls.Err? {
      return Err(calls.error);
    }
    table, hierarchy := AssignIndexes(table, HierarchyProvenances(v));
    table, types := AssignIndexes(table, TypeProvenances(v));
    table, diagnostics := AssignIndexes(table, DiagnosticProvenances(v));
    r := Ok(ProtoSnapshot(
      Some(SourceUnitOut(v.sourceUnit)), v.structuralFingerprint, v.publicApi, table,
      Numbered(v.symbols, symbols, SymbolOut), Numbered(v.applications, applications, ApplicationOut),
      Numbered(v.occurrences, occurrences, OccurrenceOut), references.value, calls.value,
      Numbered(v.hierarchy, hierarchy, HierarchyOut), Numbered(v.types, types, TypeOut),
      Numbered(v.diagnostics, diagnostics, DiagnosticOut), CompletenessText(v.completeness), 0));
  }

  // Decoding.

  function Indexed(table: seq<Provenance>, i: nat, field: string): Decoded<Provenance> {
    if i < |table| then Ok(table[i]) else Err(Missing(field))
  }

  function SymbolReader(table: seq<Provenance>, unit: SourceUnit): ProtoSymbol -> Decoded<SymbolRecord> {
    (s: ProtoSymbol) => var p :- Indexed(table, s.provenance, "symbol.provenance_index"); SymbolIn(s, unit, p)
  }

  function ApplicationReader(table: seq<Provenance>, unit: SourceUnit): ProtoApplication -> Decoded<ApplicationFact> {
    (a: ProtoApplication) =>
      var p :- Indexed(table, a.provenance, "application.provenance_index"); ApplicationIn(a, unit, p)
  }

  function OccurrenceReader(table: seq<Provenance>, unit: SourceUnit): ProtoOccurrence -> Decoded<SourceOccurrence> {
    (o: ProtoOccurrence) =>
      var p :- Indexed(table, o.provenance, "occurrence.provenance_index"); OccurrenceIn(o, unit, p)
  }

  function HierarchyReader(table: seq<Provenance>): ProtoHierarchy -> Decoded<HierarchyEdge> {
    (e: ProtoHierarchy) => var p :- Indexed(table, e.provenance, "hierarchy.provenance_index"); HierarchyIn(e, p)
  }

  function TypeReader(table: seq<Provenance>): ProtoType -> Decoded<TypeRecord> {
    (t: ProtoType) => var p :- Indexed(table, t.provenance, "type.provenance_index"); TypeIn(t, p)
  }

  function DiagnosticReader(table: seq<Provenance>, unit: SourceUnit): ProtoDiagnostic -> Decoded<DiagnosticRecord> {
    (d: ProtoDiagnostic) =>
      var p :- Indexed(table, d.provenance, "diagnostic.provenance_index"); DiagnosticIn(d, unit, p)
  }

  function ReferenceReader(occurrences: seq<SourceOccurrence>): ProtoReference -> Decoded<ReferenceEdge> {
    (e: ProtoReference) => ReferenceIn(e, occurrences)
  }

  function CallReader(occurrences: seq<SourceOccurrence>): ProtoCall -> Decoded<CallEdge> {
    (e: ProtoCall) => CallIn(e, occurrences)
  }

  function ReadBack(w: ProtoSnapshot): Decoded<Snapshot> {
    var proto :- Present(w.sourceUnit, "snapshot.source_unit");
    var unit :- SourceUnitIn(proto);
    var provenance :- Indexed(w.provenances, w.provenance, "snapshot.provenance_index");
    var symbols :- TryMap(w.symbols, SymbolReader(w.provenances, unit));
    var applications :- TryMap(w.applications, ApplicationReader(w.provenances, unit));
    var occurrences :- TryMap(w.occurrences, OccurrenceReader(w.provenances, unit));
    var references :- TryMap(w.references, ReferenceReader(occurrences));
    var calls :- TryMap(w.calls, CallReader(occurrences));
    var hierarchy :- TryMap(w.hierarchy, HierarchyReader(w.provenances));
    var types :- TryMap(w.types, TypeReader(w.provenances));
    var diagnostics :- TryMap(w.diagnostics, DiagnosticReader(w.provenances, unit));
    var completeness :- ParseCompleteness(w.completeness);
    Ok(Snapshot(unit, w.structural, w.publicApi, symbols, applications, occurrences, references, calls, hierarchy,
                types, diagnostics, completeness, provenance))
  }

  // The round trip.

  lemma NumberedExactly<R(!new), P>(records: seq<R>, indexes: seq<nat>, table: seq<Provenance>, out: (R, nat) -> P,
                                    prov: R -> Provenance, read: P -> Decoded<R>, carried: R -> bool)
    requires Resolves(indexes, table, Map(records, prov)) && |indexes| == |records|
    requires forall r: R, i: nat ::
      i < |table| && table[i] == prov(r) ==> (read(out(r, i)) == Ok(r) <==> carried(r))
    ensures TryMap(Numbered(records, indexes, out), read) == Ok(records) <==>
      forall i :: 0 <= i < |records| ==> carried(records[i])
  {
    MapAt(records, prov);
    TryMapExactly(Numbered(records, indexes, out), read, records);
  }

  predicate WholeCarried(v: Snapshot) {
    && Plain(v.sourceUnit.language)
    && (forall i :: 0 <= i < |v.symbols| ==> SymbolCarried(v.symbols[i], v.sourceUnit))
    && (forall i :: 0 <= i < |v.applications| ==> ApplicationCarried(v.applications[i], v.sourceUnit))
    && (forall i :: 0 <= i < |v.occurrences| ==> OccurrenceCarried(v.occurrences[i], v.sourceUnit))
    && (forall i :: 0 <= i < |v.types| ==> TypeCarried(v.types[i]))
    && (forall i :: 0 <= i < |v.diagnostics| ==> DiagnosticCarried(v.diagnostics[i], v.sourceUnit))
  }

  /** Every relation's source is one of the snapshot's occurrences. */
  predicate Anchored(v: Snapshot) {
    && (forall i :: 0 <= i < |v.references| ==> v.references[i].source in v.occurrences)
    && (forall i :: 0 <= i < |v.calls| ==> v.calls[i].source in v.occurrences)
  }

  lemma SymbolsExactly(v: Snapshot, indexes: seq<nat>, table: seq<Provenance>)
    requires Resolves(indexes, table, SymbolProvenances(v)) && |indexes| == |v.symbols|
    ensures (forall i :: 0 <= i < |v.symbols| ==> SymbolCarried(v.symbols[i], v.sourceUnit)) <==>
      TryMap(Numbered(v.symbols, indexes, SymbolOut), SymbolReader(table, v.sourceUnit)) == Ok(v.symbols)
  {
    forall r: SymbolRecord, i: nat | i < |table| && table[i] == r.provenance
      ensures SymbolReader(table, v.sourceUnit)(SymbolOut(r, i)) == Ok(r) <==> SymbolCarried(r, v.sourceUnit)
    {
      SymbolExactly(r, i, v.sourceUnit);
    }
    NumberedExactly(v.symbols, indexes, table, SymbolOut, (r: SymbolRecord) => r.provenance,
                    SymbolReader(table, v.sourceUnit), (r: SymbolRecord) => SymbolCarried(r, v.sourceUnit));
  }

  lemma ApplicationsExactly(v: Snapshot, indexes: seq<nat>, table: seq<Provenance>)
    requires Resolves(indexes, table, ApplicationProvenances(v)) && |indexes| == |v.applications|
    ensures (forall i :: 0 <= i < |v.applications| ==> ApplicationCarried(v.applications[i], v.sourceUnit)) <==>
      TryMap(Numbered(v.applications, indexes, ApplicationOut), ApplicationReader(table, v.sourceUnit))
        == Ok(v.applications)
  {
    forall r: ApplicationFact, i: nat | i < |table| && table[i] == r.provenance
      ensures ApplicationReader(table, v.sourceUnit)(ApplicationOut(r, i)) == Ok(r) <==>
        ApplicationCarried(r, v.sourceUnit)
    {
      ApplicationExactly(r, i, v.sourceUnit);
    }
    NumberedExactly(v.applications, indexes, table, ApplicationOut, (r: ApplicationFact) => r.provenance,
                    ApplicationReader(table, v.sourceUnit),
                    (r: ApplicationFact) => ApplicationCarried(r, v.sourceUnit));
  }

  lemma OccurrencesExactly(v: Snapshot, indexes: seq<nat>, table: seq<Provenance>)
    requires Resolves(indexes, table, OccurrenceProvenances(v)) && |indexes| == |v.occurrences|
    ensures (forall i :: 0 <= i < |v.occurrences| ==> OccurrenceCarried(v.occurrences[i], v.sourceUnit)) <==>
      TryMap(Numbered(v.occurrences, indexes, OccurrenceOut), OccurrenceReader(table, v.sourceUnit))
        == Ok(v.occurrences)
  {
    forall r: SourceOccurrence, i: nat | i < |table| && table[i] == r.provenance
      ensures OccurrenceReader(table, v.sourceUnit)(OccurrenceOut(r, i)) == Ok(r) <==>
        OccurrenceCarried(r, v.sourceUnit)
    {
      OccurrenceExactly(r, i, v.sourceUnit);
    }
    NumberedExactly(v.occurrences, indexes, table, OccurrenceOut, (r: SourceOccurrence) => r.provenance,
                    OccurrenceReader(table, v.sourceUnit), (r: SourceOccurrence) => OccurrenceCarried(r, v.sourceUnit));
  }

  lemma HierarchiesExactly(v: Snapshot, indexes: seq<nat>, table: seq<Provenance>)
    requires Resolves(indexes, table, HierarchyProvenances(v)) && |indexes| == |v.hierarchy|
    ensures TryMap(Numbered(v.hierarchy, indexes, HierarchyOut), HierarchyReader(table)) == Ok(v.hierarchy)
  {
    forall r: HierarchyEdge, i: nat | i < |table| && table[i] == r.provenance
      ensures HierarchyReader(table)(HierarchyOut(r, i)) == Ok(r)
    {
      HierarchyExactly(r, i);
    }
    NumberedExactly(v.hierarchy, indexes, table, HierarchyOut, (r: HierarchyEdge) => r.provenance,
                    HierarchyReader(table), (r: HierarchyEdge) => true);
  }

  lemma TypesExactly(v: Snapshot, indexes: seq<nat>, table: seq<Provenance>)
    requires Resolves(indexes, table, TypeProvenances(v)) && |indexes| == |v.types|
    ensures (forall i :: 0 <= i < |v.types| ==> TypeCarried(v.types[i])) <==>
      TryMap(Numbered(v.types, indexes, TypeOut), TypeReader(table)) == Ok(v.types)
  {
    forall r: TypeRecord, i: nat | i < |table| && table[i] == r.provenance
      ensures TypeReader(table)(TypeOut(r, i)) == Ok(r) <==> TypeCarried(r)
    {
      TypeExactly(r, i);
    }
    NumberedExactly(v.types, indexes, table, TypeOut, (r: TypeRecord) => r.provenance,
                    TypeReader(table), (r: TypeRecord) => TypeCarried(r));
  }

  lemma DiagnosticsExactly(v: Snapshot, indexes: seq<nat>, table: seq<Provenance>)
    requires Resolves(indexes, table, DiagnosticProvenances(v)) && |indexes| == |v.diagnostics|
    ensures (forall i :: 0 <= i < |v.diagnostics| ==> DiagnosticCarried(v.diagnostics[i], v.sourceUnit)) <==>
      TryMap(Numbered(v.diagnostics, indexes, DiagnosticOut), DiagnosticReader(table, v.sourceUnit))
        == Ok(v.diagnostics)
  {
    forall r: DiagnosticRecord, i: nat | i < |table| && table[i] == r.provenance
      ensures DiagnosticReader(table, v.sourceUnit)(DiagnosticOut(r, i)) == Ok(r) <==>
        DiagnosticCarried(r, v.sourceUnit)
    {
      DiagnosticExactly(r, i, v.sourceUnit);
    }
    NumberedExactly(v.diagnostics, indexes, table, DiagnosticOut, (r: DiagnosticRecord) => r.provenance,
                    DiagnosticReader(table, v.sourceUnit), (r: DiagnosticRecord) => DiagnosticCarried(r, v.sourceUnit));
  }

  lemma ReferencesExactly(v: Snapshot)
    ensures var w := TryMap(v.references, ReferenceWriter(v.occurrences));
      && (w.Ok? <==> forall i :: 0 <= i < |v.references| ==> v.references[i].source in v.occurrences)
      && (w.Ok? && |v.occurrences| <= U32_LIMIT ==> TryMap(w.value, ReferenceReader(v.occurrences)) == Ok(v.references))
  {
    hide Cut32, Position;
    TryMapSucceeds(v.references, ReferenceWriter(v.occurrences));
    if |v.occurrences| <= U32_LIMIT {
      EdgesExactly(v.references, ReferenceWriter(v.occurrences), ReferenceReader(v.occurrences),
                   (e: ReferenceEdge) => e.source in v.occurrences) by
      {
        forall e: ReferenceEdge { StateTextParses(Fresh, Complete, e.precision); }
      }
    }
  }

  lemma CallsExactly(v: Snapshot)
    ensures var w := TryMap(v.calls, CallWriter(v.occurrences));
      && (w.Ok? <==> forall i :: 0 <= i < |v.calls| ==> v.calls[i].source in v.occurrences)
      && (w.Ok? && |v.occurrences| <= U32_LIMIT ==> TryMap(w.value, CallReader(v.occurrences)) == Ok(v.calls))
  {
    hide Cut32, Position;
    TryMapSucceeds(v.calls, CallWriter(v.occurrences));
    if |v.occurrences| <= U32_LIMIT {
      EdgesExactly(v.calls, CallWriter(v.occurrences), CallReader(v.occurrences),
                   (e: CallEdge) => e.source in v.occurrences) by
      {
        forall e: CallEdge { StateTextParses(Fresh, Complete, e.precision); }
      }
    }
  }

  /** Edges written one by one come back exactly when each is anchored; one that is not stops the writing. */
  lemma {:induction false} EdgesExactly<E(!new), P(!new)>(edges: seq<E>, write: E -> Decoded<P>, read: P -> Decoded<E>,
                                                    anchored: E -> bool)
    requires forall e :: anchored(e) ==> write(e).Ok? && read(write(e).value) == Ok(e)
    requires forall e :: !anchored(e) ==> write(e).Err?
    ensures if forall i :: 0 <= i < |edges| ==> anchored(edges[i])
      then TryMap(edges, write).Ok? && TryMap(TryMap(edges, write).value, read) == Ok(edges)
      else TryMap(edges, write).Err?
  {
    if edges != [] {
      EdgesExactly(edges[1..], write, read, anchored);
      assert edges == [edges[0]] + edges[1..];
      if forall i :: 0 <= i < |edges| ==> anchored(edges[i]) {
        var w := TryMap(edges, write).value;
        assert w[1..] == TryMap(edges[1..], write).value;
      } else if anchored(edges[0]) {
        var i :| 0 <= i < |edges| && !anchored(edges[i]);
        assert !anchored(edges[1..][i - 1]);
      }
    }
  }

  lemma SourceUnitExactly(u: SourceUnit)
    ensures SourceUnitIn(SourceUnitOut(u)) == Ok(u) <==> Plain(u.language)
  {
    LanguageTextExactly(u.language);
  }

  /** Reading gives a snapshot exactly when every part reads as that snapshot's part. */
  lemma ReadBackParts(w: ProtoSnapshot, v: Snapshot)
    ensures ReadBack(w) == Ok(v) <==>
      && w.sourceUnit.Some? && SourceUnitIn(w.sourceUnit.value) == Ok(v.sourceUnit)
      && Indexed(w.provenances, w.provenance, "snapshot.provenance_index") == Ok(v.provenance)
      && w.structural == v.structuralFingerprint && w.publicApi == v.publicApi
      && TryMap(w.symbols, SymbolReader(w.provenances, v.sourceUnit)) == Ok(v.symbols)
      && TryMap(w.applications, ApplicationReader(w.provenances, v.sourceUnit)) == Ok(v.applications)
      && TryMap(w.occurrences, OccurrenceReader(w.provenances, v.sourceUnit)) == Ok(v.occurrences)
      && TryMap(w.references, ReferenceReader(v.occurrences)) == Ok(v.references)
      && TryMap(w.calls, CallReader(v.occurrences)) == Ok(v.calls)
      && TryMap(w.hierarchy, HierarchyReader(w.provenances)) == Ok(v.hierarchy)
      && TryMap(w.types, TypeReader(w.provenances)) == Ok(v.types)
      && TryMap(w.diagnostics, DiagnosticReader(w.provenances, v.sourceUnit)) == Ok(v.diagnostics)
      && ParseCompleteness(w.completeness) == Ok(v.completeness)
  {
    hide TryMap, SymbolReader, ApplicationReader, OccurrenceReader, ReferenceReader, CallReader, HierarchyReader,
         TypeReader, DiagnosticReader, ParseCompleteness, SourceUnitIn, Indexed;
  }

  /** Places in the provenance table and among the occurrences fit the messages' 32 bits. */
  predicate Fits(v: Snapshot) {
    |Assigned(v).table| <= U32_LIMIT && |v.occurrences| <= U32_LIMIT
  }

  /** A snapshot can be written exactly when its relations are anchored, and then survives the round trip, table,
      indexes and all, exactly when every record is one the messages can carry. */
  lemma TransportExactly(v: Snapshot)
    ensures Written(v).Ok? <==> Anchored(v)
    ensures Written(v).Ok? && Fits(v) ==> (ReadBack(Written(v).value) == Ok(v) <==> WholeCarried(v))
  {
    hide TryMap, SymbolReader, ApplicationReader, OccurrenceReader, ReferenceReader, CallReader, HierarchyReader,
         TypeReader, DiagnosticReader, ParseCompleteness, SourceUnitIn, SourceUnitOut, ReadBack, Plain, Assigned,
         Resolves, ReferenceWriter, CallWriter, Numbered;
    ReferencesExactly(v);
    CallsExactly(v);
    if Written(v).Ok? && Fits(v) {
      var w, a := Written(v).value, Assigned(v);
      AssignedResolves(v);
      AssignedCounts(v);
      ReadBackParts(w, v);
      SourceUnitExactly(v.sourceUnit);
      SymbolsExactly(v, a.symbols, a.table);
      ApplicationsExactly(v, a.applications, a.table);
      OccurrencesExactly(v, a.occurrences, a.table);
      HierarchiesExactly(v, a.hierarchy, a.table);
      TypesExactly(v, a.types, a.table);
      DiagnosticsExactly(v, a.diagnostics, a.table);
      StateTextParses(Fresh, v.completeness, Exact);
    }
  }
}
