/** The SQLite tables that hold one workspace index, as rows with their primary keys, and the rows
    that one committed snapshot contributes to them. */
module Tables {
  import opened Prelude
  import opened Relation
  import opened Canonical

  /** What the symbols table keeps in its blob; identity, name, component and provenance live elsewhere. */
  datatype StoredSymbol = StoredSymbol(
    backendKey: BackendKey, language: Language, kind: SymbolKind, qualifiedName: Option<string>,
    signature: Option<string>, declaration: ByteRange, nameRange: ByteRange, owner: Option<string>,
    modifiers: seq<string>, appliedSymbols: seq<string>, freshness: Freshness, completeness: Completeness)

  datatype Row =
    | SnapshotRow(unit: string, source: SourceUnit, provenance: Provenance, publicApi: Option<string>)
    | ProvenanceRow(unit: string, provenance: Provenance)
    | SymbolRow(unit: string, symbol: string, name: string, nameStart: nat, stored: StoredSymbol)
    | AnnotationRow(unit: string, symbol: string, annotation: string)
    | ApplicationRow(unit: string, application: string, subject: string, target: string,
                     start: nat, end: nat, applicationRecord: ApplicationFact)
    | ArgumentRow(application: string, argument: ApplicationArgument)
    | OccurrenceRow(unit: string, start: nat, end: nat, kind: OccurrenceKind, occurrence: SourceOccurrence)
    | ReferenceRow(unit: string, start: nat, end: nat, target: string, reference: ReferenceEdge)
    | CallRow(unit: string, start: nat, end: nat, target: string, call: CallEdge)
    | HierarchyRow(unit: string, subtype: string, supertype: string, edge: HierarchyEdge)
    | TypeRow(unit: string, typeId: string, typeRecord: TypeRecord)
    | DiagnosticRow(unit: string, range: Option<ByteRange>, diagnostic: DiagnosticRecord)

  /** Primary keys, one constructor a table. */
  datatype Key =
    | SnapshotKey(unit: string)
    | ProvenanceKey(unit: string)
    | SymbolKey(symbol: string)
    | AnnotationKey(unit: string, symbol: string, annotation: string)
    | ApplicationKey(application: string)
    | ArgumentKey(application: string, position: nat)
    | OccurrenceKey(unit: string, start: nat, end: nat, kind: OccurrenceKind)
    | ReferenceKey(unit: string, start: nat, end: nat, target: string)
    | CallKey(unit: string, start: nat, end: nat, target: string)
    | HierarchyKey(unit: string, subtype: string, supertype: string)
    | TypeKey(unit: string, typeId: string)
    | DiagnosticKey(unit: string, range: ByteRange, diagnostic: DiagnosticRecord)

  /** A diagnostic without a range has NULL key columns, and SQLite never finds those equal. */
  function KeyOf(r: Row): Option<Key> {
    match r
    case SnapshotRow(u, _, _, _) => Some(SnapshotKey(u))
    case ProvenanceRow(u, _) => Some(ProvenanceKey(u))
    case SymbolRow(_, id, _, _, _) => Some(SymbolKey(id))
    case AnnotationRow(u, id, a) => Some(AnnotationKey(u, id, a))
    case ApplicationRow(_, a, _, _, _, _, _) => Some(ApplicationKey(a))
    case ArgumentRow(a, argument) => Some(ArgumentKey(a, argument.position))
    case OccurrenceRow(u, s, e, k, _) => Some(OccurrenceKey(u, s, e, k))
    case ReferenceRow(u, s, e, t, _) => Some(ReferenceKey(u, s, e, t))
    case CallRow(u, s, e, t, _) => Some(CallKey(u, s, e, t))
    case HierarchyRow(u, sub, sup, _) => Some(HierarchyKey(u, sub, sup))
    case TypeRow(u, t, _) => Some(TypeKey(u, t))
    case DiagnosticRow(u, range, d) => if range.None? then None else Some(DiagnosticKey(u, range.value, d))
  }

  /** The byte offsets a row stores in signed 64-bit columns. */
  function Offsets(r: Row): seq<nat> {
    match r
    case SymbolRow(_, _, _, nameStart, _) => [nameStart]
    case ApplicationRow(_, _, _, _, s, e, _) => [s, e]
    case OccurrenceRow(_, s, e, _, _) => [s, e]
    case ReferenceRow(_, s, e, _, _) => [s, e]
    case CallRow(_, s, e, _, _) => [s, e]
    case DiagnosticRow(_, range, _) => if range.None? then [] else [range.value.start, range.value.end]
    case _ => []
  }

  function Stored(s: SymbolRecord): StoredSymbol {
    StoredSymbol(s.backendKey, s.language, s.kind, s.qualifiedName, s.signature, s.declaration.bytes,
                 s.nameRange.bytes, s.owner, s.modifiers, s.appliedSymbols, s.freshness, s.completeness)
  }

  /** A symbol read back from its row joined with its snapshot's row. */
  function IntoSymbol(stored: StoredSymbol, id: string, name: string, source: SourceUnit,
                      provenance: Provenance): SymbolRecord {
    SymbolRecord(id, stored.backendKey, stored.language, stored.kind, name, stored.qualifiedName,
                 stored.signature, source.component, SourceRange(source.id, stored.declaration),
                 SourceRange(source.id, stored.nameRange), stored.owner, stored.modifiers,
                 stored.appliedSymbols, stored.freshness, stored.completeness, provenance)
  }

  function SymbolRowOf(u: string, s: SymbolRecord): Row {
    SymbolRow(u, s.id, s.name, s.nameRange.bytes.start, Stored(s))
  }

  function SymbolRows(u: string, s: SymbolRecord): seq<Row> {
    [SymbolRowOf(u, s)] + Map(s.appliedSymbols, (a: string) => AnnotationRow(u, s.id, a))
  }

  function ApplicationRowOf(u: string, a: ApplicationFact): Row {
    ApplicationRow(u, a.id, a.subject, a.target, a.range.bytes.start, a.range.bytes.end, a)
  }

  function ApplicationRows(u: string, a: ApplicationFact): seq<Row> {
    [ApplicationRowOf(u, a)] + Map(a.arguments, (argument: ApplicationArgument) => ArgumentRow(a.id, argument))
  }

  function OccurrenceRowOf(u: string, o: SourceOccurrence): Row {
    OccurrenceRow(u, o.range.bytes.start, o.range.bytes.end, o.kind, o)
  }

  function ReferenceRowOf(u: string, e: ReferenceEdge): Row {
    ReferenceRow(u, e.source.range.bytes.start, e.source.range.bytes.end, e.target, e)
  }

  function CallRowOf(u: string, e: CallEdge): Row {
    CallRow(u, e.source.range.bytes.start, e.source.range.bytes.end, e.target, e)
  }

  function HierarchyRowOf(u: string, e: HierarchyEdge): Row {
    HierarchyRow(u, e.subtype, e.supertype, e)
  }

  function TypeRowOf(u: string, t: TypeRecord): Row {
    TypeRow(u, t.id, t)
  }

  function DiagnosticRowOf(u: string, d: DiagnosticRecord): Row {
    DiagnosticRow(u, d.range, d)
  }

  const HEADER: nat := 0
  const SYMBOLS: nat := 1
  const APPLICATIONS: nat := 2
  const OCCURRENCES: nat := 3
  const REFERENCES: nat := 4
  const CALLS: nat := 5
  const HIERARCHY: nat := 6
  const TYPES: nat := 7
  const DIAGNOSTICS: nat := 8

  const PARTS: nat := 9

  /** The rows a snapshot inserts for one kind of record. */
  function Part(s: Snapshot, k: nat): seq<Row> {
    var u := s.sourceUnit.id;
    if k == HEADER then [SnapshotRow(u, s.sourceUnit, s.provenance, s.publicApi), ProvenanceRow(u, s.provenance)]
    else if k == SYMBOLS then FlatMap(s.symbols, (x: SymbolRecord) => SymbolRows(u, x))
    else if k == APPLICATIONS then FlatMap(s.applications, (x: ApplicationFact) => ApplicationRows(u, x))
    else if k == OCCURRENCES then Map(s.occurrences, (x: SourceOccurrence) => OccurrenceRowOf(u, x))
    else if k == REFERENCES then Map(s.references, (x: ReferenceEdge) => ReferenceRowOf(u, x))
    else if k == CALLS then Map(s.calls, (x: CallEdge) => CallRowOf(u, x))
    else if k == HIERARCHY then Map(s.hierarchy, (x: HierarchyEdge) => HierarchyRowOf(u, x))
    else if k == TYPES then Map(s.types, (x: TypeRecord) => TypeRowOf(u, x))
    else if k == DIAGNOSTICS then Map(s.diagnostics, (x: DiagnosticRecord) => DiagnosticRowOf(u, x))
    else []
  }

  function SnapshotRows(s: Snapshot): seq<Row> {
    Joined((k: nat) => Part(s, k), 0, PARTS)
  }

  /** The whole index: every table's rows for the committed snapshots, oldest commit first. */
  function AllRows(c: seq<Snapshot>): seq<Row> {
    FlatMap(c, SnapshotRows)
  }

  /** Which group of rows a row belongs to. */
  function PartOf(r: Row): nat {
    match r
    case SnapshotRow(_, _, _, _) => HEADER
    case ProvenanceRow(_, _) => HEADER
    case SymbolRow(_, _, _, _, _) => SYMBOLS
    case AnnotationRow(_, _, _) => SYMBOLS
    case ApplicationRow(_, _, _, _, _, _, _) => APPLICATIONS
    case ArgumentRow(_, _) => APPLICATIONS
    case OccurrenceRow(_, _, _, _, _) => OCCURRENCES
    case ReferenceRow(_, _, _, _, _) => REFERENCES
    case CallRow(_, _, _, _, _) => CALLS
    case HierarchyRow(_, _, _, _) => HIERARCHY
    case TypeRow(_, _, _) => TYPES
    case DiagnosticRow(_, _, _) => DIAGNOSTICS
  }

  function ApplicationIds(s: Snapshot): set<string> {
    set a | a in s.applications :: a.id
  }

  /** A row of a snapshot says whose it is; an argument row only names its application. */
  predicate OwnedBy(r: Row, s: Snapshot) {
    if r.ArgumentRow? then r.application in ApplicationIds(s) else r.unit == s.sourceUnit.id
  }

  lemma SymbolsTagged(s: Snapshot, r: Row)
    requires r in Part(s, SYMBOLS)
    ensures PartOf(r) == SYMBOLS && OwnedBy(r, s)
  {
    var u := s.sourceUnit.id;
    FlatMapMember(s.symbols, (x: SymbolRecord) => SymbolRows(u, x), r);
    var j :| 0 <= j < |s.symbols| && r in SymbolRows(u, s.symbols[j]);
    MapMember(s.symbols[j].appliedSymbols, (a: string) => AnnotationRow(u, s.symbols[j].id, a), r);
  }

  lemma ApplicationsTagged(s: Snapshot, r: Row)
    requires r in Part(s, APPLICATIONS)
    ensures PartOf(r) == APPLICATIONS && OwnedBy(r, s)
  {
    var u := s.sourceUnit.id;
    FlatMapMember(s.applications, (x: ApplicationFact) => ApplicationRows(u, x), r);
    var j :| 0 <= j < |s.applications| && r in ApplicationRows(u, s.applications[j]);
    MapMember(s.applications[j].arguments, (g: ApplicationArgument) => ArgumentRow(s.applications[j].id, g), r);
    assert s.applications[j] in s.applications;
  }

  lemma PartTagged(s: Snapshot, k: nat, r: Row)
    requires r in Part(s, k)
    ensures PartOf(r) == k && k < PARTS && OwnedBy(r, s)
  {
    var u := s.sourceUnit.id;
    if k == SYMBOLS {
      SymbolsTagged(s, r);
    } else if k == APPLICATIONS {
      ApplicationsTagged(s, r);
    } else if k == OCCURRENCES {
      MapMember(s.occurrences, (x: SourceOccurrence) => OccurrenceRowOf(u, x), r);
    } else if k == REFERENCES {
      MapMember(s.references, (x: ReferenceEdge) => ReferenceRowOf(u, x), r);
    } else if k == CALLS {
      MapMember(s.calls, (x: CallEdge) => CallRowOf(u, x), r);
    } else if k == HIERARCHY {
      MapMember(s.hierarchy, (x: HierarchyEdge) => HierarchyRowOf(u, x), r);
    } else if k == TYPES {
      MapMember(s.types, (x: TypeRecord) => TypeRowOf(u, x), r);
    } else if k == DIAGNOSTICS {
      MapMember(s.diagnostics, (x: DiagnosticRecord) => DiagnosticRowOf(u, x), r);
    }
  }

  lemma RowsOwned(s: Snapshot, r: Row)
    ensures r in SnapshotRows(s) <==> r in Part(s, PartOf(r))
    ensures r in SnapshotRows(s) ==> OwnedBy(r, s)
  {
    hide Part, PartOf, OwnedBy, Joined;
    var part := (k: nat) => Part(s, k);
    JoinedMember(part, 0, PARTS, r);
    if r in Part(s, PartOf(r)) {
      PartTagged(s, PartOf(r), r);
      assert r in part(PartOf(r));
    }
    if r in SnapshotRows(s) {
      var k: nat :| k < PARTS && r in part(k);
      PartTagged(s, k, r);
    }
  }

  /** A selection that accepts rows of one group only sees that group of a snapshot's rows. */
  lemma SelectPart<T>(s: Snapshot, k: nat, f: Row -> Option<T>)
    requires k < PARTS
    requires forall r :: PartOf(r) != k ==> f(r) == None
    ensures FilterMap(SnapshotRows(s), f) == FilterMap(Part(s, k), f)
  {
    forall j: nat, r | j != k && r in Part(s, j) ensures f(r) == None {
      PartTagged(s, j, r);
    }
    JoinedSelect((j: nat) => Part(s, j), 0, PARTS, k, f);
  }

  /** Selecting one kind of row from the whole index is selecting it from each committed snapshot in turn. */
  lemma SelectAll<T>(c: seq<Snapshot>, k: nat, f: Row -> Option<T>, g: Snapshot -> seq<T>)
    requires k < PARTS
    requires forall r :: PartOf(r) != k ==> f(r) == None
    requires forall i :: 0 <= i < |c| ==> g(c[i]) == FilterMap(Part(c[i], k), f)
    ensures FilterMap(AllRows(c), f) == FlatMap(c, g)
  {
    forall i | 0 <= i < |c| ensures g(c[i]) == FilterMap(SnapshotRows(c[i]), f) {
      SelectPart(c[i], k, f);
    }
    FilterMapFlatMap(c, SnapshotRows, f, g);
  }

  lemma AllRowsMember(c: seq<Snapshot>, r: Row)
    ensures r in AllRows(c) <==> exists i :: 0 <= i < |c| && r in SnapshotRows(c[i])
  {
    FlatMapMember(c, SnapshotRows, r);
  }
}
