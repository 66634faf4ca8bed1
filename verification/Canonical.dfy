/** The canonical records a worker reports and Core persists. Identifiers, paths and fingerprints
    are opaque strings, as they are in the program. */
module Canonical {
  import opened Prelude

  const WORKER_PROTOCOL_VERSION: nat := 3

  datatype Language = Kotlin | Java | Rust | TypeScript | OtherLanguage(name: string)

  datatype SourceOrigin = SourceCode | Generated | Dependency

  datatype Freshness = Fresh | Stale | UnknownFreshness | UnsupportedFreshness

  datatype Completeness = Complete | Partial | Failed

  datatype Precision = Exact | Approximate

  datatype SymbolKind =
    | Package | ModuleKind | Class | Interface | ObjectKind | Enum | Function | Method
    | Constructor | Property | Field | Parameter | TypeAlias | OtherKind

  datatype OccurrenceKind = Declaration | Reference | Call | TypeReference | Import

  datatype Severity = Error | Warning | Information | Hint

  datatype Provenance = Provenance(
    backend: string, backendVersion: string, protocolVersion: nat, analysisOptions: string)

  datatype ByteRange = ByteRange(start: nat, end: nat)

  datatype SourceRange = SourceRange(sourceUnit: string, bytes: ByteRange)

  datatype SourceUnit = SourceUnit(
    id: string, component: string, path: string, language: Language, origin: SourceOrigin,
    content: string, context: string)

  datatype BackendKey = BackendKey(backend: string, schemaVersion: nat, value: string)

  datatype SymbolRecord = SymbolRecord(
    id: string, backendKey: BackendKey, language: Language, kind: SymbolKind, name: string,
    qualifiedName: Option<string>, signature: Option<string>, component: string,
    declaration: SourceRange, nameRange: SourceRange, owner: Option<string>,
    modifiers: seq<string>, appliedSymbols: seq<string>,
    freshness: Freshness, completeness: Completeness, provenance: Provenance)

  datatype SourceOccurrence = SourceOccurrence(
    range: SourceRange, kind: OccurrenceKind, enclosingSymbol: Option<string>, target: Option<string>,
    typeId: Option<string>, precision: Precision, freshness: Freshness, completeness: Completeness,
    provenance: Provenance)

  datatype ReferenceEdge = ReferenceEdge(source: SourceOccurrence, target: string, precision: Precision)

  datatype CallEdge = CallEdge(
    source: SourceOccurrence, target: string, caller: Option<string>, precision: Precision)

  datatype HierarchyEdge = HierarchyEdge(
    subtype: string, supertype: string, precision: Precision, provenance: Provenance)

  datatype ApplicationValue =
    | StringValue(text: string) | StringListValue(texts: seq<string>)
    | BooleanValue(flag: bool) | IntegerValue(number: int)

  datatype ApplicationArgument = ApplicationArgument(
    name: Option<string>, position: nat, value: ApplicationValue)

  datatype ApplicationFact = ApplicationFact(
    id: string, subject: string, target: string, range: SourceRange,
    arguments: seq<ApplicationArgument>, precision: Precision, freshness: Freshness,
    completeness: Completeness, provenance: Provenance)

  datatype TypeRecord = TypeRecord(
    id: string, language: Language, display: string, backendKey: Option<BackendKey>,
    freshness: Freshness, completeness: Completeness, provenance: Provenance)

  datatype DiagnosticRecord = DiagnosticRecord(
    sourceUnit: string, range: Option<ByteRange>, severity: Severity, code: Option<string>,
    message: string, freshness: Freshness, completeness: Completeness, provenance: Provenance)

  datatype Snapshot = Snapshot(
    sourceUnit: SourceUnit, structuralFingerprint: Option<string>, publicApi: Option<string>,
    symbols: seq<SymbolRecord>, applications: seq<ApplicationFact>, occurrences: seq<SourceOccurrence>,
    references: seq<ReferenceEdge>, calls: seq<CallEdge>, hierarchy: seq<HierarchyEdge>,
    types: seq<TypeRecord>, diagnostics: seq<DiagnosticRecord>, completeness: Completeness,
    provenance: Provenance)
}
