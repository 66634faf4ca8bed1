/** Canonical snapshots against the worker protocol's messages. Records name their provenance by its place in a table
    that grows as they are written, edges name their source occurrence by its place in the snapshot, and enumerations
    travel as text. Ranges, provenances and fingerprints convert field by field and keep their canonical types here. */
module WorkerProto {
  import opened Prelude
  import opened Canonical

  datatype AdapterError = Missing(field: string) | Unsupported(what: string)

  type Decoded<T> = Result<T, AdapterError>

  datatype ProtoSourceUnit = ProtoSourceUnit(
    id: string, component: string, path: string, language: string, origin: string, content: string, context: string)

  datatype ProtoSymbol = ProtoSymbol(
    id: string, provenance: nat, backendKey: string, schemaVersion: nat, language: string, kind: string, name: string,
    qualifiedName: Option<string>, signature: Option<string>, declaration: Option<ByteRange>,
    nameRange: Option<ByteRange>, owner: Option<string>, modifiers: seq<string>, applied: seq<string>,
    freshness: string, completeness: string, component: string)

  datatype ProtoValue = TextValue(text: string) | FlagValue(flag: bool) | NumberValue(number: int)

  datatype ProtoArgument = ProtoArgument(
    name: Option<string>, position: nat, value: Option<ProtoValue>, texts: seq<string>)

  datatype ProtoApplication = ProtoApplication(
    id: string, subject: string, target: string, range: Option<ByteRange>, arguments: seq<ProtoArgument>,
    precision: string, freshness: string, completeness: string, provenance: nat)

  datatype ProtoLocation = ProtoLocation(unit: nat, range: Option<ByteRange>)

  datatype ProtoOccurrence = ProtoOccurrence(
    location: Option<ProtoLocation>, kind: string, enclosing: Option<string>, target: Option<string>,
    typeId: Option<string>, precision: string, freshness: string, completeness: string, provenance: nat)

  datatype ProtoReference = ProtoReference(source: nat, target: string, precision: string)

  datatype ProtoCall = ProtoCall(source: nat, target: string, caller: Option<string>, precision: string)

  datatype ProtoHierarchy = ProtoHierarchy(subtype: string, supertype: string, precision: string, provenance: nat)

  datatype ProtoType = ProtoType(
    id: string, language: string, display: string, backendKey: Option<string>, schemaVersion: nat,
    freshness: string, completeness: string, provenance: nat)

  datatype ProtoDiagnostic = ProtoDiagnostic(
    unit: nat, range: Option<ByteRange>, severity: string, code: Option<string>, message: string,
    freshness: string, completeness: string, provenance: nat)

  datatype ProtoSnapshot = ProtoSnapshot(
    sourceUnit: Option<ProtoSourceUnit>, structural: Option<string>, publicApi: Option<string>,
    provenances: seq<Provenance>, symbols: seq<ProtoSymbol>, applications: seq<ProtoApplication>,
    occurrences: seq<ProtoOccurrence>, references: seq<ProtoReference>, calls: seq<ProtoCall>,
    hierarchy: seq<ProtoHierarchy>, types: seq<ProtoType>, diagnostics: seq<ProtoDiagnostic>,
    completeness: string, provenance: nat)

  // Enumerations as text.

  function LanguageText(l: Language): string {
    match l
    case Kotlin => "kotlin"
    case Java => "java"
    case Rust => "rust"
    case TypeScript => "typescript"
    case OtherLanguage(name) => name
  }

  function ParseLanguage(s: string): Language {
    if s == "kotlin" then Kotlin
    else if s == "java" then Java
    else if s == "rust" then Rust
    else if s == "typescript" then TypeScript
    else OtherLanguage(s)
  }

  function OriginText(o: SourceOrigin): string {
    match o
    case SourceCode => "source"
    case Generated => "generated"
    case Dependency => "dependency"
  }

  function ParseOrigin(s: string): Decoded<SourceOrigin> {
    if s == "source" then Ok(SourceCode)
    else if s == "generated" then Ok(Generated)
    else if s == "dependency" then Ok(Dependency)
    else Err(Unsupported(s))
  }

  function KindText(k: SymbolKind): string {
    match k
    case Package => "package"
    case ModuleKind => "module"
    case Class => "class"
    case Interface => "interface"
    case ObjectKind => "object"
    case Enum => "enum"
    case Function => "function"
    case Method => "method"
    case Constructor => "constructor"
    case Property => "property"
    case Field => "field"
    case Parameter => "parameter"
    case TypeAlias => "typealias"
    case OtherKind => "other"
  }

  function ParseKind(s: string): Decoded<SymbolKind> {
    if s == "package" then Ok(Package)
    else if s == "module" then Ok(ModuleKind)
    else if s == "class" then Ok(Class)
    else if s == "interface" then Ok(Interface)
    else if s == "object" then Ok(ObjectKind)
    else if s == "enum" then Ok(Enum)
    else if s == "function" then Ok(Function)
    else if s == "method" then Ok(Method)
    else if s == "constructor" then Ok(Constructor)
    else if s == "property" then Ok(Property)
    else if s == "field" then Ok(Field)
    else if s == "parameter" then Ok(Parameter)
    else if s == "typealias" then Ok(TypeAlias)
    else if s == "other" then Ok(OtherKind)
    else Err(Unsupported(s))
  }

  function FreshnessText(f: Freshness): string {
    match f
    case Fresh => "fresh"
    case Stale => "stale"
    case UnknownFreshness => "unknown"
    case UnsupportedFreshness => "unsupported"
  }

  function ParseFreshness(s: string): Decoded<Freshness> {
    if s == "fresh" then Ok(Fresh)
    else if s == "stale" then Ok(Stale)
    else if s == "unknown" then Ok(UnknownFreshness)
    else if s == "unsupported" then Ok(UnsupportedFreshness)
    else Err(Unsupported(s))
  }

  function CompletenessText(c: Completeness): string {
    match c
    case Complete => "complete"
    case Partial => "partial"
    case Failed => "failed"
  }

  function ParseCompleteness(s: string): Decoded<Completeness> {
    if s == "complete" then Ok(Complete)
    else if s == "partial" then Ok(Partial)
    else if s == "failed" then Ok(Failed)
    else Err(Unsupported(s))
  }

  function PrecisionText(p: Precision): string {
    match p
    case Exact => "exact"
    case Approximate => "approximate"
  }

  function ParsePrecision(s: string): Decoded<Precision> {
    if s == "exact" then Ok(Exact) else if s == "approximate" then Ok(Approximate) else Err(Unsupported(s))
  }

  function OccurrenceText(k: OccurrenceKind): string {
    match k
    case Declaration => "declaration"
    case Reference => "reference"
    case Call => "call"
    case TypeReference => "typereference"
    case Import => "import"
  }

  function ParseOccurrence(s: string): Decoded<OccurrenceKind> {
    if s == "declaration" then Ok(Declaration)
    else if s == "reference" then Ok(Reference)
    else if s == "call" then Ok(Call)
    else if s == "type_reference" then Ok(TypeReference)
    else if s == "import" then Ok(Import)
    else Err(Unsupported(s))
  }

  function SeverityText(s: Severity): string {
    match s
    case Error => "error"
    case Warning => "warning"
    case Information => "information"
    case Hint => "hint"
  }

  function ParseSeverity(s: string): Decoded<Severity> {
    if s == "error" then Ok(Error)
    else if s == "warning" then Ok(Warning)
    else if s == "information" then Ok(Information)
    else if s == "hint" then Ok(Hint)
    else Err(Unsupported(s))
  }

  /** No other language goes by the name of a known one. */
  predicate Plain(l: Language) {
    l.OtherLanguage? ==> l.name !in {"kotlin", "java", "rust", "typescript"}
  }

  lemma LanguageTextExactly(l: Language)
    ensures ParseLanguage(LanguageText(l)) == l <==> Plain(l)
  {
  }

  lemma KindTextParses(k: SymbolKind)
    ensures ParseKind(KindText(k)) == Ok(k)
  {
  }

  lemma StateTextParses(f: Freshness, c: Completeness, p: Precision)
    ensures ParseFreshness(FreshnessText(f)) == Ok(f)
    ensures ParseCompleteness(CompletenessText(c)) == Ok(c)
    ensures ParsePrecision(PrecisionText(p)) == Ok(p)
  {
  }

  /** Type references are written without the underscore that the reader wants. */
  lemma OccurrenceTextExactly(k: OccurrenceKind)
    ensures ParseOccurrence(OccurrenceText(k)) == Ok(k) <==> k != TypeReference
  {
  }

  lemma SeverityTextParses(s: Severity)
    ensures ParseSeverity(SeverityText(s)) == Ok(s)
  {
  }

  // Collecting results.

  function Present<T>(o: Option<T>, field: string): Decoded<T> {
    match o
    case None => Err(Missing(field))
    case Some(t) => Ok(t)
  }

  // Records.

  function SourceUnitOut(u: SourceUnit): ProtoSourceUnit {
    ProtoSourceUnit(u.id, u.component, u.path, LanguageText(u.language), OriginText(u.origin), u.content, u.context)
  }

  function SourceUnitIn(u: ProtoSourceUnit): Decoded<SourceUnit> {
    var origin :- ParseOrigin(u.origin);
    Ok(SourceUnit(u.id, u.component, u.path, ParseLanguage(u.language), origin, u.content, u.context))
  }

  function SymbolOut(s: SymbolRecord, provenance: nat): ProtoSymbol {
    ProtoSymbol(s.id, provenance, s.backendKey.value, s.backendKey.schemaVersion, LanguageText(s.language),
                KindText(s.kind), s.name, s.qualifiedName, s.signature, Some(s.declaration.bytes),
                Some(s.nameRange.bytes), s.owner, s.modifiers, s.appliedSymbols, FreshnessText(s.freshness),
                CompletenessText(s.completeness), s.component)
  }

  function SymbolIn(s: ProtoSymbol, unit: SourceUnit, p: Provenance): Decoded<SymbolRecord> {
    var declaration :- Present(s.declaration, "symbol.declaration");
    var nameRange :- Present(s.nameRange, "symbol.name_range");
    var kind :- ParseKind(s.kind);
    var freshness :- ParseFreshness(s.freshness);
    var completeness :- ParseCompleteness(s.completeness);
    Ok(SymbolRecord(s.id, BackendKey(p.backend, s.schemaVersion, s.backendKey), ParseLanguage(s.language), kind, s.name,
                    s.qualifiedName, s.signature, s.component, SourceRange(unit.id, declaration),
                    SourceRange(unit.id, nameRange), s.owner, s.modifiers, s.applied, freshness, completeness, p))
  }

  predicate SymbolCarried(s: SymbolRecord, unit: SourceUnit) {
    && s.backendKey.backend == s.provenance.backend && Plain(s.language)
    && s.declaration.sourceUnit == unit.id && s.nameRange.sourceUnit == unit.id
  }

  lemma SymbolExactly(s: SymbolRecord, index: nat, unit: SourceUnit)
    ensures SymbolIn(SymbolOut(s, index), unit, s.provenance) == Ok(s) <==> SymbolCarried(s, unit)
  {
    LanguageTextExactly(s.language);
    KindTextParses(s.kind);
    StateTextParses(s.freshness, s.completeness, Exact);
  }

  function ArgumentOut(a: ApplicationArgument): ProtoArgument {
    match a.value
    case StringValue(v) => ProtoArgument(a.name, a.position, Some(TextValue(v)), [])
    case StringListValue(values) => ProtoArgument(a.name, a.position, Some(TextValue("")), values)
    case BooleanValue(v) => ProtoArgument(a.name, a.position, Some(FlagValue(v)), [])
    case IntegerValue(v) => ProtoArgument(a.name, a.position, Some(NumberValue(v)), [])
  }

  function ArgumentIn(a: ProtoArgument): Decoded<ApplicationArgument> {
    if a.texts != [] then Ok(ApplicationArgument(a.name, a.position, StringListValue(a.texts)))
    else
      var value :- Present(a.value, "application.argument.value");
      match value
      case TextValue(v) => Ok(ApplicationArgument(a.name, a.position, StringValue(v)))
      case FlagValue(v) => Ok(ApplicationArgument(a.name, a.position, BooleanValue(v)))
      case NumberValue(v) => Ok(ApplicationArgument(a.name, a.position, IntegerValue(v)))
  }

  /** An empty list of strings comes back as the empty string. */
  lemma ArgumentExactly(a: ApplicationArgument)
    ensures ArgumentIn(ArgumentOut(a)) == Ok(a) <==> a.value != StringListValue([])
  {
  }

  function ApplicationOut(a: ApplicationFact, provenance: nat): ProtoApplication {
    ProtoApplication(a.id, a.subject, a.target, Some(a.range.bytes), Map(a.arguments, ArgumentOut),
                     PrecisionText(a.precision), FreshnessText(a.freshness), CompletenessText(a.completeness),
                     provenance)
  }

  function ApplicationIn(a: ProtoApplication, unit: SourceUnit, p: Provenance): Decoded<ApplicationFact> {
    var range :- Present(a.range, "application.range");
    var arguments :- TryMap(a.arguments, ArgumentIn);
    var precision :- ParsePrecision(a.precision);
    var freshness :- ParseFreshness(a.freshness);
    var completeness :- ParseCompleteness(a.completeness);
    Ok(ApplicationFact(a.id, a.subject, a.target, SourceRange(unit.id, range), arguments, precision, freshness,
                       completeness, p))
  }

  predicate ApplicationCarried(a: ApplicationFact, unit: SourceUnit) {
    && a.range.sourceUnit == unit.id
    && (forall i :: 0 <= i < |a.arguments| ==> a.arguments[i].value != StringListValue([]))
  }

  lemma ApplicationExactly(a: ApplicationFact, index: nat, unit: SourceUnit)
    ensures ApplicationIn(ApplicationOut(a, index), unit, a.provenance) == Ok(a) <==> ApplicationCarried(a, unit)
  {
    StateTextParses(a.freshness, a.completeness, a.precision);
    MapAt(a.arguments, ArgumentOut);
    TryMapExactly(Map(a.arguments, ArgumentOut), ArgumentIn, a.arguments);
    forall i | 0 <= i < |a.arguments|
      ensures ArgumentIn(ArgumentOut(a.arguments[i])) == Ok(a.arguments[i]) <==>
              a.arguments[i].value != StringListValue([])
    {
      ArgumentExactly(a.arguments[i]);
    }
  }

  function OccurrenceOut(o: SourceOccurrence, provenance: nat): ProtoOccurrence {
    ProtoOccurrence(Some(ProtoLocation(0, Some(o.range.bytes))), OccurrenceText(o.kind), o.enclosingSymbol, o.target,
                    o.typeId, PrecisionText(o.precision), FreshnessText(o.freshness), CompletenessText(o.completeness),
                    provenance)
  }

  function OccurrenceIn(o: ProtoOccurrence, unit: SourceUnit, p: Provenance): Decoded<SourceOccurrence> {
    var location :- Present(o.location, "occurrence.location");
    var range :- Present(location.range, "occurrence.location.range");
    if location.unit != 0 then Err(Unsupported("cross-snapshot occurrence source"))
    else
      var kind :- ParseOccurrence(o.kind);
      var precision :- ParsePrecision(o.precision);
      var freshness :- ParseFreshness(o.freshness);
      var completeness :- ParseCompleteness(o.completeness);
      Ok(SourceOccurrence(SourceRange(unit.id, range), kind, o.enclosing, o.target, o.typeId, precision, freshness,
                          completeness, p))
  }

  predicate OccurrenceCarried(o: SourceOccurrence, unit: SourceUnit) {
    o.range.sourceUnit == unit.id && o.kind != TypeReference
  }

  lemma OccurrenceExactly(o: SourceOccurrence, index: nat, unit: SourceUnit)
    ensures OccurrenceIn(OccurrenceOut(o, index), unit, o.provenance) == Ok(o) <==> OccurrenceCarried(o, unit)
  {
    StateTextParses(o.freshness, o.completeness, o.precision);
    OccurrenceTextExactly(o.kind);
  }

  function ReferenceOut(e: ReferenceEdge, source: nat): ProtoReference {
    ProtoReference(source, e.target, PrecisionText(e.precision))
  }

  function ReferenceIn(e: ProtoReference, occurrences: seq<SourceOccurrence>): Decoded<ReferenceEdge> {
    if e.source >= |occurrences| then Err(Missing("reference.source_occurrence"))
    else
      var precision :- ParsePrecision(e.precision);
      Ok(ReferenceEdge(occurrences[e.source], e.target, precision))
  }

  function CallOut(e: CallEdge, source: nat): ProtoCall {
    ProtoCall(source, e.target, e.caller, PrecisionText(e.precision))
  }

  function CallIn(e: ProtoCall, occurrences: seq<SourceOccurrence>): Decoded<CallEdge> {
    if e.source >= |occurrences| then Err(Missing("call.source_occurrence"))
    else
      var precision :- ParsePrecision(e.precision);
      Ok(CallEdge(occurrences[e.source], e.target, e.caller, precision))
  }

  function HierarchyOut(e: HierarchyEdge, provenance: nat): ProtoHierarchy {
    ProtoHierarchy(e.subtype, e.supertype, PrecisionText(e.precision), provenance)
  }

  function HierarchyIn(e: ProtoHierarchy, p: Provenance): Decoded<HierarchyEdge> {
    var precision :- ParsePrecision(e.precision);
    Ok(HierarchyEdge(e.subtype, e.supertype, precision, p))
  }

  lemma HierarchyExactly(e: HierarchyEdge, index: nat)
    ensures HierarchyIn(HierarchyOut(e, index), e.provenance) == Ok(e)
  {
    StateTextParses(Fresh, Complete, e.precision);
  }

  function TypeOut(t: TypeRecord, provenance: nat): ProtoType {
    ProtoType(t.id, LanguageText(t.language), t.display,
              if t.backendKey.None? then None else Some(t.backendKey.value.value),
              if t.backendKey.None? then 0 else t.backendKey.value.schemaVersion,
              FreshnessText(t.freshness), CompletenessText(t.completeness), provenance)
  }

  function TypeIn(t: ProtoType, p: Provenance): Decoded<TypeRecord> {
    var freshness :- ParseFreshness(t.freshness);
    var completeness :- ParseCompleteness(t.completeness);
    var key := if t.backendKey.None? then None else Some(BackendKey(p.backend, t.schemaVersion, t.backendKey.value));
    Ok(TypeRecord(t.id, ParseLanguage(t.language), t.display, key, freshness, completeness, p))
  }

  predicate TypeCarried(t: TypeRecord) {
    Plain(t.language) && (t.backendKey.Some? ==> t.backendKey.value.backend == t.provenance.backend)
  }

  lemma TypeExactly(t: TypeRecord, index: nat)
    ensures TypeIn(TypeOut(t, index), t.provenance) == Ok(t) <==> TypeCarried(t)
  {
    LanguageTextExactly(t.language);
    StateTextParses(t.freshness, t.completeness, Exact);
  }

  function DiagnosticOut(d: DiagnosticRecord, provenance: nat): ProtoDiagnostic {
    ProtoDiagnostic(0, d.range, SeverityText(d.severity), d.code, d.message, FreshnessText(d.freshness),
                    CompletenessText(d.completeness), provenance)
  }

  function DiagnosticIn(d: ProtoDiagnostic, unit: SourceUnit, p: Provenance): Decoded<DiagnosticRecord> {
    if d.unit != 0 then Err(Unsupported("cross-snapshot diagnostic source"))
    else
      var severity :- ParseSeverity(d.severity);
      var freshness :- ParseFreshness(d.freshness);
      var completeness :- ParseCompleteness(d.completeness);
      Ok(DiagnosticRecord(unit.id, d.range, severity, d.code, d.message, freshness, completeness, p))
  }

  predicate DiagnosticCarried(d: DiagnosticRecord, unit: SourceUnit) {
    d.sourceUnit == unit.id
  }

  lemma DiagnosticExactly(d: DiagnosticRecord, index: nat, unit: SourceUnit)
    ensures DiagnosticIn(DiagnosticOut(d, index), unit, d.provenance) == Ok(d) <==> DiagnosticCarried(d, unit)
  {
    SeverityTextParses(d.severity);
    StateTextParses(d.freshness, d.completeness, Exact);
  }
}
