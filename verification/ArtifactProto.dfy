/** The messages of the persistent graph artifact. Source units, provenances and ranges have the worker protocol's
    fields and keep its types. */
module ArtifactProto {
  import opened Prelude
  import opened Canonical
  import opened WorkerProto
  import opened Framing

  datatype GraphSymbol = GraphSymbol(
    id: string, backendKey: string, schemaVersion: nat, language: string, kind: string, name: string,
    qualifiedName: Option<string>, signature: Option<string>, declaration: Option<ByteRange>,
    nameRange: Option<ByteRange>, owner: Option<string>, modifiers: seq<string>, applied: seq<string>,
    freshness: string, completeness: string, component: string, provenance: Option<nat>, ownerOrdinal: Option<nat>)

  datatype GraphOccurrence = GraphOccurrence(
    location: Option<ProtoLocation>, kind: string, enclosing: Option<string>, target: Option<string>,
    typeId: Option<string>, precision: string, freshness: string, completeness: string, provenance: Option<nat>,
    enclosingOrdinal: Option<nat>, targetOrdinal: Option<nat>)

  datatype GraphReference = GraphReference(source: nat, target: string, precision: string, targetOrdinal: Option<nat>)

  datatype GraphCall = GraphCall(
    source: nat, target: string, caller: Option<string>, precision: string, targetOrdinal: Option<nat>,
    callerOrdinal: Option<nat>)

  datatype GraphHierarchy = GraphHierarchy(
    subtype: string, supertype: string, precision: string, provenance: Option<nat>, subtypeOrdinal: Option<nat>,
    supertypeOrdinal: Option<nat>)

  datatype GraphType = GraphType(
    id: string, language: string, display: string, backendKey: Option<string>, schemaVersion: nat,
    freshness: string, completeness: string, provenance: Option<nat>)

  datatype GraphDiagnostic = GraphDiagnostic(
    unit: nat, range: Option<ByteRange>, severity: string, code: Option<string>, message: string,
    freshness: string, completeness: string, provenance: Option<nat>)

  datatype GraphSnapshot = GraphSnapshot(
    sourceUnit: Option<ProtoSourceUnit>, structural: Option<string>, publicApi: Option<string>,
    provenances: seq<Provenance>, symbols: seq<GraphSymbol>, occurrences: seq<GraphOccurrence>,
    references: seq<GraphReference>, calls: seq<GraphCall>, hierarchy: seq<GraphHierarchy>, types: seq<GraphType>,
    diagnostics: seq<GraphDiagnostic>, completeness: string, provenance: Option<nat>)

  datatype Graph = Graph(snapshots: seq<GraphSnapshot>)

  datatype Envelope = Envelope(version: nat, length: nat, sha: seq<Byte>, artifact: Option<Graph>)
}
