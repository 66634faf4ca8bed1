/** Snapshots as a persistent graph artifact: provenance is inherited from the snapshot where it is the same, and an id
    declared anywhere in the artifact is replaced by the ordinal of its declaration. */
module GraphCodec {
  import opened Prelude
  import opened Canonical
  import opened WorkerProto
  import Framing
  import opened ArtifactProto
  import opened SnapshotTransport

  const FORMAT_VERSION: nat := 1

  datatype GraphError =
    | UnsupportedVersion(version: nat)
    | LengthMismatch
    | ChecksumMismatch
    | BadMessage
    | NotCanonical(adapter: AdapterError)

  // Ordinals.

  type Ordinals = map<string, nat>

  /** Later declarations of an id replace earlier ones; ordinals are cut to 32 bits. */
  function OrdinalsOf(ids: seq<string>): Ordinals {
    if ids == [] then map[]
    else OrdinalsOf(ids[..|ids| - 1])[ids[|ids| - 1] := (|ids| - 1) % U32_LIMIT]
  }

  predicate Restores(ordinals: Ordinals, ids: seq<string>) {
    forall id :: id in ordinals ==> ordinals[id] < |ids| && ids[ordinals[id]] == id
  }

  /** Looking up an id's ordinal in the list of ids gives the id back. */
  lemma {:induction false} OrdinalsRestore(ids: seq<string>)
    requires |ids| <= U32_LIMIT
    ensures Restores(OrdinalsOf(ids), ids)
    ensures forall id :: id in OrdinalsOf(ids) <==> id in ids
  {
    if ids != [] {
      var init, last := ids[..|ids| - 1], ids[|ids| - 1];
      OrdinalsRestore(init);
      assert ids == init + [last];
      assert (|ids| - 1) % U32_LIMIT == |ids| - 1;
    }
  }

  function Ordinal(id: string, ordinals: Ordinals): Option<nat> {
    if id in ordinals then Some(ordinals[id]) else None
  }

  function OrdinalOf(id: Option<string>, ordinals: Ordinals): Option<nat> {
    if id.Some? then Ordinal(id.value, ordinals) else None
  }

  function Inline(id: string, ordinals: Ordinals): string {
    if id in ordinals then "" else id
  }

  function InlineOf(id: Option<string>, ordinals: Ordinals): Option<string> {
    if id.Some? && id.value in ordinals then None else id
  }

  function Inherited(index: nat, snapshot: nat): Option<nat> {
    if index != snapshot then Some(index) else None
  }

  function LocalId(inlined: string, ordinal: Option<nat>, ids: seq<string>): string {
    match ordinal
    case None => inlined
    case Some(o) => if o < |ids| then ids[o] else ""
  }

  function LocalOptional(inlined: Option<string>, ordinal: Option<nat>, ids: seq<string>): Option<string> {
    match ordinal
    case None => inlined
    case Some(o) => if o < |ids| then Some(ids[o]) else inlined
  }

  function Or(own: Option<nat>, otherwise: nat): nat {
    if own.Some? then own.value else otherwise
  }

  // Records.

  function SymbolToGraph(s: ProtoSymbol, p: nat, ordinals: Ordinals): GraphSymbol {
    GraphSymbol(s.id, s.backendKey, s.schemaVersion, s.language, s.kind, s.name, s.qualifiedName, s.signature,
                s.declaration, s.nameRange, InlineOf(s.owner, ordinals), s.modifiers, s.applied, s.freshness,
                s.completeness, s.component, Inherited(s.provenance, p), OrdinalOf(s.owner, ordinals))
  }

  function SymbolFromGraph(s: GraphSymbol, p: nat, ids: seq<string>): ProtoSymbol {
    ProtoSymbol(s.id, Or(s.provenance, p), s.backendKey, s.schemaVersion, s.language, s.kind, s.name, s.qualifiedName,
                s.signature, s.declaration, s.nameRange, LocalOptional(s.owner, s.ownerOrdinal, ids), s.modifiers,
                s.applied, s.freshness, s.completeness, s.component)
  }

  function OccurrenceToGraph(o: ProtoOccurrence, p: nat, ordinals: Ordinals): GraphOccurrence {
    GraphOccurrence(o.location, o.kind, InlineOf(o.enclosing, ordinals), InlineOf(o.target, ordinals), o.typeId,
                    o.precision, o.freshness, o.completeness, Inherited(o.provenance, p),
                    OrdinalOf(o.enclosing, ordinals), OrdinalOf(o.target, ordinals))
  }

  function OccurrenceFromGraph(o: GraphOccurrence, p: nat, ids: seq<string>): ProtoOccurrence {
    ProtoOccurrence(o.location, o.kind, LocalOptional(o.enclosing, o.enclosingOrdinal, ids),
                    LocalOptional(o.target, o.targetOrdinal, ids), o.typeId, o.precision, o.freshness, o.completeness,
                    Or(o.provenance, p))
  }

  function ReferenceToGraph(e: ProtoReference, ordinals: Ordinals): GraphReference {
    GraphReference(e.source, Inline(e.target, ordinals), e.precision, Ordinal(e.target, ordinals))
  }

  function ReferenceFromGraph(e: GraphReference, ids: seq<string>): ProtoReference {
    ProtoReference(e.source, LocalId(e.target, e.targetOrdinal, ids), e.precision)
  }

  function CallToGraph(e: ProtoCall, ordinals: Ordinals): GraphCall {
    GraphCall(e.source, Inline(e.target, ordinals), InlineOf(e.caller, ordinals), e.precision,
              Ordinal(e.target, ordinals), OrdinalOf(e.caller, ordinals))
  }

  function CallFromGraph(e: GraphCall, ids: seq<string>): ProtoCall {
    ProtoCall(e.source, LocalId(e.target, e.targetOrdinal, ids), LocalOptional(e.caller, e.callerOrdinal, ids),
              e.precision)
  }

  function HierarchyToGraph(e: ProtoHierarchy, p: nat, ordinals: Ordinals): GraphHierarchy {
    GraphHierarchy(Inline(e.subtype, ordinals), Inline(e.supertype, ordinals), e.precision, Inherited(e.provenance, p),
                   Ordinal(e.subtype, ordinals), Ordinal(e.supertype, ordinals))
  }

  function HierarchyFromGraph(e: GraphHierarchy, p: nat, ids: seq<string>): ProtoHierarchy {
    ProtoHierarchy(LocalId(e.subtype, e.subtypeOrdinal, ids), LocalId(e.supertype, e.supertypeOrdinal, ids),
                   e.precision,
                   Or(e.provenance, p))
  }

  function TypeToGraph(t: ProtoType, p: nat): GraphType {
    GraphType(t.id, t.language, t.display, t.backendKey, t.schemaVersion, t.freshness, t.completeness,
              Inherited(t.provenance, p))
  }

  function TypeFromGraph(t: GraphType, p: nat): ProtoType {
    ProtoType(t.id, t.language, t.display, t.backendKey, t.schemaVersion, t.freshness, t.completeness,
              Or(t.provenance, p))
  }

  function DiagnosticToGraph(d: ProtoDiagnostic, p: nat): GraphDiagnostic {
    GraphDiagnostic(d.unit, d.range, d.severity, d.code, d.message, d.freshness, d.completeness,
                    Inherited(d.provenance, p))
  }

  function DiagnosticFromGraph(d: GraphDiagnostic, p: nat): ProtoDiagnostic {
    ProtoDiagnostic(d.unit, d.range, d.severity, d.code, d.message, d.freshness, d.completeness, Or(d.provenance, p))
  }

  lemma IdsReturn(id: string, optional: Option<string>, ordinals: Ordinals, ids: seq<string>)
    requires Restores(ordinals, ids)
    ensures LocalId(Inline(id, ordinals), Ordinal(id, ordinals), ids) == id
    ensures LocalOptional(InlineOf(optional, ordinals), OrdinalOf(optional, ordinals), ids) == optional
  {
  }

  // Snapshots.

  function ToGraph(w: ProtoSnapshot, ordinals: Ordinals): GraphSnapshot {
    var p := w.provenance;
    GraphSnapshot(
      w.sourceUnit, w.structural, w.publicApi, w.provenances,
      Map(w.symbols, (s: ProtoSymbol) => SymbolToGraph(s, p, ordinals)),
      Map(w.occurrences, (o: ProtoOccurrence) => OccurrenceToGraph(o, p, ordinals)),
      Map(w.references, (e: ProtoReference) => ReferenceToGraph(e, ordinals)),
      Map(w.calls, (e: ProtoCall) => CallToGraph(e, ordinals)),
      Map(w.hierarchy, (e: ProtoHierarchy) => HierarchyToGraph(e, p, ordinals)),
      Map(w.types, (t: ProtoType) => TypeToGraph(t, p)),
      Map(w.diagnostics, (d: ProtoDiagnostic) => DiagnosticToGraph(d, p)),
      w.completeness, Some(p))
  }

  function FromGraph(g: GraphSnapshot, p: nat, ids: seq<string>): ProtoSnapshot {
    ProtoSnapshot(
      g.sourceUnit, g.structural, g.publicApi, g.provenances,
      Map(g.symbols, (s: GraphSymbol) => SymbolFromGraph(s, p, ids)),
      [],
      Map(g.occurrences, (o: GraphOccurrence) => OccurrenceFromGraph(o, p, ids)),
      Map(g.references, (e: GraphReference) => ReferenceFromGraph(e, ids)),
      Map(g.calls, (e: GraphCall) => CallFromGraph(e, ids)),
      Map(g.hierarchy, (e: GraphHierarchy) => HierarchyFromGraph(e, p, ids)),
      Map(g.types, (t: GraphType) => TypeFromGraph(t, p)),
      Map(g.diagnostics, (d: GraphDiagnostic) => DiagnosticFromGraph(d, p)),
      g.completeness, p)
  }

  lemma {:induction false} MapUndone<A, B>(s: seq<A>, out: A -> B, back: B -> A)
    requires forall i :: 0 <= i < |s| ==> back(out(s[i])) == s[i]
    ensures Map(Map(s, out), back) == s
  {
    if s != [] {
      MapUndone(s[1..], out, back);
      assert Map(s, out)[1..] == Map(s[1..], out);
    }
  }

  lemma SymbolsUndone(s: seq<ProtoSymbol>, p: nat, ordinals: Ordinals, ids: seq<string>)
    requires Restores(ordinals, ids)
    ensures Map(Map(s, (y: ProtoSymbol) => SymbolToGraph(y, p, ordinals)),
                (y: GraphSymbol) => SymbolFromGraph(y, p, ids)) == s
  {
    hide Restores;
    forall x: ProtoSymbol ensures SymbolFromGraph(SymbolToGraph(x, p, ordinals), p, ids) == x {
      IdsReturn(x.id, x.owner, ordinals, ids);
    }
    MapUndone(s, (y: ProtoSymbol) => SymbolToGraph(y, p, ordinals), (y: GraphSymbol) => SymbolFromGraph(y, p, ids));
  }

  lemma OccurrencesUndone(s: seq<ProtoOccurrence>, p: nat, ordinals: Ordinals, ids: seq<string>)
    requires Restores(ordinals, ids)
    ensures Map(Map(s, (o: ProtoOccurrence) => OccurrenceToGraph(o, p, ordinals)),
                (o: GraphOccurrence) => OccurrenceFromGraph(o, p, ids)) == s
  {
    hide Restores;
    forall x: ProtoOccurrence ensures OccurrenceFromGraph(OccurrenceToGraph(x, p, ordinals), p, ids) == x {
      IdsReturn("", x.enclosing, ordinals, ids);
      IdsReturn("", x.target, ordinals, ids);
    }
    MapUndone(s, (o: ProtoOccurrence) => OccurrenceToGraph(o, p, ordinals),
              (o: GraphOccurrence) => OccurrenceFromGraph(o, p, ids));
  }

  lemma ReferencesUndone(s: seq<ProtoReference>, ordinals: Ordinals, ids: seq<string>)
    requires Restores(ordinals, ids)
    ensures Map(Map(s, (e: ProtoReference) => ReferenceToGraph(e, ordinals)),
                (e: GraphReference) => ReferenceFromGraph(e, ids)) == s
  {
    hide Restores;
    forall x: ProtoReference ensures ReferenceFromGraph(ReferenceToGraph(x, ordinals), ids) == x {
      IdsReturn(x.target, None, ordinals, ids);
    }
    MapUndone(s, (e: ProtoReference) => ReferenceToGraph(e, ordinals),
              (e: GraphReference) => ReferenceFromGraph(e, ids));
  }

  lemma CallsUndone(s: seq<ProtoCall>, ordinals: Ordinals, ids: seq<string>)
    requires Restores(ordinals, ids)
    ensures Map(Map(s, (e: ProtoCall) => CallToGraph(e, ordinals)), (e: GraphCall) => CallFromGraph(e, ids)) == s
  {
    hide Restores;
    forall x: ProtoCall ensures CallFromGraph(CallToGraph(x, ordinals), ids) == x {
      IdsReturn(x.target, x.caller, ordinals, ids);
    }
    MapUndone(s, (e: ProtoCall) => CallToGraph(e, ordinals), (e: GraphCall) => CallFromGraph(e, ids));
  }

  lemma HierarchiesUndone(s: seq<ProtoHierarchy>, p: nat, ordinals: Ordinals, ids: seq<string>)
    requires Restores(ordinals, ids)
    ensures Map(Map(s, (e: ProtoHierarchy) => HierarchyToGraph(e, p, ordinals)),
                (e: GraphHierarchy) => HierarchyFromGraph(e, p, ids)) == s
  {
    hide Restores;
    forall x: ProtoHierarchy ensures HierarchyFromGraph(HierarchyToGraph(x, p, ordinals), p, ids) == x {
      IdsReturn(x.subtype, None, ordinals, ids);
      IdsReturn(x.supertype, None, ordinals, ids);
    }
    MapUndone(s, (e: ProtoHierarchy) => HierarchyToGraph(e, p, ordinals),
              (e: GraphHierarchy) => HierarchyFromGraph(e, p, ids));
  }

  lemma TypesUndone(s: seq<ProtoType>, p: nat)
    ensures Map(Map(s, (t: ProtoType) => TypeToGraph(t, p)), (t: GraphType) => TypeFromGraph(t, p)) == s
  {
    MapUndone(s, (t: ProtoType) => TypeToGraph(t, p), (t: GraphType) => TypeFromGraph(t, p));
  }

  lemma DiagnosticsUndone(s: seq<ProtoDiagnostic>, p: nat)
    ensures Map(Map(s, (d: ProtoDiagnostic) => DiagnosticToGraph(d, p)),
                (d: GraphDiagnostic) => DiagnosticFromGraph(d, p))
            == s
  {
    MapUndone(s, (d: ProtoDiagnostic) => DiagnosticToGraph(d, p), (d: GraphDiagnostic) => DiagnosticFromGraph(d, p));
  }

  /** Interning and inheritance undo exactly; only applications have no place in the artifact. */
  lemma GraphUndone(w: ProtoSnapshot, ordinals: Ordinals, ids: seq<string>)
    requires Restores(ordinals, ids)
    ensures FromGraph(ToGraph(w, ordinals), w.provenance, ids) == w.(applications := [])
  {
    hide Restores, Map, SymbolToGraph, OccurrenceToGraph, ReferenceToGraph, CallToGraph, HierarchyToGraph, TypeToGraph,
         DiagnosticToGraph, SymbolFromGraph, OccurrenceFromGraph, ReferenceFromGraph, CallFromGraph, HierarchyFromGraph,
         TypeFromGraph, DiagnosticFromGraph;
    SymbolsUndone(w.symbols, w.provenance, ordinals, ids);
    OccurrencesUndone(w.occurrences, w.provenance, ordinals, ids);
    ReferencesUndone(w.references, ordinals, ids);
    CallsUndone(w.calls, ordinals, ids);
    HierarchiesUndone(w.hierarchy, w.provenance, ordinals, ids);
    TypesUndone(w.types, w.provenance);
    DiagnosticsUndone(w.diagnostics, w.provenance);
  }

  // Whole artifacts.

  function SnapshotIds(v: Snapshot): seq<string> {
    Map(v.symbols, (s: SymbolRecord) => s.id)
  }

  function GraphSnapshotIds(g: GraphSnapshot): seq<string> {
    Map(g.symbols, (s: GraphSymbol) => s.id)
  }

  /** The ids declared anywhere in the artifact, in order. */
  function LocalIds(graph: Graph): seq<string> {
    FlatMap(graph.snapshots, GraphSnapshotIds)
  }

  function SnapshotWriter(ordinals: Ordinals): Snapshot -> Result<GraphSnapshot, GraphError> {
    (v: Snapshot) =>
      match Written(v)
      case Err(e) => Err(NotCanonical(e))
      case Ok(w) => Ok(ToGraph(w, ordinals))
  }

  function SnapshotReader(ids: seq<string>): GraphSnapshot -> Result<Snapshot, GraphError> {
    (g: GraphSnapshot) =>
      if g.provenance.None? then Err(LengthMismatch)
      else
        match ReadBack(FromGraph(g, g.provenance.value, ids))
        case Err(e) => Err(NotCanonical(e))
        case Ok(v) => Ok(v)
  }

  function EncodeGraph(snapshots: seq<Snapshot>): Result<Graph, GraphError> {
    var written :- TryMap(snapshots, SnapshotWriter(OrdinalsOf(FlatMap(snapshots, SnapshotIds))));
    Ok(Graph(written))
  }

  function DecodeGraph(graph: Graph): Result<seq<Snapshot>, GraphError> {
    TryMap(graph.snapshots, SnapshotReader(LocalIds(graph)))
  }

  lemma {:induction false} IdsWritten(symbols: seq<SymbolRecord>, indexes: seq<nat>, p: nat, ordinals: Ordinals)
    requires |symbols| == |indexes|
    ensures Map(Map(Numbered(symbols, indexes, SymbolOut), (y: ProtoSymbol) => SymbolToGraph(y, p, ordinals)),
                (s: GraphSymbol) => s.id) == Map(symbols, (s: SymbolRecord) => s.id)
  {
    if symbols != [] {
      IdsWritten(symbols[1..], indexes[1..], p, ordinals);
      var n := Numbered(symbols, indexes, SymbolOut);
      assert n[1..] == Numbered(symbols[1..], indexes[1..], SymbolOut);
      var g := Map(n, (y: ProtoSymbol) => SymbolToGraph(y, p, ordinals));
      assert g[1..] == Map(n[1..], (y: ProtoSymbol) => SymbolToGraph(y, p, ordinals));
    }
  }

  lemma WriterKeepsIds(v: Snapshot, ordinals: Ordinals)
    requires Written(v).Ok?
    ensures GraphSnapshotIds(ToGraph(Written(v).value, ordinals)) == SnapshotIds(v)
  {
    AssignedCounts(v);
    IdsWritten(v.symbols, Assigned(v).symbols, 0, ordinals);
  }

  /** What the artifact can hold: what the messages carry, and no annotation applications. */
  predicate Storable(v: Snapshot) {
    WholeCarried(v) && v.applications == []
  }

  lemma {:induction false} SnapshotExactly(v: Snapshot, ordinals: Ordinals, ids: seq<string>)
    requires Written(v).Ok? && Fits(v) && Restores(ordinals, ids)
    ensures SnapshotReader(ids)(ToGraph(Written(v).value, ordinals)) == Ok(v) <==> Storable(v)
  {
    hide Restores, ReadBack, WholeCarried, Assigned, ToGraph, FromGraph, Anchored, Fits;
    var w := Written(v).value;
    AssignedCounts(v);
    TransportExactly(v);
    GraphUndone(w, ordinals, ids);
    GraphProvenance(w, ordinals);
    if v.applications == [] {
      assert w.(applications := []) == w;
    } else {
      ReadBackParts(w.(applications := []), v);
    }
  }

  lemma GraphProvenance(w: ProtoSnapshot, ordinals: Ordinals)
    ensures ToGraph(w, ordinals).provenance == Some(w.provenance)
  {
  }

  lemma {:induction false} FlatMapAgrees<A, B, C>(s: seq<A>, t: seq<B>, f: A -> seq<C>, g: B -> seq<C>)
    requires |s| == |t| && forall i :: 0 <= i < |s| ==> f(s[i]) == g(t[i])
    ensures FlatMap(s, f) == FlatMap(t, g)
  {
    if s != [] {
      FlatMapAgrees(s[1..], t[1..], f, g);
    }
  }

  lemma {:induction false} IdsKept(snapshots: seq<Snapshot>, graph: Graph)
    requires EncodeGraph(snapshots) == Ok(graph)
    ensures LocalIds(graph) == FlatMap(snapshots, SnapshotIds)
    ensures |graph.snapshots| == |snapshots|
    ensures var ordinals := OrdinalsOf(FlatMap(snapshots, SnapshotIds));
      forall i :: 0 <= i < |snapshots| ==>
        Written(snapshots[i]).Ok? && graph.snapshots[i] == ToGraph(Written(snapshots[i]).value, ordinals)
  {
    hide Written, ToGraph, OrdinalsOf;
    var ordinals := OrdinalsOf(FlatMap(snapshots, SnapshotIds));
    TryMapExactly(snapshots, SnapshotWriter(ordinals), graph.snapshots);
    forall i | 0 <= i < |snapshots| ensures GraphSnapshotIds(graph.snapshots[i]) == SnapshotIds(snapshots[i]) {
      assert SnapshotWriter(ordinals)(snapshots[i]) == Ok(graph.snapshots[i]);
      WriterKeepsIds(snapshots[i], ordinals);
    }
    FlatMapAgrees(graph.snapshots, snapshots, GraphSnapshotIds, SnapshotIds);
  }

  /** A list of snapshots can be encoded exactly when every relation is anchored, and decodes to itself exactly when
      every snapshot is storable, whatever symbols the snapshots share or refer to across one another. */
  lemma {:induction false} GraphRoundTripExactly(snapshots: seq<Snapshot>)
    requires |FlatMap(snapshots, SnapshotIds)| <= U32_LIMIT && forall i :: 0 <= i < |snapshots| ==> Fits(snapshots[i])
    ensures EncodeGraph(snapshots).Ok? <==> forall i :: 0 <= i < |snapshots| ==> Anchored(snapshots[i])
    ensures EncodeGraph(snapshots).Ok? ==>
      (DecodeGraph(EncodeGraph(snapshots).value) == Ok(snapshots) <==>
       forall i :: 0 <= i < |snapshots| ==> Storable(snapshots[i]))
  {
    hide Written, ToGraph, OrdinalsOf, Anchored, Storable, Restores, Fits;
    var ids := FlatMap(snapshots, SnapshotIds);
    var ordinals := OrdinalsOf(ids);
    OrdinalsRestore(ids);
    TryMapSucceeds(snapshots, SnapshotWriter(ordinals));
    forall i | 0 <= i < |snapshots|
      ensures SnapshotWriter(ordinals)(snapshots[i]).Ok? <==> Anchored(snapshots[i])
    {
      TransportExactly(snapshots[i]);
    }
    if EncodeGraph(snapshots).Ok? {
      var graph := EncodeGraph(snapshots).value;
      IdsKept(snapshots, graph);
      forall i | 0 <= i < |snapshots|
        ensures SnapshotReader(ids)(graph.snapshots[i]) == Ok(snapshots[i]) <==> Storable(snapshots[i])
      {
        SnapshotExactly(snapshots[i], ordinals, ids);
      }
      TryMapExactly(graph.snapshots, SnapshotReader(ids), snapshots);
    }
  }

  // The sealed file.

  /** Message bytes and digests. */
  datatype GraphWire = GraphWire(
    payload: Graph -> seq<Framing.Byte>,
    seal: Envelope -> seq<Framing.Byte>,
    unseal: seq<Framing.Byte> -> Option<Envelope>,
    digest: seq<Framing.Byte> -> seq<Framing.Byte>)

  ghost predicate LawfulWire(wire: GraphWire) {
    && (forall e :: wire.unseal(wire.seal(e)) == Some(e))
    && (forall g, h :: wire.payload(g) == wire.payload(h) ==> g == h)
    && (forall a, b :: wire.digest(a) == wire.digest(b) ==> a == b)
  }

  function EncodeSnapshots(snapshots: seq<Snapshot>, wire: GraphWire): Result<seq<Framing.Byte>, GraphError> {
    var graph :- EncodeGraph(snapshots);
    var payload := wire.payload(graph);
    Ok(wire.seal(Envelope(FORMAT_VERSION, |payload|, wire.digest(payload), Some(graph))))
  }

  function DecodeSnapshots(bytes: seq<Framing.Byte>, wire: GraphWire): Result<seq<Snapshot>, GraphError> {
    match wire.unseal(bytes)
    case None => Err(BadMessage)
    case Some(envelope) =>
      if envelope.version != FORMAT_VERSION then Err(UnsupportedVersion(envelope.version))
      else if envelope.artifact.None? then Err(LengthMismatch)
      else
        var payload := wire.payload(envelope.artifact.value);
        if envelope.length != |payload| then Err(LengthMismatch)
        else if envelope.sha != wire.digest(payload) then Err(ChecksumMismatch)
        else DecodeGraph(envelope.artifact.value)
  }

  lemma {:induction false} SealedRoundTripExactly(snapshots: seq<Snapshot>, wire: GraphWire)
    requires LawfulWire(wire)
    requires |FlatMap(snapshots, SnapshotIds)| <= U32_LIMIT && forall i :: 0 <= i < |snapshots| ==> Fits(snapshots[i])
    ensures (EncodeSnapshots(snapshots, wire).Ok? && DecodeSnapshots(EncodeSnapshots(snapshots, wire).value, wire) ==
             Ok(snapshots)) <==>
      forall i :: 0 <= i < |snapshots| ==> Anchored(snapshots[i]) && Storable(snapshots[i])
  {
    hide Anchored, Storable, EncodeGraph, DecodeGraph, Fits;
    GraphRoundTripExactly(snapshots);
  }

  /** The envelope an artifact is sealed in. */
  function Sealed(graph: Graph, wire: GraphWire): Envelope {
    Envelope(1, |wire.payload(graph)|, wire.digest(wire.payload(graph)), Some(graph))
  }

  /** No part of a sealed artifact can be altered alone: another version, length or digest is refused as such, and
      another artifact by its length or its digest. */
  lemma TamperingRefused(graph: Graph, version: nat, length: nat, sha: seq<Framing.Byte>, other: Option<Graph>,
                         wire: GraphWire)
    requires LawfulWire(wire)
    ensures version != 1 ==>
      DecodeSnapshots(wire.seal(Sealed(graph, wire).(version := version)), wire) == Err(UnsupportedVersion(version))
    ensures length != |wire.payload(graph)| ==>
      DecodeSnapshots(wire.seal(Sealed(graph, wire).(length := length)), wire) == Err(LengthMismatch)
    ensures sha != wire.digest(wire.payload(graph)) ==>
      DecodeSnapshots(wire.seal(Sealed(graph, wire).(sha := sha)), wire) == Err(ChecksumMismatch)
    ensures other != Some(graph) ==>
      DecodeSnapshots(wire.seal(Sealed(graph, wire).(artifact := other)), wire) ==
      if other.None? || |wire.payload(other.value)| != |wire.payload(graph)| then Err(LengthMismatch)
      else Err(ChecksumMismatch)
  {
    hide DecodeGraph;
    if other.Some? && other != Some(graph) {
      assert wire.payload(other.value) != wire.payload(graph);
    }
  }

  /** Bytes that carry the digest of an encoded artifact are either refused or decode as that artifact does. */
  lemma {:induction false} NoSubstitution(bytes: seq<Framing.Byte>, graph: Graph, wire: GraphWire)
    requires LawfulWire(wire) && wire.unseal(bytes).Some?
    requires wire.unseal(bytes).value.sha == wire.digest(wire.payload(graph))
    ensures DecodeSnapshots(bytes, wire).Ok? ==> DecodeSnapshots(bytes, wire) == DecodeGraph(graph)
  {
    hide DecodeGraph;
  }

  /** Bytes that carry the digest of encoded snapshots, whatever else they are, are refused or decode to those very
      snapshots, as far as these survive the encoding at all. */
  lemma {:induction false} OnlyTheEncoded(bytes: seq<Framing.Byte>, snapshots: seq<Snapshot>, wire: GraphWire)
    requires LawfulWire(wire) && EncodeGraph(snapshots).Ok? && wire.unseal(bytes).Some?
    requires wire.unseal(bytes).value.sha == wire.digest(wire.payload(EncodeGraph(snapshots).value))
    requires |FlatMap(snapshots, SnapshotIds)| <= U32_LIMIT && forall i :: 0 <= i < |snapshots| ==> Fits(snapshots[i])
    ensures DecodeSnapshots(bytes, wire).Ok? ==>
      (DecodeSnapshots(bytes, wire) == Ok(snapshots) <==> forall i :: 0 <= i < |snapshots| ==> Storable(snapshots[i]))
  {
    hide Anchored, Storable, EncodeGraph, DecodeGraph, DecodeSnapshots, Fits;
    NoSubstitution(bytes, EncodeGraph(snapshots).value, wire);
    GraphRoundTripExactly(snapshots);
  }
}
