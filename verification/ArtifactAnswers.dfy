/** What the dependency queries answer for an artifact whose graph decodes to given snapshots. */
module ArtifactAnswers {
  import opened Prelude
  import opened Ordering
  import opened Canonical
  import opened WorkerProto
  import opened ArtifactProto
  import opened GraphCodec
  import opened SymbolDetail
  import opened DetailBlocks
  import opened SnapshotTransport
  import opened ArtifactQuery
  import BlobLayout

  function BlockAt(graph: Graph, ordinal: int): Queried<Block> {
    if ordinal < 0 then Err(LayoutFailed(BlobLayout.MissingSection))
    else
      match FindBlock(BlocksFrom(graph.snapshots, 0), ordinal)
      case None => Err(LayoutFailed(BlobLayout.MissingSection))
      case Some(b) => Ok(b)
  }

  function StartAt(graph: Graph, ordinal: int): Queried<int> {
    match BlockAt(graph, ordinal)
    case Err(e) => Err(e)
    case Ok(b) => Ok(b.first)
  }

  /** The opened sections are the projections of this graph. */
  ghost predicate Serves(sections: Sections, graph: Graph) {
    && sections.dictionary == Ok(Dictionary(graph))
    && sections.directory == Ok(Directory(graph))
    && sections.graph == Ok(graph)
    && (forall o: int :: sections.block(o) == BlockAt(graph, o))
    && (forall o: int :: sections.blockStart(o) == StartAt(graph, o))
  }

  /** A declaration whose detail carries all of it: its owner inline, its provenance the block's fallback. */
  predicate Detached(g: GraphSnapshot, s: GraphSymbol, ids: seq<string>) {
    && LocalOptional(s.owner, s.ownerOrdinal, ids) == s.owner
    && g.provenance.Some?
    && Or(s.provenance, 0) < |g.provenances| && Or(s.provenance, g.provenance.value) < |g.provenances|
    && g.provenances[Or(s.provenance, 0)] == g.provenances[Or(s.provenance, g.provenance.value)]
  }

  predicate AllDetached(graph: Graph) {
    forall n, k :: 0 <= n < |graph.snapshots| && 0 <= k < |graph.snapshots[n].symbols| ==>
      Detached(graph.snapshots[n], graph.snapshots[n].symbols[k], LocalIds(graph))
  }

  predicate TablesFit(blocks: seq<Block>) {
    forall b :: b in blocks && b.defaults.Some? ==> |b.defaults.value.strings| <= U32_LIMIT
  }

  predicate Readable(graph: Graph, snapshots: seq<Snapshot>) {
    DecodeGraph(graph) == Ok(snapshots) && TablesFit(BlocksFrom(graph.snapshots, 0))
  }

  function Symbols(snapshots: seq<Snapshot>): seq<SymbolRecord> {
    FlatMap(snapshots, SymbolsIn)
  }

  /** What the details of a snapshot's declarations give of its decoded symbols. */
  function DetailsIn(g: GraphSnapshot, v: Snapshot): seq<SymbolRecord> {
    if |g.symbols| != |v.symbols| then []
    else seq(|v.symbols|, k requires 0 <= k < |v.symbols| => FromDetail(g, g.symbols[k], v.symbols[k]))
  }

  function DetailsFrom(gs: seq<GraphSnapshot>, vs: seq<Snapshot>): seq<SymbolRecord> {
    if gs == [] || vs == [] then [] else DetailsIn(gs[0], vs[0]) + DetailsFrom(gs[1..], vs[1..])
  }

  /** The symbols of an artifact as their details give them, by ordinal. */
  function DetailSymbols(graph: Graph, snapshots: seq<Snapshot>): seq<SymbolRecord> {
    DetailsFrom(graph.snapshots, snapshots)
  }

  predicate SameShape(gs: seq<GraphSnapshot>, vs: seq<Snapshot>) {
    |gs| == |vs| && forall n :: 0 <= n < |gs| ==> |gs[n].symbols| == |vs[n].symbols|
  }

  lemma {:induction false} DetailAt(gs: seq<GraphSnapshot>, vs: seq<Snapshot>, n: nat, k: nat)
    requires SameShape(gs, vs) && n < |gs| && k < |gs[n].symbols|
    ensures var at := |AllSymbols(gs[..n])| + k;
      at < |DetailsFrom(gs, vs)| && DetailsFrom(gs, vs)[at] == FromDetail(gs[n], gs[n].symbols[k], vs[n].symbols[k])
  {
    hide FromDetail;
    if n == 0 {
      assert gs[..0] == [];
    } else {
      assert SameShape(gs[1..], vs[1..]);
      DetailAt(gs[1..], vs[1..], n - 1, k);
      assert gs[..n][0] == gs[0] && gs[..n][1..] == gs[1..][..n - 1];
    }
  }

  lemma {:induction false} DetailCounts(gs: seq<GraphSnapshot>, vs: seq<Snapshot>)
    requires SameShape(gs, vs)
    ensures |DetailsFrom(gs, vs)| == |AllSymbols(gs)|
  {
    hide FromDetail;
    if gs != [] {
      assert SameShape(gs[1..], vs[1..]);
      DetailCounts(gs[1..], vs[1..]);
    }
  }

  lemma Shape(graph: Graph, snapshots: seq<Snapshot>)
    requires DecodeGraph(graph) == Ok(snapshots)
    ensures SameShape(graph.snapshots, snapshots)
  {
    hide SnapshotReader, LocalIds;
    TryMapExactly(graph.snapshots, SnapshotReader(LocalIds(graph)), snapshots);
    forall n | 0 <= n < |graph.snapshots| ensures |graph.snapshots[n].symbols| == |snapshots[n].symbols| {
      CountsKept(graph, snapshots, n);
    }
  }

  // Ordinals against decoded symbols.

  lemma {:induction false} FlatSizes<A, B, X, Y>(s: seq<A>, t: seq<B>, f: A -> seq<X>, g: B -> seq<Y>)
    requires |s| == |t| && forall i :: 0 <= i < |s| ==> |f(s[i])| == |g(t[i])|
    ensures |FlatMap(s, f)| == |FlatMap(t, g)|
  {
    if s != [] {
      FlatSizes(s[1..], t[1..], f, g);
    }
  }

  lemma FlatAt<A, X>(s: seq<A>, f: A -> seq<X>, n: nat, k: nat)
    requires n < |s| && k < |f(s[n])|
    ensures var at := |FlatMap(s[..n], f)| + k; at < |FlatMap(s, f)| && FlatMap(s, f)[at] == f(s[n])[k]
  {
    assert s == s[..n] + s[n..];
    FlatMapConcat(s[..n], s[n..], f);
  }

  lemma SnapshotsDecoded(graph: Graph, snapshots: seq<Snapshot>, n: nat)
    requires DecodeGraph(graph) == Ok(snapshots) && n < |graph.snapshots|
    ensures |snapshots| == |graph.snapshots|
    ensures SnapshotReader(LocalIds(graph))(graph.snapshots[n]) == Ok(snapshots[n])
  {
    hide SnapshotReader, LocalIds;
    TryMapExactly(graph.snapshots, SnapshotReader(LocalIds(graph)), snapshots);
  }

  /** A decoded snapshot keeps its symbols' ids and names in place. */
  lemma NamesKept(g: GraphSnapshot, ids: seq<string>, v: Snapshot, k: nat)
    requires SnapshotReader(ids)(g) == Ok(v) && k < |g.symbols|
    ensures |v.symbols| == |g.symbols|
    ensures v.symbols[k].id == g.symbols[k].id && v.symbols[k].qualifiedName == g.symbols[k].qualifiedName
  {
    hide SnapshotReader, SourceUnitIn;
    SymbolOfSnapshot(g, ids, v, k);
  }

  lemma CountsKept(graph: Graph, snapshots: seq<Snapshot>, n: nat)
    requires DecodeGraph(graph) == Ok(snapshots) && n < |graph.snapshots|
    ensures |snapshots| == |graph.snapshots| && |snapshots[n].symbols| == |graph.snapshots[n].symbols|
  {
    hide SnapshotReader, LocalIds;
    SnapshotsDecoded(graph, snapshots, n);
    CountKept(graph.snapshots[n], LocalIds(graph), snapshots[n]);
  }

  lemma CountKept(g: GraphSnapshot, ids: seq<string>, v: Snapshot)
    requires SnapshotReader(ids)(g) == Ok(v)
    ensures |v.symbols| == |g.symbols|
  {
    hide ReadBack, SymbolFromGraph, SymbolReader;
    var p := g.provenance.value;
    var w := FromGraph(g, p, ids);
    ReadBackParts(w, v);
    MapAt(g.symbols, (s: GraphSymbol) => SymbolFromGraph(s, p, ids));
    TryMapExactly(w.symbols, SymbolReader(w.provenances, v.sourceUnit), v.symbols);
  }

  lemma SymbolCounts(graph: Graph, snapshots: seq<Snapshot>)
    requires DecodeGraph(graph) == Ok(snapshots)
    ensures |Symbols(snapshots)| == |AllSymbols(graph.snapshots)|
  {
    hide SnapshotReader, LocalIds;
    TryMapExactly(graph.snapshots, SnapshotReader(LocalIds(graph)), snapshots);
    forall n | 0 <= n < |snapshots| ensures |SymbolsIn(snapshots[n])| == |SymbolsOf(graph.snapshots[n])| {
      CountsKept(graph, snapshots, n);
    }
    FlatSizes(snapshots, graph.snapshots, SymbolsIn, SymbolsOf);
  }

  /** Through its block, every ordinal decodes to what its detail gives of the symbol that decoding the whole graph puts
      in that place. */
  lemma OrdinalDecodes(sections: Sections, graph: Graph, snapshots: seq<Snapshot>, ordinal: nat)
    requires Serves(sections, graph) && Readable(graph, snapshots) && ordinal < |AllSymbols(graph.snapshots)|
    ensures |DetailSymbols(graph, snapshots)| == |AllSymbols(graph.snapshots)|
    ensures StartAt(graph, ordinal).Ok? && StartAt(graph, ordinal) == sections.blockStart(ordinal)
    ensures SymbolAt(sections, ordinal) == Ok(DetailSymbols(graph, snapshots)[ordinal])
    ensures DetailSymbols(graph, snapshots)[ordinal].id == AllSymbols(graph.snapshots)[ordinal].id
    ensures DetailSymbols(graph, snapshots)[ordinal].qualifiedName == AllSymbols(graph.snapshots)[ordinal].qualifiedName
  {
    hide SnapshotReader, LocalIds, DecodeDetail, BlockOf, DecodeGraph, Dictionary, Directory, DetailSymbols, FromDetail;
    SameCounts(graph, snapshots) by { DecodesAsRead(graph, snapshots); }
    var ids := LocalIds(graph);
    var n, k, chunk, first := FoundBlock(graph.snapshots, 0, ordinal);
    var g := graph.snapshots[n];
    SnapshotsDecoded(graph, snapshots, n);
    NamesKept(g, ids, snapshots[n], k);
    DetailPlace(graph, snapshots, n, k);
    BlocksTile(graph.snapshots, 0);
    FindMonotone(BlocksFrom(graph.snapshots, 0), 0, |AllSymbols(graph.snapshots)|, ordinal, ordinal);
    BlockGives(g, chunk, ordinal - first, first, ids, snapshots[n], k);
  }

  lemma BlockGives(g: GraphSnapshot, chunk: seq<GraphSymbol>, i: nat, first: nat, ids: seq<string>, v: Snapshot,
                   k: nat)
    requires SnapshotReader(ids)(g) == Ok(v) && k < |g.symbols| == |v.symbols|
    requires i < |chunk| && chunk[i] == g.symbols[k]
    requires var d := BlockOf(g, chunk, first).defaults; d.Some? ==> |d.value.strings| <= U32_LIMIT
    ensures DecodeDetail(BlockOf(g, chunk, first), first + i) == Ok(FromDetail(g, chunk[i], v.symbols[k]))
  {
    hide SnapshotReader, DecodeDetail, DetailOf, FromDetail;
    DetailGives(g, chunk, i, first, ids, v, k);
  }

  lemma DetailPlace(graph: Graph, snapshots: seq<Snapshot>, n: nat, k: nat)
    requires DecodeGraph(graph) == Ok(snapshots) && n < |graph.snapshots| && k < |graph.snapshots[n].symbols|
    ensures |snapshots| == |graph.snapshots| && k < |snapshots[n].symbols|
    ensures var at, r := |AllSymbols(graph.snapshots[..n])| + k,
                         FromDetail(graph.snapshots[n], graph.snapshots[n].symbols[k], snapshots[n].symbols[k]);
      && at < |DetailSymbols(graph, snapshots)| && DetailSymbols(graph, snapshots)[at] == r
      && r.id == snapshots[n].symbols[k].id && r.qualifiedName == snapshots[n].symbols[k].qualifiedName
  {
    hide DecodeGraph;
    Shape(graph, snapshots);
    DetailAt(graph.snapshots, snapshots, n, k);
  }

  lemma SamePlace(graph: Graph, snapshots: seq<Snapshot>, n: nat, k: nat)
    requires DecodeGraph(graph) == Ok(snapshots) && n < |graph.snapshots| && k < |graph.snapshots[n].symbols|
    ensures |snapshots| == |graph.snapshots| && k < |snapshots[n].symbols|
    ensures var at := |AllSymbols(graph.snapshots[..n])| + k;
      at < |Symbols(snapshots)| && Symbols(snapshots)[at] == snapshots[n].symbols[k]
  {
    hide DecodeGraph;
    forall j | 0 <= j <= n
      ensures |snapshots| == |graph.snapshots| && |snapshots[j].symbols| == |graph.snapshots[j].symbols|
    {
      CountsKept(graph, snapshots, j);
    }
    FlatSizes(snapshots[..n], graph.snapshots[..n], SymbolsIn, SymbolsOf);
    FlatAt(snapshots, SymbolsIn, n, k);
  }

  /** The details give the decoded symbols themselves exactly when every declaration's detail carries all of it. */
  lemma DetachedExactly(graph: Graph, snapshots: seq<Snapshot>)
    requires DecodeGraph(graph) == Ok(snapshots)
    ensures AllDetached(graph) <==> DetailSymbols(graph, snapshots) == Symbols(snapshots)
  {
    hide DecodeGraph, FromDetail, Detached, Symbols, LocalIds, DetailSymbols;
    SymbolCounts(graph, snapshots);
    SameCounts(graph, snapshots);
    var details, symbols := DetailSymbols(graph, snapshots), Symbols(snapshots);
    if details == symbols {
      forall n, k | 0 <= n < |graph.snapshots| && 0 <= k < |graph.snapshots[n].symbols|
        ensures Detached(graph.snapshots[n], graph.snapshots[n].symbols[k], LocalIds(graph))
      {
        OneDetached(graph, snapshots, n, k);
      }
    }
    if AllDetached(graph) {
      forall i: nat | i < |symbols| ensures details[i] == symbols[i] {
        var n, k := PlaceOf(graph.snapshots, i);
        OneDetached(graph, snapshots, n, k);
      }
    }
  }

  lemma SameCounts(graph: Graph, snapshots: seq<Snapshot>)
    requires DecodeGraph(graph) == Ok(snapshots)
    ensures |DetailSymbols(graph, snapshots)| == |AllSymbols(graph.snapshots)|
  {
    hide DecodeGraph;
    Shape(graph, snapshots);
    DetailCounts(graph.snapshots, snapshots);
  }

  lemma OneDetached(graph: Graph, snapshots: seq<Snapshot>, n: nat, k: nat)
    requires DecodeGraph(graph) == Ok(snapshots) && n < |graph.snapshots| && k < |graph.snapshots[n].symbols|
    ensures var at := |AllSymbols(graph.snapshots[..n])| + k;
      && at < |DetailSymbols(graph, snapshots)| && at < |Symbols(snapshots)|
      && (Detached(graph.snapshots[n], graph.snapshots[n].symbols[k], LocalIds(graph)) <==>
            DetailSymbols(graph, snapshots)[at] == Symbols(snapshots)[at])
  {
    hide SnapshotReader, DecodeGraph, SymbolIn, SymbolFromGraph, Symbols, LocalIds, SourceUnitIn;
    SamePlace(graph, snapshots, n, k);
    DetailPlace(graph, snapshots, n, k);
    SnapshotsDecoded(graph, snapshots, n);
    var g, ids := graph.snapshots[n], LocalIds(graph);
    SymbolOfSnapshot(g, ids, snapshots[n], k);
    SymbolsCompare(g.symbols[k], g.provenance.value, ids, snapshots[n].sourceUnit,
                   g.provenances[Or(g.symbols[k].provenance, 0)],
                   g.provenances[Or(g.symbols[k].provenance, g.provenance.value)]);
  }

  /** Every ordinal is the place of some snapshot's declaration. */
  lemma {:induction false} PlaceOf(gs: seq<GraphSnapshot>, ordinal: nat) returns (n: nat, k: nat)
    requires ordinal < |AllSymbols(gs)|
    ensures n < |gs| && k < |gs[n].symbols| && ordinal == |AllSymbols(gs[..n])| + k
  {
    if ordinal < |gs[0].symbols| {
      n, k := 0, ordinal;
      assert gs[..0] == [];
    } else {
      n, k := PlaceOf(gs[1..], ordinal - |gs[0].symbols|);
      n := n + 1;
      assert gs[..n][0] == gs[0] && gs[..n][1..] == gs[1..][..n - 1];
    }
  }

  // Symbols by qualified name.

  predicate Named(s: SymbolRecord, name: string) {
    s.qualifiedName == Some(name)
  }

  predicate EntryNamed(e: DirectoryEntry, name: string) {
    e.qualifiedName == name
  }

  lemma {:induction false} FilterPlace<T>(x: T, s: seq<T>, le: (T, T) -> bool, p: T -> bool)
    requires p(x) ==> forall y :: y in s && p(y) ==> le(x, y)
    ensures Filter(Place(x, s, le), p) == if p(x) then [x] + Filter(s, p) else Filter(s, p)
  {
    if s != [] && !le(x, s[0]) {
      FilterPlace(x, s[1..], le, p);
      assert ([s[0]] + Place(x, s[1..], le))[1..] == Place(x, s[1..], le);
    } else {
      assert ([x] + s)[1..] == s;
    }
  }

  lemma SortedMember<T>(s: seq<T>, le: (T, T) -> bool, y: T)
    ensures y in SortBy(s, le) <==> y in s
  {
    SortByMembers(s, le);
  }

  /** Sorting does not disturb elements already in order among themselves. */
  lemma {:induction false} FilterSort<T>(s: seq<T>, le: (T, T) -> bool, p: T -> bool)
    requires forall i, j :: 0 <= i < j < |s| && p(s[i]) && p(s[j]) ==> le(s[i], s[j])
    ensures Filter(SortBy(s, le), p) == Filter(s, p)
  {
    if s != [] {
      FilterSort(s[1..], le, p);
      if p(s[0]) {
        forall y | y in SortBy(s[1..], le) && p(y) ensures le(s[0], y) {
          SortedMember(s[1..], le, y);
          var j :| 0 <= j < |s[1..]| && s[1..][j] == y;
          assert s[j + 1] == y;
        }
      }
      FilterPlace(s[0], SortBy(s[1..], le), le, p);
    }
  }

  lemma {:induction false} NamedFromOrdered(symbols: seq<GraphSymbol>, at: int, i: nat, j: nat)
    requires i <= j < |NamedFrom(symbols, at)|
    ensures at <= NamedFrom(symbols, at)[i].ordinal <= NamedFrom(symbols, at)[j].ordinal
  {
    if symbols != [] {
      var whole, rest := NamedFrom(symbols, at), NamedFrom(symbols[1..], at + 1);
      if symbols[0].qualifiedName.Some? {
        assert whole == [DirectoryEntry(symbols[0].qualifiedName.value, at)] + rest;
        if j > 0 {
          NamedFromOrdered(symbols[1..], at + 1, if i == 0 then 0 else i - 1, j - 1);
        }
      } else {
        assert whole == rest;
        NamedFromOrdered(symbols[1..], at + 1, i, j);
      }
    }
  }

  lemma {:induction false} NamedSymbolsFiltered(sections: Sections, entries: seq<DirectoryEntry>, name: string)
    ensures NamedSymbols(sections, entries, name) ==
      NamedSymbols(sections, Filter(entries, (e: DirectoryEntry) => EntryNamed(e, name)), name)
  {
    hide SymbolAt;
    if entries != [] {
      NamedSymbolsFiltered(sections, entries[1..], name);
      var rest := Filter(entries[1..], (e: DirectoryEntry) => EntryNamed(e, name));
      assert ([entries[0]] + rest)[1..] == rest;
    }
  }

  predicate DecodedAll(sections: Sections, symbols: seq<GraphSymbol>, decoded: seq<SymbolRecord>) {
    && |decoded| == |symbols|
    && (forall i: int :: 0 <= i < |symbols| ==>
         && SymbolAt(sections, i) == Ok(decoded[i])
         && decoded[i].id == symbols[i].id && decoded[i].qualifiedName == symbols[i].qualifiedName)
  }

  lemma {:induction false} NamedFromDecodes(sections: Sections, symbols: seq<GraphSymbol>, at: nat, name: string,
                                            decoded: seq<SymbolRecord>)
    requires DecodedAll(sections, symbols, decoded) && at <= |symbols|
    ensures NamedSymbols(sections, NamedFrom(symbols[at..], at), name) ==
      Ok(Filter(decoded[at..], (s: SymbolRecord) => Named(s, name)))
    decreases |symbols| - at
  {
    hide SymbolAt;
    if at < |symbols| {
      NamedFromDecodes(sections, symbols, at + 1, name, decoded);
      assert symbols[at..][1..] == symbols[at + 1..] && decoded[at..][1..] == decoded[at + 1..];
      var rest := NamedFrom(symbols[at + 1..], at + 1);
      assert SymbolAt(sections, at) == Ok(decoded[at]);
      if symbols[at].qualifiedName.Some? {
        var head := DirectoryEntry(symbols[at].qualifiedName.value, at);
        assert NamedFrom(symbols[at..], at) == [head] + rest && ([head] + rest)[1..] == rest;
      } else {
        assert NamedFrom(symbols[at..], at) == rest;
      }
    }
  }

  /** The directory answers an exact name with what the details give of all the decoded symbols of that name, in order,
      and of no others. */
  lemma QualifiedNameExactly(sections: Sections, graph: Graph, snapshots: seq<Snapshot>, name: string)
    requires Serves(sections, graph) && Readable(graph, snapshots)
    ensures QualifiedName(sections, name) ==
      Ok(Filter(DetailSymbols(graph, snapshots), (s: SymbolRecord) => Named(s, name)))
    ensures AllDetached(graph) ==>
      QualifiedName(sections, name) == Ok(Filter(Symbols(snapshots), (s: SymbolRecord) => Named(s, name)))
  {
    hide Serves, Readable, AllDetached, Symbols, AllSymbols, Directory, NamedFrom, NamedSymbols, SymbolAt, Filter,
         DecodedAll, DetailSymbols;
    AllDecode(sections, graph, snapshots);
    var all, decoded := AllSymbols(graph.snapshots), DetailSymbols(graph, snapshots);
    NamedFromDecodes(sections, all, 0, name, decoded);
    assert all[0..] == all && decoded[0..] == decoded;
    DirectoryUnsorted(sections, graph, name);
    DirectoryServed(sections, graph);
    DecodesAsRead(graph, snapshots);
    DetachedExactly(graph, snapshots);
  }

  lemma DirectoryServed(sections: Sections, graph: Graph)
    requires Serves(sections, graph)
    ensures sections.directory == Ok(Directory(graph)) && sections.dictionary == Ok(Dictionary(graph))
    ensures sections.graph == Ok(graph)
  {
    hide Directory, Dictionary;
  }

  lemma AllDecode(sections: Sections, graph: Graph, snapshots: seq<Snapshot>)
    requires Serves(sections, graph) && Readable(graph, snapshots)
    ensures DecodedAll(sections, AllSymbols(graph.snapshots), DetailSymbols(graph, snapshots))
  {
    hide Serves, SymbolAt, Readable, StartAt, AllSymbols, DetailSymbols;
    SameCounts(graph, snapshots) by { DecodesAsRead(graph, snapshots); }
    var details := DetailSymbols(graph, snapshots);
    forall i: int | 0 <= i < |details|
      ensures && SymbolAt(sections, i) == Ok(details[i])
              && details[i].id == AllSymbols(graph.snapshots)[i].id
              && details[i].qualifiedName == AllSymbols(graph.snapshots)[i].qualifiedName
    {
      OrdinalDecodes(sections, graph, snapshots, i);
    }
  }

  lemma DirectoryUnsorted(sections: Sections, graph: Graph, name: string)
    ensures NamedSymbols(sections, Directory(graph), name) ==
      NamedSymbols(sections, NamedFrom(AllSymbols(graph.snapshots), 0), name)
  {
    hide SymbolAt, NamedFrom, NamedSymbols;
    var entries := NamedFrom(AllSymbols(graph.snapshots), 0);
    forall i, j | 0 <= i < j < |entries| ensures entries[i].ordinal <= entries[j].ordinal {
      NamedFromOrdered(AllSymbols(graph.snapshots), 0, i, j);
    }
    FilterSort(entries, EntryLe, (e: DirectoryEntry) => EntryNamed(e, name));
    NamedSymbolsFiltered(sections, entries, name);
    NamedSymbolsFiltered(sections, SortBy(entries, EntryLe), name);
  }

  lemma DecodesAsRead(graph: Graph, snapshots: seq<Snapshot>)
    requires Readable(graph, snapshots)
    ensures DecodeGraph(graph) == Ok(snapshots)
  {
  }
}
