/** What the sections of a written blob hold, entry by entry, against the snapshots they were made from. */
module Projections {
  import opened Prelude
  import opened Framing
  import opened Ordering
  import opened ArtifactProto
  import opened GraphCodec
  import opened SymbolDetail
  import opened DetailBlocks
  import opened ArtifactQuery
  import opened ArtifactAnswers
  import opened BlobLayout
  import opened ArtifactBlob

  /** How many symbols the snapshots before one declare. */
  function SymbolsBefore(snapshots: seq<GraphSnapshot>, u: nat): nat
    requires u <= |snapshots|
  {
    if u == 0 then 0 else SymbolsBefore(snapshots, u - 1) + |snapshots[u - 1].symbols|
  }

  function EdgesBefore(snapshots: seq<GraphSnapshot>, u: nat): nat
    requires u <= |snapshots|
  {
    if u == 0 then 0 else EdgesBefore(snapshots, u - 1) + |snapshots[u - 1].hierarchy|
  }

  /** A symbol's ordinal counts the symbols of the snapshots before its own, and those before it there. */
  predicate Declares(snapshots: seq<GraphSnapshot>, u: nat, ordinal: nat, s: GraphSymbol) {
    && u < |snapshots|
    && SymbolsBefore(snapshots, u) <= ordinal < SymbolsBefore(snapshots, u) + |snapshots[u].symbols|
    && snapshots[u].symbols[ordinal - SymbolsBefore(snapshots, u)] == s
  }

  lemma {:induction false} BeforeTail(snapshots: seq<GraphSnapshot>, u: nat)
    requires 0 < u <= |snapshots|
    ensures SymbolsBefore(snapshots, u) == |snapshots[0].symbols| + SymbolsBefore(snapshots[1..], u - 1)
    ensures EdgesBefore(snapshots, u) == |snapshots[0].hierarchy| + EdgesBefore(snapshots[1..], u - 1)
  {
    if u > 1 {
      BeforeTail(snapshots, u - 1);
    }
  }

  lemma {:induction false} UnitPostingsAt(unit: nat, symbols: seq<GraphSymbol>, at: nat)
    ensures |UnitPostings(unit, symbols, at)| == |symbols|
    ensures forall k :: 0 <= k < |symbols| ==> UnitPostings(unit, symbols, at)[k] == SymbolPosting(unit, at + k)
  {
    if symbols != [] {
      UnitPostingsAt(unit, symbols[1..], at + 1);
    }
  }

  lemma DeclaresLater(snapshots: seq<GraphSnapshot>, u: nat, ordinal: nat, s: GraphSymbol)
    requires snapshots != [] && Declares(snapshots[1..], u, ordinal, s)
    ensures Declares(snapshots, u + 1, |snapshots[0].symbols| + ordinal, s)
  {
    BeforeTail(snapshots, u + 1);
  }

  lemma {:induction false} PostingsCount(snapshots: seq<GraphSnapshot>, unit: nat, at: nat)
    ensures |SymbolPostingsFrom(snapshots, unit, at)| == |AllSymbols(snapshots)|
  {
    if snapshots != [] {
      UnitPostingsAt(unit, snapshots[0].symbols, at);
      PostingsCount(snapshots[1..], unit + 1, at + |snapshots[0].symbols|);
    }
  }

  lemma {:induction false} PostingsFromAt(snapshots: seq<GraphSnapshot>, unit: nat, at: nat, i: nat)
    requires i < |AllSymbols(snapshots)| == |SymbolPostingsFrom(snapshots, unit, at)|
    ensures var p := SymbolPostingsFrom(snapshots, unit, at)[i];
      p.ordinal == at + i && p.unit >= unit && Declares(snapshots, p.unit - unit, i, AllSymbols(snapshots)[i])
  {
    hide Declares;
    var g, rest := snapshots[0], snapshots[1..];
    UnitPostingsAt(unit, g.symbols, at);
    if i < |g.symbols| {
      DeclaredFirst(snapshots, i);
    } else {
      PostingsCount(rest, unit + 1, at + |g.symbols|);
      PostingsFromAt(rest, unit + 1, at + |g.symbols|, i - |g.symbols|);
      var p := SymbolPostingsFrom(rest, unit + 1, at + |g.symbols|)[i - |g.symbols|];
      DeclaresLater(snapshots, p.unit - (unit + 1), i - |g.symbols|, AllSymbols(rest)[i - |g.symbols|]);
    }
  }

  lemma DeclaredFirst(snapshots: seq<GraphSnapshot>, i: nat)
    requires snapshots != [] && i < |snapshots[0].symbols|
    ensures Declares(snapshots, 0, i, snapshots[0].symbols[i])
  {
  }

  /** There is one symbol posting for each declaration of the artifact. The one at place `i` has ordinal `i`, and names
      the snapshot that declares the symbol of that ordinal. */
  lemma SymbolPostingsHold(graph: Graph, i: nat)
    ensures |SymbolPostingsFrom(graph.snapshots, 0, 0)| == |AllSymbols(graph.snapshots)|
    ensures i < |AllSymbols(graph.snapshots)| ==>
      var p := SymbolPostingsFrom(graph.snapshots, 0, 0)[i];
      p.ordinal == i && Declares(graph.snapshots, p.unit, i, AllSymbols(graph.snapshots)[i])
  {
    PostingsCount(graph.snapshots, 0, 0);
    if i < |AllSymbols(graph.snapshots)| {
      PostingsFromAt(graph.snapshots, 0, 0, i);
    }
  }

  lemma {:induction false} OrdinalOf(snapshots: seq<GraphSnapshot>, u: nat, k: nat)
    requires u < |snapshots| && k < |snapshots[u].symbols|
    ensures SymbolsBefore(snapshots, u) + k < |AllSymbols(snapshots)|
    ensures AllSymbols(snapshots)[SymbolsBefore(snapshots, u) + k] == snapshots[u].symbols[k]
    decreases u
  {
    if u > 0 {
      OrdinalOf(snapshots[1..], u - 1, k);
      BeforeTail(snapshots, u);
    }
  }

  lemma {:induction false} EdgeOf(snapshots: seq<GraphSnapshot>, u: nat, k: nat)
    requires u < |snapshots| && k < |snapshots[u].hierarchy|
    ensures var all := FlatMap(snapshots, HierarchyOf);
      EdgesBefore(snapshots, u) + k < |all| && all[EdgesBefore(snapshots, u) + k] == snapshots[u].hierarchy[k]
    decreases u
  {
    if u > 0 {
      EdgeOf(snapshots[1..], u - 1, k);
      BeforeTail(snapshots, u);
    }
  }

  lemma {:induction false} EdgeCount(snapshots: seq<GraphSnapshot>)
    ensures |FlatMap(snapshots, HierarchyOf)| == EdgesBefore(snapshots, |snapshots|)
    ensures |AllSymbols(snapshots)| == SymbolsBefore(snapshots, |snapshots|)
  {
    if snapshots != [] {
      EdgeCount(snapshots[1..]);
      BeforeTail(snapshots, |snapshots|);
    }
  }

  /** The dictionary has the id and the name of each declaration at its ordinal. */
  lemma DictionaryHolds(graph: Graph, u: nat, k: nat)
    requires u < |graph.snapshots| && k < |graph.snapshots[u].symbols|
    ensures |Dictionary(graph)| == SymbolsBefore(graph.snapshots, |graph.snapshots|)
    ensures var at, s := SymbolsBefore(graph.snapshots, u) + k, graph.snapshots[u].symbols[k];
      at < |Dictionary(graph)| && Dictionary(graph)[at] == DictionaryEntry(s.id, s.name)
  {
    MapAt(AllSymbols(graph.snapshots), (s: GraphSymbol) => DictionaryEntry(s.id, s.name));
    OrdinalOf(graph.snapshots, u, k);
    EdgeCount(graph.snapshots);
  }

  /** The hierarchy postings are the edges of all snapshots in their order. */
  lemma HierarchyPostingsHold(graph: Graph, u: nat, k: nat)
    requires u < |graph.snapshots| && k < |graph.snapshots[u].hierarchy|
    ensures |Postings(graph)| == EdgesBefore(graph.snapshots, |graph.snapshots|)
    ensures var at, e := EdgesBefore(graph.snapshots, u) + k, graph.snapshots[u].hierarchy[k];
      at < |Postings(graph)| && Postings(graph)[at] == HierarchyPosting(e.subtype, e.supertype, e.precision)
  {
    MapAt(FlatMap(graph.snapshots, HierarchyOf),
          (e: GraphHierarchy) => HierarchyPosting(e.subtype, e.supertype, e.precision));
    EdgeOf(graph.snapshots, u, k);
    EdgeCount(graph.snapshots);
  }

  lemma {:induction false} NamedFromMember(symbols: seq<GraphSymbol>, at: int, d: DirectoryEntry)
    ensures d in NamedFrom(symbols, at) <==>
      at <= d.ordinal < at + |symbols| && symbols[d.ordinal - at].qualifiedName == Some(d.qualifiedName)
  {
    if symbols != [] {
      NamedFromMember(symbols[1..], at + 1, d);
      var head := if symbols[0].qualifiedName.Some? then [DirectoryEntry(symbols[0].qualifiedName.value, at)] else [];
      assert NamedFrom(symbols, at) == head + NamedFrom(symbols[1..], at + 1);
    }
  }

  lemma EntryOrderTotal()
    ensures TotalPreorder(EntryLe)
  {
    StrLeTotalOrder();
    hide StrLt;
    forall a, b ensures EntryLe(a, b) || EntryLe(b, a) {
      StrLtTrichotomy(a.qualifiedName, b.qualifiedName);
    }
    forall a, b, d | EntryLe(a, b) && EntryLe(b, d) ensures EntryLe(a, d) {
      if StrLt(a.qualifiedName, b.qualifiedName) && StrLt(b.qualifiedName, d.qualifiedName) {
        StrLtTransitive(a.qualifiedName, b.qualifiedName, d.qualifiedName);
      }
    }
  }

  /** The directory lists exactly the declarations that have a qualified name, by name and then by ordinal. */
  lemma DirectoryHolds(graph: Graph, d: DirectoryEntry)
    ensures d in Directory(graph) <==>
      && 0 <= d.ordinal < |AllSymbols(graph.snapshots)|
      && AllSymbols(graph.snapshots)[d.ordinal].qualifiedName == Some(d.qualifiedName)
    ensures forall i, j :: 0 <= i < j < |Directory(graph)| ==>
      var a, b := Directory(graph)[i], Directory(graph)[j];
      StrLt(a.qualifiedName, b.qualifiedName) || (a.qualifiedName == b.qualifiedName && a.ordinal <= b.ordinal)
  {
    var entries := NamedFrom(AllSymbols(graph.snapshots), 0);
    NamedFromMember(AllSymbols(graph.snapshots), 0, d);
    SortByMembers(entries, EntryLe);
    EntryOrderTotal();
    SortBySorted(entries, EntryLe);
  }

  /** How a blob's sections follow each other: the dictionary, the symbol postings, the hierarchy postings, the
      directory, the compressed graph, and then a section for each detail block that covers the block's ordinals. Only
      the graph is compressed. */
  lemma SectionsFollow(graph: Graph, m: Messages, wire: Wire, k: nat)
    ensures var all, blocks := StoredSections(graph, m, wire), BlocksFrom(graph.snapshots, 0);
      && |all| == 5 + |blocks|
      && all[0].kind == 1 && all[1].kind == 3 && all[2].kind == 4 && all[3].kind == 5 && all[4].kind == 2
      && all[0].bytes == m.dictionary(Dictionary(graph))
      && all[1].bytes == m.postings(SymbolPostingsFrom(graph.snapshots, 0, 0))
      && all[2].bytes == m.hierarchy(Postings(graph)) && all[3].bytes == m.directory(Directory(graph))
      && all[4].bytes == wire.gzip(m.graph(graph)) && all[4].compression == 1
      && (k < 4 ==> all[k].compression == 0)
      && (k < |blocks| ==>
            all[5 + k] == Stored(6, m.block(blocks[k]), 0, blocks[k].first, blocks[k].first + |blocks[k].entries|))
  {
    hide Dictionary, SymbolPostingsFrom, Postings, Directory, BlocksFrom;
    MapAt(BlocksFrom(graph.snapshots, 0), StoredBlock(m));
  }
}
