/** Queries over one dependency blob: the indexed paths through postings, dictionary, directory and detail blocks, and
    the fallback that decodes the whole graph. */
module ArtifactQuery {
  import opened Prelude
  import opened Ordering
  import opened Canonical
  import opened WorkerProto
  import opened ArtifactProto
  import opened GraphCodec
  import opened SymbolDetail
  import opened DetailBlocks
  import opened SnapshotTransport
  import BlobLayout
  import Framing

  type Bytes = seq<Framing.Byte>

  datatype QueryError =
    | LayoutFailed(layout: BlobLayout.LayoutError)
    | GraphFailed(graph: GraphError)
    | BadSection

  type Queried<T> = Result<T, QueryError>

  datatype DictionaryEntry = DictionaryEntry(id: string, name: string)

  datatype HierarchyPosting = HierarchyPosting(subtype: string, supertype: string, precision: string)

  datatype DirectoryEntry = DirectoryEntry(qualifiedName: string, ordinal: int)

  // The projections of a graph.

  function Dictionary(graph: Graph): seq<DictionaryEntry> {
    Map(AllSymbols(graph.snapshots), (s: GraphSymbol) => DictionaryEntry(s.id, s.name))
  }

  function HierarchyOf(g: GraphSnapshot): seq<GraphHierarchy> {
    g.hierarchy
  }

  function Postings(graph: Graph): seq<HierarchyPosting> {
    Map(FlatMap(graph.snapshots, HierarchyOf),
        (e: GraphHierarchy) => HierarchyPosting(e.subtype, e.supertype, e.precision))
  }

  function NamedFrom(symbols: seq<GraphSymbol>, at: int): seq<DirectoryEntry> {
    if symbols == [] then []
    else
      (if symbols[0].qualifiedName.Some? then [DirectoryEntry(symbols[0].qualifiedName.value, at)] else [])
      + NamedFrom(symbols[1..], at + 1)
  }

  predicate EntryLe(a: DirectoryEntry, b: DirectoryEntry) {
    StrLt(a.qualifiedName, b.qualifiedName) || (a.qualifiedName == b.qualifiedName && a.ordinal <= b.ordinal)
  }

  function Directory(graph: Graph): seq<DirectoryEntry> {
    SortBy(NamedFrom(AllSymbols(graph.snapshots), 0), EntryLe)
  }

  // An opened blob.

  /** What reading each section gives. */
  datatype Sections = Sections(
    dictionary: Queried<seq<DictionaryEntry>>,
    hierarchy: Queried<seq<HierarchyPosting>>,
    directory: Queried<seq<DirectoryEntry>>,
    graph: Queried<Graph>,
    block: int -> Queried<Block>,
    blockStart: int -> Queried<int>)

  // The queries.

  function NamedSymbols(sections: Sections, entries: seq<DirectoryEntry>, name: string): Queried<seq<SymbolRecord>> {
    if entries == [] then Ok([])
    else if entries[0].qualifiedName != name then NamedSymbols(sections, entries[1..], name)
    else
      var s :- SymbolAt(sections, entries[0].ordinal);
      var rest :- NamedSymbols(sections, entries[1..], name);
      Ok([s] + rest)
  }

  function Decode(block: Block, ordinal: int): Queried<SymbolRecord> {
    if ordinal < 0 then Err(GraphFailed(LengthMismatch))
    else
      match DecodeDetail(block, ordinal)
      case Err(e) => Err(GraphFailed(e))
      case Ok(s) => Ok(s)
  }

  function SymbolAt(sections: Sections, ordinal: int): Queried<SymbolRecord> {
    var block :- sections.block(ordinal);
    Decode(block, ordinal)
  }

  function QualifiedName(sections: Sections, name: string): Queried<seq<SymbolRecord>> {
    var entries :- sections.directory;
    NamedSymbols(sections, entries, name)
  }

  method SymbolsWithQualifiedName(sections: Sections, name: string) returns (r: Queried<seq<SymbolRecord>>)
    ensures r == QualifiedName(sections, name)
  {
    if sections.directory.Err? {
      return Err(sections.directory.error);
    }
    var entries := sections.directory.value;
    hide SymbolAt;
    var symbols: seq<SymbolRecord> := [];
    PrependNothing(NamedSymbols(sections, entries, name));
    for i := 0 to |entries|
      invariant NamedSymbols(sections, entries, name) == Prepend(symbols, NamedSymbols(sections, entries[i..], name))
    {
      assert entries[i..][1..] == entries[i + 1..];
      if entries[i].qualifiedName == name {
        var s := SymbolAt(sections, entries[i].ordinal);
        if s.Err? {
          return Err(s.error);
        }
        PrependSnoc(symbols, s.value, NamedSymbols(sections, entries[i + 1..], name));
        symbols := symbols + [s.value];
      }
    }
    assert symbols + [] == symbols;
    r := Ok(symbols);
  }

  function Prepend<T>(done: seq<T>, rest: Queried<seq<T>>): Queried<seq<T>> {
    match rest
    case Err(e) => Err(e)
    case Ok(more) => Ok(done + more)
  }

  lemma PrependNothing<T>(rest: Queried<seq<T>>)
    ensures Prepend([], rest) == rest
  {
    if rest.Ok? {
      assert [] + rest.value == rest.value;
    }
  }

  lemma PrependSnoc<T>(done: seq<T>, t: T, rest: Queried<seq<T>>)
    ensures Prepend(done + [t], rest) == Prepend(done, Prepend([t], rest))
  {
    if rest.Ok? {
      assert done + ([t] + rest.value) == done + [t] + rest.value;
    }
  }

  // Direct implementations.

  function SubtypesOf(entries: seq<HierarchyPosting>, supertype: string): (r: set<string>)
    ensures forall id :: id in r <==> exists e :: e in entries && e.supertype == supertype && e.subtype == id
  {
    set e | e in entries && e.supertype == supertype :: e.subtype
  }

  function Matching(entries: seq<DictionaryEntry>, ids: set<string>, at: int): seq<int> {
    if entries == [] then []
    else (if entries[0].id in ids then [at] else []) + Matching(entries[1..], ids, at + 1)
  }

  type Groups = seq<(int, seq<int>)>

  predicate IntLe(a: int, b: int) {
    a <= b
  }

  function Join(groups: Groups, start: int, ordinal: int): Groups {
    Put(groups, IntLe, start, (if Get(groups, start).Some? then Get(groups, start).value else []) + [ordinal])
  }

  function Grouped(sections: Sections, groups: Groups, ordinals: seq<int>): Queried<Groups>
    decreases |ordinals|
  {
    if ordinals == [] then Ok(groups)
    else
      var start :- sections.blockStart(ordinals[0]);
      Grouped(sections, Join(groups, start, ordinals[0]), ordinals[1..])
  }

  function DecodeAll(block: Block, ordinals: seq<int>): Queried<seq<SymbolRecord>> {
    TryMap(ordinals, (o: int) => Decode(block, o))
  }

  function DecodeGroups(sections: Sections, groups: Groups): Queried<seq<SymbolRecord>> {
    if groups == [] then Ok([])
    else if groups[0].1 == [] then Err(BadSection)
    else
      var block :- sections.block(groups[0].1[0]);
      var symbols :- DecodeAll(block, groups[0].1);
      var rest :- DecodeGroups(sections, groups[1..]);
      Ok(symbols + rest)
  }

  /** The path through the postings, once they could be read. */
  function IndexedPath(sections: Sections, postings: seq<HierarchyPosting>,
                       supertype: string): Queried<seq<SymbolRecord>> {
    var ids := SubtypesOf(postings, supertype);
    if ids == {} then Ok([])
    else
      var dictionary :- sections.dictionary;
      var groups :- Grouped(sections, [], Matching(dictionary, ids, 0));
      DecodeGroups(sections, groups)
  }

  function SymbolsIn(v: Snapshot): seq<SymbolRecord> {
    v.symbols
  }

  function EdgesIn(v: Snapshot): seq<HierarchyEdge> {
    v.hierarchy
  }

  /** The last symbol of an id, as a map filled in order keeps it. */
  function LastNamed(symbols: seq<SymbolRecord>, id: string): Option<SymbolRecord> {
    if symbols == [] then None
    else if symbols[|symbols| - 1].id == id then Some(symbols[|symbols| - 1])
    else LastNamed(symbols[..|symbols| - 1], id)
  }

  /** The path through the decoded graph. */
  function Fallback(sections: Sections, supertype: string): Queried<seq<SymbolRecord>> {
    var graph :- sections.graph;
    match DecodeGraph(graph)
    case Err(e) => Err(GraphFailed(e))
    case Ok(snapshots) =>
      var symbols := FlatMap(snapshots, SymbolsIn);
      Ok(FilterMap(FlatMap(snapshots, EdgesIn),
                   (e: HierarchyEdge) => if e.supertype == supertype then LastNamed(symbols, e.subtype) else None))
  }

  function Implementations(sections: Sections, supertype: string): Queried<seq<SymbolRecord>> {
    match sections.hierarchy
    case Ok(postings) => IndexedPath(sections, postings, supertype)
    case Err(e) => if e == LayoutFailed(BlobLayout.MissingSection) then Fallback(sections, supertype) else Err(e)
  }

  method DirectImplementations(sections: Sections, supertype: string) returns (r: Queried<seq<SymbolRecord>>)
    ensures r == Implementations(sections, supertype)
  {
    if sections.hierarchy.Err? {
      if sections.hierarchy.error == LayoutFailed(BlobLayout.MissingSection) {
        return Fallback(sections, supertype);
      }
      return Err(sections.hierarchy.error);
    }
    var ids := SubtypesOf(sections.hierarchy.value, supertype);
    if ids == {} {
      return Ok([]);
    }
    if sections.dictionary.Err? {
      return Err(sections.dictionary.error);
    }
    var ordinals := Matching(sections.dictionary.value, ids, 0);
    var byBlock: Groups := [];
    for i := 0 to |ordinals|
      invariant Grouped(sections, byBlock, ordinals[i..]) == Grouped(sections, [], ordinals)
    {
      assert ordinals[i..][1..] == ordinals[i + 1..];
      var start := sections.blockStart(ordinals[i]);
      if start.Err? {
        return Err(start.error);
      }
      byBlock := Join(byBlock, start.value, ordinals[i]);
    }
    r := ReadGroups(sections, byBlock);
  }

  /** Reads each block once. */
  method ReadGroups(sections: Sections, groups: Groups) returns (r: Queried<seq<SymbolRecord>>)
    ensures r == DecodeGroups(sections, groups)
  {
    hide DecodeAll;
    var symbols: seq<SymbolRecord> := [];
    PrependNothing(DecodeGroups(sections, groups));
    for i := 0 to |groups|
      invariant DecodeGroups(sections, groups) == Prepend(symbols, DecodeGroups(sections, groups[i..]))
    {
      assert groups[i..][1..] == groups[i + 1..];
      var ordinals := groups[i].1;
      if ordinals == [] {
        return Err(BadSection);
      }
      var block := sections.block(ordinals[0]);
      if block.Err? {
        return Err(block.error);
      }
      var decoded := DecodeAll(block.value, ordinals);
      if decoded.Err? {
        return Err(decoded.error);
      }
      PrependConcat(symbols, decoded.value, DecodeGroups(sections, groups[i + 1..]));
      symbols := symbols + decoded.value;
    }
    assert symbols + [] == symbols;
    r := Ok(symbols);
  }

  lemma PrependConcat<T>(done: seq<T>, more: seq<T>, rest: Queried<seq<T>>)
    ensures Prepend(done + more, rest) == Prepend(done, Prepend(more, rest))
  {
    if rest.Ok? {
      assert done + (more + rest.value) == done + more + rest.value;
    }
  }
}
