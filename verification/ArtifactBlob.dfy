/** A graph artifact as one blob: which sections it is stored in, and what opening the blob reads back. */
module ArtifactBlob {
  import opened Prelude
  import opened ArtifactProto
  import opened GraphCodec
  import opened SymbolDetail
  import opened Canonical
  import opened DetailBlocks
  import opened ArtifactQuery
  import opened ArtifactAnswers
  import opened ArtifactImplementations
  import opened BlobLayout

  datatype SymbolPosting = SymbolPosting(unit: nat, ordinal: nat)

  /** The messages' bytes. */
  datatype Messages = Messages(
    dictionary: seq<DictionaryEntry> -> Bytes, readDictionary: Bytes -> Option<seq<DictionaryEntry>>,
    postings: seq<SymbolPosting> -> Bytes, readPostings: Bytes -> Option<seq<SymbolPosting>>,
    hierarchy: seq<HierarchyPosting> -> Bytes, readHierarchy: Bytes -> Option<seq<HierarchyPosting>>,
    directory: seq<DirectoryEntry> -> Bytes, readDirectory: Bytes -> Option<seq<DirectoryEntry>>,
    graph: Graph -> Bytes, readGraph: Bytes -> Option<Graph>,
    block: Block -> Bytes, readBlock: Bytes -> Option<Block>)

  ghost predicate LawfulMessages(m: Messages) {
    && (forall x :: m.readDictionary(m.dictionary(x)) == Some(x))
    && (forall x :: m.readPostings(m.postings(x)) == Some(x))
    && (forall x :: m.readHierarchy(m.hierarchy(x)) == Some(x))
    && (forall x :: m.readDirectory(m.directory(x)) == Some(x))
    && (forall x :: m.readGraph(m.graph(x)) == Some(x))
    && (forall x :: m.readBlock(m.block(x)) == Some(x))
  }

  function UnitPostings(unit: nat, symbols: seq<GraphSymbol>, at: nat): seq<SymbolPosting> {
    if symbols == [] then [] else [SymbolPosting(unit, at)] + UnitPostings(unit, symbols[1..], at + 1)
  }

  function SymbolPostingsFrom(snapshots: seq<GraphSnapshot>, unit: nat, at: nat): seq<SymbolPosting> {
    if snapshots == [] then []
    else
      UnitPostings(unit, snapshots[0].symbols, at)
      + SymbolPostingsFrom(snapshots[1..], unit + 1, at + |snapshots[0].symbols|)
  }

  function StoredBlock(m: Messages): Block -> Stored {
    (b: Block) => Stored(SymbolDetailBlock, m.block(b), 0, b.first, b.first + |b.entries|)
  }

  function FixedSections(graph: Graph, m: Messages, wire: Wire): seq<Stored> {
    [ Stored(SymbolDictionary, m.dictionary(Dictionary(graph)), 0, 0, 0),
      Stored(SymbolPostings, m.postings(SymbolPostingsFrom(graph.snapshots, 0, 0)), 0, 0, 0),
      Stored(HierarchyPostings, m.hierarchy(Postings(graph)), 0, 0, 0),
      Stored(QualifiedSymbolDirectory, m.directory(Directory(graph)), 0, 0, 0),
      Stored(GraphFacts, wire.gzip(m.graph(graph)), 1, 0, 0) ]
  }

  function StoredSections(graph: Graph, m: Messages, wire: Wire): seq<Stored> {
    FixedSections(graph, m, wire) + Map(BlocksFrom(graph.snapshots, 0), StoredBlock(m))
  }

  /** Writes an artifact's blob. */
  method WriteBlob(graph: Graph, m: Messages, wire: Wire) returns (layout: Layout)
    requires Lawful(wire) && Encodable(StoredSections(graph, m, wire))
    ensures IsEncoding(StoredSections(graph, m, wire), layout, wire) && |layout.bytes| < U64_LIMIT
  {
    hide Lawful, Encodable, IsEncoding, FixedSections;
    var blocks := BuildBlocks(graph);
    layout := Encode(FixedSections(graph, m, wire) + Map(blocks, StoredBlock(m)), wire);
  }

  // Opening.

  function ReadMessage<T>(layout: Layout, wanted: Wanted, read: Bytes -> Option<T>, wire: Wire): Queried<T>
    requires Sound(layout)
  {
    match ReadSection(layout, wanted, wire)
    case Err(e) => Err(LayoutFailed(e))
    case Ok(bytes) => match read(bytes) case None => Err(BadSection) case Some(t) => Ok(t)
  }

  function BlockStart(layout: Layout, ordinal: int): Queried<int> {
    if ordinal < 0 then Err(LayoutFailed(MissingSection))
    else
      match Locate(layout.toc.sections, CoveringBlock(ordinal))
      case None => Err(LayoutFailed(MissingSection))
      case Some(i) => Ok(layout.toc.sections[i].first)
  }

  function ReadBlock(layout: Layout, ordinal: int, m: Messages, wire: Wire): Queried<Block>
    requires Sound(layout)
  {
    if ordinal < 0 then Err(LayoutFailed(MissingSection))
    else ReadMessage(layout, CoveringBlock(ordinal), m.readBlock, wire)
  }

  function Open(layout: Layout, m: Messages, wire: Wire): Sections
    requires Sound(layout)
  {
    Sections(
      ReadMessage(layout, OfKind(SymbolDictionary), m.readDictionary, wire),
      ReadMessage(layout, OfKind(HierarchyPostings), m.readHierarchy, wire),
      ReadMessage(layout, OfKind(QualifiedSymbolDirectory), m.readDirectory, wire),
      ReadMessage(layout, OfKind(GraphFacts), m.readGraph, wire),
      (o: int) => ReadBlock(layout, o, m, wire),
      (o: int) => BlockStart(layout, o))
  }

  /** The symbol postings, which no query here uses. */
  function ReadSymbolPostings(layout: Layout, m: Messages, wire: Wire): Queried<seq<SymbolPosting>>
    requires Sound(layout)
  {
    ReadMessage(layout, OfKind(SymbolPostings), m.readPostings, wire)
  }

  // What is read is what was stored.

  lemma {:induction false} LocateConcat(a: seq<Stored>, b: seq<Stored>, wanted: Wanted)
    ensures LocateStored(a + b, wanted) ==
      if LocateStored(a, wanted).Some? then LocateStored(a, wanted)
      else match LocateStored(b, wanted) case None => None case Some(i) => Some(|a| + i)
  {
    if a == [] {
      assert a + b == b;
    } else {
      assert (a + b)[1..] == a[1..] + b;
      LocateConcat(a[1..], b, wanted);
    }
  }

  lemma {:induction false} LocateBlock(blocks: seq<Block>, m: Messages, ordinal: nat)
    ensures match FindBlock(blocks, ordinal)
      case None => LocateStored(Map(blocks, StoredBlock(m)), CoveringBlock(ordinal)) == None
      case Some(b) =>
        var i := LocateStored(Map(blocks, StoredBlock(m)), CoveringBlock(ordinal));
        i.Some? && Map(blocks, StoredBlock(m))[i.value] == StoredBlock(m)(b)
  {
    if blocks != [] {
      LocateBlock(blocks[1..], m, ordinal);
      var all := Map(blocks, StoredBlock(m));
      assert all[1..] == Map(blocks[1..], StoredBlock(m));
      assert all[0] == StoredBlock(m)(blocks[0]);
    }
  }

  /** Asking for one of the fixed kinds finds its one section. */
  lemma FixedFound(graph: Graph, m: Messages, wire: Wire, kind: nat)
    ensures var all := StoredSections(graph, m, wire);
      && (kind == SymbolDictionary ==> LocateStored(all, OfKind(kind)) == Some(0))
      && (kind == SymbolPostings ==> LocateStored(all, OfKind(kind)) == Some(1))
      && (kind == HierarchyPostings ==> LocateStored(all, OfKind(kind)) == Some(2))
      && (kind == QualifiedSymbolDirectory ==> LocateStored(all, OfKind(kind)) == Some(3))
      && (kind == GraphFacts ==> LocateStored(all, OfKind(kind)) == Some(4))
  {
    hide Dictionary, SymbolPostingsFrom, Postings, Directory, BlocksFrom, Map;
    var fixed := FixedSections(graph, m, wire);
    LocateConcat(fixed, Map(BlocksFrom(graph.snapshots, 0), StoredBlock(m)), OfKind(kind));
    LocateFive(fixed, OfKind(kind));
  }

  lemma LocateFive(s: seq<Stored>, wanted: Wanted)
    requires |s| == 5
    ensures LocateStored(s, wanted) ==
      if wanted(s[0].kind, s[0].first, s[0].past) then Some(0)
      else if wanted(s[1].kind, s[1].first, s[1].past) then Some(1)
      else if wanted(s[2].kind, s[2].first, s[2].past) then Some(2)
      else if wanted(s[3].kind, s[3].first, s[3].past) then Some(3)
      else if wanted(s[4].kind, s[4].first, s[4].past) then Some(4)
      else None
  {
    assert s == [s[0]] + ([s[1]] + ([s[2]] + ([s[3]] + ([s[4]] + []))));
    LocateHead(s[0], [s[1]] + ([s[2]] + ([s[3]] + ([s[4]] + []))), wanted);
    LocateHead(s[1], [s[2]] + ([s[3]] + ([s[4]] + [])), wanted);
    LocateHead(s[2], [s[3]] + ([s[4]] + []), wanted);
    LocateHead(s[3], [s[4]] + [], wanted);
    LocateHead(s[4], [], wanted);
  }

  lemma LocateHead(s: Stored, rest: seq<Stored>, wanted: Wanted)
    ensures LocateStored([s] + rest, wanted) ==
      if wanted(s.kind, s.first, s.past) then Some(0)
      else match LocateStored(rest, wanted) case None => None case Some(i) => Some(i + 1)
  {
    assert ([s] + rest)[1..] == rest;
  }

  /** No fixed section passes for a detail block. */
  lemma DetailFound(graph: Graph, m: Messages, wire: Wire, ordinal: nat)
    ensures var all, found := StoredSections(graph, m, wire),
      LocateStored(StoredSections(graph, m, wire), CoveringBlock(ordinal));
      match FindBlock(BlocksFrom(graph.snapshots, 0), ordinal)
      case None => found == None
      case Some(b) => found.Some? && all[found.value] == StoredBlock(m)(b)
  {
    hide Dictionary, SymbolPostingsFrom, Postings, Directory, BlocksFrom, Map, FindBlock, StoredBlock;
    var fixed, blocks := FixedSections(graph, m, wire), BlocksFrom(graph.snapshots, 0);
    LocateConcat(fixed, Map(blocks, StoredBlock(m)), CoveringBlock(ordinal));
    LocateFive(fixed, CoveringBlock(ordinal));
    LocateBlock(blocks, m, ordinal);
  }

  lemma MessageServed<T(!new)>(graph: Graph, m: Messages, layout: Layout, wire: Wire, wanted: Wanted, i: nat, t: T,
                         bytes: Bytes, read: Bytes -> Option<T>)
    requires Lawful(wire) && Sound(layout) && IsEncoding(StoredSections(graph, m, wire), layout, wire)
    requires LocateStored(StoredSections(graph, m, wire), wanted) == Some(i)
    requires var s := StoredSections(graph, m, wire)[i]; Decompress(s.bytes, s.compression, wire) == Ok(bytes)
    requires read(bytes) == Some(t)
    ensures ReadMessage(layout, wanted, read, wire) == Ok(t)
  {
    hide Lawful, IsEncoding, StoredSections, Sound, ReadSection;
    SectionServed(StoredSections(graph, m, wire), layout, wire, wanted);
  }

  lemma FixedServed(graph: Graph, m: Messages, layout: Layout, wire: Wire)
    requires Lawful(wire) && LawfulMessages(m) && Sound(layout)
    requires IsEncoding(StoredSections(graph, m, wire), layout, wire)
    ensures ReadMessage(layout, OfKind(SymbolDictionary), m.readDictionary, wire) == Ok(Dictionary(graph))
    ensures ReadMessage(layout, OfKind(SymbolPostings), m.readPostings, wire) ==
      Ok(SymbolPostingsFrom(graph.snapshots, 0, 0))
    ensures ReadMessage(layout, OfKind(HierarchyPostings), m.readHierarchy, wire) == Ok(Postings(graph))
    ensures ReadMessage(layout, OfKind(QualifiedSymbolDirectory), m.readDirectory, wire) == Ok(Directory(graph))
    ensures ReadMessage(layout, OfKind(GraphFacts), m.readGraph, wire) == Ok(graph)
  {
    hide IsEncoding, Sound, ReadMessage, Dictionary, Postings, Directory, BlocksFrom, SymbolPostingsFrom;
    FixedFound(graph, m, wire, SymbolDictionary);
    MessageServed(graph, m, layout, wire, OfKind(SymbolDictionary), 0, Dictionary(graph),
                  m.dictionary(Dictionary(graph)),
                  m.readDictionary);
    FixedFound(graph, m, wire, SymbolPostings);
    MessageServed(graph, m, layout, wire, OfKind(SymbolPostings), 1, SymbolPostingsFrom(graph.snapshots, 0, 0),
                  m.postings(SymbolPostingsFrom(graph.snapshots, 0, 0)), m.readPostings);
    FixedFound(graph, m, wire, HierarchyPostings);
    MessageServed(graph, m, layout, wire, OfKind(HierarchyPostings), 2, Postings(graph), m.hierarchy(Postings(graph)),
                  m.readHierarchy);
    FixedFound(graph, m, wire, QualifiedSymbolDirectory);
    MessageServed(graph, m, layout, wire, OfKind(QualifiedSymbolDirectory), 3, Directory(graph),
                  m.directory(Directory(graph)), m.readDirectory);
    FixedFound(graph, m, wire, GraphFacts);
    MessageServed(graph, m, layout, wire, OfKind(GraphFacts), 4, graph, m.graph(graph), m.readGraph);
  }

  lemma BlockServed(graph: Graph, m: Messages, layout: Layout, wire: Wire, ordinal: int)
    requires Lawful(wire) && LawfulMessages(m) && Sound(layout)
    requires IsEncoding(StoredSections(graph, m, wire), layout, wire)
    ensures ReadBlock(layout, ordinal, m, wire) == BlockAt(graph, ordinal)
    ensures BlockStart(layout, ordinal) == StartAt(graph, ordinal)
  {
    hide Lawful, IsEncoding, Sound, StoredSections, BlocksFrom, FindBlock, ReadSection, SectionBytes;
    if ordinal >= 0 {
      var all := StoredSections(graph, m, wire);
      DetailFound(graph, m, wire, ordinal);
      SectionServed(all, layout, wire, CoveringBlock(ordinal));
      var found := LocateStored(all, CoveringBlock(ordinal));
      LineFound(all, layout, wire, CoveringBlock(ordinal));
      if found.Some? {
        var b := FindBlock(BlocksFrom(graph.snapshots, 0), ordinal).value;
        assert m.readBlock(m.block(b)) == Some(b);
      } else {
        NothingRead(layout, wire, CoveringBlock(ordinal));
      }
    }
  }

  lemma NothingRead(layout: Layout, wire: Wire, wanted: Wanted)
    requires Sound(layout) && SectionBytes(layout, wanted, wire) == Err(MissingSection)
    ensures ReadSection(layout, wanted, wire) == Err(MissingSection)
  {
  }

  lemma LineFound(stored: seq<Stored>, layout: Layout, wire: Wire, wanted: Wanted)
    requires Lawful(wire) && IsEncoding(stored, layout, wire)
    ensures Locate(layout.toc.sections, wanted) == LocateStored(stored, wanted)
    ensures var i := LocateStored(stored, wanted);
      i.Some? ==> i.value < |layout.toc.sections| && layout.toc.sections[i.value].first == stored[i.value].first
  {
    LocatePlaced(stored, HEADER_SIZE + TocLength(layout.toc), wire, wanted);
    var i := LocateStored(stored, wanted);
    if i.Some? {
      EncodingPlaces(stored, layout, wire, i.value);
    }
  }

  /** Opening a written blob's bytes serves every projection of the artifact, and the detail block of every ordinal. */
  lemma OpenServes(graph: Graph, m: Messages, layout: Layout, wire: Wire)
    requires Lawful(wire) && LawfulMessages(m) && |layout.bytes| < U64_LIMIT
    requires IsEncoding(StoredSections(graph, m, wire), layout, wire)
    ensures Validated(layout.bytes, wire) == Ok(layout) && Sound(layout)
    ensures Serves(Open(layout, m, wire), graph) && Open(layout, m, wire).hierarchy == Ok(Postings(graph))
    ensures ReadSymbolPostings(layout, m, wire) == Ok(SymbolPostingsFrom(graph.snapshots, 0, 0))
  {
    hide Lawful, LawfulMessages, IsEncoding, Sound, StoredSections, SymbolPostingsFrom, ReadMessage, ReadBlock,
         BlockStart, BlockAt,
         StartAt, Dictionary, Postings, Directory, Validated;
    EncodingValidates(StoredSections(graph, m, wire), layout, wire);
    FixedServed(graph, m, layout, wire);
    forall o: int
      ensures ReadBlock(layout, o, m, wire) == BlockAt(graph, o) && BlockStart(layout, o) == StartAt(graph, o)
    {
      BlockServed(graph, m, layout, wire, o);
    }
  }

  /** End to end: over a written blob, the indexed query for direct implementations returns the same symbols as decoding
      the whole graph out of the same blob exactly when what the details give of the symbols that the postings name is
      what decoded edges declare: with unique ids, when postings and edges agree and those symbols' details give all of
      them. Postings and edges agree for every type when edge ends are inline and ids unique. */
  lemma BlobAnswers(graph: Graph, snapshots: seq<Snapshot>, m: Messages, layout: Layout, wire: Wire, supertype: string)
    requires Lawful(wire) && LawfulMessages(m) && |layout.bytes| < U64_LIMIT
    requires IsEncoding(StoredSections(graph, m, wire), layout, wire)
    requires Readable(graph, snapshots)
    ensures Sound(layout)
    ensures var sections := Open(layout, m, wire);
      SameSet(Implementations(sections, supertype), Fallback(sections, supertype)) <==>
      AnswersAgree(graph, snapshots, supertype)
    ensures UniqueIds(Symbols(snapshots)) ==>
      (AnswersAgree(graph, snapshots, supertype) <==>
       EndsAgree(graph, snapshots, supertype) && SubtypesDetached(graph, snapshots, supertype))
    ensures AllDetached(graph) ==>
      (AnswersAgree(graph, snapshots, supertype) <==> EndsAgree(graph, snapshots, supertype))
    ensures InlineEdges(graph) && UniqueIds(Symbols(snapshots)) ==> EndsAgree(graph, snapshots, supertype)
  {
    hide Lawful, LawfulMessages, IsEncoding, Sound, StoredSections, Serves, Open, Readable, AllDetached, InlineEdges,
         UniqueIds, Symbols, Postings, IndexedPath, Fallback, SameSet, EndsAgree, AnswersAgree, SubtypesDetached;
    OpenServes(graph, m, layout, wire);
    PathsAgreeExactly(Open(layout, m, wire), graph, snapshots, supertype);
    DecodesAsRead(graph, snapshots);
    if UniqueIds(Symbols(snapshots)) {
      UniqueAgreeExactly(graph, snapshots, supertype);
    }
    if AllDetached(graph) {
      DetachedAgreeExactly(graph, snapshots, supertype);
    }
    if InlineEdges(graph) && UniqueIds(Symbols(snapshots)) {
      InlineEndsAgree(graph, snapshots, supertype);
    }
  }
}
