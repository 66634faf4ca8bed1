/** Direct implementations from a dependency blob: the indexed path against the decoded graph. */
module ArtifactImplementations {
  import opened Prelude
  import opened Ordering
  import opened Canonical
  import opened WorkerProto
  import opened ArtifactProto
  import opened GraphCodec
  import opened SymbolDetail
  import opened DetailBlocks
  import opened SnapshotTransport
  import opened ArtifactQuery
  import opened ArtifactAnswers
  import BlobLayout

  // Grouping by block.

  function Ordinals(group: (int, seq<int>)): seq<int> {
    group.1
  }

  function Flatten(groups: Groups): seq<int> {
    FlatMap(groups, Ordinals)
  }

  /** Groups lie in order of their blocks, and a group's ordinals all lie in its block. */
  predicate InBlockOrder(groups: Groups, graph: Graph) {
    && (forall i, j :: 0 <= i < j < |groups| ==> groups[i].0 < groups[j].0)
    && (forall i :: 0 <= i < |groups| ==> OneBlock(groups[i], graph))
  }

  predicate OneBlock(group: (int, seq<int>), graph: Graph) {
    && group.1 != []
    && (forall i :: 0 <= i < |group.1| ==> StartAt(graph, group.1[i]) == Ok(group.0))
  }

  predicate UpTo(groups: Groups, start: int) {
    && (forall i, j :: 0 <= i < j < |groups| ==> groups[i].0 < groups[j].0)
    && (forall i :: 0 <= i < |groups| ==> groups[i].0 <= start)
  }

  function Appended(groups: Groups, start: int, ordinal: int): Groups {
    if groups != [] && groups[|groups| - 1].0 == start
    then groups[..|groups| - 1] + [(start, groups[|groups| - 1].1 + [ordinal])]
    else groups + [(start, [ordinal])]
  }

  predicate EndsAt(groups: Groups, start: int) {
    groups != [] && groups[|groups| - 1].0 == start
  }

  lemma {:induction false} PutLast(groups: Groups, start: int, v: seq<int>)
    requires UpTo(groups, start)
    ensures Put(groups, IntLe, start, v) ==
      (if EndsAt(groups, start) then groups[..|groups| - 1] else groups) + [(start, v)]
  {
    if |groups| > 1 {
      assert groups[0].0 < groups[1].0;
      var rest := groups[1..];
      PutLast(rest, start, v);
      assert Put(groups, IntLe, start, v) == [groups[0]] + Put(rest, IntLe, start, v);
      assert EndsAt(rest, start) <==> EndsAt(groups, start);
      assert [groups[0]] + rest == groups && [groups[0]] + rest[..|rest| - 1] == groups[..|groups| - 1];
      Reassociate([groups[0]], if EndsAt(rest, start) then rest[..|rest| - 1] else rest, [(start, v)]);
    } else if |groups| == 1 {
      assert groups[..0] == [] && groups[1..] == [] && groups == [groups[0]];
    }
  }

  lemma {:induction false} GetLast(groups: Groups, start: int)
    requires UpTo(groups, start)
    ensures Get(groups, start) == if EndsAt(groups, start) then Some(groups[|groups| - 1].1) else None
  {
    if |groups| > 1 {
      assert groups[0].0 < groups[1].0;
      GetLast(groups[1..], start);
    } else if |groups| == 1 {
      assert groups[1..] == [];
    }
  }

  /** An ordinal of the last block joins the last group, and one of a later block opens a group behind it. */
  lemma JoinAppends(groups: Groups, start: int, ordinal: int)
    requires UpTo(groups, start)
    ensures Join(groups, start, ordinal) == Appended(groups, start, ordinal)
  {
    hide UpTo, Put, Get, Keys;
    PutLast(groups, start, (if Get(groups, start).Some? then Get(groups, start).value else []) + [ordinal]);
    GetLast(groups, start);
    assert [] + [ordinal] == [ordinal];
  }

  lemma AppendedFlat(groups: Groups, start: int, ordinal: int)
    ensures Flatten(Appended(groups, start, ordinal)) == Flatten(groups) + [ordinal]
  {
    if groups != [] && groups[|groups| - 1].0 == start {
      var init, last := groups[..|groups| - 1], groups[|groups| - 1];
      assert groups == init + [last];
      FlatMapSnoc(init, last, Ordinals);
      FlatMapSnoc(init, (start, last.1 + [ordinal]), Ordinals);
    } else {
      FlatMapSnoc(groups, (start, [ordinal]), Ordinals);
    }
  }

  lemma AppendedSorted(groups: Groups, graph: Graph, start: int, ordinal: int)
    requires InBlockOrder(groups, graph) && UpTo(groups, start) && StartAt(graph, ordinal) == Ok(start)
    ensures InBlockOrder(Appended(groups, start, ordinal), graph) && UpTo(Appended(groups, start, ordinal), start)
  {
    hide StartAt;
    var r := Appended(groups, start, ordinal);
    forall i | 0 <= i < |r| ensures OneBlock(r[i], graph) {
      if i < |groups| { assert OneBlock(groups[i], graph); }
    }
  }

  predicate Rising(ordinals: seq<int>) {
    forall i, j :: 0 <= i < j < |ordinals| ==> ordinals[i] < ordinals[j]
  }

  predicate InRange(ordinals: seq<int>, graph: Graph) {
    forall i :: 0 <= i < |ordinals| ==> 0 <= ordinals[i] < |AllSymbols(graph.snapshots)|
  }

  lemma StartsMonotone(graph: Graph, low: int, high: int)
    requires 0 <= low <= high < |AllSymbols(graph.snapshots)|
    ensures StartAt(graph, low).Ok? && StartAt(graph, high).Ok?
    ensures StartAt(graph, low).value <= StartAt(graph, high).value
    ensures StartAt(graph, low) == StartAt(graph, high) ==> BlockAt(graph, low) == BlockAt(graph, high)
  {
    hide BlockOf, BlocksFrom, AllSymbols;
    var blocks := BlocksFrom(graph.snapshots, 0);
    BlocksTile(graph.snapshots, 0);
    var n, k, chunk, first := FoundBlock(graph.snapshots, 0, low);
    n, k, chunk, first := FoundBlock(graph.snapshots, 0, high);
    FindMonotone(blocks, 0, |AllSymbols(graph.snapshots)|, low, high);
  }

  /** Grouping rising ordinals loses none and keeps their order. */
  lemma {:induction false} GroupedFlat(sections: Sections, graph: Graph, groups: Groups, ordinals: seq<int>)
    requires Serves(sections, graph) && InBlockOrder(groups, graph) && Rising(ordinals) && InRange(ordinals, graph)
    requires ordinals != [] ==> StartAt(graph, ordinals[0]).Ok? && UpTo(groups, StartAt(graph, ordinals[0]).value)
    ensures var r := Grouped(sections, groups, ordinals);
      r.Ok? && InBlockOrder(r.value, graph) && Flatten(r.value) == Flatten(groups) + ordinals
    decreases |ordinals|
  {
    hide Serves, InBlockOrder, StartAt, UpTo, Flatten, AllSymbols, Appended, Rising, InRange;
    if ordinals == [] {
      assert Flatten(groups) + ordinals == Flatten(groups);
    } else {
      hide Grouped;
      var start, rest := StartAt(graph, ordinals[0]).value, ordinals[1..];
      RestRises(ordinals, graph);
      GroupedStep(sections, graph, groups, ordinals);
      AppendedFlat(groups, start, ordinals[0]);
      AppendedSorted(groups, graph, start, ordinals[0]);
      if rest != [] {
        StartsMonotone(graph, ordinals[0], rest[0]);
        UpToLater(Appended(groups, start, ordinals[0]), start, StartAt(graph, rest[0]).value);
      }
      GroupedFlat(sections, graph, Appended(groups, start, ordinals[0]), rest);
      HeadMoves(Flatten(groups), ordinals);
    }
  }

  lemma HeadMoves<T>(done: seq<T>, rest: seq<T>)
    requires rest != []
    ensures done + [rest[0]] + rest[1..] == done + rest
  {
  }

  lemma GroupedStep(sections: Sections, graph: Graph, groups: Groups, ordinals: seq<int>)
    requires Serves(sections, graph) && ordinals != [] && StartAt(graph, ordinals[0]).Ok?
    requires UpTo(groups, StartAt(graph, ordinals[0]).value)
    ensures Grouped(sections, groups, ordinals) ==
      Grouped(sections, Appended(groups, StartAt(graph, ordinals[0]).value, ordinals[0]), ordinals[1..])
  {
    hide Serves, StartAt, UpTo, Join, Appended;
    StartServed(sections, graph, ordinals[0]);
    JoinAppends(groups, StartAt(graph, ordinals[0]).value, ordinals[0]);
  }

  lemma RestRises(ordinals: seq<int>, graph: Graph)
    requires ordinals != [] && Rising(ordinals) && InRange(ordinals, graph)
    ensures Rising(ordinals[1..]) && InRange(ordinals[1..], graph)
    ensures 0 <= ordinals[0] < |AllSymbols(graph.snapshots)|
    ensures |ordinals| > 1 ==> ordinals[0] <= ordinals[1] < |AllSymbols(graph.snapshots)|
  {
    hide AllSymbols;
  }

  lemma UpToLater(groups: Groups, start: int, later: int)
    requires UpTo(groups, start) && start <= later
    ensures UpTo(groups, later)
  {
  }

  lemma StartServed(sections: Sections, graph: Graph, ordinal: int)
    requires Serves(sections, graph)
    ensures sections.blockStart(ordinal) == StartAt(graph, ordinal) &&
      sections.block(ordinal) == BlockAt(graph, ordinal)
  {
    hide StartAt, BlockAt;
  }

  // Decoding the groups.

  lemma DecodeAllExactly(sections: Sections, graph: Graph, group: (int, seq<int>), t: seq<SymbolRecord>)
    requires Serves(sections, graph) && OneBlock(group, graph) && InRange(group.1, graph)
    requires |t| == |group.1| && forall i :: 0 <= i < |t| ==> SymbolAt(sections, group.1[i]) == Ok(t[i])
    ensures sections.block(group.1[0]).Ok?
    ensures DecodeAll(sections.block(group.1[0]).value, group.1) == Ok(t)
  {
    hide Serves, Decode, AllSymbols, BlockAt, StartAt;
    StartServed(sections, graph, group.1[0]);
    assert SymbolAt(sections, group.1[0]) == Ok(t[0]);
    var block := sections.block(group.1[0]).value;
    forall i | 0 <= i < |t| ensures Decode(block, group.1[i]) == Ok(t[i]) {
      assert SymbolAt(sections, group.1[i]) == Ok(t[i]);
      StartServed(sections, graph, group.1[i]);
      SameStart(graph, group.1[0], group.1[i]);
    }
    TryMapExactly(group.1, (o: int) => Decode(block, o), t);
  }

  lemma SameStart(graph: Graph, a: int, b: int)
    requires 0 <= a < |AllSymbols(graph.snapshots)| && 0 <= b < |AllSymbols(graph.snapshots)|
    requires StartAt(graph, a) == StartAt(graph, b)
    ensures BlockAt(graph, a) == BlockAt(graph, b)
  {
    hide StartAt, BlockAt;
    if a <= b { StartsMonotone(graph, a, b); } else { StartsMonotone(graph, b, a); }
  }

  /** Reading the groups block by block gives the symbols of all their ordinals in order. */
  lemma {:induction false} GroupsDecode(sections: Sections, graph: Graph, groups: Groups, t: seq<SymbolRecord>)
    requires Serves(sections, graph) && InBlockOrder(groups, graph) && InRange(Flatten(groups), graph)
    requires |t| == |Flatten(groups)|
    requires forall i :: 0 <= i < |t| ==> SymbolAt(sections, Flatten(groups)[i]) == Ok(t[i])
    ensures DecodeGroups(sections, groups) == Ok(t)
  {
    hide Serves, AllSymbols, SymbolAt, DecodeAll, StartAt;
    if groups != [] {
      var own, later := groups[0].1, Flatten(groups[1..]);
      assert Flatten(groups) == own + later;
      assert OneBlock(groups[0], graph);
      forall i | 0 <= i < |own| ensures own[i] == Flatten(groups)[i] {}
      forall i | 0 <= i < |later| ensures later[i] == Flatten(groups)[|own| + i] {}
      forall i | 0 <= i < |t[|own|..]| ensures SymbolAt(sections, later[i]) == Ok(t[|own|..][i]) {
        assert later[i] == Flatten(groups)[|own| + i];
      }
      DecodeAllExactly(sections, graph, groups[0], t[..|own|]);
      GroupsDecode(sections, graph, groups[1..], t[|own|..]);
      assert t == t[..|own|] + t[|own|..];
    }
  }

  // The indexed answer.

  predicate IdIn(s: SymbolRecord, ids: set<string>) {
    s.id in ids
  }

  function Chosen(ids: set<string>): SymbolRecord -> bool {
    (s: SymbolRecord) => IdIn(s, ids)
  }

  predicate DecodesTo(sections: Sections, ordinals: seq<int>, t: seq<SymbolRecord>) {
    && |ordinals| == |t|
    && (forall i :: 0 <= i < |t| ==> SymbolAt(sections, ordinals[i]) == Ok(t[i]))
  }

  predicate Between(ordinals: seq<int>, low: int, high: int) {
    && Rising(ordinals)
    && (forall i :: 0 <= i < |ordinals| ==> low <= ordinals[i] < high)
  }

  lemma {:induction false} MatchingDecodes(sections: Sections, symbols: seq<GraphSymbol>, decoded: seq<SymbolRecord>,
                                           entries: seq<DictionaryEntry>, ids: set<string>, at: nat)
    requires DecodedAll(sections, symbols, decoded) && at <= |symbols| == |entries|
    requires forall i :: 0 <= i < |symbols| ==> entries[i].id == symbols[i].id
    ensures var ordinals := Matching(entries[at..], ids, at);
      DecodesTo(sections, ordinals, Filter(decoded[at..], Chosen(ids))) && Between(ordinals, at, |symbols|)
    decreases |symbols| - at
  {
    hide SymbolAt, Between, DecodesTo;
    if at == |symbols| {
      NothingMatches(sections, at);
    } else {
      MatchingDecodes(sections, symbols, decoded, entries, ids, at + 1);
      assert entries[at..][1..] == entries[at + 1..] && decoded[at..][1..] == decoded[at + 1..];
      assert SymbolAt(sections, at) == Ok(decoded[at]);
      var rest, later := Matching(entries[at + 1..], ids, at + 1), Filter(decoded[at + 1..], Chosen(ids));
      OneMore(sections, at, |symbols|, rest, decoded[at], later);
      if entries[at].id in ids {
        assert Matching(entries[at..], ids, at) == [at] + rest;
      } else {
        assert Matching(entries[at..], ids, at) == rest;
      }
    }
  }

  lemma NothingMatches(sections: Sections, at: nat)
    ensures DecodesTo(sections, [], []) && Between([], at, at)
  {
  }

  lemma OneMore(sections: Sections, at: nat, high: nat, ordinals: seq<int>, s: SymbolRecord, t: seq<SymbolRecord>)
    requires at < high && DecodesTo(sections, ordinals, t) && Between(ordinals, at + 1, high)
    requires SymbolAt(sections, at) == Ok(s)
    ensures DecodesTo(sections, [at] + ordinals, [s] + t)
    ensures Between([at] + ordinals, at, high) && Between(ordinals, at, high)
  {
    hide SymbolAt;
    forall i | 0 <= i < |[s] + t| ensures SymbolAt(sections, ([at] + ordinals)[i]) == Ok(([s] + t)[i]) {
      if i > 0 {
        assert SymbolAt(sections, ordinals[i - 1]) == Ok(t[i - 1]);
      }
    }
  }

  lemma DictionaryIds(graph: Graph)
    ensures var all := AllSymbols(graph.snapshots);
      |Dictionary(graph)| == |all| && forall i :: 0 <= i < |all| ==> Dictionary(graph)[i].id == all[i].id
  {
    MapAt(AllSymbols(graph.snapshots), (s: GraphSymbol) => DictionaryEntry(s.id, s.name));
  }

  lemma {:induction false} NoneChosen(symbols: seq<SymbolRecord>)
    ensures Filter(symbols, Chosen({})) == []
  {
    if symbols != [] {
      NoneChosen(symbols[1..]);
    }
  }

  lemma Ungrouped(sections: Sections, graph: Graph, ordinals: seq<int>, t: seq<SymbolRecord>)
    requires Serves(sections, graph) && DecodesTo(sections, ordinals, t)
    requires Between(ordinals, 0, |AllSymbols(graph.snapshots)|)
    ensures var groups := Grouped(sections, [], ordinals);
      groups.Ok? && DecodeGroups(sections, groups.value) == Ok(t)
  {
    hide Serves, SymbolAt, AllSymbols, Grouped, DecodeGroups, StartAt;
    if ordinals != [] {
      StartsMonotone(graph, ordinals[0], ordinals[0]);
    }
    GroupedFlat(sections, graph, [], ordinals);
    assert Flatten([]) + ordinals == ordinals;
    GroupsDecode(sections, graph, Grouped(sections, [], ordinals).value, t);
  }

  /** The path through postings, dictionary and grouped blocks answers with what the details give of the decoded symbols
      whose ids the postings name, in declaration order. */
  lemma IndexedExactly(sections: Sections, graph: Graph, snapshots: seq<Snapshot>, supertype: string)
    requires Serves(sections, graph) && Readable(graph, snapshots)
    ensures IndexedPath(sections, Postings(graph), supertype) ==
      Ok(Filter(DetailSymbols(graph, snapshots), Chosen(SubtypesOf(Postings(graph), supertype))))
  {
    hide Serves, Readable, DetailSymbols, AllSymbols, Dictionary, Postings, Matching, Grouped, DecodeGroups, Filter,
         DecodedAll, DecodesTo, Between, SubtypesOf, Chosen;
    var ids := SubtypesOf(Postings(graph), supertype);
    var all, decoded, entries := AllSymbols(graph.snapshots), DetailSymbols(graph, snapshots), Dictionary(graph);
    if ids == {} {
      NoneChosen(decoded);
    } else {
      AllDecode(sections, graph, snapshots);
      DictionaryIds(graph);
      DirectoryServed(sections, graph);
      MatchingDecodes(sections, all, decoded, entries, ids, 0);
      assert entries[0..] == entries && decoded[0..] == decoded by { DecodedLengths(sections, all, decoded); }
      Ungrouped(sections, graph, Matching(entries, ids, 0), Filter(decoded, Chosen(ids)));
    }
  }

  lemma DecodedLengths(sections: Sections, symbols: seq<GraphSymbol>, decoded: seq<SymbolRecord>)
    requires DecodedAll(sections, symbols, decoded)
    ensures |symbols| == |decoded|
  {
    hide SymbolAt;
  }

  // The fallback's answer.

  function LocalEdge(e: GraphHierarchy, ids: seq<string>): (string, string) {
    (LocalId(e.subtype, e.subtypeOrdinal, ids), LocalId(e.supertype, e.supertypeOrdinal, ids))
  }

  lemma EdgeDecodes(e: GraphHierarchy, index: nat, ids: seq<string>, table: seq<Provenance>, r: HierarchyEdge)
    requires HierarchyReader(table)(HierarchyFromGraph(e, index, ids)) == Ok(r)
    ensures (r.subtype, r.supertype) == LocalEdge(e, ids)
  {
  }

  lemma EdgesDecoded(g: GraphSnapshot, ids: seq<string>, v: Snapshot)
    requires SnapshotReader(ids)(g) == Ok(v)
    ensures |v.hierarchy| == |g.hierarchy|
    ensures forall j :: 0 <= j < |g.hierarchy| ==>
      (v.hierarchy[j].subtype, v.hierarchy[j].supertype) == LocalEdge(g.hierarchy[j], ids)
  {
    hide ReadBack, HierarchyFromGraph, HierarchyReader;
    var p := g.provenance.value;
    var w := FromGraph(g, p, ids);
    ReadBackParts(w, v);
    MapAt(g.hierarchy, (e: GraphHierarchy) => HierarchyFromGraph(e, p, ids));
    TryMapExactly(w.hierarchy, HierarchyReader(w.provenances), v.hierarchy);
    forall j | 0 <= j < |g.hierarchy|
      ensures (v.hierarchy[j].subtype, v.hierarchy[j].supertype) == LocalEdge(g.hierarchy[j], ids)
    {
      assert HierarchyReader(w.provenances)(w.hierarchy[j]) == Ok(v.hierarchy[j]);
      EdgeDecodes(g.hierarchy[j], p, ids, w.provenances, v.hierarchy[j]);
    }
  }

  /** Every edge names its ends inline, or by an ordinal as well that agrees. */
  predicate InlineEdges(graph: Graph) {
    forall n, j :: 0 <= n < |graph.snapshots| && 0 <= j < |graph.snapshots[n].hierarchy| ==>
      var e := graph.snapshots[n].hierarchy[j];
      LocalEdge(e, LocalIds(graph)) == (e.subtype, e.supertype)
  }

  predicate PostsAt(graph: Graph, n: int, j: int, supertype: string, id: string) {
    && 0 <= n < |graph.snapshots| && 0 <= j < |graph.snapshots[n].hierarchy|
    && graph.snapshots[n].hierarchy[j].supertype == supertype && graph.snapshots[n].hierarchy[j].subtype == id
  }

  predicate DeclaresAt(snapshots: seq<Snapshot>, n: int, j: int, supertype: string, id: string) {
    && 0 <= n < |snapshots| && 0 <= j < |snapshots[n].hierarchy|
    && snapshots[n].hierarchy[j].supertype == supertype && snapshots[n].hierarchy[j].subtype == id
  }

  /** The subtypes that decoded edges declare of a type. */
  ghost predicate DeclaresSubtype(snapshots: seq<Snapshot>, supertype: string, id: string) {
    exists n, j :: DeclaresAt(snapshots, n, j, supertype, id)
  }

  lemma PostingMember(graph: Graph, supertype: string, id: string)
    ensures id in SubtypesOf(Postings(graph), supertype) <==>
      exists n, j :: PostsAt(graph, n, j, supertype, id)
  {
    var edges := FlatMap(graph.snapshots, HierarchyOf);
    var post := (e: GraphHierarchy) => HierarchyPosting(e.subtype, e.supertype, e.precision);
    if id in SubtypesOf(Postings(graph), supertype) {
      var p :| p in Postings(graph) && p.supertype == supertype && p.subtype == id;
      MapMember(edges, post, p);
      var i :| 0 <= i < |edges| && post(edges[i]) == p;
      FlatMapMember(graph.snapshots, HierarchyOf, edges[i]);
      var n :| 0 <= n < |graph.snapshots| && edges[i] in HierarchyOf(graph.snapshots[n]);
      var j :| 0 <= j < |graph.snapshots[n].hierarchy| && graph.snapshots[n].hierarchy[j] == edges[i];
      assert PostsAt(graph, n, j, supertype, id);
    }
    if n, j :| PostsAt(graph, n, j, supertype, id) {
      var e := graph.snapshots[n].hierarchy[j];
      FlatMapMember(graph.snapshots, HierarchyOf, e);
      assert e in HierarchyOf(graph.snapshots[n]);
      MapMember(edges, post, post(e));
      var i :| 0 <= i < |edges| && edges[i] == e;
      assert post(edges[i]) == post(e);
    }
  }

  /** With inline edges the postings name the very subtypes that the decoded edges declare. */
  lemma PostingsAreEdges(graph: Graph, snapshots: seq<Snapshot>, supertype: string, id: string)
    requires DecodeGraph(graph) == Ok(snapshots) && InlineEdges(graph)
    ensures id in SubtypesOf(Postings(graph), supertype) <==> DeclaresSubtype(snapshots, supertype, id)
  {
    hide SnapshotReader, LocalIds, LocalEdge, DecodeGraph, Postings, SubtypesOf;
    PostingMember(graph, supertype, id);
    var ids := LocalIds(graph);
    if n, j :| PostsAt(graph, n, j, supertype, id) {
      SnapshotsDecoded(graph, snapshots, n);
      EdgesDecoded(graph.snapshots[n], ids, snapshots[n]);
      assert (snapshots[n].hierarchy[j].subtype, snapshots[n].hierarchy[j].supertype) == (id, supertype);
      assert DeclaresAt(snapshots, n, j, supertype, id);
    }
    DecodedCount(graph, snapshots);
    if n, j :| DeclaresAt(snapshots, n, j, supertype, id) {
      SnapshotsDecoded(graph, snapshots, n);
      EdgesDecoded(graph.snapshots[n], ids, snapshots[n]);
      var e := graph.snapshots[n].hierarchy[j];
      assert LocalEdge(e, ids) == (id, supertype);
      assert PostsAt(graph, n, j, supertype, id);
    }
  }

  lemma DecodedCount(graph: Graph, snapshots: seq<Snapshot>)
    requires DecodeGraph(graph) == Ok(snapshots)
    ensures |graph.snapshots| == |snapshots|
  {
    hide SnapshotReader, LocalIds;
    TryMapExactly(graph.snapshots, SnapshotReader(LocalIds(graph)), snapshots);
  }

  predicate UniqueIds(symbols: seq<SymbolRecord>) {
    forall i, j :: 0 <= i < j < |symbols| ==> symbols[i].id != symbols[j].id
  }

  lemma {:induction false} LastNamedIs(symbols: seq<SymbolRecord>, id: string)
    ensures var found := LastNamed(symbols, id);
      if found.Some? then found.value in symbols && found.value.id == id else forall s :: s in symbols ==> s.id != id
  {
    if symbols != [] {
      var init, last := symbols[..|symbols| - 1], symbols[|symbols| - 1];
      LastNamedIs(init, id);
      assert symbols == init + [last];
    }
  }

  lemma {:induction false} LastNamedExactly(symbols: seq<SymbolRecord>, id: string, s: SymbolRecord)
    requires UniqueIds(symbols)
    ensures LastNamed(symbols, id) == Some(s) <==> s in symbols && s.id == id
  {
    if symbols != [] {
      var init, last := symbols[..|symbols| - 1], symbols[|symbols| - 1];
      LastNamedExactly(init, id, s);
      assert symbols == init + [last];
    }
  }

  function Implementer(symbols: seq<SymbolRecord>, supertype: string): HierarchyEdge -> Option<SymbolRecord> {
    (e: HierarchyEdge) => if e.supertype == supertype then LastNamed(symbols, e.subtype) else None
  }

  /** A symbol the fallback answers: some decoded edge declares its id a subtype, and of the symbols that share the id
      it is the last. */
  ghost predicate Implements(snapshots: seq<Snapshot>, supertype: string, s: SymbolRecord) {
    DeclaresSubtype(snapshots, supertype, s.id) && LastNamed(Symbols(snapshots), s.id) == Some(s)
  }

  lemma FallbackMember(snapshots: seq<Snapshot>, supertype: string, s: SymbolRecord)
    ensures s in FilterMap(FlatMap(snapshots, EdgesIn), Implementer(Symbols(snapshots), supertype)) <==>
      Implements(snapshots, supertype, s)
  {
    hide Symbols;
    var symbols := Symbols(snapshots);
    var edges, f := FlatMap(snapshots, EdgesIn), Implementer(symbols, supertype);
    FilterMapMember(edges, f, s);
    if i :| 0 <= i < |edges| && f(edges[i]) == Some(s) {
      LastNamedIs(symbols, edges[i].subtype);
      FlatMapMember(snapshots, EdgesIn, edges[i]);
      var n :| 0 <= n < |snapshots| && edges[i] in EdgesIn(snapshots[n]);
      var j :| 0 <= j < |snapshots[n].hierarchy| && snapshots[n].hierarchy[j] == edges[i];
      assert DeclaresAt(snapshots, n, j, supertype, s.id);
    }
    if Implements(snapshots, supertype, s) {
      var n, j :| DeclaresAt(snapshots, n, j, supertype, s.id);
      var e := snapshots[n].hierarchy[j];
      assert e in EdgesIn(snapshots[n]);
      FlatMapMember(snapshots, EdgesIn, e);
      var i :| 0 <= i < |edges| && edges[i] == e;
      assert f(edges[i]) == Some(s);
    }
  }

  // The agreement.

  ghost predicate SameSet(a: Queried<seq<SymbolRecord>>, b: Queried<seq<SymbolRecord>>) {
    a.Ok? && b.Ok? && forall s :: s in a.value <==> s in b.value
  }

  lemma FallbackIs(sections: Sections, graph: Graph, snapshots: seq<Snapshot>, supertype: string)
    requires Serves(sections, graph) && DecodeGraph(graph) == Ok(snapshots)
    ensures Fallback(sections, supertype) ==
      Ok(FilterMap(FlatMap(snapshots, EdgesIn), Implementer(Symbols(snapshots), supertype)))
  {
    hide Serves, DecodeGraph;
    DirectoryServed(sections, graph);
  }

  /** For each decoded symbol, the postings name it a subtype exactly when the fallback would answer it. */
  ghost predicate EndsAgree(graph: Graph, snapshots: seq<Snapshot>, supertype: string) {
    forall s :: s in Symbols(snapshots) ==>
      (s.id in SubtypesOf(Postings(graph), supertype) <==> Implements(snapshots, supertype, s))
  }

  /** What the details give of the symbols that the postings name is what the fallback would answer. */
  ghost predicate AnswersAgree(graph: Graph, snapshots: seq<Snapshot>, supertype: string) {
    forall s :: s in DetailSymbols(graph, snapshots) && s.id in SubtypesOf(Postings(graph), supertype) <==>
      Implements(snapshots, supertype, s)
  }

  lemma PathsAgreeExactly(sections: Sections, graph: Graph, snapshots: seq<Snapshot>, supertype: string)
    requires Serves(sections, graph) && Readable(graph, snapshots)
    ensures SameSet(IndexedPath(sections, Postings(graph), supertype), Fallback(sections, supertype)) <==>
      AnswersAgree(graph, snapshots, supertype)
  {
    hide Serves, Readable, Symbols, Postings, IndexedPath, Fallback, DeclaresSubtype, SubtypesOf, FilterMap, Filter,
         FlatMap, Implementer, EdgesIn, Implements, DetailSymbols;
    DecodesAsRead(graph, snapshots);
    IndexedExactly(sections, graph, snapshots, supertype);
    FallbackIs(sections, graph, snapshots, supertype);
    var ids := SubtypesOf(Postings(graph), supertype);
    forall s: SymbolRecord
      ensures s in IndexedPath(sections, Postings(graph), supertype).value <==>
        s in DetailSymbols(graph, snapshots) && s.id in ids
      ensures s in Fallback(sections, supertype).value <==> Implements(snapshots, supertype, s)
    {
      FilterMember(DetailSymbols(graph, snapshots), Chosen(ids), s);
      FallbackMember(snapshots, supertype, s);
    }
  }

  /** Each decoded symbol that the postings name has a detail that gives all of it. */
  predicate SubtypesDetached(graph: Graph, snapshots: seq<Snapshot>, supertype: string) {
    var details, symbols := DetailSymbols(graph, snapshots), Symbols(snapshots);
    && |details| == |symbols|
    && forall i :: 0 <= i < |symbols| && symbols[i].id in SubtypesOf(Postings(graph), supertype) ==>
         details[i] == symbols[i]
  }

  lemma SameIds(graph: Graph, snapshots: seq<Snapshot>)
    requires DecodeGraph(graph) == Ok(snapshots)
    ensures var details, symbols := DetailSymbols(graph, snapshots), Symbols(snapshots);
      |details| == |symbols| && forall i :: 0 <= i < |symbols| ==> details[i].id == symbols[i].id
  {
    hide DecodeGraph, DetailSymbols, Symbols, FromDetail;
    SameCounts(graph, snapshots);
    SymbolCounts(graph, snapshots);
    var details, symbols := DetailSymbols(graph, snapshots), Symbols(snapshots);
    forall i: nat | i < |symbols| ensures details[i].id == symbols[i].id {
      var n, k := PlaceOf(graph.snapshots, i);
      DetailPlace(graph, snapshots, n, k);
      SamePlace(graph, snapshots, n, k);
    }
  }

  /** When ids are unique, the two paths agree exactly when the postings name, of the decoded symbols, those that
      decoded edges declare subtypes, and each of these has a detail that gives all of it. */
  lemma UniqueAgreeExactly(graph: Graph, snapshots: seq<Snapshot>, supertype: string)
    requires DecodeGraph(graph) == Ok(snapshots) && UniqueIds(Symbols(snapshots))
    ensures AnswersAgree(graph, snapshots, supertype) <==>
      EndsAgree(graph, snapshots, supertype) && SubtypesDetached(graph, snapshots, supertype)
  {
    hide DecodeGraph, UniqueIds, Symbols, DetailSymbols, Postings, DeclaresSubtype, SubtypesOf;
    SameIds(graph, snapshots);
    var details, symbols, ids := DetailSymbols(graph, snapshots), Symbols(snapshots),
                                 SubtypesOf(Postings(graph), supertype);
    if AnswersAgree(graph, snapshots, supertype) {
      forall i: nat | i < |symbols|
        ensures symbols[i].id in ids ==> details[i] == symbols[i]
        ensures symbols[i].id in ids <==> Implements(snapshots, supertype, symbols[i])
      {
        assert details[i] in details && symbols[i] in symbols;
        LastNamedExactly(symbols, symbols[i].id, symbols[i]);
      }
    }
    if EndsAgree(graph, snapshots, supertype) && SubtypesDetached(graph, snapshots, supertype) {
      forall s | Implements(snapshots, supertype, s) ensures s in details && s.id in ids {
        ImplementsIn(snapshots, supertype, s);
        var i :| 0 <= i < |symbols| && symbols[i] == s;
        assert details[i] in details;
      }
      forall s | s in details && s.id in ids ensures Implements(snapshots, supertype, s) {
        var i :| 0 <= i < |details| && details[i] == s;
        assert symbols[i] in symbols;
      }
    }
  }

  /** When every declaration's detail gives all of it, that is exactly when postings and decoded edges agree. */
  lemma DetachedAgreeExactly(graph: Graph, snapshots: seq<Snapshot>, supertype: string)
    requires DecodeGraph(graph) == Ok(snapshots) && AllDetached(graph)
    ensures AnswersAgree(graph, snapshots, supertype) <==> EndsAgree(graph, snapshots, supertype)
  {
    hide DecodeGraph, AllDetached, Symbols, DetailSymbols, Postings, Implements, SubtypesOf;
    DetachedExactly(graph, snapshots);
    forall s ensures Implements(snapshots, supertype, s) ==> s in Symbols(snapshots) {
      ImplementsIn(snapshots, supertype, s);
    }
  }

  lemma ImplementsIn(snapshots: seq<Snapshot>, supertype: string, s: SymbolRecord)
    ensures Implements(snapshots, supertype, s) ==> s in Symbols(snapshots)
  {
    hide Symbols, DeclaresSubtype;
    LastNamedIs(Symbols(snapshots), s.id);
  }

  /** Inline ends and unique ids are enough for that, for every type. */
  lemma InlineEndsAgree(graph: Graph, snapshots: seq<Snapshot>, supertype: string)
    requires DecodeGraph(graph) == Ok(snapshots) && InlineEdges(graph) && UniqueIds(Symbols(snapshots))
    ensures EndsAgree(graph, snapshots, supertype)
  {
    hide DecodeGraph, InlineEdges, UniqueIds, Symbols, Postings, DeclaresSubtype, SubtypesOf;
    forall s | s in Symbols(snapshots)
      ensures s.id in SubtypesOf(Postings(graph), supertype) <==> Implements(snapshots, supertype, s)
    {
      PostingsAreEdges(graph, snapshots, supertype, s.id);
      LastNamedExactly(Symbols(snapshots), s.id, s);
    }
  }

  /** A graph written from canonical snapshots names every declared type by ordinal alone, so for such a type the
      indexed path answers with nothing. */
  lemma DeclaredTypesMissed(sections: Sections, snapshots: seq<Snapshot>, graph: Graph, supertype: string)
    requires EncodeGraph(snapshots) == Ok(graph) && |FlatMap(snapshots, SnapshotIds)| <= U32_LIMIT
    requires supertype in FlatMap(snapshots, SnapshotIds) && supertype != ""
    ensures IndexedPath(sections, Postings(graph), supertype) == Ok([])
  {
    hide Postings, SubtypesOf, Written;
    var ids := FlatMap(snapshots, SnapshotIds);
    OrdinalsRestore(ids);
    IdsKept(snapshots, graph);
    forall id ensures id !in SubtypesOf(Postings(graph), supertype) {
      PostingMember(graph, supertype, id);
      forall n, j | 0 <= n < |graph.snapshots| && 0 <= j < |graph.snapshots[n].hierarchy|
        ensures graph.snapshots[n].hierarchy[j].supertype != supertype
      {
        WrittenEdge(Written(snapshots[n]).value, OrdinalsOf(ids), j, supertype);
      }
    }
    assert SubtypesOf(Postings(graph), supertype) == {};
  }

  /** For a graph so written and a type it declares, the two paths agree exactly when none of the decoded symbols is
      declared a subtype of it, so that there is nothing to find. */
  lemma WrittenPathsAgreeExactly(sections: Sections, snapshots: seq<Snapshot>, graph: Graph, decoded: seq<Snapshot>,
                                 supertype: string)
    requires EncodeGraph(snapshots) == Ok(graph) && |FlatMap(snapshots, SnapshotIds)| <= U32_LIMIT
    requires supertype in FlatMap(snapshots, SnapshotIds) && supertype != ""
    requires Serves(sections, graph) && DecodeGraph(graph) == Ok(decoded)
    ensures SameSet(IndexedPath(sections, Postings(graph), supertype), Fallback(sections, supertype)) <==>
      forall s :: s in Symbols(decoded) ==> !DeclaresSubtype(decoded, supertype, s.id)
  {
    hide Serves, EncodeGraph, DecodeGraph, Symbols, Postings, IndexedPath, Fallback, DeclaresSubtype, FilterMap,
         FlatMap, Implementer, EdgesIn;
    DeclaredTypesMissed(sections, snapshots, graph, supertype);
    FallbackIs(sections, graph, decoded, supertype);
    forall s: SymbolRecord ensures s in Fallback(sections, supertype).value <==> Implements(decoded, supertype, s) {
      FallbackMember(decoded, supertype, s);
    }
    if s :| s in Symbols(decoded) && DeclaresSubtype(decoded, supertype, s.id) {
      LastNamedIs(Symbols(decoded), s.id);
      var last := LastNamed(Symbols(decoded), s.id).value;
      assert Implements(decoded, supertype, last);
    }
    if s :| Implements(decoded, supertype, s) {
      ImplementsIn(decoded, supertype, s);
    }
  }

  lemma WrittenEdge(w: ProtoSnapshot, ordinals: Ordinals, j: nat, supertype: string)
    requires j < |ToGraph(w, ordinals).hierarchy| && supertype in ordinals && supertype != ""
    ensures ToGraph(w, ordinals).hierarchy[j].supertype != supertype
  {
    MapAt(w.hierarchy, (e: ProtoHierarchy) => HierarchyToGraph(e, w.provenance, ordinals));
  }

  // An artifact on which the paths differ.

  function WitnessSymbol(id: string): SymbolRecord {
    var range := SourceRange("unit", ByteRange(0, 0));
    SymbolRecord(id, BackendKey("", 0, ""), Kotlin, Class, "", None, None, "", range, range, None, [], [], Fresh,
                 Complete, Provenance("", "", 0, ""))
  }

  /** Two declarations, one of them a subtype of the other. */
  const Witness: Snapshot :=
    Snapshot(SourceUnit("unit", "", "", Kotlin, SourceCode, "", ""), None, None,
             [WitnessSymbol("base"), WitnessSymbol("derived")], [], [], [], [],
             [HierarchyEdge("derived", "base", Exact, Provenance("", "", 0, ""))], [], [], Complete,
             Provenance("", "", 0, ""))

  /** The sections that serve a graph. */
  function Served(graph: Graph): Sections {
    Sections(Ok(Dictionary(graph)), Ok(Postings(graph)), Ok(Directory(graph)), Ok(graph),
             (o: int) => BlockAt(graph, o), (o: int) => StartAt(graph, o))
  }

  lemma ServedServes(graph: Graph)
    ensures Serves(Served(graph), graph)
  {
    hide Dictionary, Postings, Directory, BlockAt, StartAt;
  }

  lemma WitnessStorable()
    ensures Anchored(Witness) && Storable(Witness) && Fits(Witness)
    ensures FlatMap([Witness], SnapshotIds) == ["base", "derived"]
    ensures Symbols([Witness]) == Witness.symbols
  {
    var symbols, id := Witness.symbols, (s: SymbolRecord) => s.id;
    assert symbols[1..] == [WitnessSymbol("derived")] && symbols[1..][1..] == [];
    assert Map(symbols[1..], id) == ["derived"] + Map(symbols[1..][1..], id);
    assert SnapshotIds(Witness) == ["base"] + Map(symbols[1..], id);
    assert [Witness][1..] == [];
    assert FlatMap([Witness], SnapshotIds) == SnapshotIds(Witness) + FlatMap([Witness][1..], SnapshotIds);
    AssignedCounts(Witness);
    assert Symbols([Witness]) == SymbolsIn(Witness) + FlatMap([Witness][1..], SymbolsIn);
  }

  /** On that artifact, written by the graph writer and served as it is stored, the indexed path finds no implementation
      of `base` and the decoded graph finds one. */
  lemma PathsDiffer() returns (graph: Graph)
    ensures EncodeGraph([Witness]) == Ok(graph) && DecodeGraph(graph) == Ok([Witness])
    ensures Serves(Served(graph), graph)
    ensures IndexedPath(Served(graph), Postings(graph), "base") == Ok([])
    ensures !SameSet(IndexedPath(Served(graph), Postings(graph), "base"), Fallback(Served(graph), "base"))
  {
    hide EncodeGraph, DecodeGraph, Anchored, Storable, Fits, Serves, Served, IndexedPath, Fallback, Postings, SameSet,
         Symbols;
    WitnessStorable();
    GraphRoundTripExactly([Witness]);
    graph := EncodeGraph([Witness]).value;
    ServedServes(graph);
    DeclaredTypesMissed(Served(graph), [Witness], graph, "base");
    WrittenPathsAgreeExactly(Served(graph), [Witness], graph, [Witness], "base");
    var s := Witness.symbols[1];
    assert s in Symbols([Witness]);
    assert DeclaresAt([Witness], 0, 0, "base", s.id);
  }
}
