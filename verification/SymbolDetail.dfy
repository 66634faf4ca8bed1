/** Symbol detail blocks: a declaration stored apart from the graph, with strings interned in the block's table and the
    fields its neighbours share left to the block's defaults. */
module SymbolDetail {
  import opened Prelude
  import opened Ordering
  import opened Canonical
  import opened WorkerProto
  import opened ArtifactProto
  import opened SnapshotTransport
  import opened GraphCodec
  import Utf8

  const BLOCK_CAPACITY: nat := 256
  const INTERN_MIN_OCCURRENCES: nat := 3
  const INTERN_MIN_BYTES: nat := 8

  datatype Defaults = Defaults(
    sourceUnit: Option<ProtoSourceUnit>, provenances: seq<Provenance>, language: string, freshness: string,
    completeness: string, component: string, provenance: Option<nat>, strings: seq<string>)

  datatype Detail = Detail(
    id: string, backendKey: string, schemaVersion: nat, kind: string, name: string, qualifiedName: Option<string>,
    signature: Option<string>, declaration: Option<ByteRange>, nameRange: Option<ByteRange>, owner: Option<string>,
    modifiers: seq<string>, applied: seq<string>, language: Option<string>, freshness: Option<string>,
    completeness: Option<string>, component: Option<string>, provenance: Option<nat>,
    backendKeyIndex: Option<nat>, kindIndex: Option<nat>, nameIndex: Option<nat>, qualifiedNameIndex: Option<nat>,
    signatureIndex: Option<nat>, ownerIndex: Option<nat>, modifierIndexes: seq<nat>, appliedIndexes: seq<nat>)

  datatype Block = Block(first: nat, defaults: Option<Defaults>, entries: seq<Detail>)

  // The string table.

  function OptionSeq(o: Option<string>): seq<string> {
    if o.Some? then [o.value] else []
  }

  /** The strings of a symbol that may be interned, as often as they occur. */
  function Strings(s: GraphSymbol): seq<string> {
    [s.backendKey, s.kind, s.name] + OptionSeq(s.qualifiedName) + OptionSeq(s.signature) + OptionSeq(s.owner)
    + (s.modifiers + s.applied)
  }

  type Counts = seq<(string, int)>

  function Count(counts: Counts, value: string): int {
    match Get(counts, value)
    case None => 0
    case Some(n) => n
  }

  function Bump(counts: Counts, value: string): Counts {
    Put(counts, StrLe, value, Count(counts, value) + 1)
  }

  function Counted(counts: Counts, values: seq<string>): Counts
    decreases |values|
  {
    if values == [] then counts else Counted(Bump(counts, values[0]), values[1..])
  }

  lemma {:induction false} CountedConcat(counts: Counts, a: seq<string>, b: seq<string>)
    ensures Counted(counts, a + b) == Counted(Counted(counts, a), b)
    decreases |a|
  {
    if a == [] {
      assert a + b == b;
    } else {
      assert (a + b)[1..] == a[1..] + b;
      CountedConcat(Bump(counts, a[0]), a[1..], b);
    }
  }

  lemma CountedSnoc(counts: Counts, values: seq<string>, v: string)
    ensures Counted(counts, values + [v]) == Bump(Counted(counts, values), v)
  {
    CountedConcat(counts, values, [v]);
    assert [v][1..] == [];
    assert Counted(Bump(Counted(counts, values), v), []) == Bump(Counted(counts, values), v);
  }

  lemma BumpExactly(counts: Counts, value: string, v: string)
    requires Ascending(Keys(counts), StrLe)
    ensures Ascending(Keys(Bump(counts, value)), StrLe)
    ensures Count(Bump(counts, value), v) == Count(counts, v) + if v == value then 1 else 0
  {
    hide StrLe, Ascending, Keys;
    StrLeTotalOrder();
    var n := Count(counts, value) + 1;
    PutAscending(counts, StrLe, value, n);
    GetPut(counts, StrLe, value, n, v);
  }

  /** Counts are kept in order and are how often each string occurs. */
  lemma {:induction false} CountedExactly(counts: Counts, values: seq<string>, v: string)
    requires Ascending(Keys(counts), StrLe)
    ensures Ascending(Keys(Counted(counts, values)), StrLe)
    ensures Count(Counted(counts, values), v) == Count(counts, v) + multiset(values)[v]
    decreases |values|
  {
    hide Bump, Count, StrLe, Ascending, Keys;
    if values != [] {
      BumpExactly(counts, values[0], v);
      CountedExactly(Bump(counts, values[0]), values[1..], v);
      assert values == [values[0]] + values[1..];
    }
  }

  predicate Worthwhile(entry: (string, int)) {
    entry.1 >= INTERN_MIN_OCCURRENCES && Utf8.Size(entry.0) >= INTERN_MIN_BYTES
  }

  function Table(symbols: seq<GraphSymbol>): seq<string> {
    Keys(Filter(Counted([], FlatMap(symbols, Strings)), Worthwhile))
  }

  method TableFromSymbols(symbols: seq<GraphSymbol>) returns (values: seq<string>)
    ensures values == Table(symbols)
  {
    hide Strings, Bump;
    var counts: Counts := [];
    for i := 0 to |symbols|
      invariant counts == Counted([], FlatMap(symbols[..i], Strings))
    {
      CountedConcat([], FlatMap(symbols[..i], Strings), Strings(symbols[i]));
      counts := CountStrings(counts, Strings(symbols[i]));
      assert symbols[..i + 1] == symbols[..i] + [symbols[i]];
      FlatMapSnoc(symbols[..i], symbols[i], Strings);
    }
    assert symbols[..|symbols|] == symbols;
    values := Keys(Filter(counts, Worthwhile));
  }

  method CountStrings(before: Counts, strings: seq<string>) returns (counts: Counts)
    ensures counts == Counted(before, strings)
  {
    counts := before;
    for j := 0 to |strings|
      invariant counts == Counted(before, strings[..j])
    {
      assert strings[..j + 1] == strings[..j] + [strings[j]];
      CountedSnoc(before, strings[..j], strings[j]);
      counts := Put(counts, StrLe, strings[j], Count(counts, strings[j]) + 1);
    }
    assert strings[..|strings|] == strings;
  }

  lemma {:induction false} FilterAscending<V>(m: seq<(string, V)>, p: ((string, V)) -> bool)
    requires Ascending(Keys(m), StrLe)
    ensures Ascending(Keys(Filter(m, p)), StrLe)
    ensures forall k :: k in Keys(Filter(m, p)) ==> k in Keys(m)
  {
    if m != [] {
      assert Keys(m)[1..] == Keys(m[1..]);
      FilterAscending(m[1..], p);
      var rest := Filter(m[1..], p);
      assert Keys([m[0]] + rest) == [m[0].0] + Keys(rest);
      assert Keys(m) == [m[0].0] + Keys(m[1..]);
      forall j | 0 <= j < |Keys(rest)| ensures StrLe(m[0].0, Keys(rest)[j]) && m[0].0 != Keys(rest)[j] {
        assert Keys(rest)[j] in Keys(m[1..]);
        var k :| 0 <= k < |Keys(m[1..])| && Keys(m[1..])[k] == Keys(rest)[j];
        assert Keys(m)[k + 1] == Keys(m[1..])[k];
      }
    }
  }

  lemma {:induction false} FilterFinds(m: Counts, p: ((string, int)) -> bool, k: string)
    requires Ascending(Keys(m), StrLe)
    ensures k in Keys(Filter(m, p)) <==> (Get(m, k).Some? && p((k, Get(m, k).value)))
  {
    if m != [] {
      assert Keys(m) == [m[0].0] + Keys(m[1..]);
      assert Keys(m)[1..] == Keys(m[1..]);
      FilterFinds(m[1..], p, k);
      FilterAscending(m[1..], p);
      assert Keys([m[0]] + Filter(m[1..], p)) == [m[0].0] + Keys(Filter(m[1..], p));
      if k == m[0].0 {
        HeadOnlyOnce(m);
      }
    }
  }

  lemma HeadOnlyOnce(m: Counts)
    requires m != [] && Ascending(Keys(m), StrLe)
    ensures m[0].0 !in Keys(m[1..])
  {
    assert Keys(m)[1..] == Keys(m[1..]);
  }

  /** The table holds, in ascending order and once each, exactly the strings that occur three times or more in the block
      and take eight bytes or more. */
  lemma TableExactly(symbols: seq<GraphSymbol>, v: string)
    ensures Ascending(Table(symbols), StrLe)
    ensures v in Table(symbols) <==>
      multiset(FlatMap(symbols, Strings))[v] >= 3 && Utf8.Size(v) >= 8
  {
    hide Ascending, StrLe, Keys, Strings;
    var counts := Counted([], FlatMap(symbols, Strings));
    EmptyAscending();
    CountedExactly([], FlatMap(symbols, Strings), v);
    FilterAscending(counts, Worthwhile);
    FilterFinds(counts, Worthwhile, v);
  }

  lemma EmptyAscending()
    ensures Ascending(Keys<string, int>([]), StrLe)
  {
  }

  // Interning.

  function Lookup(table: seq<string>, value: string): Option<nat> {
    match Position(table, value)
    case None => None
    case Some(i) => Some(i % U32_LIMIT)
  }

  function LookupOf(table: seq<string>, value: Option<string>): Option<nat> {
    if value.None? then None else Lookup(table, value.value)
  }

  function LookupAll(table: seq<string>, values: seq<string>): Option<seq<nat>> {
    if values == [] then Some([])
    else
      match (Lookup(table, values[0]), LookupAll(table, values[1..]))
      case (Some(i), Some(rest)) => Some([i] + rest)
      case _ => None
  }

  /** All of a list's strings are interned or none is. */
  function Indexes(table: seq<string>, values: seq<string>): seq<nat> {
    match LookupAll(table, values)
    case None => []
    case Some(indexes) => indexes
  }

  function InlineText(table: seq<string>, value: string): string {
    if Lookup(table, value).None? then value else ""
  }

  function InlineOptional(table: seq<string>, value: Option<string>): Option<string> {
    if value.Some? && Lookup(table, value.value).None? then value else None
  }

  function InlineMany(table: seq<string>, values: seq<string>): seq<string> {
    if Indexes(table, values) == [] then values else []
  }

  function TextAt(table: seq<string>): nat -> Result<string, GraphError> {
    (i: nat) => if i < |table| then Ok(table[i]) else Err(LengthMismatch)
  }

  function Text(table: seq<string>, inlined: string, index: Option<nat>): Result<string, GraphError> {
    if index.None? then Ok(inlined) else TextAt(table)(index.value)
  }

  function OptionalText(table: seq<string>, inlined: Option<string>, index: Option<nat>)
    : Result<Option<string>, GraphError>
  {
    if index.None? then Ok(inlined)
    else
      var text :- TextAt(table)(index.value);
      Ok(Some(text))
  }

  function Texts(table: seq<string>, inlined: seq<string>, indexes: seq<nat>): Result<seq<string>, GraphError> {
    if indexes == [] then Ok(inlined) else TryMap(indexes, TextAt(table))
  }

  lemma LookupReturns(table: seq<string>, value: string)
    requires |table| <= U32_LIMIT
    ensures var i := Lookup(table, value); i.Some? ==> i.value < |table| && table[i.value] == value
  {
  }

  lemma {:induction false} LookupAllReturns(table: seq<string>, values: seq<string>)
    requires |table| <= U32_LIMIT
    ensures var found := LookupAll(table, values);
      found.Some? ==> |found.value| == |values| && TryMap(found.value, TextAt(table)) == Ok(values)
  {
    if values != [] {
      LookupReturns(table, values[0]);
      LookupAllReturns(table, values[1..]);
      assert values == [values[0]] + values[1..];
    }
  }

  /** Interning undoes exactly, for single strings, optional ones and lists. */
  lemma InterningUndone(table: seq<string>, value: string, optional: Option<string>, values: seq<string>)
    requires |table| <= U32_LIMIT
    ensures Text(table, InlineText(table, value), Lookup(table, value)) == Ok(value)
    ensures OptionalText(table, InlineOptional(table, optional), LookupOf(table, optional)) == Ok(optional)
    ensures Texts(table, InlineMany(table, values), Indexes(table, values)) == Ok(values)
  {
    hide Position;
    LookupReturns(table, value);
    if optional.Some? {
      LookupReturns(table, optional.value);
    }
    LookupAllReturns(table, values);
  }

  // Defaults.

  function CommonField(symbols: seq<GraphSymbol>, field: GraphSymbol -> string): string {
    if symbols != [] && forall i :: 0 <= i < |symbols| ==> field(symbols[i]) == field(symbols[0])
    then field(symbols[0]) else ""
  }

  function CommonProvenance(symbols: seq<GraphSymbol>): Option<nat> {
    if symbols != [] && forall i :: 0 <= i < |symbols| ==> symbols[i].provenance == symbols[0].provenance
    then symbols[0].provenance else None
  }

  function DefaultsOf(g: GraphSnapshot, symbols: seq<GraphSymbol>): Defaults {
    Defaults(g.sourceUnit, g.provenances,
             CommonField(symbols, (s: GraphSymbol) => s.language),
             CommonField(symbols, (s: GraphSymbol) => s.freshness),
             CommonField(symbols, (s: GraphSymbol) => s.completeness),
             CommonField(symbols, (s: GraphSymbol) => s.component), CommonProvenance(symbols), Table(symbols))
  }

  function Unlike(value: string, default: string): Option<string> {
    if value != default then Some(value) else None
  }

  function UnwrapOr(value: Option<string>, default: string): string {
    if value.Some? then value.value else default
  }

  function DetailOf(s: GraphSymbol, d: Defaults): Detail {
    var t := d.strings;
    Detail(s.id, InlineText(t, s.backendKey), s.schemaVersion, InlineText(t, s.kind), InlineText(t, s.name),
           InlineOptional(t, s.qualifiedName), InlineOptional(t, s.signature), s.declaration, s.nameRange,
           InlineOptional(t, s.owner), InlineMany(t, s.modifiers), InlineMany(t, s.applied),
           Unlike(s.language, d.language), Unlike(s.freshness, d.freshness), Unlike(s.completeness, d.completeness),
           Unlike(s.component, d.component), if s.provenance != d.provenance then s.provenance else None,
           Lookup(t, s.backendKey), Lookup(t, s.kind), Lookup(t, s.name), LookupOf(t, s.qualifiedName),
           LookupOf(t, s.signature), LookupOf(t, s.owner), Indexes(t, s.modifiers), Indexes(t, s.applied))
  }

  function BlockOf(g: GraphSnapshot, chunk: seq<GraphSymbol>, first: nat): Block {
    var d := DefaultsOf(g, chunk);
    Block(first, Some(d), Map(chunk, (s: GraphSymbol) => DetailOf(s, d)))
  }

  // Decoding.

  /** The declaration a detail stands for, without its provenance. */
  function Rebuilt(detail: Detail, d: Defaults): Result<GraphSymbol, GraphError> {
    var t := d.strings;
    var backendKey :- Text(t, detail.backendKey, detail.backendKeyIndex);
    var kind :- Text(t, detail.kind, detail.kindIndex);
    var name :- Text(t, detail.name, detail.nameIndex);
    var qualifiedName :- OptionalText(t, detail.qualifiedName, detail.qualifiedNameIndex);
    var signature :- OptionalText(t, detail.signature, detail.signatureIndex);
    var owner :- OptionalText(t, detail.owner, detail.ownerIndex);
    var modifiers :- Texts(t, detail.modifiers, detail.modifierIndexes);
    var applied :- Texts(t, detail.applied, detail.appliedIndexes);
    Ok(GraphSymbol(detail.id, backendKey, detail.schemaVersion, UnwrapOr(detail.language, d.language), kind, name,
                   qualifiedName, signature, detail.declaration, detail.nameRange, owner, modifiers, applied,
                   UnwrapOr(detail.freshness, d.freshness), UnwrapOr(detail.completeness, d.completeness),
                   UnwrapOr(detail.component, d.component), None, None))
  }

  function ChosenProvenance(detail: Detail, d: Defaults): nat {
    if detail.provenance.Some? then detail.provenance.value else Or(d.provenance, 0)
  }

  function OneSymbol(unit: ProtoSourceUnit, p: Provenance, s: GraphSymbol): GraphSnapshot {
    GraphSnapshot(Some(unit), None, None, [p], [s], [], [], [], [], [], [], "partial", Some(0))
  }

  function DecodeDetail(block: Block, ordinal: nat): Result<SymbolRecord, GraphError> {
    if ordinal < block.first || ordinal - block.first >= |block.entries| then Err(LengthMismatch)
    else if block.defaults.None? || block.defaults.value.sourceUnit.None? then Err(LengthMismatch)
    else
      var d, detail := block.defaults.value, block.entries[ordinal - block.first];
      var index := ChosenProvenance(detail, d);
      if index >= |d.provenances| then Err(LengthMismatch)
      else
        var s :- Rebuilt(detail, d);
        var v :- SnapshotReader([s.id])(OneSymbol(d.sourceUnit.value, d.provenances[index], s));
        if v.symbols == [] then Err(LengthMismatch) else Ok(v.symbols[0])
  }

  /** A detail gives back the stored declaration, whatever was interned or left to the defaults. */
  lemma DetailReturns(s: GraphSymbol, d: Defaults)
    requires |d.strings| <= U32_LIMIT
    ensures Rebuilt(DetailOf(s, d), d) == Ok(s.(provenance := None, ownerOrdinal := None))
  {
    hide Text, OptionalText, Texts, InlineText, InlineOptional, InlineMany, Lookup, LookupOf, Indexes;
    InterningUndone(d.strings, s.backendKey, s.qualifiedName, s.modifiers);
    InterningUndone(d.strings, s.kind, s.signature, s.applied);
    InterningUndone(d.strings, s.name, s.owner, []);
  }

  /** The provenance index a detail decodes with: its symbol's own, or the first of the table. */
  lemma ProvenanceReturns(g: GraphSnapshot, chunk: seq<GraphSymbol>, i: nat)
    requires i < |chunk|
    ensures var d := DefaultsOf(g, chunk);
      ChosenProvenance(DetailOf(chunk[i], d), d) == Or(chunk[i].provenance, 0)
  {
    hide Table, Lookup, LookupOf, Indexes, InlineText, InlineOptional, InlineMany, CommonField;
  }

  // Against decoding the whole snapshot.

  function Standalone(s: GraphSymbol): GraphSymbol {
    s.(provenance := None, ownerOrdinal := None)
  }

  /** A snapshot of one symbol decodes to that symbol, or fails as it does. */
  lemma OneSymbolReads(proto: ProtoSourceUnit, unit: SourceUnit, p: Provenance, s: GraphSymbol)
    requires SourceUnitIn(proto) == Ok(unit) && s.provenance == None
    ensures var v := SnapshotReader([s.id])(OneSymbol(proto, p, s));
      match SymbolIn(SymbolFromGraph(s, 0, [s.id]), unit, p)
      case Err(e) => v == Err(NotCanonical(e))
      case Ok(r) => v.Ok? && v.value.symbols == [r]
  {
    hide SymbolIn, SourceUnitIn;
    var x := SymbolFromGraph(s, 0, [s.id]);
    var w := FromGraph(OneSymbol(proto, p, s), 0, [s.id]);
    assert w == ProtoSnapshot(Some(proto), None, None, [p], [x], [], [], [], [], [], [], [], "partial", 0) by {
      OneMapped(s, 0, [s.id]);
    }
    assert SymbolReader([p], unit)(x) == SymbolIn(x, unit, p);
    TryMapOne(x, SymbolReader([p], unit));
  }

  lemma TryMapOne<A, B, E>(a: A, f: A -> Result<B, E>)
    ensures TryMap([a], f) == match f(a)
      case Err(e) => Err(e)
      case Ok(b) => Ok([b])
  {
    assert [a][1..] == [];
    assert [a][0] == a;
    match f(a)
    case Err(e) => assert TryMap([a], f) == Err(e);
    case Ok(b) => assert TryMap([a], f) == Ok([b] + []); assert [b] + [] == [b];
  }

  lemma OneMapped(s: GraphSymbol, p: nat, ids: seq<string>)
    ensures Map([s], (s: GraphSymbol) => SymbolFromGraph(s, p, ids)) == [SymbolFromGraph(s, p, ids)]
  {
  }

  /** A decoded snapshot's symbol is its graph symbol decoded under the provenance its index names. */
  lemma SymbolOfSnapshot(g: GraphSnapshot, ids: seq<string>, v: Snapshot, k: nat)
    requires SnapshotReader(ids)(g) == Ok(v) && k < |g.symbols|
    ensures g.sourceUnit.Some? && SourceUnitIn(g.sourceUnit.value) == Ok(v.sourceUnit)
    ensures g.provenance.Some? && g.provenance.value < |g.provenances| && |v.symbols| == |g.symbols|
    ensures var index := Or(g.symbols[k].provenance, g.provenance.value);
      && index < |g.provenances|
      && SymbolIn(SymbolFromGraph(g.symbols[k], g.provenance.value, ids), v.sourceUnit, g.provenances[index]) ==
         Ok(v.symbols[k])
  {
    hide SymbolIn, SourceUnitIn, ReadBack;
    var p := g.provenance.value;
    var w := FromGraph(g, p, ids);
    ReadBackParts(w, v);
    MapAt(g.symbols, (s: GraphSymbol) => SymbolFromGraph(s, p, ids));
    TryMapExactly(w.symbols, SymbolReader(w.provenances, v.sourceUnit), v.symbols);
    assert SymbolReader(w.provenances, v.sourceUnit)(w.symbols[k]) == Ok(v.symbols[k]);
  }

  /** What a declaration's detail gives of the symbol that decoding its whole snapshot gives: the owner as it is named
      inline, and where the declaration names no provenance the first of the table. */
  function FromDetail(g: GraphSnapshot, s: GraphSymbol, r: SymbolRecord): SymbolRecord {
    var index := Or(s.provenance, 0);
    if index >= |g.provenances| then r
    else
      var p := g.provenances[index];
      r.(owner := s.owner, provenance := p, backendKey := r.backendKey.(backend := p.backend))
  }

  /** A block's entry always decodes to that. */
  lemma DetailGives(g: GraphSnapshot, chunk: seq<GraphSymbol>, i: nat, first: nat, ids: seq<string>, v: Snapshot,
                    k: nat)
    requires SnapshotReader(ids)(g) == Ok(v) && k < |g.symbols| == |v.symbols|
    requires i < |chunk| && chunk[i] == g.symbols[k] && |Table(chunk)| <= U32_LIMIT
    ensures DecodeDetail(BlockOf(g, chunk, first), first + i) == Ok(FromDetail(g, chunk[i], v.symbols[k]))
  {
    hide SourceUnitIn, SnapshotReader, Rebuilt, Table, DetailOf, ChosenProvenance, SymbolIn, SymbolFromGraph;
    var s := chunk[i];
    SymbolOfSnapshot(g, ids, v, k);
    var d := DefaultsOf(g, chunk);
    MapAt(chunk, (s: GraphSymbol) => DetailOf(s, d));
    DetailReturns(s, d);
    ProvenanceReturns(g, chunk, i);
    var p := g.provenances[Or(s.provenance, 0)];
    OneSymbolReads(g.sourceUnit.value, v.sourceUnit, p, Standalone(s));
    var q := g.provenances[Or(s.provenance, g.provenance.value)];
    SymbolsCompare(s, g.provenance.value, ids, v.sourceUnit, p, q);
  }

  lemma SymbolsCompare(s: GraphSymbol, index: nat, ids: seq<string>, unit: SourceUnit, p: Provenance, q: Provenance)
    ensures var alone, whole := SymbolIn(SymbolFromGraph(Standalone(s), 0, [s.id]), unit, p),
                                SymbolIn(SymbolFromGraph(s, index, ids), unit, q);
      whole.Ok? ==>
        && alone == Ok(whole.value.(owner := s.owner, provenance := p,
                                    backendKey := whole.value.backendKey.(backend := p.backend)))
        && whole.value.owner == LocalOptional(s.owner, s.ownerOrdinal, ids)
        && whole.value.provenance == q && whole.value.backendKey.backend == q.backend
  {
  }

  /** A block's entry decodes to the very symbol that decoding its whole snapshot gives, exactly when the symbol names
      its owner inline and its provenance is the one the block falls back on. */
  lemma DetailExactly(g: GraphSnapshot, chunk: seq<GraphSymbol>, i: nat, first: nat, ids: seq<string>, v: Snapshot,
                      k: nat)
    requires SnapshotReader(ids)(g) == Ok(v) && k < |g.symbols| == |v.symbols|
    requires i < |chunk| && chunk[i] == g.symbols[k] && |Table(chunk)| <= U32_LIMIT
    ensures g.provenance.Some?
    ensures Or(chunk[i].provenance, 0) < |g.provenances| &&
      Or(chunk[i].provenance, g.provenance.value) < |g.provenances|
    ensures DecodeDetail(BlockOf(g, chunk, first), first + i) == Ok(v.symbols[k]) <==>
      && LocalOptional(chunk[i].owner, chunk[i].ownerOrdinal, ids) == chunk[i].owner
      && g.provenances[Or(chunk[i].provenance, 0)] == g.provenances[Or(chunk[i].provenance, g.provenance.value)]
  {
    hide SourceUnitIn, SnapshotReader, DecodeDetail, BlockOf, Table, SymbolIn, SymbolFromGraph;
    var s := chunk[i];
    SymbolOfSnapshot(g, ids, v, k);
    DetailGives(g, chunk, i, first, ids, v, k);
    SymbolsCompare(s, g.provenance.value, ids, v.sourceUnit, g.provenances[Or(s.provenance, 0)],
                   g.provenances[Or(s.provenance, g.provenance.value)]);
  }
}
