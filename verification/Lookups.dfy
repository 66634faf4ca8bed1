/** The store's queries over its tables, each shown to answer what a scan of the committed snapshots answers. */
module Lookups {
  import opened Prelude
  import opened Relation
  import opened Canonical
  import opened Tables
  import opened Store
  import opened Ordering

  // Reachable states.

  datatype Command =
    | ReplaceOne(expected: SourceUnit, snapshot: Snapshot)
    | ReplaceMany(entries: seq<(SourceUnit, Snapshot)>)
    | Remove(unit: string)

  /** What a call leaves committed; a call that fails leaves everything as it was. */
  function Apply(c: seq<Snapshot>, command: Command): seq<Snapshot> {
    match command
    case ReplaceOne(expected, s) =>
      var r := ReplaceBatch(c, [(expected, s)]);
      if r.Ok? then r.value else c
    case ReplaceMany(entries) =>
      var r := ReplaceBatch(c, entries);
      if r.Ok? then r.value else c
    case Remove(u) => Without(c, u)
  }

  function Run(c: seq<Snapshot>, commands: seq<Command>): seq<Snapshot>
    decreases |commands|
  {
    if commands == [] then c else Run(Apply(c, commands[0]), commands[1..])
  }

  lemma ReplaceBatchWellStored(c: seq<Snapshot>, entries: seq<(SourceUnit, Snapshot)>)
    requires WellStored(c) && ReplaceBatch(c, entries).Ok?
    ensures WellStored(ReplaceBatch(c, entries).value)
  {
    AllValidated(entries);
    ReplaceAllWellStored(c, entries);
  }

  lemma ApplyWellStored(c: seq<Snapshot>, command: Command)
    requires WellStored(c)
    ensures WellStored(Apply(c, command))
  {
    match command
    case ReplaceOne(expected, s) =>
      if ReplaceBatch(c, [(expected, s)]).Ok? { ReplaceBatchWellStored(c, [(expected, s)]); }
    case ReplaceMany(entries) =>
      if ReplaceBatch(c, entries).Ok? { ReplaceBatchWellStored(c, entries); }
    case Remove(u) => WithoutWellStored(c, u);
  }

  /** Every sequence of calls, failed ones included, keeps the tables a projection of validated snapshots,
      one a source unit. */
  lemma {:induction false} EveryRunWellStored(c: seq<Snapshot>, commands: seq<Command>)
    requires WellStored(c)
    ensures WellStored(Run(c, commands))
    ensures forall i, j :: 0 <= i < j < |Run(c, commands)| ==>
      Run(c, commands)[i].sourceUnit.id != Run(c, commands)[j].sourceUnit.id
    decreases |commands|
  {
    if commands != [] {
      ApplyWellStored(c, commands[0]);
      EveryRunWellStored(Apply(c, commands[0]), commands[1..]);
    } else {
      forall i, j | 0 <= i < j < |c| ensures c[i].sourceUnit.id != c[j].sourceUnit.id {
        UnitsDistinct(c, i, j);
      }
    }
  }

  // The committed snapshot of a unit.

  function Find(c: seq<Snapshot>, u: string): Option<Snapshot> {
    if c == [] then None else if c[0].sourceUnit.id == u then Some(c[0]) else Find(c[1..], u)
  }

  lemma {:induction false} FindIs(c: seq<Snapshot>, k: nat)
    requires k < |c|
    requires forall i, j :: 0 <= i < j < |c| ==> c[i].sourceUnit.id != c[j].sourceUnit.id
    ensures Find(c, c[k].sourceUnit.id) == Some(c[k])
  {
    if k > 0 {
      assert c[0].sourceUnit.id != c[k].sourceUnit.id;
      FindIs(c[1..], k - 1);
    }
  }

  lemma {:induction false} FindMember(c: seq<Snapshot>, u: string)
    ensures Find(c, u).None? <==> forall s :: s in c ==> s.sourceUnit.id != u
    ensures Find(c, u).Some? ==> Find(c, u).value in c && Find(c, u).value.sourceUnit.id == u
  {
    if c != [] {
      FindMember(c[1..], u);
      assert c == [c[0]] + c[1..];
    }
  }

  /** The first snapshot that names the unit. */
  lemma {:induction false} FindFirst(c: seq<Snapshot>, u: string, s: Snapshot)
    ensures Find(c, u) == Some(s) <==>
      exists k :: 0 <= k < |c| && c[k] == s && s.sourceUnit.id == u && forall h :: 0 <= h < k ==>
        c[h].sourceUnit.id != u
  {
    if c != [] {
      var rest := c[1..];
      FindFirst(rest, u, s);
      assert forall h :: 0 <= h < |rest| ==> rest[h] == c[h + 1];
      if k :| 0 <= k < |rest| && rest[k] == s && s.sourceUnit.id == u && forall h :: 0 <= h < k ==>
        rest[h].sourceUnit.id != u {
        if c[0].sourceUnit.id != u {
          assert c[k + 1] == s && forall h :: 0 <= h < k + 1 ==> c[h].sourceUnit.id != u;
        }
      }
      if k :| 0 <= k < |c| && c[k] == s && s.sourceUnit.id == u && forall h :: 0 <= h < k ==> c[h].sourceUnit.id != u {
        if k > 0 {
          assert rest[k - 1] == s && forall h :: 0 <= h < k - 1 ==> rest[h].sourceUnit.id != u;
        }
      }
    }
  }

  lemma FindCommitted(c: seq<Snapshot>, s: Snapshot)
    requires WellStored(c) && s in c
    ensures Find(c, s.sourceUnit.id) == Some(s)
  {
    var k :| 0 <= k < |c| && c[k] == s;
    forall i, j | 0 <= i < j < |c| ensures c[i].sourceUnit.id != c[j].sourceUnit.id {
      UnitsDistinct(c, i, j);
    }
    FindIs(c, k);
  }

  lemma {:induction false} FindConcat(a: seq<Snapshot>, b: seq<Snapshot>, u: string)
    ensures Find(a + b, u) == if Find(a, u).Some? then Find(a, u) else Find(b, u)
  {
    if a == [] {
      assert a + b == b;
    } else {
      assert (a + b)[1..] == a[1..] + b;
      FindConcat(a[1..], b, u);
    }
  }

  lemma {:induction false} FindWithout(c: seq<Snapshot>, u: string, v: string)
    ensures Find(Without(c, u), v) == if u == v then None else Find(c, v)
  {
    if c != [] {
      FindWithout(c[1..], u, v);
    }
  }

  /** A successful replacement commits the new snapshot for its unit and touches no other unit. */
  lemma ReplaceFinds(c: seq<Snapshot>, s: Snapshot, v: string)
    requires Replace(c, s).Ok?
    ensures Find(Replace(c, s).value, v) == if v == s.sourceUnit.id then Some(s) else Find(c, v)
  {
    var u := s.sourceUnit.id;
    FindConcat(Without(c, u), [s], v);
    FindWithout(c, u, v);
  }

  // Joins with the snapshot row.

  function HeaderFor(u: string): Row -> Option<Row> {
    (r: Row) => if r.SnapshotRow? && r.unit == u then Some(r) else None
  }

  /** The snapshot row of a unit; the unit is that table's primary key. */
  function SnapshotOf(rows: seq<Row>, u: string): Option<Row> {
    var found := FilterMap(rows, HeaderFor(u));
    if found == [] then None else Some(found[0])
  }

  function HeaderRow(s: Snapshot): Row {
    SnapshotRow(s.sourceUnit.id, s.sourceUnit, s.provenance, s.publicApi)
  }

  lemma SnapshotOfCommitted(c: seq<Snapshot>, s: Snapshot)
    requires WellStored(c) && s in c
    ensures SnapshotOf(AllRows(c), s.sourceUnit.id) == Some(HeaderRow(s))
  {
    hide SnapshotRows;
    var rows := AllRows(c);
    var header := HeaderFor(s.sourceUnit.id);
    HeaderRowIn(s);
    AllRowsMember(c, HeaderRow(s));
    OnlyMatch(KeyOf, rows, header, HeaderRow(s));
  }

  /** A selection by primary key finds just the row with that key. */
  lemma OnlyMatch<R, K>(key: R -> Option<K>, rows: seq<R>, where: R -> Option<R>, r: R)
    requires KeysDistinct(key, rows) && r in rows && key(r).Some? && where(r) == Some(r)
    requires forall x :: where(x).Some? ==> where(x).value == x && key(x) == key(r)
    ensures FilterMap(rows, where) != [] && FilterMap(rows, where)[0] == r
  {
    var found := FilterMap(rows, where);
    FilterMapMember(rows, where, r);
    var k :| 0 <= k < |rows| && rows[k] == r;
    assert where(rows[k]) == Some(r);
    FilterMapMember(rows, where, found[0]);
    SameKeySameRow(key, rows, found[0], r);
  }

  function JoinSymbol(rows: seq<Row>, r: Row): Option<SymbolRecord>
    requires r.SymbolRow?
  {
    var header := SnapshotOf(rows, r.unit);
    if header.None? || !header.value.SnapshotRow? then None
    else Some(IntoSymbol(r.stored, r.symbol, r.name, header.value.source, header.value.provenance))
  }

  /** A committed symbol as queries return it: its snapshot supplies component, provenance and source unit. */
  function ReadBack(x: SymbolRecord, s: Snapshot): SymbolRecord {
    IntoSymbol(Stored(x), x.id, x.name, s.sourceUnit, s.provenance)
  }

  /** Reading back loses nothing exactly when the symbol already agrees with its snapshot. */
  lemma ReadBackExact(x: SymbolRecord, s: Snapshot)
    ensures ReadBack(x, s) == x <==>
      && x.component == s.sourceUnit.component && x.provenance == s.provenance
      && x.declaration.sourceUnit == s.sourceUnit.id && x.nameRange.sourceUnit == s.sourceUnit.id
  {
  }

  predicate SymbolOrder(a: SymbolRecord, b: SymbolRecord) {
    if a.declaration.sourceUnit != b.declaration.sourceUnit then
      StrLt(a.declaration.sourceUnit, b.declaration.sourceUnit)
    else if a.nameRange.bytes.start != b.nameRange.bytes.start then a.nameRange.bytes.start < b.nameRange.bytes.start
    else StrLe(a.id, b.id)
  }

  function JoinWhere(rows: seq<Row>, where: Row -> bool): Row -> Option<SymbolRecord> {
    (r: Row) => if r.SymbolRow? && where(r) then JoinSymbol(rows, r) else None
  }

  /** SELECT ... FROM symbols JOIN source_snapshots WHERE ... ORDER BY unit, name start, id. */
  function SymbolsWhere(rows: seq<Row>, where: Row -> bool): seq<SymbolRecord> {
    SortBy(FilterMap(rows, JoinWhere(rows, where)), SymbolOrder)
  }

  function MatchSymbol(s: Snapshot, where: Row -> bool): SymbolRecord -> Option<SymbolRecord> {
    (x: SymbolRecord) => if where(SymbolRowOf(s.sourceUnit.id, x)) then Some(ReadBack(x, s)) else None
  }

  /** The same question asked of one snapshot. */
  function SnapshotSymbols(s: Snapshot, where: Row -> bool): seq<SymbolRecord> {
    FilterMap(s.symbols, MatchSymbol(s, where))
  }

  lemma {:induction false} FlatMapOptional<A, B>(s: seq<A>, f: A -> seq<B>, g: A -> Option<B>)
    requires forall i :: 0 <= i < |s| ==> f(s[i]) == if g(s[i]).Some? then [g(s[i]).value] else []
    ensures FlatMap(s, f) == FilterMap(s, g)
  {
    if s != [] {
      FlatMapOptional(s[1..], f, g);
    }
  }

  lemma SymbolRowsSelect(u: string, x: SymbolRecord, f: Row -> Option<SymbolRecord>)
    requires forall r: Row :: !r.SymbolRow? ==> f(r) == None
    ensures FilterMap(SymbolRows(u, x), f) ==
      if f(SymbolRowOf(u, x)).Some? then [f(SymbolRowOf(u, x)).value] else []
  {
    var annotations := Map(x.appliedSymbols, (a: string) => AnnotationRow(u, x.id, a));
    MapAt(x.appliedSymbols, (a: string) => AnnotationRow(u, x.id, a));
    FilterMapConcat([SymbolRowOf(u, x)], annotations, f);
    FilterMapNothing(annotations, f);
    assert FilterMap([SymbolRowOf(u, x)], f) ==
      if f(SymbolRowOf(u, x)).Some? then [f(SymbolRowOf(u, x)).value] + FilterMap([], f) else FilterMap([], f);
  }

  lemma SymbolRowJoined(c: seq<Snapshot>, s: Snapshot, where: Row -> bool, x: SymbolRecord)
    requires WellStored(c) && s in c
    ensures JoinWhere(AllRows(c), where)(SymbolRowOf(s.sourceUnit.id, x)) == MatchSymbol(s, where)(x)
  {
    hide SnapshotRows;
    SnapshotOfCommitted(c, s);
    assert JoinSymbol(AllRows(c), SymbolRowOf(s.sourceUnit.id, x)) == Some(ReadBack(x, s));
  }

  lemma SnapshotSymbolsSelect(c: seq<Snapshot>, s: Snapshot, where: Row -> bool)
    requires WellStored(c) && s in c
    ensures SnapshotSymbols(s, where) == FilterMap(Part(s, SYMBOLS), JoinWhere(AllRows(c), where))
  {
    hide WellStored, AllRows, SymbolRows;
    hide JoinSymbol, ReadBack;
    var u := s.sourceUnit.id;
    var f := JoinWhere(AllRows(c), where);
    var rowsOf := (x: SymbolRecord) => SymbolRows(u, x);
    var hits := (x: SymbolRecord) => FilterMap(SymbolRows(u, x), f);
    FilterMapFlatMap(s.symbols, rowsOf, f, hits);
    forall i | 0 <= i < |s.symbols|
      ensures hits(s.symbols[i]) ==
        if MatchSymbol(s, where)(s.symbols[i]).Some? then [MatchSymbol(s, where)(s.symbols[i]).value] else []
    {
      SymbolRowsSelect(u, s.symbols[i], f);
      SymbolRowJoined(c, s, where, s.symbols[i]);
    }
    FlatMapOptional(s.symbols, hits, MatchSymbol(s, where));
  }

  /** Every symbol query is the sorted scan of the committed snapshots. */
  lemma SymbolsScan(c: seq<Snapshot>, where: Row -> bool)
    requires WellStored(c)
    ensures SymbolsWhere(AllRows(c), where) ==
      SortBy(FlatMap(c, (s: Snapshot) => SnapshotSymbols(s, where)), SymbolOrder)
  {
    forall i | 0 <= i < |c|
      ensures SnapshotSymbols(c[i], where) == FilterMap(Part(c[i], SYMBOLS), JoinWhere(AllRows(c), where))
    {
      SnapshotSymbolsSelect(c, c[i], where);
    }
    SelectAll(c, SYMBOLS, JoinWhere(AllRows(c), where), (s: Snapshot) => SnapshotSymbols(s, where));
  }

  lemma SymbolsMember(c: seq<Snapshot>, where: Row -> bool, y: SymbolRecord)
    requires WellStored(c)
    ensures y in SymbolsWhere(AllRows(c), where) <==>
      exists s, x :: s in c && x in s.symbols && where(SymbolRowOf(s.sourceUnit.id, x)) && y == ReadBack(x, s)
  {
    hide AllRows, WellStored, SnapshotSymbols;
    SymbolsScan(c, where);
    var f := (s: Snapshot) => SnapshotSymbols(s, where);
    SortByMembers(FlatMap(c, f), SymbolOrder);
    FlatMapMember(c, f, y);
    forall s { SnapshotSymbolsMember(s, where, y); }
    if s, x :| s in c && x in s.symbols && where(SymbolRowOf(s.sourceUnit.id, x)) && y == ReadBack(x, s) {
      var k :| 0 <= k < |c| && c[k] == s;
      assert y in f(c[k]);
    }
  }

  lemma SnapshotSymbolsMember(s: Snapshot, where: Row -> bool, y: SymbolRecord)
    ensures y in SnapshotSymbols(s, where) <==>
      exists x :: x in s.symbols && where(SymbolRowOf(s.sourceUnit.id, x)) && y == ReadBack(x, s)
  {
    FilterMapMember(s.symbols, MatchSymbol(s, where), y);
    if x :| x in s.symbols && where(SymbolRowOf(s.sourceUnit.id, x)) && y == ReadBack(x, s) {
      var k :| 0 <= k < |s.symbols| && s.symbols[k] == x;
      assert MatchSymbol(s, where)(s.symbols[k]) == Some(y);
    }
  }

  // The three uses of that query.

  function SymbolsNamed(rows: seq<Row>, name: string): seq<SymbolRecord> {
    SymbolsWhere(rows, (r: Row) => r.SymbolRow? && r.name == name)
  }

  function SymbolsForSource(rows: seq<Row>, u: string): seq<SymbolRecord> {
    SymbolsWhere(rows, (r: Row) => r.SymbolRow? && r.unit == u)
  }

  function SymbolById(rows: seq<Row>, id: string): Option<SymbolRecord> {
    var found := SymbolsWhere(rows, (r: Row) => r.SymbolRow? && r.symbol == id);
    if found == [] then None else Some(found[0])
  }

  lemma SymbolRowIn(s: Snapshot, x: SymbolRecord)
    requires x in s.symbols
    ensures SymbolRowOf(s.sourceUnit.id, x) in SnapshotRows(s)
  {
    var u := s.sourceUnit.id;
    var r := SymbolRowOf(u, x);
    var k :| 0 <= k < |s.symbols| && s.symbols[k] == x;
    assert SymbolRows(u, x)[0] == r;
    FlatMapMember(s.symbols, (y: SymbolRecord) => SymbolRows(u, y), r);
    RowsOwned(s, r);
  }

  lemma SymbolRowCommitted(c: seq<Snapshot>, s: Snapshot, x: SymbolRecord)
    requires s in c && x in s.symbols
    ensures SymbolRowOf(s.sourceUnit.id, x) in AllRows(c)
  {
    SymbolRowIn(s, x);
    AllRowsMember(c, SymbolRowOf(s.sourceUnit.id, x));
  }

  lemma SameKeySameRow<R, K>(key: R -> Option<K>, rows: seq<R>, a: R, b: R)
    requires KeysDistinct(key, rows) && a in rows && b in rows && key(a).Some? && key(a) == key(b)
    ensures a == b
  {
    var i :| 0 <= i < |rows| && rows[i] == a;
    var j :| 0 <= j < |rows| && rows[j] == b;
    KeyFindsOne(key, rows, i, j);
  }

  /** A symbol identity is committed at most once in the whole index. */
  lemma SymbolIdsUnique(c: seq<Snapshot>, s: Snapshot, t: Snapshot, x: SymbolRecord, y: SymbolRecord)
    requires WellStored(c) && s in c && t in c && x in s.symbols && y in t.symbols && x.id == y.id
    ensures s == t && ReadBack(x, s) == ReadBack(y, t)
  {
    SymbolRowCommitted(c, s, x);
    SymbolRowCommitted(c, t, y);
    SameKeySameRow(KeyOf, AllRows(c), SymbolRowOf(s.sourceUnit.id, x), SymbolRowOf(t.sourceUnit.id, y));
    FindCommitted(c, s);
    FindCommitted(c, t);
  }

  /** Declarations of one name, over all committed snapshots. */
  lemma SymbolsNamedScan(c: seq<Snapshot>, name: string, y: SymbolRecord)
    requires WellStored(c)
    ensures y in SymbolsNamed(AllRows(c), name) <==>
      exists s, x :: s in c && x in s.symbols && x.name == name && y == ReadBack(x, s)
  {
    SymbolsMember(c, (r: Row) => r.SymbolRow? && r.name == name, y);
  }

  lemma SymbolByIdScan(c: seq<Snapshot>, id: string, y: SymbolRecord)
    requires WellStored(c)
    ensures SymbolById(AllRows(c), id) == Some(y) <==>
      exists s, x :: s in c && x in s.symbols && x.id == id && y == ReadBack(x, s)
  {
    var where := (r: Row) => r.SymbolRow? && r.symbol == id;
    var found := SymbolsWhere(AllRows(c), where);
    SymbolsMember(c, where, y);
    if found != [] {
      SymbolsMember(c, where, found[0]);
      var s, x :| s in c && x in s.symbols && where(SymbolRowOf(s.sourceUnit.id, x)) && found[0] == ReadBack(x, s);
      if t, z :| t in c && z in t.symbols && z.id == id && y == ReadBack(z, t) {
        SymbolIdsUnique(c, s, t, x, z);
      }
    }
  }

  /** A committed symbol is looked up by its id as it was committed exactly when its component and provenance are those
      of its snapshot, from which the reader takes them; its ranges always are. */
  lemma SymbolReturnsExactly(c: seq<Snapshot>, s: Snapshot, x: SymbolRecord)
    requires WellStored(c) && s in c && x in s.symbols
    ensures SymbolById(AllRows(c), x.id) == Some(x) <==>
      x.component == s.sourceUnit.component && x.provenance == s.provenance
  {
    hide AllRows, SymbolById;
    SymbolByIdScan(c, x.id, ReadBack(x, s));
    ReadBackExact(x, s);
    SymbolOwned(s, x);
  }

  lemma SymbolOwned(s: Snapshot, x: SymbolRecord)
    requires Acceptable(s) && x in s.symbols
    ensures x.declaration.sourceUnit == s.sourceUnit.id && x.nameRange.sourceUnit == s.sourceUnit.id
  {
    var u := s.sourceUnit.id;
    FirstNone(s.symbols, (y: SymbolRecord) => CheckSymbol(u, y));
    var i :| 0 <= i < |s.symbols| && s.symbols[i] == x;
    assert CheckSymbol(u, s.symbols[i]).None?;
  }

  /** Declarations of one unit, as its committed snapshot lists them. */
  lemma SymbolsForSourceScan(c: seq<Snapshot>, u: string, y: SymbolRecord)
    requires WellStored(c)
    ensures y in SymbolsForSource(AllRows(c), u) <==>
      Find(c, u).Some? && exists x :: x in Find(c, u).value.symbols && y == ReadBack(x, Find(c, u).value)
  {
    var where := (r: Row) => r.SymbolRow? && r.unit == u;
    SymbolsMember(c, where, y);
    FindMember(c, u);
    if y in SymbolsForSource(AllRows(c), u) {
      var s, x :| s in c && x in s.symbols && where(SymbolRowOf(s.sourceUnit.id, x)) && y == ReadBack(x, s);
      FindCommitted(c, s);
    }
    if Find(c, u).Some? {
      var s := Find(c, u).value;
      if x :| x in s.symbols && y == ReadBack(x, s) {
        assert where(SymbolRowOf(s.sourceUnit.id, x));
      }
    }
  }

  // Edges. The ORDER BY columns are the row's own.

  predicate UnitStartOrder(a: Row, b: Row) {
    match (a, b)
    case (ReferenceRow(u, s, _, _, _), ReferenceRow(v, t, _, _, _)) => if u != v then StrLt(u, v) else s <= t
    case (CallRow(u, s, _, _, _), CallRow(v, t, _, _, _)) => if u != v then StrLt(u, v) else s <= t
    case (HierarchyRow(u, s, _, _), HierarchyRow(v, t, _, _)) => if u != v then StrLt(u, v) else StrLe(s, t)
    case _ => true
  }

  function ReferenceWhere(target: string): Row -> Option<Row> {
    (r: Row) => if r.ReferenceRow? && r.target == target then Some(r) else None
  }

  function CallWhere(target: string): Row -> Option<Row> {
    (r: Row) => if r.CallRow? && r.target == target then Some(r) else None
  }

  function HierarchyWhere(supertype: string): Row -> Option<Row> {
    (r: Row) => if r.HierarchyRow? && r.supertype == supertype then Some(r) else None
  }

  function ReferencesTo(rows: seq<Row>, target: string): seq<Row> {
    SortBy(FilterMap(rows, ReferenceWhere(target)), UnitStartOrder)
  }

  function CallsTo(rows: seq<Row>, target: string): seq<Row> {
    SortBy(FilterMap(rows, CallWhere(target)), UnitStartOrder)
  }

  function ImplementationsOf(rows: seq<Row>, supertype: string): seq<Row> {
    SortBy(FilterMap(rows, HierarchyWhere(supertype)), UnitStartOrder)
  }

  function SnapshotReferences(s: Snapshot, target: string): seq<Row> {
    FilterMap(Map(s.references, (e: ReferenceEdge) => ReferenceRowOf(s.sourceUnit.id, e)), ReferenceWhere(target))
  }

  function SnapshotCalls(s: Snapshot, target: string): seq<Row> {
    FilterMap(Map(s.calls, (e: CallEdge) => CallRowOf(s.sourceUnit.id, e)), CallWhere(target))
  }

  function SnapshotSubtypes(s: Snapshot, supertype: string): seq<Row> {
    FilterMap(Map(s.hierarchy, (e: HierarchyEdge) => HierarchyRowOf(s.sourceUnit.id, e)), HierarchyWhere(supertype))
  }

  // The three edge queries are sorted scans of the committed snapshots, duplicates included.

  lemma ReferencesScan(c: seq<Snapshot>, target: string)
    ensures ReferencesTo(AllRows(c), target) ==
      SortBy(FlatMap(c, (s: Snapshot) => SnapshotReferences(s, target)), UnitStartOrder)
  {
    SelectAll(c, REFERENCES, ReferenceWhere(target), (s: Snapshot) => SnapshotReferences(s, target));
  }

  lemma CallsScan(c: seq<Snapshot>, target: string)
    ensures CallsTo(AllRows(c), target) ==
      SortBy(FlatMap(c, (s: Snapshot) => SnapshotCalls(s, target)), UnitStartOrder)
  {
    SelectAll(c, CALLS, CallWhere(target), (s: Snapshot) => SnapshotCalls(s, target));
  }

  lemma ImplementationsScan(c: seq<Snapshot>, supertype: string)
    ensures ImplementationsOf(AllRows(c), supertype) ==
      SortBy(FlatMap(c, (s: Snapshot) => SnapshotSubtypes(s, supertype)), UnitStartOrder)
  {
    SelectAll(c, HIERARCHY, HierarchyWhere(supertype), (s: Snapshot) => SnapshotSubtypes(s, supertype));
  }

  lemma SelectionMember<R>(rows: seq<R>, where: R -> Option<R>, order: (R, R) -> bool, r: R)
    requires forall x :: where(x).Some? ==> where(x).value == x
    ensures r in SortBy(FilterMap(rows, where), order) <==> r in rows && where(r).Some?
  {
    SortByMembers(FilterMap(rows, where), order);
    FilterMapMember(rows, where, r);
    if r in rows && where(r).Some? {
      var j :| 0 <= j < |rows| && rows[j] == r;
      assert where(rows[j]) == Some(r);
    }
  }

  lemma ReferenceRowsIn(s: Snapshot, r: Row)
    requires r.ReferenceRow?
    ensures r in SnapshotRows(s) <==> exists e :: e in s.references && r == ReferenceRowOf(s.sourceUnit.id, e)
  {
    hide SnapshotRows;
    RowsOwned(s, r);
    MapIn(s.references, (e: ReferenceEdge) => ReferenceRowOf(s.sourceUnit.id, e), r);
  }

  lemma CallRowsIn(s: Snapshot, r: Row)
    requires r.CallRow?
    ensures r in SnapshotRows(s) <==> exists e :: e in s.calls && r == CallRowOf(s.sourceUnit.id, e)
  {
    hide SnapshotRows;
    RowsOwned(s, r);
    MapIn(s.calls, (e: CallEdge) => CallRowOf(s.sourceUnit.id, e), r);
  }

  lemma HierarchyRowsIn(s: Snapshot, r: Row)
    requires r.HierarchyRow?
    ensures r in SnapshotRows(s) <==> exists e :: e in s.hierarchy && r == HierarchyRowOf(s.sourceUnit.id, e)
  {
    hide SnapshotRows;
    RowsOwned(s, r);
    MapIn(s.hierarchy, (e: HierarchyEdge) => HierarchyRowOf(s.sourceUnit.id, e), r);
  }

  lemma ReferencesMember(c: seq<Snapshot>, target: string, r: Row)
    ensures r in ReferencesTo(AllRows(c), target) <==>
      exists s, e :: s in c && e in s.references && e.target == target && r == ReferenceRowOf(s.sourceUnit.id, e)
  {
    hide AllRows, SnapshotRows;
    SelectionMember(AllRows(c), ReferenceWhere(target), UnitStartOrder, r);
    if r.ReferenceRow? {
      AllRowsMember(c, r);
      forall s { ReferenceRowsIn(s, r); }
    }
  }

  lemma CallsMember(c: seq<Snapshot>, target: string, r: Row)
    ensures r in CallsTo(AllRows(c), target) <==>
      exists s, e :: s in c && e in s.calls && e.target == target && r == CallRowOf(s.sourceUnit.id, e)
  {
    hide AllRows, SnapshotRows;
    SelectionMember(AllRows(c), CallWhere(target), UnitStartOrder, r);
    if r.CallRow? {
      AllRowsMember(c, r);
      forall s { CallRowsIn(s, r); }
    }
  }

  lemma ImplementationsMember(c: seq<Snapshot>, supertype: string, r: Row)
    ensures r in ImplementationsOf(AllRows(c), supertype) <==>
      exists s, e :: s in c && e in s.hierarchy && e.supertype == supertype && r == HierarchyRowOf(s.sourceUnit.id, e)
  {
    hide AllRows, SnapshotRows;
    SelectionMember(AllRows(c), HierarchyWhere(supertype), UnitStartOrder, r);
    if r.HierarchyRow? {
      AllRowsMember(c, r);
      forall s { HierarchyRowsIn(s, r); }
    }
  }
}
