/** The nested-owner application pattern: a symbol with one application whose owner has another
    application carrying a given named argument. */
module Applications {
  import opened Prelude
  import opened Canonical
  import opened Tables
  import opened Store
  import opened Lookups
  import opened Ordering
  import opened Selector

  function NestedWhere(rows: seq<Row>, nested: string): Row -> Option<SymbolRecord> {
    (r: Row) => if r.ApplicationRow? && r.target == nested then SymbolById(rows, r.subject) else None
  }

  /** SELECT DISTINCT symbols joined with the applications of the nested target, in symbol order. */
  function NestedCandidates(rows: seq<Row>, nested: string): seq<SymbolRecord> {
    Dedup(SortBy(FilterMap(rows, NestedWhere(rows, nested)), SymbolOrder))
  }

  predicate IsOuter(r: Row, owner: string, outer: string) {
    r.ApplicationRow? && r.subject == owner && r.target == outer
  }

  predicate IsArgument(r: Row, application: string, name: string, value: ApplicationValue) {
    r.ArgumentRow? && r.application == application && r.argument.name == Some(name) && r.argument.value == value
  }

  /** SELECT EXISTS over applications JOIN application_arguments. */
  predicate OuterMatches(rows: seq<Row>, owner: string, outer: string, name: string, value: ApplicationValue) {
    exists i, j :: 0 <= i < |rows| && 0 <= j < |rows|
      && IsOuter(rows[i], owner, outer) && IsArgument(rows[j], rows[i].application, name, value)
  }

  function NestedMatches(rows: seq<Row>, nested: string, outer: string, name: string,
                         value: ApplicationValue): seq<SymbolRecord> {
    Filter(NestedCandidates(rows, nested),
           (y: SymbolRecord) => y.owner.Some? && OuterMatches(rows, y.owner.value, outer, name, value))
  }

  method SymbolsWithNestedApplicationArgument(rows: seq<Row>, nested: string, outer: string, name: string,
                                              value: ApplicationValue)
      returns (result: seq<SymbolRecord>)
    ensures result == NestedMatches(rows, nested, outer, name, value)
  {
    var candidates := NestedCandidates(rows, nested);
    result := [];
    ghost var wanted := (y: SymbolRecord) => y.owner.Some? && OuterMatches(rows, y.owner.value, outer, name, value);
    var i := 0;
    while i < |candidates|
      invariant 0 <= i <= |candidates|
      invariant result + Filter(candidates[i..], wanted) == Filter(candidates, wanted)
    {
      assert candidates[i..][1..] == candidates[i + 1..];
      if candidates[i].owner.Some? && OuterMatches(rows, candidates[i].owner.value, outer, name, value) {
        result := result + [candidates[i]];
      }
      i := i + 1;
    }
  }

  lemma ApplicationRowsIn(s: Snapshot, r: Row)
    requires r.ApplicationRow?
    ensures r in SnapshotRows(s) <==> exists a :: a in s.applications && r == ApplicationRowOf(s.sourceUnit.id, a)
  {
    var u := s.sourceUnit.id;
    var f := (x: ApplicationFact) => ApplicationRows(u, x);
    RowsOwned(s, r);
    FlatMapMember(s.applications, f, r);
    if j :| 0 <= j < |s.applications| && r in f(s.applications[j]) {
      var a := s.applications[j];
      MapMember(a.arguments, (g: ApplicationArgument) => ArgumentRow(a.id, g), r);
      assert a in s.applications;
    }
    if a :| a in s.applications && r == ApplicationRowOf(u, a) {
      ApplicationRowIn(s, a);
    }
  }

  lemma ArgumentRowsIn(s: Snapshot, r: Row)
    requires r.ArgumentRow?
    ensures r in SnapshotRows(s) <==>
      exists a, g :: a in s.applications && g in a.arguments && r == ArgumentRow(a.id, g)
  {
    var u := s.sourceUnit.id;
    var f := (x: ApplicationFact) => ApplicationRows(u, x);
    RowsOwned(s, r);
    FlatMapMember(s.applications, f, r);
    if j :| 0 <= j < |s.applications| && r in f(s.applications[j]) {
      var a := s.applications[j];
      MapMember(a.arguments, (g: ApplicationArgument) => ArgumentRow(a.id, g), r);
      assert a in s.applications;
    }
    if a, g :| a in s.applications && g in a.arguments && r == ArgumentRow(a.id, g) {
      MapMember(a.arguments, (h: ApplicationArgument) => ArgumentRow(a.id, h), r);
      var k :| 0 <= k < |a.arguments| && a.arguments[k] == g;
      var j :| 0 <= j < |s.applications| && s.applications[j] == a;
      assert r in f(s.applications[j]);
    }
  }

  /** An application identity is committed at most once in the whole index. */
  lemma ApplicationsUnique(c: seq<Snapshot>, s: Snapshot, t: Snapshot, a: ApplicationFact, b: ApplicationFact)
    requires WellStored(c) && s in c && t in c && a in s.applications && b in t.applications && a.id == b.id
    ensures a == b && s.sourceUnit.id == t.sourceUnit.id
  {
    hide SnapshotRows;
    var x, y := ApplicationRowOf(s.sourceUnit.id, a), ApplicationRowOf(t.sourceUnit.id, b);
    ApplicationRowIn(s, a);
    ApplicationRowIn(t, b);
    AllRowsMember(c, x);
    AllRowsMember(c, y);
    SameKeySameRow(KeyOf, AllRows(c), x, y);
  }

  ghost predicate Applies(c: seq<Snapshot>, subject: string, target: string) {
    exists s, a :: s in c && a in s.applications && a.subject == subject && a.target == target
  }

  ghost predicate AppliesWith(c: seq<Snapshot>, subject: string, target: string, name: string,
                              value: ApplicationValue) {
    exists s, a, g :: s in c && a in s.applications && a.subject == subject && a.target == target
      && g in a.arguments && g.name == Some(name) && g.value == value
  }

  lemma NestedCandidatesScan(c: seq<Snapshot>, nested: string, y: SymbolRecord)
    requires WellStored(c)
    ensures y in NestedCandidates(AllRows(c), nested) <==> StoredSymbolOf(c, y) && Applies(c, y.id, nested)
  {
    hide WellStored, SnapshotRows, SymbolById;
    var rows := AllRows(c);
    var found := FilterMap(rows, NestedWhere(rows, nested));
    SortByMembers(found, SymbolOrder);
    FilterMapMember(rows, NestedWhere(rows, nested), y);
    if k :| 0 <= k < |rows| && NestedWhere(rows, nested)(rows[k]) == Some(y) {
      AllRowsMember(c, rows[k]);
      var j :| 0 <= j < |c| && rows[k] in SnapshotRows(c[j]);
      ApplicationRowsIn(c[j], rows[k]);
      SymbolByIdScan(c, rows[k].subject, y);
      assert c[j] in c;
    }
    if StoredSymbolOf(c, y) && Applies(c, y.id, nested) {
      var s, a :| s in c && a in s.applications && a.subject == y.id && a.target == nested;
      var r := ApplicationRowOf(s.sourceUnit.id, a);
      ApplicationRowIn(s, a);
      AllRowsMember(c, r);
      SymbolByIdScan(c, y.id, y);
      var k :| 0 <= k < |rows| && rows[k] == r;
      assert NestedWhere(rows, nested)(rows[k]) == Some(y);
    }
  }

  lemma ApplicationAt(c: seq<Snapshot>, r: Row) returns (s: Snapshot, a: ApplicationFact)
    requires r in AllRows(c) && r.ApplicationRow?
    ensures s in c && a in s.applications && r == ApplicationRowOf(s.sourceUnit.id, a)
  {
    AllRowsMember(c, r);
    var p :| 0 <= p < |c| && r in SnapshotRows(c[p]);
    s := c[p];
    ApplicationRowsIn(s, r);
    a :| a in s.applications && r == ApplicationRowOf(s.sourceUnit.id, a);
  }

  lemma ArgumentAt(c: seq<Snapshot>, r: Row) returns (s: Snapshot, a: ApplicationFact, g: ApplicationArgument)
    requires r in AllRows(c) && r.ArgumentRow?
    ensures s in c && a in s.applications && g in a.arguments && r == ArgumentRow(a.id, g)
  {
    AllRowsMember(c, r);
    var p :| 0 <= p < |c| && r in SnapshotRows(c[p]);
    s := c[p];
    ArgumentRowsIn(s, r);
    a, g :| a in s.applications && g in a.arguments && r == ArgumentRow(a.id, g);
  }

  lemma OuterScan(c: seq<Snapshot>, owner: string, outer: string, name: string, value: ApplicationValue)
    requires WellStored(c)
    ensures OuterMatches(AllRows(c), owner, outer, name, value) <==> AppliesWith(c, owner, outer, name, value)
  {
    hide WellStored, AllRows;
    var rows := AllRows(c);
    if OuterMatches(rows, owner, outer, name, value) {
      var i, j :| 0 <= i < |rows| && 0 <= j < |rows|
        && IsOuter(rows[i], owner, outer) && IsArgument(rows[j], rows[i].application, name, value);
      var s, a := ApplicationAt(c, rows[i]);
      var t, b, g := ArgumentAt(c, rows[j]);
      ApplicationsUnique(c, s, t, a, b);
    }
    if AppliesWith(c, owner, outer, name, value) {
      OuterFound(c, owner, outer, name, value);
    }
  }

  lemma OuterFound(c: seq<Snapshot>, owner: string, outer: string, name: string, value: ApplicationValue)
    requires AppliesWith(c, owner, outer, name, value)
    ensures OuterMatches(AllRows(c), owner, outer, name, value)
  {
    hide SnapshotRows, AllRows;
    var rows := AllRows(c);
    var s, a, g :| s in c && a in s.applications && a.subject == owner && a.target == outer
      && g in a.arguments && g.name == Some(name) && g.value == value;
    var x, y := ApplicationRowOf(s.sourceUnit.id, a), ArgumentRow(a.id, g);
    ApplicationRowIn(s, a);
    ArgumentRowsIn(s, y);
    AllRowsMember(c, x);
    AllRowsMember(c, y);
    var i :| 0 <= i < |rows| && rows[i] == x;
    var j :| 0 <= j < |rows| && rows[j] == y;
    assert IsOuter(rows[i], owner, outer) && IsArgument(rows[j], rows[i].application, name, value);
  }

  /** The joined query answers the pattern read off the committed snapshots. */
  lemma NestedScan(c: seq<Snapshot>, nested: string, outer: string, name: string, value: ApplicationValue,
                   y: SymbolRecord)
    requires WellStored(c)
    ensures y in NestedMatches(AllRows(c), nested, outer, name, value) <==>
      && StoredSymbolOf(c, y) && Applies(c, y.id, nested)
      && y.owner.Some? && AppliesWith(c, y.owner.value, outer, name, value)
  {
    hide WellStored, AllRows, NestedCandidates, OuterMatches, StoredSymbolOf, Applies, AppliesWith;
    NestedCandidatesScan(c, nested, y);
    FilterMember(NestedCandidates(AllRows(c), nested),
      (x: SymbolRecord) => x.owner.Some? && OuterMatches(AllRows(c), x.owner.value, outer, name, value), y);
    if y.owner.Some? {
      OuterScan(c, y.owner.value, outer, name, value);
    }
  }
}
