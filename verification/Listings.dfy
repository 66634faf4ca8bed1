/** In which order the queries of the index list their answers, and how often: what a caller sees who reads a list from
    its start or cuts it short. */
module Listings {
  import opened Prelude
  import opened Relation
  import opened Ordering
  import opened Canonical
  import opened Tables
  import opened Store
  import opened Lookups
  import opened Selector
  import opened SemanticQuery
  import opened Applications

  // Lists without repetition.

  predicate NoneAlike<T, J(==)>(s: seq<T>, id: T -> J) {
    forall i, j :: 0 <= i < j < |s| ==> id(s[i]) != id(s[j])
  }

  lemma {:induction false} PlaceNoneAlike<T, J>(x: T, s: seq<T>, le: (T, T) -> bool, id: T -> J)
    requires NoneAlike(s, id) && forall y :: y in s ==> id(y) != id(x)
    ensures NoneAlike(Place(x, s, le), id)
  {
    if s != [] && !le(x, s[0]) {
      PlaceNoneAlike(x, s[1..], le, id);
      var rest := Place(x, s[1..], le);
      forall j | 0 <= j < |rest| ensures id(s[0]) != id(rest[j]) {
        assert rest[j] in multiset(rest);
        if rest[j] != x {
          var k :| 0 <= k < |s[1..]| && s[1..][k] == rest[j];
        }
      }
    }
  }

  lemma SortedMembers<T>(s: seq<T>, le: (T, T) -> bool, y: T)
    requires y in SortBy(s, le)
    ensures y in s
  {
    SortByMembers(s, le);
  }

  lemma {:induction false} SortNoneAlike<T, J>(s: seq<T>, le: (T, T) -> bool, id: T -> J)
    requires NoneAlike(s, id)
    ensures NoneAlike(SortBy(s, le), id)
  {
    if s != [] {
      var rest := s[1..];
      SortNoneAlike(rest, le, id);
      var sorted := SortBy(rest, le);
      forall y | y in sorted ensures id(y) != id(s[0]) {
        SortedMembers(rest, le, y);
        var k :| 0 <= k < |rest| && rest[k] == y;
        assert s[k + 1] == y;
      }
      PlaceNoneAlike(s[0], sorted, le, id);
    }
  }

  /** A selection from keyed rows that takes different keys to different identities lists no identity twice. */
  lemma {:induction false} SelectNoneAlike<T, J>(rows: seq<Row>, f: Row -> Option<T>, id: T -> J)
    requires KeysDistinct(KeyOf, rows)
    requires forall r, q :: r in rows && q in rows && f(r).Some? && f(q).Some? && id(f(r).value) == id(f(q).value) ==>
      KeyOf(r).Some? && KeyOf(r) == KeyOf(q)
    ensures NoneAlike(FilterMap(rows, f), id)
  {
    hide KeyOf;
    if rows != [] {
      assert rows == [rows[0]] + rows[1..];
      SelectNoneAlike(rows[1..], f, id);
      if f(rows[0]).Some? {
        var rest := FilterMap(rows[1..], f);
        forall j | 0 <= j < |rest| ensures id(rest[j]) != id(f(rows[0]).value) {
          FilterMapMember(rows[1..], f, rest[j]);
          var k :| 0 <= k < |rows[1..]| && f(rows[1..][k]) == Some(rest[j]);
          assert rows[1..][k] in rows;
        }
      }
    }
  }

  // Symbols.

  /** By source unit, then by where the name starts, then by id. */
  predicate Before(a: SymbolRecord, b: SymbolRecord) {
    var u, v := a.nameRange.sourceUnit, b.nameRange.sourceUnit;
    var s, t := a.nameRange.bytes.start, b.nameRange.bytes.start;
    StrLt(u, v) || (u == v && (s < t || (s == t && StrLt(a.id, b.id))))
  }

  lemma SymbolOrderTotal()
    ensures TotalPreorder(SymbolOrder)
  {
    StrLeTotalOrder();
    hide StrLe, StrLt;
    forall x, y ensures SymbolOrder(x, y) || SymbolOrder(y, x) {
      StrLtTrichotomy(x.declaration.sourceUnit, y.declaration.sourceUnit);
    }
    forall x, y, z | SymbolOrder(x, y) && SymbolOrder(y, z) ensures SymbolOrder(x, z) {
      OrderTransitive(x, y, z);
    }
  }

  lemma OrderTransitive(x: SymbolRecord, y: SymbolRecord, z: SymbolRecord)
    requires SymbolOrder(x, y) && SymbolOrder(y, z)
    ensures SymbolOrder(x, z)
  {
    hide StrLt;
    StrLeTotalOrder();
    var u, v, w := x.declaration.sourceUnit, y.declaration.sourceUnit, z.declaration.sourceUnit;
    if u != v && v != w {
      StrLtTransitive(u, v, w);
      StrLtTrichotomy(u, u);
    }
  }

  function IdOf(y: SymbolRecord): string {
    y.id
  }

  /** A list of stored symbols is in order: sorted, with one place for each. */
  lemma SortedSymbols(c: seq<Snapshot>, found: seq<SymbolRecord>, i: nat, j: nat)
    requires i < j < |found| && NoneAlike(found, IdOf)
    requires forall y :: y in found ==> StoredSymbolOf(c, y)
    ensures |SortBy(found, SymbolOrder)| == |found|
    ensures Before(SortBy(found, SymbolOrder)[i], SortBy(found, SymbolOrder)[j])
  {
    hide SymbolOrder, StoredSymbolOf, StrLt;
    var list := SortBy(found, SymbolOrder);
    SymbolOrderTotal();
    SortBySorted(found, SymbolOrder);
    SortNoneAlike(found, SymbolOrder, IdOf);
    SortByMembers(found, SymbolOrder);
    assert list[i] in list && list[j] in list;
    StoredUnit(c, list[i]);
    StoredUnit(c, list[j]);
    OrderIsBefore(list[i], list[j]);
  }

  lemma StoredUnit(c: seq<Snapshot>, y: SymbolRecord)
    requires StoredSymbolOf(c, y)
    ensures y.declaration.sourceUnit == y.nameRange.sourceUnit
  {
  }

  lemma OrderIsBefore(a: SymbolRecord, b: SymbolRecord)
    requires SymbolOrder(a, b) && a.id != b.id
    requires a.declaration.sourceUnit == a.nameRange.sourceUnit && b.declaration.sourceUnit == b.nameRange.sourceUnit
    ensures Before(a, b)
  {
    hide StrLt;
  }

  /** Every symbol query lists its answers in order, each once. */
  lemma SymbolsInOrder(c: seq<Snapshot>, where: Row -> bool, i: nat, j: nat)
    requires WellStored(c) && i < j < |SymbolsWhere(AllRows(c), where)|
    ensures Before(SymbolsWhere(AllRows(c), where)[i], SymbolsWhere(AllRows(c), where)[j])
  {
    hide AllRows, SymbolOrder, StoredSymbolOf, Before, KeysDistinct;
    var rows := AllRows(c);
    var found := FilterMap(rows, JoinWhere(rows, where));
    forall r, q | JoinWhere(rows, where)(r).Some? && JoinWhere(rows, where)(q).Some?
        && JoinWhere(rows, where)(r).value.id == JoinWhere(rows, where)(q).value.id
      ensures KeyOf(r).Some? && KeyOf(r) == KeyOf(q)
    {
      JoinedKey(rows, where, r);
      JoinedKey(rows, where, q);
    }
    SelectNoneAlike(rows, JoinWhere(rows, where), IdOf);
    SortByMembers(found, SymbolOrder);
    forall y | y in found ensures StoredSymbolOf(c, y) {
      SymbolsMember(c, where, y);
      FoundStored(c, where, y);
    }
    SortedSymbols(c, found, i, j);
  }

  lemma JoinedKey(rows: seq<Row>, where: Row -> bool, r: Row)
    requires JoinWhere(rows, where)(r).Some?
    ensures KeyOf(r) == Some(SymbolKey(JoinWhere(rows, where)(r).value.id))
  {
    assert r.SymbolRow? && JoinSymbol(rows, r).value.id == r.symbol;
  }

  lemma FoundStored(c: seq<Snapshot>, where: Row -> bool, y: SymbolRecord)
    requires exists s, x :: s in c && x in s.symbols && where(SymbolRowOf(s.sourceUnit.id, x)) && y == ReadBack(x, s)
    ensures StoredSymbolOf(c, y)
  {
    hide ReadBack;
  }

  lemma AppliedKey(c: seq<Snapshot>, annotation: string, r: Row, q: Row)
    requires WellStored(c) && r in AllRows(c) && q in AllRows(c)
    requires AppliedWhere(AllRows(c), annotation)(r).Some? && AppliedWhere(AllRows(c), annotation)(q).Some?
    requires AppliedWhere(AllRows(c), annotation)(r).value.id == AppliedWhere(AllRows(c), annotation)(q).value.id
    ensures KeyOf(r).Some? && KeyOf(r) == KeyOf(q)
  {
    hide WellStored, SymbolById, AllRows;
    FoundById(c, r.symbol);
    FoundById(c, q.symbol);
    var s, x := AnnotationOwner(c, r);
    var t, z := AnnotationOwner(c, q);
    SymbolIdsUnique(c, s, t, x, z);
  }

  lemma FoundById(c: seq<Snapshot>, id: string)
    requires WellStored(c) && SymbolById(AllRows(c), id).Some?
    ensures SymbolById(AllRows(c), id).value.id == id
  {
    hide WellStored, AllRows, SymbolById;
    SymbolByIdScan(c, id, SymbolById(AllRows(c), id).value);
  }

  lemma AnnotationOwner(c: seq<Snapshot>, r: Row) returns (s: Snapshot, x: SymbolRecord)
    requires r in AllRows(c) && r.AnnotationRow?
    ensures s in c && x in s.symbols && x.id == r.symbol && r.unit == s.sourceUnit.id
  {
    hide SnapshotRows;
    AllRowsMember(c, r);
    var k :| 0 <= k < |c| && r in SnapshotRows(c[k]);
    s := c[k];
    AnnotationRowsIn(s, r);
    var y, a :| y in s.symbols && a in y.appliedSymbols && r == AnnotationRow(s.sourceUnit.id, y.id, a);
    x := y;
  }

  /** The symbols applying an annotation are listed in order, each once. */
  lemma AppliedInOrder(c: seq<Snapshot>, annotation: string, i: nat, j: nat)
    requires WellStored(c) && i < j < |SymbolsApplying(AllRows(c), annotation)|
    ensures Before(SymbolsApplying(AllRows(c), annotation)[i], SymbolsApplying(AllRows(c), annotation)[j])
  {
    hide AllRows, SymbolOrder, StoredSymbolOf, Before, KeyOf, ReadBack, SymbolById;
    var rows := AllRows(c);
    var where := AppliedWhere(rows, annotation);
    var found := FilterMap(rows, where);
    forall r, q | r in rows && q in rows && where(r).Some? && where(q).Some? && where(r).value.id == where(q).value.id
      ensures KeyOf(r).Some? && KeyOf(r) == KeyOf(q)
    {
      AppliedKey(c, annotation, r, q);
    }
    SelectNoneAlike(rows, where, IdOf);
    SortByMembers(found, SymbolOrder);
    forall y | y in found ensures StoredSymbolOf(c, y) {
      AppliedScan(c, annotation, y);
      AppliedStored(c, annotation, y);
    }
    SortedSymbols(c, found, i, j);
  }

  lemma AppliedStored(c: seq<Snapshot>, annotation: string, y: SymbolRecord)
    requires exists s, x :: s in c && x in s.symbols && annotation in x.appliedSymbols && y == ReadBack(x, s)
    ensures StoredSymbolOf(c, y)
  {
    hide ReadBack;
  }

  // The nested pattern, which drops repetitions after sorting.

  /** Sorting brings equal symbols together, so that dropping neighbours leaves each once. */
  lemma {:induction false} DedupInOrder(c: seq<Snapshot>, s: seq<SymbolRecord>)
    requires WellStored(c) && Ordering.Sorted(s, SymbolOrder)
    requires forall y :: y in s ==> StoredSymbolOf(c, y)
    ensures Ordered(Dedup(s), Before)
  {
    hide WellStored, StoredSymbolOf, SymbolOrder, Before;
    if |s| >= 2 {
      var rest := s[1..];
      assert s == [s[0]] + rest;
      DedupInOrder(c, rest);
      if s[0] != s[1] {
        forall y | y in Dedup(rest) ensures Before(s[0], y) {
          var k :| 0 <= k < |rest| && rest[k] == y;
          assert SymbolOrder(s[0], s[k + 1]) && SymbolOrder(s[0], s[1]);
          if k > 0 { assert SymbolOrder(s[1], s[k + 1]); }
          LaterApart(c, s[0], s[1], y);
        }
      }
    }
  }

  lemma LaterApart(c: seq<Snapshot>, x: SymbolRecord, y: SymbolRecord, z: SymbolRecord)
    requires WellStored(c) && StoredSymbolOf(c, x) && StoredSymbolOf(c, y) && StoredSymbolOf(c, z)
    requires x != y && SymbolOrder(x, y) && SymbolOrder(x, z) && (y == z || SymbolOrder(y, z))
    ensures Before(x, z)
  {
    hide WellStored, StoredSymbolOf, StrLt, StrLe;
    StoredUnit(c, x);
    StoredUnit(c, y);
    StoredUnit(c, z);
    SameIdSame(c, x, y);
    SameIdSame(c, x, z);
    OrderIsBefore(x, y);
    if y != z {
      if x.id == z.id {
        SameIdSame(c, y, z);
        OrderIsBefore(y, z);
        BeforeOnce(x, y);
      } else {
        OrderIsBefore(x, z);
      }
    }
  }

  lemma BeforeOnce(x: SymbolRecord, y: SymbolRecord)
    ensures !(Before(x, y) && Before(y, x))
  {
    hide StrLt;
    StrLtTrichotomy(x.nameRange.sourceUnit, y.nameRange.sourceUnit);
    StrLtTrichotomy(x.nameRange.sourceUnit, x.nameRange.sourceUnit);
    StrLtTrichotomy(x.id, y.id);
    StrLtTrichotomy(x.id, x.id);
  }

  lemma SameIdSame(c: seq<Snapshot>, x: SymbolRecord, y: SymbolRecord)
    requires WellStored(c) && StoredSymbolOf(c, x) && StoredSymbolOf(c, y)
    ensures x.id == y.id ==> x == y
  {
    hide WellStored, ReadBack;
    if x.id == y.id {
      var s, a :| s in c && a in s.symbols && x == ReadBack(a, s);
      var t, b :| t in c && b in t.symbols && y == ReadBack(b, t);
      ReadBackId(a, s);
      ReadBackId(b, t);
      SymbolIdsUnique(c, s, t, a, b);
    }
  }

  lemma ReadBackId(x: SymbolRecord, s: Snapshot)
    ensures ReadBack(x, s).id == x.id
  {
  }

  /** The symbols of the nested pattern are listed in order, each once. */
  lemma NestedInOrder(c: seq<Snapshot>, nested: string, outer: string, name: string, value: ApplicationValue)
    requires WellStored(c)
    ensures Ordered(NestedMatches(AllRows(c), nested, outer, name, value), Before)
  {
    hide WellStored, AllRows, Before, SymbolOrder, StoredSymbolOf, Applies, OuterMatches, NestedWhere;
    var rows := AllRows(c);
    var found := FilterMap(rows, NestedWhere(rows, nested));
    SymbolOrderTotal();
    SortBySorted(found, SymbolOrder);
    forall y | y in SortBy(found, SymbolOrder) ensures StoredSymbolOf(c, y) {
      NestedCandidatesScan(c, nested, y);
    }
    DedupInOrder(c, SortBy(found, SymbolOrder));
    FilterOrdered(NestedCandidates(rows, nested),
                  (y: SymbolRecord) => y.owner.Some? && OuterMatches(rows, y.owner.value, outer, name, value), Before);
  }

  // Edges.

  lemma EdgesSorted(rows: seq<Row>)
    requires (forall r :: r in rows ==> r.ReferenceRow?) || (forall r :: r in rows ==> r.CallRow?)
             || (forall r :: r in rows ==> r.HierarchyRow?)
    ensures Sorted(SortBy(rows, UnitStartOrder), UnitStartOrder)
    decreases |rows|
  {
    hide StrLt;
    if rows != [] {
      assert rows == [rows[0]] + rows[1..];
      EdgesSorted(rows[1..]);
      SortByMembers(rows[1..], UnitStartOrder);
      PlaceUnitStart(rows[0], SortBy(rows[1..], UnitStartOrder));
    }
  }

  predicate Alike(a: Row, b: Row) {
    (a.ReferenceRow? && b.ReferenceRow?) || (a.CallRow? && b.CallRow?) || (a.HierarchyRow? && b.HierarchyRow?)
  }

  lemma UnitStartEither(a: Row, b: Row)
    requires Alike(a, b)
    ensures UnitStartOrder(a, b) || UnitStartOrder(b, a)
  {
    hide StrLt;
    StrLtTrichotomy(a.unit, b.unit);
    if a.HierarchyRow? {
      StrLtTrichotomy(a.subtype, b.subtype);
    }
  }

  lemma UnitStartTransitive(a: Row, b: Row, d: Row)
    requires Alike(a, b) && Alike(b, d) && UnitStartOrder(a, b) && UnitStartOrder(b, d)
    ensures UnitStartOrder(a, d)
  {
    hide StrLt;
    StrLtTrichotomy(a.unit, a.unit);
    if StrLt(a.unit, b.unit) && StrLt(b.unit, d.unit) {
      StrLtTransitive(a.unit, b.unit, d.unit);
    }
    if a.HierarchyRow? && StrLt(a.subtype, b.subtype) && StrLt(b.subtype, d.subtype) {
      StrLtTransitive(a.subtype, b.subtype, d.subtype);
    }
  }

  /** Nothing comes before what the first does not come before. */
  lemma HeadFirst(x: Row, s: seq<Row>)
    requires s != [] && (forall y :: y in s ==> Alike(x, y)) && Sorted(s, UnitStartOrder) && UnitStartOrder(x, s[0])
    ensures forall j :: 0 <= j < |s| ==> UnitStartOrder(x, s[j])
  {
    hide UnitStartOrder;
    forall j | 0 <= j < |s| ensures UnitStartOrder(x, s[j]) {
      assert s[0] in s && s[j] in s;
      if j > 0 {
        AlikeBoth(x, s[0], s[j]);
        UnitStartTransitive(x, s[0], s[j]);
      }
    }
  }

  lemma AlikeBoth(x: Row, y: Row, z: Row)
    requires Alike(x, y) && Alike(x, z)
    ensures Alike(y, x) && Alike(y, z)
  {
  }

  lemma {:induction false} PlaceUnitStart(x: Row, s: seq<Row>)
    requires forall y :: y in s ==> Alike(x, y)
    requires Sorted(s, UnitStartOrder)
    ensures Sorted(Place(x, s, UnitStartOrder), UnitStartOrder)
  {
    hide UnitStartOrder, Alike, Sorted;
    if s != [] {
      assert s[0] in s && forall y :: y in s[1..] ==> y in s;
      UnitStartEither(x, s[0]);
      if UnitStartOrder(x, s[0]) {
        HeadFirst(x, s);
        SortedCons(x, s);
      } else {
        TailSorted(s);
        PlaceUnitStart(x, s[1..]);
        PlacedAfter(s[0], x, s[1..]);
        SortedCons(s[0], Place(x, s[1..], UnitStartOrder));
      }
    } else {
      SortedCons(x, []);
      assert [x] + [] == [x];
    }
  }

  lemma SortedCons(head: Row, rest: seq<Row>)
    requires Sorted(rest, UnitStartOrder) && forall j :: 0 <= j < |rest| ==> UnitStartOrder(head, rest[j])
    ensures Sorted([head] + rest, UnitStartOrder)
  {
    hide UnitStartOrder;
  }

  lemma TailSorted(s: seq<Row>)
    requires s != [] && Sorted(s, UnitStartOrder)
    ensures Sorted(s[1..], UnitStartOrder)
    ensures forall j :: 0 <= j < |s[1..]| ==> UnitStartOrder(s[0], s[1..][j])
  {
    hide UnitStartOrder;
  }

  lemma PlacedAfter(head: Row, x: Row, rest: seq<Row>)
    requires UnitStartOrder(head, x) && (forall j :: 0 <= j < |rest| ==> UnitStartOrder(head, rest[j]))
    ensures forall j :: 0 <= j < |Place(x, rest, UnitStartOrder)| ==>
      UnitStartOrder(head, Place(x, rest, UnitStartOrder)[j])
  {
    hide UnitStartOrder;
    var placed := Place(x, rest, UnitStartOrder);
    forall j | 0 <= j < |placed| ensures UnitStartOrder(head, placed[j]) {
      assert placed[j] in multiset(placed);
      if placed[j] != x {
        var k :| 0 <= k < |rest| && rest[k] == placed[j];
      }
    }
  }

  function KeyedBy(r: Row): Option<Key> {
    KeyOf(r)
  }

  lemma EdgesOnce(rows: seq<Row>, where: Row -> Option<Row>)
    requires KeysDistinct(KeyOf, rows)
    requires forall r :: where(r).Some? ==> where(r).value == r && KeyOf(r).Some?
    ensures NoneAlike(SortBy(FilterMap(rows, where), UnitStartOrder), KeyedBy)
  {
    SelectNoneAlike(rows, where, KeyedBy);
    SortNoneAlike(FilterMap(rows, where), UnitStartOrder, KeyedBy);
  }

  lemma ReferenceRows(target: string)
    ensures forall r :: ReferenceWhere(target)(r).Some? ==> ReferenceWhere(target)(r).value == r && KeyOf(r).Some?
  {
  }

  lemma ReferencePair(target: string, a: Row, b: Row)
    requires ReferenceWhere(target)(a).Some? && ReferenceWhere(target)(b).Some? && UnitStartOrder(a, b) &&
      KeyedBy(a) != KeyedBy(b)
    ensures a != b && (StrLt(a.unit, b.unit) || (a.unit == b.unit && a.start <= b.start))
  {
    hide StrLt;
  }

  /** References come by source unit and then by where they start, each once. */
  lemma ReferencesInOrder(c: seq<Snapshot>, target: string, i: nat, j: nat)
    requires WellStored(c) && i < j < |ReferencesTo(AllRows(c), target)|
    ensures var a, b := ReferencesTo(AllRows(c), target)[i], ReferencesTo(AllRows(c), target)[j];
      && a.ReferenceRow? && b.ReferenceRow? && a != b
      && (|| StrLt(a.unit, b.unit)
          || (a.unit == b.unit && a.reference.source.range.bytes.start <= b.reference.source.range.bytes.start))
  {
    hide AllRows, KeyOf, KeyedBy, KeysDistinct, UnitStartOrder, StrLt;
    var rows, where := AllRows(c), ReferenceWhere(target);
    var list := ReferencesTo(rows, target);
    ReferenceRows(target);
    forall r: Row | r in FilterMap(rows, where) ensures r.ReferenceRow? {
      FilterMapMember(rows, where, r);
    }
    EdgesSorted(FilterMap(rows, where));
    EdgesOnce(rows, where);
    assert list[i] in list && list[j] in list;
    SelectionMember(rows, where, UnitStartOrder, list[i]);
    SelectionMember(rows, where, UnitStartOrder, list[j]);
    ReferencePair(target, list[i], list[j]);
    ReferencesMember(c, target, list[i]);
    ReferencesMember(c, target, list[j]);
  }

  lemma CallRows(target: string)
    ensures forall r :: CallWhere(target)(r).Some? ==> CallWhere(target)(r).value == r && KeyOf(r).Some?
  {
  }

  lemma CallPair(target: string, a: Row, b: Row)
    requires CallWhere(target)(a).Some? && CallWhere(target)(b).Some? && UnitStartOrder(a, b) &&
      KeyedBy(a) != KeyedBy(b)
    ensures a != b && (StrLt(a.unit, b.unit) || (a.unit == b.unit && a.start <= b.start))
  {
    hide StrLt;
  }

  /** Calls come by source unit and then by where they start, each once. */
  lemma CallsInOrder(c: seq<Snapshot>, target: string, i: nat, j: nat)
    requires WellStored(c) && i < j < |CallsTo(AllRows(c), target)|
    ensures var a, b := CallsTo(AllRows(c), target)[i], CallsTo(AllRows(c), target)[j];
      && a.CallRow? && b.CallRow? && a != b
      && (|| StrLt(a.unit, b.unit)
          || (a.unit == b.unit && a.call.source.range.bytes.start <= b.call.source.range.bytes.start))
  {
    hide AllRows, KeyOf, KeyedBy, KeysDistinct, UnitStartOrder, StrLt;
    var rows, where := AllRows(c), CallWhere(target);
    var list := CallsTo(rows, target);
    CallRows(target);
    forall r: Row | r in FilterMap(rows, where) ensures r.CallRow? {
      FilterMapMember(rows, where, r);
    }
    EdgesSorted(FilterMap(rows, where));
    EdgesOnce(rows, where);
    assert list[i] in list && list[j] in list;
    SelectionMember(rows, where, UnitStartOrder, list[i]);
    SelectionMember(rows, where, UnitStartOrder, list[j]);
    CallPair(target, list[i], list[j]);
    CallsMember(c, target, list[i]);
    CallsMember(c, target, list[j]);
  }

  predicate EdgeBefore(a: Row, b: Row) {
    && a.HierarchyRow? && b.HierarchyRow?
    && (StrLt(a.unit, b.unit) || (a.unit == b.unit && StrLt(a.edge.subtype, b.edge.subtype)))
  }

  lemma HierarchyRows(supertype: string)
    ensures forall r :: HierarchyWhere(supertype)(r).Some? ==> HierarchyWhere(supertype)(r).value == r && KeyOf(r).Some?
  {
  }

  lemma HierarchyPair(supertype: string, a: Row, b: Row)
    requires HierarchyWhere(supertype)(a).Some? && HierarchyWhere(supertype)(b).Some?
    requires a.subtype == a.edge.subtype && b.subtype == b.edge.subtype
    requires UnitStartOrder(a, b) && KeyedBy(a) != KeyedBy(b)
    ensures EdgeBefore(a, b)
  {
    hide StrLt;
  }

  /** Edges into a supertype come by source unit and then by subtype, each once. */
  lemma ImplementationsInOrder(c: seq<Snapshot>, supertype: string, i: nat, j: nat)
    requires WellStored(c) && i < j < |ImplementationsOf(AllRows(c), supertype)|
    ensures EdgeBefore(ImplementationsOf(AllRows(c), supertype)[i], ImplementationsOf(AllRows(c), supertype)[j])
  {
    hide AllRows, KeyOf, KeyedBy, KeysDistinct, UnitStartOrder, StrLt;
    var rows, where := AllRows(c), HierarchyWhere(supertype);
    var list := ImplementationsOf(rows, supertype);
    HierarchyRows(supertype);
    forall r: Row | r in FilterMap(rows, where) ensures r.HierarchyRow? {
      FilterMapMember(rows, where, r);
    }
    EdgesSorted(FilterMap(rows, where));
    EdgesOnce(rows, where);
    assert list[i] in list && list[j] in list;
    SelectionMember(rows, where, UnitStartOrder, list[i]);
    SelectionMember(rows, where, UnitStartOrder, list[j]);
    ImplementationsMember(c, supertype, list[i]);
    ImplementationsMember(c, supertype, list[j]);
    HierarchyPair(supertype, list[i], list[j]);
  }

  // Selections.

  function Given<A, B>(f: A -> Option<B>): A -> bool {
    (a: A) => f(a).Some?
  }

  lemma {:induction false} FilterMapPairs<A, B>(s: seq<A>, f: A -> Option<B>)
    ensures var kept := Filter(s, Given(f));
      |kept| == |FilterMap(s, f)| && forall i :: 0 <= i < |kept| ==> f(kept[i]) == Some(FilterMap(s, f)[i])
  {
    if s != [] {
      FilterMapPairs(s[1..], f);
    }
  }

  ghost predicate Ordered<A>(s: seq<A>, before: (A, A) -> bool) {
    forall i, j :: 0 <= i < j < |s| ==> before(s[i], s[j])
  }

  lemma {:induction false} FilterOrdered<A>(s: seq<A>, p: A -> bool, before: (A, A) -> bool)
    requires Ordered(s, before)
    ensures Ordered(Filter(s, p), before)
  {
    if s != [] {
      FilterOrdered(s[1..], p, before);
      var rest := Filter(s[1..], p);
      forall j | 0 <= j < |rest| ensures before(s[0], rest[j]) {
        FilterMember(s[1..], p, rest[j]);
        var k :| 0 <= k < |s[1..]| && s[1..][k] == rest[j];
        assert before(s[0], s[k + 1]);
      }
    }
  }

  /** A committed hierarchy edge into a supertype whose subtype is a stored symbol. */
  ghost predicate ListedEdge(c: seq<Snapshot>, supertype: string, r: Row) {
    exists s, e, y :: s in c && e in s.hierarchy && e.supertype == supertype && r == HierarchyRowOf(s.sourceUnit.id, e)
      && StoredSymbolOf(c, y) && y.id == e.subtype
  }

  /** The subtypes of a symbol are listed edge by edge, in the order of the edges: one place for each committed edge
      whose subtype is a stored symbol. */
  lemma SubtypesListed(c: seq<Snapshot>, supertype: string) returns (edges: seq<Row>)
    requires WellStored(c)
    ensures var list := SubtypesByPosting(AllRows(c), supertype);
      && |edges| == |list|
      && forall i :: 0 <= i < |list| ==>
           edges[i].HierarchyRow? && StoredSymbolOf(c, list[i]) && list[i].id == edges[i].subtype
    ensures Ordered(edges, EdgeBefore)
    ensures forall r :: r in edges <==> ListedEdge(c, supertype, r)
  {
    hide WellStored, AllRows, SymbolById, ImplementationsOf, StoredSymbolOf, EdgeBefore;
    var rows := AllRows(c);
    var all := ImplementationsOf(rows, supertype);
    var f := (r: Row) => if r.HierarchyRow? then SymbolById(rows, r.subtype) else None;
    edges := Filter(all, Given(f));
    FilterMapPairs(all, f);
    forall i, j | 0 <= i < j < |all| ensures EdgeBefore(all[i], all[j]) {
      ImplementationsInOrder(c, supertype, i, j);
    }
    FilterOrdered(all, Given(f), EdgeBefore);
    var list := SubtypesByPosting(rows, supertype);
    forall i | 0 <= i < |list| ensures StoredSymbolOf(c, list[i]) && list[i].id == edges[i].subtype {
      StoredById(c, edges[i].subtype, list[i]);
    }
    forall r ensures r in edges <==> ListedEdge(c, supertype, r) {
      FilterMember(all, Given(f), r);
      ImplementationsMember(c, supertype, r);
      if r in edges {
        StoredById(c, r.subtype, f(r).value);
      }
      if ListedEdge(c, supertype, r) {
        var s, e, y :| s in c && e in s.hierarchy && e.supertype == supertype
          && r == HierarchyRowOf(s.sourceUnit.id, e) && StoredSymbolOf(c, y) && y.id == e.subtype;
        StoredById(c, r.subtype, y);
      }
    }
  }

  lemma StoredById(c: seq<Snapshot>, id: string, y: SymbolRecord)
    requires WellStored(c)
    ensures SymbolById(AllRows(c), id) == Some(y) <==> StoredSymbolOf(c, y) && y.id == id
  {
    hide WellStored, AllRows, SymbolById;
    SymbolByIdScan(c, id, y);
  }

  /** A query over what applies a symbol returns the first of its answers in order: every answer that it leaves out
      comes after all it returns, and it leaves out none unless the limit is reached. */
  lemma FirstAnswers(c: seq<Snapshot>, locators: Locators, program: QueryProgram, parameters: QueryParameters,
                     y: SymbolRecord)
    requires WellStored(c) && program.from.FromApplied?
    requires Executed(AllRows(c), locators, program, parameters).Ok? && Answers(c, locators, program, parameters, y)
    ensures var found := Executed(AllRows(c), locators, program, parameters).value.symbols;
      && Ordered(found, Before)
      && (y !in found ==> |found| == program.limit && forall x :: x in found ==> Before(x, y))
  {
    hide WellStored, AllRows, Before, Answers, Selected, Compiled;
    var plan := Compiled(locators, program, parameters).value;
    CompilationPreservesMeaning(c, locators, program, parameters, y);
    AppliedPlan(locators, program, parameters);
    AppliedSelected(c, plan);
    CutShort(Selected(AllRows(c), plan.selector).value.symbols, program.limit, y);
  }

  function Cut(all: seq<SymbolRecord>, limit: nat): seq<SymbolRecord> {
    if |all| > limit then all[..limit] else all
  }

  lemma CutShort(all: seq<SymbolRecord>, limit: nat, y: SymbolRecord)
    requires Ordered(all, Before) && y in all
    ensures Ordered(Cut(all, limit), Before)
    ensures y !in Cut(all, limit) ==>
      |Cut(all, limit)| == limit && forall x :: x in Cut(all, limit) ==> Before(x, y)
  {
    hide Before;
    var found := Cut(all, limit);
    var k :| 0 <= k < |all| && all[k] == y;
    if y !in found {
      assert forall i :: 0 <= i < |found| ==> found[i] == all[i] && found[i] in found;
      forall x | x in found ensures Before(x, y) {
        var i :| 0 <= i < |found| && found[i] == x;
        assert all[i] == x;
      }
    }
  }

  lemma AppliedPlan(locators: Locators, program: QueryProgram, parameters: QueryParameters)
    requires program.from.FromApplied? && Compiled(locators, program, parameters).Ok?
    ensures var plan := Compiled(locators, program, parameters).value;
      && plan.selector.views == [] && plan.selector.predicates != [] && plan.selector.predicates[0].AppliedSymbol?
      && plan.limit == program.limit
      && forall p :: p in plan.selector.predicates[1..] ==> !p.SubtypeOf? && !p.AppliedSymbol?
  {
    hide Compiled, SymbolDenotes;
    var plan := Compiled(locators, program, parameters).value;
    CompiledExactly(locators, program, parameters, plan, InvalidLimit);
    var all := plan.selector.predicates;
    forall p | p in all[1..] ensures !p.SubtypeOf? && !p.AppliedSymbol? {
      var i :| 0 <= i < |all[1..]| && all[1..][i] == p;
      assert Demands(parameters, program.predicates[i], all[i + 1]);
    }
  }

  lemma AppliedSelected(c: seq<Snapshot>, plan: CompiledQuery)
    requires WellStored(c) && plan.selector.views == [] && plan.selector.predicates != []
    requires plan.selector.predicates[0].AppliedSymbol?
    requires forall p :: p in plan.selector.predicates[1..] ==> !p.SubtypeOf? && !p.AppliedSymbol?
    requires Selected(AllRows(c), plan.selector).Ok?
    ensures Ordered(Selected(AllRows(c), plan.selector).value.symbols, Before)
  {
    hide WellStored, AllRows, Before, SymbolsApplying, MatchesAll;
    var predicates := plan.selector.predicates;
    assert Normalized(plan.selector) == predicates;
    forall i | 0 <= i < |predicates| ensures SupertypeIn(predicates[i]) == None {
      if i > 0 { assert predicates[1..][i - 1] == predicates[i]; }
    }
    FilterMapNothing(predicates, SupertypeIn);
    forall i | 0 <= i < |predicates[1..]| ensures AnnotationIn(predicates[1..][i]) == None {
    }
    FilterMapNothing(predicates[1..], AnnotationIn);
    assert Annotations(predicates) == [predicates[0].symbol];
    var list := SymbolsApplying(AllRows(c), predicates[0].symbol);
    forall i, j | 0 <= i < j < |list| ensures Before(list[i], list[j]) {
      AppliedInOrder(c, predicates[0].symbol, i, j);
    }
    FilterOrdered(list, PassesAll(predicates), Before);
  }
}
