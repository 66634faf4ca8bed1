/** The queries over the records of one source unit: the occurrences at an offset, the types and the diagnostics. */
module UnitLookups {
  import opened Prelude
  import opened Relation
  import opened Ordering
  import opened Canonical
  import opened Tables
  import opened Store
  import opened Lookups

  function OccurrenceWhere(u: string, offset: nat): Row -> Option<Row> {
    (r: Row) => if r.OccurrenceRow? && r.unit == u && r.start <= offset < r.end then Some(r) else None
  }

  function TypeWhere(u: string): Row -> Option<Row> {
    (r: Row) => if r.TypeRow? && r.unit == u then Some(r) else None
  }

  function DiagnosticWhere(u: string): Row -> Option<Row> {
    (r: Row) => if r.DiagnosticRow? && r.unit == u then Some(r) else None
  }

  // The ORDER BY columns.

  function Interval(r: Row): ByteRange {
    if r.OccurrenceRow? then ByteRange(r.start, r.end) else ByteRange(0, 0)
  }

  /** Latest start first, then earliest end. */
  predicate InnermostOrder(a: Row, b: Row) {
    if Interval(a).start != Interval(b).start then Interval(a).start > Interval(b).start
    else Interval(a).end <= Interval(b).end
  }

  function TypeIdOf(r: Row): string {
    if r.TypeRow? then r.typeId else ""
  }

  predicate TypeIdOrder(a: Row, b: Row) {
    StrLe(TypeIdOf(a), TypeIdOf(b))
  }

  function SeverityText(severity: Severity): string {
    match severity
    case Error => "Error"
    case Warning => "Warning"
    case Information => "Information"
    case Hint => "Hint"
  }

  function DiagnosticPlace(r: Row): (Option<ByteRange>, string) {
    if r.DiagnosticRow? then (r.range, SeverityText(r.diagnostic.severity)) else (None, "")
  }

  /** A diagnostic without a range comes before all others, as NULL does. */
  predicate PlaceOrder(a: Row, b: Row) {
    match (DiagnosticPlace(a).0, DiagnosticPlace(b).0)
    case (None, None) => StrLe(DiagnosticPlace(a).1, DiagnosticPlace(b).1)
    case (None, Some(_)) => true
    case (Some(_), None) => false
    case (Some(x), Some(y)) =>
      if x.start != y.start then x.start < y.start
      else if x.end != y.end then x.end < y.end
      else StrLe(DiagnosticPlace(a).1, DiagnosticPlace(b).1)
  }

  // The queries.

  function OccurrencesAt(rows: seq<Row>, u: string, offset: nat): Result<seq<Row>, StoreError> {
    if offset > I64_MAX then Err(ByteOffsetOutOfRange(offset))
    else Ok(SortBy(FilterMap(rows, OccurrenceWhere(u, offset)), InnermostOrder))
  }

  function TypesFor(rows: seq<Row>, u: string): seq<Row> {
    SortBy(FilterMap(rows, TypeWhere(u)), TypeIdOrder)
  }

  function DiagnosticsFor(rows: seq<Row>, u: string): seq<Row> {
    SortBy(FilterMap(rows, DiagnosticWhere(u)), PlaceOrder)
  }

  /** What one unit has committed of one kind of record, selected. */
  function UnitPart(c: seq<Snapshot>, u: string, k: nat, where: Row -> Option<Row>): seq<Row> {
    if Find(c, u).Some? then FilterMap(Part(Find(c, u).value, k), where) else []
  }

  lemma {:induction false} NoOther(c: seq<Snapshot>, u: string, k: nat, where: Row -> Option<Row>)
    requires Find(c, u).None? && OfUnit(where, k, u)
    ensures FilterMap(AllRows(c), where) == []
  {
    hide SnapshotRows;
    if c != [] {
      NothingForeign(c[0], u, k, where);
      FilterMapConcat(SnapshotRows(c[0]), AllRows(c[1..]), where);
      NoOther(c[1..], u, k, where);
    }
  }

  ghost predicate OfUnit(where: Row -> Option<Row>, k: nat, u: string) {
    && k < PARTS
    && forall r :: where(r).Some? ==> where(r).value == r && PartOf(r) == k && !r.ArgumentRow? && r.unit == u
  }

  lemma NothingForeign(s: Snapshot, u: string, k: nat, where: Row -> Option<Row>)
    requires s.sourceUnit.id != u && OfUnit(where, k, u)
    ensures FilterMap(SnapshotRows(s), where) == []
  {
    hide SnapshotRows;
    var found := FilterMap(SnapshotRows(s), where);
    if found != [] {
      FilterMapMember(SnapshotRows(s), where, found[0]);
      RowsOwned(s, found[0]);
    }
  }

  /** A query for one unit over all the tables is the same query over what that unit has committed, record for
      record. */
  lemma {:induction false} UnitScan(c: seq<Snapshot>, u: string, k: nat, where: Row -> Option<Row>)
    requires forall i, j :: 0 <= i < j < |c| ==> c[i].sourceUnit.id != c[j].sourceUnit.id
    requires OfUnit(where, k, u)
    ensures FilterMap(AllRows(c), where) == UnitPart(c, u, k, where)
  {
    hide SnapshotRows, Part;
    if c != [] {
      FilterMapConcat(SnapshotRows(c[0]), AllRows(c[1..]), where);
      if c[0].sourceUnit.id == u {
        SelectPart(c[0], k, where);
        FindMember(c[1..], u);
        NoOther(c[1..], u, k, where);
      } else {
        NothingForeign(c[0], u, k, where);
        UnitScan(c[1..], u, k, where);
      }
    }
  }

  lemma AllDistinct(c: seq<Snapshot>)
    requires WellStored(c)
    ensures forall i, j :: 0 <= i < j < |c| ==> c[i].sourceUnit.id != c[j].sourceUnit.id
  {
    forall i, j | 0 <= i < j < |c| ensures c[i].sourceUnit.id != c[j].sourceUnit.id {
      UnitsDistinct(c, i, j);
    }
  }

  lemma UnitPartMember(c: seq<Snapshot>, u: string, k: nat, where: Row -> Option<Row>, r: Row)
    requires OfUnit(where, k, u)
    ensures r in UnitPart(c, u, k, where) <==> where(r).Some? && Find(c, u).Some? && r in Part(Find(c, u).value, k)
  {
    hide Part;
    if Find(c, u).Some? {
      var part := Part(Find(c, u).value, k);
      FilterMapMember(part, where, r);
      if r in part && where(r).Some? {
        var i :| 0 <= i < |part| && part[i] == r;
        assert where(part[i]) == Some(r);
      }
    }
  }

  /** An occurrence of the unit's committed snapshot whose range begins at or before the offset and ends after it. */
  ghost predicate Spanning(c: seq<Snapshot>, u: string, offset: nat, r: Row) {
    Find(c, u).Some? && exists o ::
      && o in Find(c, u).value.occurrences && r == OccurrenceRowOf(u, o)
      && o.range.bytes.start <= offset < o.range.bytes.end
  }

  lemma SpanningExactly(c: seq<Snapshot>, u: string, offset: nat, r: Row)
    ensures r in UnitPart(c, u, OCCURRENCES, OccurrenceWhere(u, offset)) <==> Spanning(c, u, offset, r)
  {
    UnitPartMember(c, u, OCCURRENCES, OccurrenceWhere(u, offset), r);
    if Find(c, u).Some? {
      FindMember(c, u);
      MapIn(Find(c, u).value.occurrences, (o: SourceOccurrence) => OccurrenceRowOf(u, o), r);
    }
  }

  /** The occurrences at an offset are those of the unit's committed snapshot that span it, the latest start first and
      of one start the earliest end first; so of two whose ranges nest, the inner one comes first. */
  lemma OccurrencesAtScan(c: seq<Snapshot>, u: string, offset: nat, r: Row)
    requires WellStored(c)
    ensures var found := OccurrencesAt(AllRows(c), u, offset);
      && (found.Err? <==> offset > 0x7FFF_FFFF_FFFF_FFFF)
      && (found.Ok? ==>
            && multiset(found.value) == multiset(UnitPart(c, u, OCCURRENCES, OccurrenceWhere(u, offset)))
            && (r in found.value <==> Spanning(c, u, offset, r))
            && forall i, j :: 0 <= i < j < |found.value| ==>
                 var a, b := Interval(found.value[i]), Interval(found.value[j]);
                 a.start > b.start || (a.start == b.start && a.end <= b.end))
  {
    hide AllRows, WellStored;
    AllDistinct(c);
    var where := OccurrenceWhere(u, offset);
    UnitScan(c, u, OCCURRENCES, where);
    SortBySorted(FilterMap(AllRows(c), where), InnermostOrder);
    SortByMembers(FilterMap(AllRows(c), where), InnermostOrder);
    SpanningExactly(c, u, offset, r);
  }

  /** The types of a unit are those of its committed snapshot, each once, by ascending id. */
  lemma TypesForScan(c: seq<Snapshot>, u: string, r: Row)
    requires WellStored(c)
    ensures multiset(TypesFor(AllRows(c), u)) == multiset(UnitPart(c, u, TYPES, TypeWhere(u)))
    ensures r in TypesFor(AllRows(c), u) <==>
      Find(c, u).Some? && exists t :: t in Find(c, u).value.types && r == TypeRow(u, t.id, t)
    ensures forall i, j :: 0 <= i < j < |TypesFor(AllRows(c), u)| ==>
      StrLt(TypeIdOf(TypesFor(AllRows(c), u)[i]), TypeIdOf(TypesFor(AllRows(c), u)[j]))
  {
    hide AllRows;
    AllDistinct(c);
    UnitScan(c, u, TYPES, TypeWhere(u));
    StrLeTotalOrder();
    var found := FilterMap(AllRows(c), TypeWhere(u));
    TypesMember(c, u, r);
    SortByMembers(found, TypeIdOrder);
    SortBySorted(found, TypeIdOrder);
    forall i, j | 0 <= i < j < |TypesFor(AllRows(c), u)|
      ensures TypeIdOf(TypesFor(AllRows(c), u)[i]) != TypeIdOf(TypesFor(AllRows(c), u)[j])
    {
      TypesOnce(AllRows(c), u, i, j);
    }
  }

  lemma TypesMember(c: seq<Snapshot>, u: string, r: Row)
    ensures r in UnitPart(c, u, TYPES, TypeWhere(u)) <==>
      Find(c, u).Some? && exists t :: t in Find(c, u).value.types && r == TypeRow(u, t.id, t)
  {
    UnitPartMember(c, u, TYPES, TypeWhere(u), r);
    if Find(c, u).Some? {
      FindMember(c, u);
      MapIn(Find(c, u).value.types, (t: TypeRecord) => TypeRowOf(u, t), r);
    }
  }

  lemma TypesOnce(rows: seq<Row>, u: string, i: nat, j: nat)
    requires KeysDistinct(KeyOf, rows) && i < j < |TypesFor(rows, u)|
    ensures TypeIdOf(TypesFor(rows, u)[i]) != TypeIdOf(TypesFor(rows, u)[j])
  {
    hide KeysDistinct, StrLe;
    var where, found := TypeWhere(u), TypesFor(rows, u);
    SelectionMember(rows, where, TypeIdOrder, found[i]);
    SelectionMember(rows, where, TypeIdOrder, found[j]);
    TypeKeys(found[i], u);
    TypeKeys(found[j], u);
    if TypeIdOf(found[i]) == TypeIdOf(found[j]) {
      SameKeySameRow(KeyOf, rows, found[i], found[j]);
      RepeatedTwice(found, i, j);
      TypeOnce(rows, u, found[i]);
    }
  }

  lemma TypeKeys(r: Row, u: string)
    requires TypeWhere(u)(r).Some?
    ensures KeyOf(r) == Some(TypeKey(u, TypeIdOf(r)))
  {
  }

  lemma TypeOnce(rows: seq<Row>, u: string, r: Row)
    requires KeysDistinct(KeyOf, rows)
    ensures multiset(TypesFor(rows, u))[r] <= 1
  {
    hide KeyOf, KeysDistinct, TypeWhere;
    TypesKeyed(u);
    KeyedOnce(rows, TypeWhere(u), r);
  }

  lemma TypesKeyed(u: string)
    ensures forall r :: TypeWhere(u)(r).Some? ==> TypeWhere(u)(r).value == r && KeyOf(r).Some?
  {
    forall r | TypeWhere(u)(r).Some? ensures TypeWhere(u)(r).value == r && KeyOf(r).Some? {
      TypeKeys(r, u);
    }
  }

  lemma RepeatedTwice<T>(s: seq<T>, i: nat, j: nat)
    requires i < j < |s| && s[i] == s[j]
    ensures multiset(s)[s[i]] >= 2
  {
    assert s == s[..j] + s[j..];
    assert s[..j][i] in multiset(s[..j]) && s[j..][0] in multiset(s[j..]);
  }

  lemma {:induction false} KeyedOnce(rows: seq<Row>, where: Row -> Option<Row>, r: Row)
    requires KeysDistinct(KeyOf, rows)
    requires forall x :: where(x).Some? ==> where(x).value == x && KeyOf(x).Some?
    ensures multiset(FilterMap(rows, where))[r] <= 1
  {
    if rows != [] {
      KeyedOnce(rows[1..], where, r);
      FilterMapMember(rows[1..], where, rows[0]);
    }
  }

  ghost predicate CommittedDiagnostic(c: seq<Snapshot>, u: string, r: Row) {
    Find(c, u).Some? && exists d :: d in Find(c, u).value.diagnostics && r == DiagnosticRow(u, d.range, d)
  }

  lemma DiagnosticsMember(c: seq<Snapshot>, u: string, r: Row)
    ensures r in UnitPart(c, u, DIAGNOSTICS, DiagnosticWhere(u)) <==> CommittedDiagnostic(c, u, r)
  {
    UnitPartMember(c, u, DIAGNOSTICS, DiagnosticWhere(u), r);
    if Find(c, u).Some? {
      FindMember(c, u);
      MapIn(Find(c, u).value.diagnostics, (d: DiagnosticRecord) => DiagnosticRowOf(u, d), r);
    }
  }

  /** The severities in the order of their names. */
  const SEVERITIES: seq<Severity> := [Error, Hint, Information, Warning]

  function Rank(severity: Severity): (i: nat)
    ensures i < |SEVERITIES| && SEVERITIES[i] == severity
  {
    match severity
    case Error => 0
    case Hint => 1
    case Information => 2
    case Warning => 3
  }

  lemma NamesRank(a: Severity, b: Severity)
    ensures StrLe(SeverityText(a), SeverityText(b)) <==> Rank(a) <= Rank(b)
  {
  }

  /** One diagnostic is listed before another: without a range first, then by start, by end, and by severity. */
  predicate Listed(a: DiagnosticRecord, b: DiagnosticRecord) {
    if a.range.None? || b.range.None? then a.range.None? && (b.range.None? ==> Rank(a.severity) <= Rank(b.severity))
    else
      var x, y := a.range.value, b.range.value;
      x.start < y.start || (x.start == y.start && (x.end < y.end || (x == y && Rank(a.severity) <= Rank(b.severity))))
  }

  lemma PlacedListed(a: DiagnosticRecord, b: DiagnosticRecord, u: string)
    requires PlaceOrder(DiagnosticRow(u, a.range, a), DiagnosticRow(u, b.range, b))
    ensures Listed(a, b)
  {
    hide StrLe, SeverityText, Rank;
    NamesRank(a.severity, b.severity);
  }

  /** The diagnostics of a unit are those of its committed snapshot. */
  lemma DiagnosticsForScan(c: seq<Snapshot>, u: string, r: Row)
    requires WellStored(c)
    ensures multiset(DiagnosticsFor(AllRows(c), u)) == multiset(UnitPart(c, u, DIAGNOSTICS, DiagnosticWhere(u)))
    ensures r in DiagnosticsFor(AllRows(c), u) <==> CommittedDiagnostic(c, u, r)
  {
    hide AllRows, PlaceOrder, UnitPart, CommittedDiagnostic, DiagnosticWhere, WellStored;
    AllDistinct(c);
    DiagnosticsOnly(u);
    UnitScan(c, u, DIAGNOSTICS, DiagnosticWhere(u));
    SortByMembers(FilterMap(AllRows(c), DiagnosticWhere(u)), PlaceOrder);
    DiagnosticsMember(c, u, r);
  }

  /** They come in order. */
  lemma DiagnosticsInOrder(c: seq<Snapshot>, u: string, i: nat, j: nat)
    requires WellStored(c) && i < j < |DiagnosticsFor(AllRows(c), u)|
    ensures var a, b := DiagnosticsFor(AllRows(c), u)[i], DiagnosticsFor(AllRows(c), u)[j];
      a.DiagnosticRow? && b.DiagnosticRow? && Listed(a.diagnostic, b.diagnostic)
  {
    hide AllRows, PlaceOrder, Listed, UnitPart, CommittedDiagnostic, DiagnosticWhere, WellStored;
    var list := DiagnosticsFor(AllRows(c), u);
    PlaceOrderTotal();
    SortBySorted(FilterMap(AllRows(c), DiagnosticWhere(u)), PlaceOrder);
    assert list[i] in list && list[j] in list;
    DiagnosticsForScan(c, u, list[i]);
    DiagnosticsForScan(c, u, list[j]);
    CommittedListed(c, u, list[i], list[j]);
  }

  lemma DiagnosticsOnly(u: string)
    ensures OfUnit(DiagnosticWhere(u), DIAGNOSTICS, u)
  {
  }

  lemma CommittedListed(c: seq<Snapshot>, u: string, a: Row, b: Row)
    requires CommittedDiagnostic(c, u, a) && CommittedDiagnostic(c, u, b) && PlaceOrder(a, b)
    ensures a.DiagnosticRow? && b.DiagnosticRow? && Listed(a.diagnostic, b.diagnostic)
  {
    hide PlaceOrder, Listed;
    PlacedListed(a.diagnostic, b.diagnostic, u);
  }

  lemma PlaceOrderTotal()
    ensures TotalPreorder(PlaceOrder)
  {
    hide StrLe;
    StrLeTotalOrder();
  }
}
