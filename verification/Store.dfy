/** Committing and removing snapshots: validation, deletion and insertion row by row inside one
    transaction, against the list of committed snapshots that the tables must project. */
module Store {
  import opened Prelude
  import opened Relation
  import opened Canonical
  import opened Tables

  datatype StoreError =
    | SourceUnitMismatch
    | SnapshotInputMismatch
    | IncompatibleWorkerProtocol(found: nat)
    | FactOwnedByOtherSource(actual: string)
    | InvalidRange(start: nat, end: nat)
    | ByteOffsetOutOfRange(value: nat)
    | ConstraintViolation(key: Option<Key>)

  type Outcome = Option<StoreError>

  // Validation, first failure first.

  function Then(a: Outcome, b: Outcome): Outcome {
    if a.Some? then a else b
  }

  function CheckProvenance(p: Provenance): Outcome {
    if p.protocolVersion != WORKER_PROTOCOL_VERSION then Some(IncompatibleWorkerProtocol(p.protocolVersion)) else None
  }

  function CheckOwner(u: string, actual: string): Outcome {
    if actual == u then None else Some(FactOwnedByOtherSource(actual))
  }

  function CheckRange(r: ByteRange): Outcome {
    if r.start <= r.end then None else Some(InvalidRange(r.start, r.end))
  }

  function CheckSymbol(u: string, s: SymbolRecord): Outcome {
    Then(CheckProvenance(s.provenance),
      Then(CheckOwner(u, s.declaration.sourceUnit),
        Then(CheckOwner(u, s.nameRange.sourceUnit),
          Then(CheckRange(s.declaration.bytes), CheckRange(s.nameRange.bytes)))))
  }

  function CheckApplication(u: string, a: ApplicationFact): Outcome {
    Then(CheckProvenance(a.provenance), Then(CheckOwner(u, a.range.sourceUnit), CheckRange(a.range.bytes)))
  }

  function CheckOccurrence(u: string, o: SourceOccurrence): Outcome {
    Then(CheckProvenance(o.provenance), Then(CheckOwner(u, o.range.sourceUnit), CheckRange(o.range.bytes)))
  }

  function CheckDiagnostic(u: string, d: DiagnosticRecord): Outcome {
    Then(CheckProvenance(d.provenance),
      Then(CheckOwner(u, d.sourceUnit), if d.range.Some? then CheckRange(d.range.value) else None))
  }

  function CheckFacts(u: string, s: Snapshot): Outcome {
    Then(CheckProvenance(s.provenance),
    Then(First(s.symbols, (x: SymbolRecord) => CheckSymbol(u, x)),
    Then(First(s.applications, (x: ApplicationFact) => CheckApplication(u, x)),
    Then(First(s.occurrences, (x: SourceOccurrence) => CheckOccurrence(u, x)),
    Then(First(s.references, (x: ReferenceEdge) => CheckOccurrence(u, x.source)),
    Then(First(s.calls, (x: CallEdge) => CheckOccurrence(u, x.source)),
    Then(First(s.hierarchy, (x: HierarchyEdge) => CheckProvenance(x.provenance)),
    Then(First(s.types, (x: TypeRecord) => CheckProvenance(x.provenance)),
         First(s.diagnostics, (x: DiagnosticRecord) => CheckDiagnostic(u, x))))))))))
  }

  function ValidateSnapshot(expected: SourceUnit, s: Snapshot): Outcome {
    if s.sourceUnit.id != expected.id then Some(SourceUnitMismatch)
    else if s.sourceUnit.content != expected.content || s.sourceUnit.context != expected.context
      then Some(SnapshotInputMismatch)
    else CheckFacts(expected.id, s)
  }

  // Deletion.

  datatype TableName =
    | Applications | ReferenceEdges | CallEdges | HierarchyEdges | TypeRecords | Diagnostics
    | AnnotationEdges | Occurrences | Symbols | SourceProvenance | SourceSnapshots

  /** The tables with a source unit column, in the order the deletion visits them. */
  const OWNED_TABLES: seq<TableName> :=
    [Applications, ReferenceEdges, CallEdges, HierarchyEdges, TypeRecords, Diagnostics,
     AnnotationEdges, Occurrences, Symbols, SourceProvenance, SourceSnapshots]

  predicate InTable(r: Row, t: TableName) {
    match t
    case Applications => r.ApplicationRow?
    case ReferenceEdges => r.ReferenceRow?
    case CallEdges => r.CallRow?
    case HierarchyEdges => r.HierarchyRow?
    case TypeRecords => r.TypeRow?
    case Diagnostics => r.DiagnosticRow?
    case AnnotationEdges => r.AnnotationRow?
    case Occurrences => r.OccurrenceRow?
    case Symbols => r.SymbolRow?
    case SourceProvenance => r.ProvenanceRow?
    case SourceSnapshots => r.SnapshotRow?
  }

  /** DELETE FROM t WHERE source_unit_id = u. */
  function DeleteFrom(rows: seq<Row>, t: TableName, u: string): seq<Row> {
    Keep(rows, (r: Row) => InTable(r, t) && r.unit == u)
  }

  function OwnedApplications(rows: seq<Row>, u: string): set<string> {
    set r | r in rows && r.ApplicationRow? && r.unit == u :: r.application
  }

  /** DELETE FROM application_arguments WHERE application_id IN (...). */
  function DeleteArguments(rows: seq<Row>, apps: set<string>): seq<Row> {
    Keep(rows, (r: Row) => r.ArgumentRow? && r.application in apps)
  }

  predicate Doomed(r: Row, tables: seq<TableName>, u: string, apps: set<string>) {
    if r.ArgumentRow? then r.application in apps
    else r.unit == u && exists i :: 0 <= i < |tables| && InTable(r, tables[i])
  }

  /** What is left when every doomed row is gone. */
  function Surviving(rows: seq<Row>, tables: seq<TableName>, u: string, apps: set<string>): seq<Row> {
    Keep(rows, (r: Row) => Doomed(r, tables, u, apps))
  }

  lemma DoomedSnoc(r: Row, tables: seq<TableName>, t: TableName, u: string, apps: set<string>)
    ensures Doomed(r, tables + [t], u, apps) <==>
      Doomed(r, tables, u, apps) || (InTable(r, t) && r.unit == u)
  {
    assert forall i :: 0 <= i < |tables| ==> (tables + [t])[i] == tables[i];
    assert (tables + [t])[|tables|] == t;
  }

  method DeleteFileOwnedFacts(rows: seq<Row>, u: string) returns (left: seq<Row>)
    ensures left == Surviving(rows, OWNED_TABLES, u, OwnedApplications(rows, u))
  {
    ghost var apps := OwnedApplications(rows, u);
    left := DeleteArguments(rows, OwnedApplications(rows, u));
    var tables := OWNED_TABLES;
    KeepSame(rows, (r: Row) => r.ArgumentRow? && r.application in apps, (r: Row) => Doomed(r, tables[..0], u, apps));
    for i := 0 to |tables|
      invariant left == Surviving(rows, tables[..i], u, apps)
    {
      var t := tables[i];
      assert tables[..i + 1] == tables[..i] + [t];
      forall r ensures Doomed(r, tables[..i + 1], u, apps) <==>
        Doomed(r, tables[..i], u, apps) || (InTable(r, t) && r.unit == u)
      {
        DoomedSnoc(r, tables[..i], t, u, apps);
      }
      KeepKeep(rows, (r: Row) => Doomed(r, tables[..i], u, apps), (r: Row) => InTable(r, t) && r.unit == u,
               (r: Row) => Doomed(r, tables[..i + 1], u, apps));
      left := DeleteFrom(left, t, u);
    }
    assert tables[..|tables|] == tables;
  }

  /** The committed snapshots other than that of `u`. */
  function Without(c: seq<Snapshot>, u: string): seq<Snapshot> {
    Keep(c, (s: Snapshot) => s.sourceUnit.id == u)
  }

  lemma EveryRowInSomeTable(r: Row)
    requires !r.ArgumentRow?
    ensures exists i :: 0 <= i < |OWNED_TABLES| && InTable(r, OWNED_TABLES[i])
  {
    var k :=
      match r
      case ApplicationRow(_, _, _, _, _, _, _) => 0
      case ReferenceRow(_, _, _, _, _) => 1
      case CallRow(_, _, _, _, _) => 2
      case HierarchyRow(_, _, _, _) => 3
      case TypeRow(_, _, _) => 4
      case DiagnosticRow(_, _, _) => 5
      case AnnotationRow(_, _, _) => 6
      case OccurrenceRow(_, _, _, _, _) => 7
      case SymbolRow(_, _, _, _, _) => 8
      case ProvenanceRow(_, _) => 9
      case _ => 10;
    assert InTable(r, OWNED_TABLES[k]);
  }

  // Insertion.

  function FirstTooLarge(offsets: seq<nat>): (r: Outcome)
    ensures r.None? <==> forall i :: 0 <= i < |offsets| ==> offsets[i] <= I64_MAX
  {
    if offsets == [] then None
    else if offsets[0] > I64_MAX then Some(ByteOffsetOutOfRange(offsets[0]))
    else
      var rest := FirstTooLarge(offsets[1..]);
      assert forall i :: 1 <= i < |offsets| ==> offsets[i] == offsets[1..][i - 1];
      rest
  }

  function CheckOffsets(r: Row): Outcome {
    FirstTooLarge(Offsets(r))
  }

  function Clash(r: Row): StoreError {
    ConstraintViolation(KeyOf(r))
  }

  /** Inserting rows one at a time: offsets are converted first, then the primary key is checked. */
  function Insert(rows: seq<Row>, more: seq<Row>): Result<seq<Row>, StoreError> {
    InsertRows(KeyOf, CheckOffsets, Clash, rows, more)
  }

  method InsertSnapshot(rows: seq<Row>, s: Snapshot) returns (r: Result<seq<Row>, StoreError>)
    ensures r == Insert(rows, SnapshotRows(s))
  {
    r := InsertPending(rows, SnapshotRows(s));
  }

  method InsertPending(rows: seq<Row>, pending: seq<Row>) returns (r: Result<seq<Row>, StoreError>)
    ensures r == Insert(rows, pending)
  {
    var current := rows;
    var i := 0;
    while i < |pending|
      invariant 0 <= i <= |pending|
      invariant Insert(rows, pending) == Insert(current, pending[i..])
    {
      var next := InsertRow(KeyOf, CheckOffsets, Clash, current, pending[i]);
      assert pending[i..][1..] == pending[i + 1..];
      if next.Err? {
        return next;
      }
      current := next.value;
      i := i + 1;
    }
    return Ok(current);
  }

  // The committed snapshots as the abstract state.

  ghost predicate Acceptable(s: Snapshot) {
    CheckFacts(s.sourceUnit.id, s).None?
  }

  /** Committed snapshots passed validation and no two rows of the index share a primary key. */
  ghost predicate WellStored(c: seq<Snapshot>) {
    KeysDistinct(KeyOf, AllRows(c)) && forall s :: s in c ==> Acceptable(s)
  }

  /** Replacing one snapshot in the abstract state; the error is that of the first failing row. */
  function Replace(c: seq<Snapshot>, s: Snapshot): Result<seq<Snapshot>, StoreError> {
    var others := Without(c, s.sourceUnit.id);
    var inserted := Insert(AllRows(others), SnapshotRows(s));
    if inserted.Err? then Err(inserted.error) else Ok(others + [s])
  }

  lemma AllRowsAppend(c: seq<Snapshot>, s: Snapshot)
    ensures AllRows(c + [s]) == AllRows(c) + SnapshotRows(s)
  {
    FlatMapSnoc(c, s, SnapshotRows);
  }

  lemma HeaderRowIn(s: Snapshot)
    ensures SnapshotRow(s.sourceUnit.id, s.sourceUnit, s.provenance, s.publicApi) in SnapshotRows(s)
  {
    var r := SnapshotRow(s.sourceUnit.id, s.sourceUnit, s.provenance, s.publicApi);
    assert Part(s, HEADER)[0] == r;
    RowsOwned(s, r);
  }

  /** At most one snapshot is committed for a source unit. */
  lemma UnitsDistinct(c: seq<Snapshot>, i: nat, j: nat)
    requires WellStored(c) && i < j < |c|
    ensures c[i].sourceUnit.id != c[j].sourceUnit.id
  {
    HeaderRowIn(c[i]);
    HeaderRowIn(c[j]);
    BlocksApart(KeyOf, c, SnapshotRows, i, j,
      SnapshotRow(c[i].sourceUnit.id, c[i].sourceUnit, c[i].provenance, c[i].publicApi),
      SnapshotRow(c[j].sourceUnit.id, c[j].sourceUnit, c[j].provenance, c[j].publicApi));
  }

  lemma ApplicationKeyIn(s: Snapshot, id: string) returns (r: Row)
    requires id in ApplicationIds(s)
    ensures r in SnapshotRows(s) && KeyOf(r) == Some(ApplicationKey(id))
  {
    var a :| a in s.applications && a.id == id;
    ApplicationRowIn(s, a);
    r := ApplicationRowOf(s.sourceUnit.id, a);
  }

  lemma ApplicationIdsApart(c: seq<Snapshot>, i: nat, j: nat, id: string)
    requires KeysDistinct(KeyOf, AllRows(c)) && i < j < |c|
    ensures id !in ApplicationIds(c[i]) || id !in ApplicationIds(c[j])
  {
    if id in ApplicationIds(c[i]) && id in ApplicationIds(c[j]) {
      var x := ApplicationKeyIn(c[i], id);
      var y := ApplicationKeyIn(c[j], id);
      BlocksApart(KeyOf, c, SnapshotRows, i, j, x, y);
    }
  }

  lemma ApplicationRowIn(s: Snapshot, a: ApplicationFact)
    requires a in s.applications
    ensures ApplicationRowOf(s.sourceUnit.id, a) in SnapshotRows(s)
  {
    var r := ApplicationRowOf(s.sourceUnit.id, a);
    var j :| 0 <= j < |s.applications| && s.applications[j] == a;
    assert ApplicationRows(s.sourceUnit.id, a)[0] == r;
    assert r in ApplicationRows(s.sourceUnit.id, s.applications[j]);
    FlatMapMember(s.applications, (x: ApplicationFact) => ApplicationRows(s.sourceUnit.id, x), r);
    RowsOwned(s, r);
  }

  /** The applications a unit owns in the tables are those of its committed snapshot. */
  lemma OwnedApplicationsOf(c: seq<Snapshot>, u: string, k: nat, id: string)
    requires WellStored(c) && k < |c| && id in ApplicationIds(c[k])
    ensures id in OwnedApplications(AllRows(c), u) <==> c[k].sourceUnit.id == u
  {
    hide AllRows, SnapshotRows, Acceptable, KeyOf;
    if c[k].sourceUnit.id == u {
      var a :| a in c[k].applications && a.id == id;
      ApplicationRowIn(c[k], a);
      AllRowsMember(c, ApplicationRowOf(u, a));
      assert ApplicationRowOf(u, a).application == id;
    } else if id in OwnedApplications(AllRows(c), u) {
      var r :| r in AllRows(c) && r.ApplicationRow? && r.unit == u && r.application == id;
      AllRowsMember(c, r);
      var j :| 0 <= j < |c| && r in SnapshotRows(c[j]);
      RowsOwned(c[j], r);
      ApplicationOwner(c[j], r);
      if j < k { ApplicationIdsApart(c, j, k, id); } else { ApplicationIdsApart(c, k, j, id); }
    }
  }

  lemma ApplicationOwner(s: Snapshot, r: Row)
    requires r in SnapshotRows(s) && r.ApplicationRow?
    ensures r.application in ApplicationIds(s)
  {
    RowsOwned(s, r);
    FlatMapMember(s.applications, (x: ApplicationFact) => ApplicationRows(s.sourceUnit.id, x), r);
    var j :| 0 <= j < |s.applications| && r in ApplicationRows(s.sourceUnit.id, s.applications[j]);
    MapMember(s.applications[j].arguments, (g: ApplicationArgument) => ArgumentRow(s.applications[j].id, g), r);
    assert s.applications[j] in s.applications;
  }

  /** The deletion of one unit, on tables that project `c`, leaves the projection of the other snapshots. */
  lemma DeletionProjects(c: seq<Snapshot>, u: string)
    requires WellStored(c)
    ensures Surviving(AllRows(c), OWNED_TABLES, u, OwnedApplications(AllRows(c), u)) == AllRows(Without(c, u))
  {
    var apps := OwnedApplications(AllRows(c), u);
    forall s, r | s in c && r in SnapshotRows(s)
      ensures Doomed(r, OWNED_TABLES, u, apps) <==> s.sourceUnit.id == u
    {
      var k :| 0 <= k < |c| && c[k] == s;
      RowsOwned(s, r);
      if r.ArgumentRow? {
        OwnedApplicationsOf(c, u, k, r.application);
      } else {
        EveryRowInSomeTable(r);
      }
    }
    KeepBlocks(c, SnapshotRows, (s: Snapshot) => s.sourceUnit.id == u, (r: Row) => Doomed(r, OWNED_TABLES, u, apps));
  }

  lemma WithoutMember(c: seq<Snapshot>, u: string, s: Snapshot)
    ensures s in Without(c, u) <==> s in c && s.sourceUnit.id != u
  {
    KeepMember(c, (x: Snapshot) => x.sourceUnit.id == u, s);
  }

  lemma WithoutWellStored(c: seq<Snapshot>, u: string)
    requires WellStored(c)
    ensures WellStored(Without(c, u))
  {
    DeletionProjects(c, u);
    var apps := OwnedApplications(AllRows(c), u);
    KeepKeysDistinct(KeyOf, AllRows(c), (r: Row) => Doomed(r, OWNED_TABLES, u, apps));
    forall s | s in Without(c, u) ensures Acceptable(s) {
      WithoutMember(c, u, s);
    }
  }

  /** A replacement succeeds exactly when its offsets fit and its keys clash with nothing that stays. */
  lemma ReplaceOutcome(c: seq<Snapshot>, s: Snapshot)
    requires WellStored(c)
    ensures Replace(c, s).Ok? <==>
      Insertable(KeyOf, CheckOffsets, AllRows(Without(c, s.sourceUnit.id)), SnapshotRows(s))
    ensures Replace(c, s).Ok? && Acceptable(s) ==> WellStored(Replace(c, s).value)
    ensures Replace(c, s).Ok? ==>
      Insert(AllRows(Without(c, s.sourceUnit.id)), SnapshotRows(s)) == Ok(AllRows(Replace(c, s).value))
  {
    hide KeyOf, CheckOffsets, Clash, Without, SnapshotRows, AllRows, Acceptable, KeysDistinct;
    var others := Without(c, s.sourceUnit.id);
    InsertRowsOutcome(KeyOf, CheckOffsets, Clash, AllRows(others), SnapshotRows(s));
    WithoutWellStored(c, s.sourceUnit.id);
    AllRowsAppend(others, s);
    KeysDistinctConcat(KeyOf, AllRows(others), SnapshotRows(s));
  }

  function ReplaceAll(c: seq<Snapshot>, entries: seq<(SourceUnit, Snapshot)>): Result<seq<Snapshot>, StoreError>
    decreases |entries|
  {
    if entries == [] then Ok(c)
    else
      var next := Replace(c, entries[0].1);
      if next.Err? then next else ReplaceAll(next.value, entries[1..])
  }

  /** A whole batch: every entry is validated before the transaction begins. */
  function ReplaceBatch(c: seq<Snapshot>, entries: seq<(SourceUnit, Snapshot)>): Result<seq<Snapshot>, StoreError> {
    var invalid := First(entries, (e: (SourceUnit, Snapshot)) => ValidateSnapshot(e.0, e.1));
    if invalid.Some? then Err(invalid.value) else ReplaceAll(c, entries)
  }

  ghost predicate AllAcceptable(entries: seq<(SourceUnit, Snapshot)>) {
    forall i :: 0 <= i < |entries| ==> entries[i].1.sourceUnit.id == entries[i].0.id && Acceptable(entries[i].1)
  }

  lemma Validated(expected: SourceUnit, s: Snapshot)
    requires ValidateSnapshot(expected, s).None?
    ensures s.sourceUnit.id == expected.id && s.sourceUnit.content == expected.content
    ensures s.sourceUnit.context == expected.context && Acceptable(s)
  {
  }

  lemma {:induction false} ReplaceAllWellStored(c: seq<Snapshot>, entries: seq<(SourceUnit, Snapshot)>)
    requires WellStored(c) && AllAcceptable(entries)
    ensures ReplaceAll(c, entries).Ok? ==> WellStored(ReplaceAll(c, entries).value)
    decreases |entries|
  {
    hide WellStored, Acceptable, Replace;
    if entries != [] {
      ReplaceOutcome(c, entries[0].1);
      var next := Replace(c, entries[0].1);
      if next.Ok? {
        assert AllAcceptable(entries[1..]) by {
          assert forall i :: 0 <= i < |entries[1..]| ==> entries[1..][i] == entries[i + 1];
        }
        ReplaceAllWellStored(next.value, entries[1..]);
      }
    }
  }

  lemma AllValidated(entries: seq<(SourceUnit, Snapshot)>)
    requires First(entries, (e: (SourceUnit, Snapshot)) => ValidateSnapshot(e.0, e.1)).None?
    ensures AllAcceptable(entries)
  {
    FirstNone(entries, (e: (SourceUnit, Snapshot)) => ValidateSnapshot(e.0, e.1));
    forall i | 0 <= i < |entries| ensures entries[i].1.sourceUnit.id == entries[i].0.id && Acceptable(entries[i].1) {
      Validated(entries[i].0, entries[i].1);
    }
  }

  /** The index of one workspace. `rows` is the content of all the tables. */
  class IndexStore {
    var rows: seq<Row>
    ghost var committed: seq<Snapshot>

    ghost predicate Valid()
      reads this
    {
      rows == AllRows(committed) && WellStored(committed)
    }

    constructor ()
      ensures Valid() && committed == []
    {
      rows := [];
      committed := [];
    }

    method ReplaceSnapshot(expected: SourceUnit, s: Snapshot) returns (r: Result<(), StoreError>)
      requires Valid()
      modifies this
      ensures Valid()
      ensures ReplaceBatch(old(committed), [(expected, s)]) ==
        if r.Ok? then Ok(committed) else Err(r.error)
      ensures r.Err? ==> rows == old(rows) && committed == old(committed)
    {
      r := ReplaceSnapshotsBatch([(expected, s)]);
    }

    method ReplaceSnapshotsBatch(entries: seq<(SourceUnit, Snapshot)>) returns (r: Result<(), StoreError>)
      requires Valid()
      modifies this
      ensures Valid()
      ensures ReplaceBatch(old(committed), entries) == if r.Ok? then Ok(committed) else Err(r.error)
      ensures r.Err? ==> rows == old(rows) && committed == old(committed)
    {
      var invalid := First(entries, (e: (SourceUnit, Snapshot)) => ValidateSnapshot(e.0, e.1));
      if invalid.Some? {
        return Err(invalid.value);
      }
      AllValidated(entries);
      var transaction := rows;
      ghost var next := committed;
      for i := 0 to |entries|
        invariant committed == old(committed) && rows == old(rows)
        invariant transaction == AllRows(next) && WellStored(next)
        invariant ReplaceAll(committed, entries) == ReplaceAll(next, entries[i..])
      {
        var (expected, s) := entries[i];
        assert entries[i..][1..] == entries[i + 1..];
        DeletionProjects(next, expected.id);
        ReplaceOutcome(next, s);
        var kept := DeleteFileOwnedFacts(transaction, expected.id);
        var inserted := InsertSnapshot(kept, s);
        if inserted.Err? {
          return Err(inserted.error);
        }
        transaction := inserted.value;
        next := Replace(next, s).value;
      }
      rows := transaction;
      committed := next;
      return Ok(());
    }

    method RemoveSnapshot(u: string)
      requires Valid()
      modifies this
      ensures Valid() && committed == Without(old(committed), u)
    {
      DeletionProjects(committed, u);
      WithoutWellStored(committed, u);
      rows := DeleteFileOwnedFacts(rows, u);
      committed := Without(committed, u);
    }
  }
}
