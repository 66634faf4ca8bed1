/** Exactly when the store accepts snapshots, told over their records: what a fact must name, which offsets fit, and
    which identities must not meet. */
module Replacement {
  import opened Prelude
  import opened Relation
  import opened Canonical
  import opened Tables
  import opened RecordKeys
  import opened Store
  import opened Lookups

  // What passes validation.

  predicate Spoken(p: Provenance) {
    p.protocolVersion == 3
  }

  predicate Spans(u: string, r: SourceRange) {
    r.sourceUnit == u && r.bytes.start <= r.bytes.end
  }

  /** Every fact is told in the protocol version of Core, lies in the unit and ends no earlier than it starts. A
      hierarchy edge and a type have only a provenance, and a diagnostic need not have a range. */
  predicate Sound(u: string, s: Snapshot) {
    && Spoken(s.provenance)
    && (forall x :: x in s.symbols ==> SymbolSound(u, x))
    && (forall x :: x in s.applications ==> Spoken(x.provenance) && Spans(u, x.range))
    && (forall x :: x in s.occurrences ==> OccurrenceSound(u, x))
    && (forall x :: x in s.references ==> OccurrenceSound(u, x.source))
    && (forall x :: x in s.calls ==> OccurrenceSound(u, x.source))
    && (forall x :: x in s.hierarchy ==> Spoken(x.provenance))
    && (forall x :: x in s.types ==> Spoken(x.provenance))
    && (forall x :: x in s.diagnostics ==> DiagnosticSound(u, x))
  }

  predicate SymbolSound(u: string, x: SymbolRecord) {
    Spoken(x.provenance) && Spans(u, x.declaration) && Spans(u, x.nameRange)
  }

  predicate OccurrenceSound(u: string, x: SourceOccurrence) {
    Spoken(x.provenance) && Spans(u, x.range)
  }

  predicate DiagnosticSound(u: string, x: DiagnosticRecord) {
    Spoken(x.provenance) && x.sourceUnit == u && (x.range.Some? ==> x.range.value.start <= x.range.value.end)
  }

  lemma PassesAll<T>(s: seq<T>, check: T -> Outcome)
    ensures First(s, check).None? <==> forall x :: x in s ==> check(x).None?
  {
    FirstNone(s, check);
    if forall i :: 0 <= i < |s| ==> check(s[i]).None? {
      forall x | x in s ensures check(x).None? {
        var i :| 0 <= i < |s| && s[i] == x;
      }
    }
  }

  lemma RecordsSound(u: string)
    ensures forall x :: CheckSymbol(u, x).None? <==> SymbolSound(u, x)
    ensures forall x :: CheckOccurrence(u, x).None? <==> OccurrenceSound(u, x)
    ensures forall x :: CheckDiagnostic(u, x).None? <==> DiagnosticSound(u, x)
  {
  }

  lemma FactsExactly(u: string, s: Snapshot)
    ensures CheckFacts(u, s).None? <==> Sound(u, s)
  {
    RecordsSound(u);
    PassesAll(s.applications, (x: ApplicationFact) => CheckApplication(u, x));
    PassesAll(s.hierarchy, (x: HierarchyEdge) => CheckProvenance(x.provenance));
    PassesAll(s.types, (x: TypeRecord) => CheckProvenance(x.provenance));
    hide CheckSymbol, SymbolSound, CheckOccurrence, OccurrenceSound, CheckDiagnostic, DiagnosticSound;
    PassesAll(s.symbols, (x: SymbolRecord) => CheckSymbol(u, x));
    PassesAll(s.occurrences, (x: SourceOccurrence) => CheckOccurrence(u, x));
    PassesAll(s.references, (x: ReferenceEdge) => CheckOccurrence(u, x.source));
    PassesAll(s.calls, (x: CallEdge) => CheckOccurrence(u, x.source));
    PassesAll(s.diagnostics, (x: DiagnosticRecord) => CheckDiagnostic(u, x));
  }

  /** The snapshot answers for the unit as it was asked for. */
  predicate AnswersFor(expected: SourceUnit, s: Snapshot) {
    && s.sourceUnit.id == expected.id
    && s.sourceUnit.content == expected.content && s.sourceUnit.context == expected.context
  }

  lemma ValidatedExactly(expected: SourceUnit, s: Snapshot)
    ensures ValidateSnapshot(expected, s).None? <==> AnswersFor(expected, s) && Sound(expected.id, s)
  {
    hide Sound, CheckFacts;
    FactsExactly(expected.id, s);
  }

  // Which offsets fit.

  predicate RangeFits(r: ByteRange) {
    r.start <= 0x7FFF_FFFF_FFFF_FFFF && r.end <= 0x7FFF_FFFF_FFFF_FFFF
  }

  /** The offsets that the tables keep in columns fit in 63 bits. */
  predicate OffsetsFit(s: Snapshot) {
    && (forall x :: x in s.symbols ==> x.nameRange.bytes.start <= 0x7FFF_FFFF_FFFF_FFFF)
    && (forall x :: x in s.applications ==> RangeFits(x.range.bytes))
    && (forall x :: x in s.occurrences ==> RangeFits(x.range.bytes))
    && (forall x :: x in s.references ==> RangeFits(x.source.range.bytes))
    && (forall x :: x in s.calls ==> RangeFits(x.source.range.bytes))
    && (forall x :: x in s.diagnostics && x.range.Some? ==> RangeFits(x.range.value))
  }

  predicate RowFits(r: Row) {
    forall o :: o in Offsets(r) ==> o <= I64_MAX
  }

  lemma RowFitsAt(r: Row)
    ensures RowFits(r) <==> forall i :: 0 <= i < |Offsets(r)| ==> Offsets(r)[i] <= I64_MAX
  {
    hide Offsets;
    if RowFits(r) {
      assert forall i :: 0 <= i < |Offsets(r)| ==> Offsets(r)[i] in Offsets(r);
    }
  }

  lemma RangeRowFits(r: Row, range: ByteRange)
    requires Offsets(r) == [range.start, range.end]
    ensures RowFits(r) <==> RangeFits(range)
  {
    RowFitsAt(r);
    assert Offsets(r)[0] == range.start && Offsets(r)[1] == range.end;
  }

  predicate RowsFit(rows: seq<Row>) {
    forall r :: r in rows ==> RowFits(r)
  }

  lemma RowsFitMap<T>(s: seq<T>, f: T -> Row, fits: T -> bool)
    requires forall x :: RowFits(f(x)) <==> fits(x)
    ensures RowsFit(Map(s, f)) <==> forall x :: x in s ==> fits(x)
  {
    hide RowFits;
    MapAt(s, f);
    var rows := Map(s, f);
    if forall x :: x in s ==> fits(x) {
      forall r | r in rows ensures RowFits(r) {
        MapMember(s, f, r);
      }
    }
    if RowsFit(rows) {
      forall x | x in s ensures fits(x) {
        var i :| 0 <= i < |s| && s[i] == x;
        assert rows[i] in rows;
      }
    }
  }

  lemma RowsFitBlocks<T>(s: seq<T>, f: T -> seq<Row>, fits: T -> bool)
    requires forall x :: x in s ==> (RowsFit(f(x)) <==> fits(x))
    ensures RowsFit(FlatMap(s, f)) <==> forall x :: x in s ==> fits(x)
  {
    hide RowFits;
    var rows := FlatMap(s, f);
    if forall x :: x in s ==> fits(x) {
      forall r | r in rows ensures RowFits(r) {
        FlatMapMember(s, f, r);
      }
    }
    if RowsFit(rows) {
      forall x | x in s ensures RowsFit(f(x)) {
        var i :| 0 <= i < |s| && s[i] == x;
        forall r | r in f(x) ensures RowFits(r) {
          FlatMapMember(s, f, r);
        }
      }
    }
  }

  lemma RowsFitHead(head: Row, rows: seq<Row>)
    ensures RowsFit([head] + rows) <==> RowFits(head) && RowsFit(rows)
  {
    hide RowFits;
    assert forall r :: r in [head] + rows <==> r == head || r in rows;
  }

  lemma SymbolFits(u: string, x: SymbolRecord)
    ensures RowsFit(SymbolRows(u, x)) <==> x.nameRange.bytes.start <= I64_MAX
  {
    hide RowsFit;
    var f := (a: string) => AnnotationRow(u, x.id, a);
    RowsFitMap(x.appliedSymbols, f, (a: string) => true);
    RowsFitHead(SymbolRowOf(u, x), Map(x.appliedSymbols, f));
    RowFitsAt(SymbolRowOf(u, x));
    assert Offsets(SymbolRowOf(u, x))[0] == x.nameRange.bytes.start;
  }

  lemma ApplicationFits(u: string, x: ApplicationFact)
    ensures RowsFit(ApplicationRows(u, x)) <==> RangeFits(x.range.bytes)
  {
    hide RowsFit;
    var f := (a: ApplicationArgument) => ArgumentRow(x.id, a);
    RowsFitMap(x.arguments, f, (a: ApplicationArgument) => true);
    RowsFitHead(ApplicationRowOf(u, x), Map(x.arguments, f));
    RangeRowFits(ApplicationRowOf(u, x), x.range.bytes);
  }

  lemma FactRowsFit(s: Snapshot)
    ensures RowsFit(Part(s, SYMBOLS)) <==> forall x :: x in s.symbols ==> x.nameRange.bytes.start <= I64_MAX
    ensures RowsFit(Part(s, APPLICATIONS)) <==> forall x :: x in s.applications ==> RangeFits(x.range.bytes)
  {
    hide RowsFit, RowFits;
    var u := s.sourceUnit.id;
    forall x ensures RowsFit(SymbolRows(u, x)) <==> x.nameRange.bytes.start <= I64_MAX {
      SymbolFits(u, x);
    }
    forall x ensures RowsFit(ApplicationRows(u, x)) <==> RangeFits(x.range.bytes) {
      ApplicationFits(u, x);
    }
    RowsFitBlocks(s.symbols, (x: SymbolRecord) => SymbolRows(u, x),
                  (x: SymbolRecord) => x.nameRange.bytes.start <= I64_MAX);
    RowsFitBlocks(s.applications, (x: ApplicationFact) => ApplicationRows(u, x),
                  (x: ApplicationFact) => RangeFits(x.range.bytes));
  }

  lemma OccurrenceRowsFit(s: Snapshot)
    ensures RowsFit(Part(s, OCCURRENCES)) <==> forall x :: x in s.occurrences ==> RangeFits(x.range.bytes)
  {
    hide RowsFit, RowFits, RangeFits;
    forall x ensures RowFits(OccurrenceRowOf(s.sourceUnit.id, x)) <==> RangeFits(x.range.bytes) {
      RangeRowFits(OccurrenceRowOf(s.sourceUnit.id, x), x.range.bytes);
    }
    RowsFitMap(s.occurrences, (x: SourceOccurrence) => OccurrenceRowOf(s.sourceUnit.id, x),
               (x: SourceOccurrence) => RangeFits(x.range.bytes));
  }

  lemma ReferenceRowsFit(s: Snapshot)
    ensures RowsFit(Part(s, REFERENCES)) <==> forall x :: x in s.references ==> RangeFits(x.source.range.bytes)
  {
    hide RowsFit, RowFits, RangeFits;
    forall x ensures RowFits(ReferenceRowOf(s.sourceUnit.id, x)) <==> RangeFits(x.source.range.bytes) {
      RangeRowFits(ReferenceRowOf(s.sourceUnit.id, x), x.source.range.bytes);
    }
    RowsFitMap(s.references, (x: ReferenceEdge) => ReferenceRowOf(s.sourceUnit.id, x),
               (x: ReferenceEdge) => RangeFits(x.source.range.bytes));
  }

  lemma CallRowsFit(s: Snapshot)
    ensures RowsFit(Part(s, CALLS)) <==> forall x :: x in s.calls ==> RangeFits(x.source.range.bytes)
  {
    hide RowsFit, RowFits, RangeFits;
    forall x ensures RowFits(CallRowOf(s.sourceUnit.id, x)) <==> RangeFits(x.source.range.bytes) {
      RangeRowFits(CallRowOf(s.sourceUnit.id, x), x.source.range.bytes);
    }
    RowsFitMap(s.calls, (x: CallEdge) => CallRowOf(s.sourceUnit.id, x),
               (x: CallEdge) => RangeFits(x.source.range.bytes));
  }

  lemma DiagnosticRowsFit(s: Snapshot)
    ensures RowsFit(Part(s, DIAGNOSTICS)) <==>
      forall x :: x in s.diagnostics && x.range.Some? ==> RangeFits(x.range.value)
  {
    hide RowsFit, RangeFits;
    forall x ensures RowFits(DiagnosticRowOf(s.sourceUnit.id, x)) <==> (x.range.Some? ==> RangeFits(x.range.value)) {
      if x.range.Some? {
        RangeRowFits(DiagnosticRowOf(s.sourceUnit.id, x), x.range.value);
      }
    }
    RowsFitMap(s.diagnostics, (x: DiagnosticRecord) => DiagnosticRowOf(s.sourceUnit.id, x),
               (x: DiagnosticRecord) => x.range.Some? ==> RangeFits(x.range.value));
  }

  lemma OffsetFreeRowsFit(s: Snapshot)
    ensures RowsFit(Part(s, HEADER)) && RowsFit(Part(s, HIERARCHY)) && RowsFit(Part(s, TYPES))
  {
    forall r | r in Part(s, HEADER) || r in Part(s, HIERARCHY) || r in Part(s, TYPES) ensures Offsets(r) == [] {
      if r in Part(s, HIERARCHY) { PartTagged(s, HIERARCHY, r); }
      if r in Part(s, TYPES) { PartTagged(s, TYPES, r); }
    }
  }

  predicate PartsFit(s: Snapshot, k: nat)
    requires k <= PARTS
    decreases PARTS - k
  {
    k == PARTS || (RowsFit(Part(s, k)) && PartsFit(s, k + 1))
  }

  lemma {:induction false} JoinedFit(s: Snapshot, k: nat)
    requires k <= PARTS
    ensures RowsFit(Joined((j: nat) => Part(s, j), k, PARTS)) <==> PartsFit(s, k)
    decreases PARTS - k
  {
    if k < PARTS {
      hide Part, RowFits;
      JoinedFit(s, k + 1);
      var rest := Joined((j: nat) => Part(s, j), k + 1, PARTS);
      assert forall r :: r in Part(s, k) + rest <==> r in Part(s, k) || r in rest;
    }
  }

  /** The rows of a snapshot can be stored exactly when its offsets fit. */
  lemma FitsExactly(s: Snapshot)
    ensures RowsFit(SnapshotRows(s)) <==> OffsetsFit(s)
  {
    hide Part, RowsFit;
    JoinedFit(s, 0);
    FactRowsFit(s);
    OccurrenceRowsFit(s);
    ReferenceRowsFit(s);
    CallRowsFit(s);
    DiagnosticRowsFit(s);
    OffsetFreeRowsFit(s);
  }

  // Two snapshots.

  lemma SymbolOwner(s: Snapshot, r: Row)
    requires r in SnapshotRows(s) && r.SymbolRow?
    ensures exists x :: x in s.symbols && x.id == r.symbol
  {
    var u := s.sourceUnit.id;
    RowsOwned(s, r);
    FlatMapMember(s.symbols, (x: SymbolRecord) => SymbolRows(u, x), r);
    var i :| 0 <= i < |s.symbols| && r in SymbolRows(u, s.symbols[i]);
    MapMember(s.symbols[i].appliedSymbols, (a: string) => AnnotationRow(u, s.symbols[i].id, a), r);
    assert s.symbols[i] in s.symbols;
  }

  lemma ClashMeans(a: Snapshot, b: Snapshot, x: Row, y: Row)
    requires x in SnapshotRows(a) && y in SnapshotRows(b) && KeyOf(x).Some? && KeyOf(x) == KeyOf(y)
    ensures !NothingShared(a, b)
  {
    hide SnapshotRows, Part;
    RowsOwned(a, x);
    RowsOwned(b, y);
    if x.SymbolRow? {
      SymbolOwner(a, x);
      SymbolOwner(b, y);
    } else if x.ApplicationRow? {
      ApplicationOwner(a, x);
      ApplicationOwner(b, y);
    }
  }

  lemma MeetsMeans(rows: seq<Row>, more: seq<Row>, x: Row, y: Row)
    requires Apart(KeyOf, rows, more) && x in rows && y in more
    ensures KeyOf(y).Some? ==> KeyOf(x) != KeyOf(y)
  {
    var i :| 0 <= i < |more| && more[i] == y;
    var j :| 0 <= j < |rows| && rows[j] == x;
    assert FreshKey(KeyOf, more[i], rows);
  }

  /** The rows of two snapshots share no key exactly when they are of different units and share no identity. */
  lemma SharedExactly(a: Snapshot, b: Snapshot)
    ensures Apart(KeyOf, SnapshotRows(a), SnapshotRows(b)) <==> NothingShared(a, b)
  {
    hide SnapshotRows;
    var rows, more := SnapshotRows(a), SnapshotRows(b);
    if Apart(KeyOf, rows, more) {
      HeaderRowIn(a);
      HeaderRowIn(b);
      MeetsMeans(rows, more, SnapshotRow(a.sourceUnit.id, a.sourceUnit, a.provenance, a.publicApi),
                 SnapshotRow(b.sourceUnit.id, b.sourceUnit, b.provenance, b.publicApi));
      forall x, y | x in a.symbols && y in b.symbols ensures x.id != y.id {
        SymbolRowIn(a, x);
        SymbolRowIn(b, y);
        MeetsMeans(rows, more, SymbolRowOf(a.sourceUnit.id, x), SymbolRowOf(b.sourceUnit.id, y));
      }
      forall x, y | x in a.applications && y in b.applications ensures x.id != y.id {
        ApplicationRowIn(a, x);
        ApplicationRowIn(b, y);
        MeetsMeans(rows, more, ApplicationRowOf(a.sourceUnit.id, x), ApplicationRowOf(b.sourceUnit.id, y));
      }
    }
    if NothingShared(a, b) {
      forall i, j | 0 <= i < |more| && 0 <= j < |rows| && KeyOf(more[i]).Some?
        ensures KeyOf(rows[j]) != KeyOf(more[i])
      {
        if KeyOf(rows[j]) == KeyOf(more[i]) {
          ClashMeans(a, b, rows[j], more[i]);
        }
      }
    }
  }

  // The index.

  /** No key occurs twice in the whole index exactly when no snapshot holds anything twice and no two share anything. */
  lemma IndexKeysExactly(c: seq<Snapshot>)
    ensures KeysDistinct(KeyOf, AllRows(c)) <==>
      && (forall s :: s in c ==> NothingTwice(s))
      && (forall i, j :: 0 <= i < j < |c| ==> NothingShared(c[i], c[j]))
  {
    hide SnapshotRows, NothingTwice, NothingShared, KeysDistinct, Apart;
    KeysDistinctBlocks(KeyOf, c, SnapshotRows);
    forall i | 0 <= i < |c| ensures KeysDistinct(KeyOf, SnapshotRows(c[i])) <==> NothingTwice(c[i]) {
      SnapshotKeysExactly(c[i]);
    }
    forall i, j | 0 <= i < j < |c|
      ensures Apart(KeyOf, SnapshotRows(c[i]), SnapshotRows(c[j])) <==> NothingShared(c[i], c[j])
    {
      SharedExactly(c[i], c[j]);
    }
  }

  /** A list of snapshots is well stored exactly when each is sound and holds nothing twice, and no two share a unit, a
      symbol id or an application id. */
  lemma WellStoredExactly(c: seq<Snapshot>)
    ensures WellStored(c) <==>
      && (forall s :: s in c ==> Sound(s.sourceUnit.id, s) && NothingTwice(s))
      && (forall i, j :: 0 <= i < j < |c| ==> NothingShared(c[i], c[j]))
  {
    hide Sound, NothingTwice, NothingShared, AllRows, KeysDistinct, CheckFacts;
    IndexKeysExactly(c);
    forall s: Snapshot ensures CheckFacts(s.sourceUnit.id, s).None? <==> Sound(s.sourceUnit.id, s) {
      FactsExactly(s.sourceUnit.id, s);
    }
  }

  /** Replacing a unit's snapshot goes through exactly when the new one's offsets fit, it holds nothing twice and it
      shares nothing with the snapshot of any other unit. */
  lemma ReplaceExactly(c: seq<Snapshot>, s: Snapshot)
    requires WellStored(c)
    ensures Replace(c, s).Ok? <==>
      && OffsetsFit(s) && NothingTwice(s)
      && (forall o :: o in c && o.sourceUnit.id != s.sourceUnit.id ==> NothingShared(o, s))
  {
    hide SnapshotRows, NothingTwice, NothingShared, KeysDistinct, Apart, WellStored, OffsetsFit, RowsFit, CheckOffsets,
      Replace, Without;
    var others, rows := Without(c, s.sourceUnit.id), SnapshotRows(s);
    ReplaceOutcome(c, s);
    FitsExactly(s);
    FitsIndexed(rows);
    SnapshotKeysExactly(s);
    ApartFromAll(others, s);
    forall o: Snapshot ensures o in others <==> o in c && o.sourceUnit.id != s.sourceUnit.id {
      WithoutMember(c, s.sourceUnit.id, o);
    }
  }

  lemma FitsIndexed(rows: seq<Row>)
    ensures RowsFit(rows) <==> forall i :: 0 <= i < |rows| ==> CheckOffsets(rows[i]).None?
  {
    hide RowFits, CheckOffsets;
    forall r ensures RowFits(r) <==> CheckOffsets(r).None? {
      RowFitsExactly(r);
    }
    if RowsFit(rows) {
      assert forall i :: 0 <= i < |rows| ==> rows[i] in rows;
    }
  }

  lemma RowFitsExactly(r: Row)
    ensures RowFits(r) <==> CheckOffsets(r).None?
  {
    hide Offsets;
    RowFitsAt(r);
  }

  lemma {:induction false} ApartFromAll(c: seq<Snapshot>, s: Snapshot)
    ensures Apart(KeyOf, AllRows(c), SnapshotRows(s)) <==> forall o :: o in c ==> NothingShared(o, s)
  {
    hide SnapshotRows, NothingShared, KeyOf;
    if c != [] {
      ApartFromAll(c[1..], s);
      SharedExactly(c[0], s);
      ApartJoin(SnapshotRows(c[0]), AllRows(c[1..]), SnapshotRows(s));
      assert c == [c[0]] + c[1..];
    }
  }

  lemma ApartJoin(a: seq<Row>, b: seq<Row>, more: seq<Row>)
    ensures Apart(KeyOf, a + b, more) <==> Apart(KeyOf, a, more) && Apart(KeyOf, b, more)
  {
    hide KeyOf;
    forall i | 0 <= i < |more|
      ensures FreshKey(KeyOf, more[i], a + b) <==> FreshKey(KeyOf, more[i], a) && FreshKey(KeyOf, more[i], b)
    {
      FreshConcat(KeyOf, more[i], a, b);
    }
  }

  // Whole batches.

  /** What stands in the index when entry `n` of a batch is reached: the last entry so far for its unit, or what was
      committed for a unit that no entry so far is for. */
  ghost predicate Standing(c: seq<Snapshot>, entries: seq<(SourceUnit, Snapshot)>, n: nat, o: Snapshot)
    requires n <= |entries|
  {
    || (exists k :: 0 <= k < n && entries[k].1 == o && NoneFor(entries, k + 1, n, o.sourceUnit.id))
    || (o in c && NoneFor(entries, 0, n, o.sourceUnit.id))
  }

  predicate NoneFor(entries: seq<(SourceUnit, Snapshot)>, from: nat, to: nat, u: string)
    requires to <= |entries|
  {
    forall h :: from <= h < to ==> entries[h].1.sourceUnit.id != u
  }

  /** An entry's own records allow it: its offsets fit and it holds nothing twice. */
  predicate Storable(s: Snapshot) {
    OffsetsFit(s) && NothingTwice(s)
  }

  /** Entry `i` shares nothing with what stands for other units when it is reached. */
  ghost predicate Compatible(c: seq<Snapshot>, entries: seq<(SourceUnit, Snapshot)>, i: nat)
    requires i < |entries|
  {
    forall o :: Standing(c, entries, i, o) && o.sourceUnit.id != entries[i].1.sourceUnit.id ==>
      NothingShared(o, entries[i].1)
  }

  lemma StandingLater(c: seq<Snapshot>, entries: seq<(SourceUnit, Snapshot)>, n: nat, o: Snapshot)
    requires 0 < n <= |entries| && Replace(c, entries[0].1).Ok?
    ensures Standing(c, entries, n, o) <==> Standing(Replace(c, entries[0].1).value, entries[1..], n - 1, o)
  {
    hide Replace;
    var first, rest, u := entries[0].1, entries[1..], o.sourceUnit.id;
    var next := Replace(c, first).value;
    ReplaceMembers(c, first, o);
    assert forall h :: 0 <= h < |rest| ==> rest[h] == entries[h + 1];
    NoneForLater(entries, 1, n, u);
    if k :| 0 <= k < n && entries[k].1 == o && NoneFor(entries, k + 1, n, u) {
      NoneForLater(entries, k + 1, n, u);
      if k > 0 { assert rest[k - 1].1 == o && NoneFor(rest, k - 1 + 1, n - 1, u); }
    }
    if k :| 0 <= k < n - 1 && rest[k].1 == o && NoneFor(rest, k + 1, n - 1, u) {
      NoneForLater(entries, k + 1 + 1, n, u);
      assert entries[k + 1].1 == o && NoneFor(entries, k + 1 + 1, n, u);
    }
    assert NoneFor(entries, 0, n, u) <==> first.sourceUnit.id != u && NoneFor(entries, 1, n, u);
    if first == o && NoneFor(entries, 1, n, u) {
      assert entries[0].1 == o && NoneFor(entries, 0 + 1, n, u);
    }
  }

  lemma NoneForLater(entries: seq<(SourceUnit, Snapshot)>, from: nat, to: nat, u: string)
    requires 0 < from && 0 < to <= |entries|
    ensures NoneFor(entries, from, to, u) <==> NoneFor(entries[1..], from - 1, to - 1, u)
  {
    if NoneFor(entries[1..], from - 1, to - 1, u) {
      forall h | from <= h < to ensures entries[h].1.sourceUnit.id != u {
        assert entries[1..][h - 1].1.sourceUnit.id != u;
      }
    }
  }

  lemma ReplaceMembers(c: seq<Snapshot>, s: Snapshot, o: Snapshot)
    requires Replace(c, s).Ok?
    ensures o in Replace(c, s).value <==> o == s || (o in c && o.sourceUnit.id != s.sourceUnit.id)
  {
    WithoutMember(c, s.sourceUnit.id, o);
  }

  ghost predicate Admissible(c: seq<Snapshot>, entries: seq<(SourceUnit, Snapshot)>, i: nat)
    requires i < |entries|
  {
    Storable(entries[i].1) && Compatible(c, entries, i)
  }

  lemma {:induction false} ReplaceAllExactly(c: seq<Snapshot>, entries: seq<(SourceUnit, Snapshot)>)
    requires WellStored(c) && AllAcceptable(entries)
    ensures ReplaceAll(c, entries).Ok? <==> forall i :: 0 <= i < |entries| ==> Admissible(c, entries, i)
    ensures ReplaceAll(c, entries).Ok? ==>
      forall o :: o in ReplaceAll(c, entries).value <==> Standing(c, entries, |entries|, o)
    decreases |entries|
  {
    hide WellStored, Acceptable, Replace, Admissible;
    if entries != [] {
      hide Standing;
      var s, rest := entries[0].1, entries[1..];
      FirstGoes(c, entries);
      if Replace(c, s).Ok? {
        var next := Replace(c, s).value;
        ReplaceKeeps(c, s);
        assert forall i :: 0 <= i < |rest| ==> rest[i] == entries[i + 1];
        ReplaceAllExactly(next, rest);
        AdmissibleLater(c, entries);
        forall o: Snapshot ensures Standing(c, entries, |entries|, o) <==> Standing(next, rest, |rest|, o) {
          StandingLater(c, entries, |entries|, o);
        }
      }
    }
  }

  lemma ReplaceKeeps(c: seq<Snapshot>, s: Snapshot)
    requires WellStored(c) && Acceptable(s) && Replace(c, s).Ok?
    ensures WellStored(Replace(c, s).value)
  {
    hide WellStored, Acceptable, Replace;
    ReplaceOutcome(c, s);
  }

  lemma FirstGoes(c: seq<Snapshot>, entries: seq<(SourceUnit, Snapshot)>)
    requires WellStored(c) && entries != []
    ensures Replace(c, entries[0].1).Ok? <==> Admissible(c, entries, 0)
  {
    hide WellStored, Replace, NothingShared, OffsetsFit, NothingTwice;
    ReplaceExactly(c, entries[0].1);
    forall o: Snapshot ensures Standing(c, entries, 0, o) <==> o in c {
      assert o in c ==> NoneFor(entries, 0, 0, o.sourceUnit.id);
    }
  }

  lemma AdmissibleLater(c: seq<Snapshot>, entries: seq<(SourceUnit, Snapshot)>)
    requires entries != [] && Replace(c, entries[0].1).Ok?
    ensures var next, rest := Replace(c, entries[0].1).value, entries[1..];
      (forall i :: 0 <= i < |entries| ==> Admissible(c, entries, i)) <==>
      Admissible(c, entries, 0) && forall i :: 0 <= i < |rest| ==> Admissible(next, rest, i)
  {
    hide Replace, Admissible;
    var next, rest := Replace(c, entries[0].1).value, entries[1..];
    forall i | 0 < i < |entries| ensures Admissible(c, entries, i) <==> Admissible(next, rest, i - 1) {
      OneLater(c, entries, i);
    }
    if forall i :: 0 <= i < |entries| ==> Admissible(c, entries, i) {
      forall i | 0 <= i < |rest| ensures Admissible(next, rest, i) {
        assert Admissible(c, entries, i + 1);
      }
    }
  }

  lemma OneLater(c: seq<Snapshot>, entries: seq<(SourceUnit, Snapshot)>, i: nat)
    requires 0 < i < |entries| && Replace(c, entries[0].1).Ok?
    ensures Admissible(c, entries, i) <==> Admissible(Replace(c, entries[0].1).value, entries[1..], i - 1)
  {
    hide Replace, Standing, NothingShared, Storable;
    forall o: Snapshot
      ensures Standing(c, entries, i, o) <==> Standing(Replace(c, entries[0].1).value, entries[1..], i - 1, o)
    {
      StandingLater(c, entries, i, o);
    }
    assert entries[1..][i - 1] == entries[i];
  }

  /** A batch is committed exactly when every entry answers for its unit with sound facts, fits, holds nothing twice and
      shares no identity with what stands for another unit when it is reached; and then what stands at the end is what
      is committed. */
  lemma ReplaceBatchExactly(c: seq<Snapshot>, entries: seq<(SourceUnit, Snapshot)>)
    requires WellStored(c)
    ensures ReplaceBatch(c, entries).Ok? <==>
      forall i :: 0 <= i < |entries| ==>
        && AnswersFor(entries[i].0, entries[i].1) && Sound(entries[i].0.id, entries[i].1)
        && Admissible(c, entries, i)
    ensures ReplaceBatch(c, entries).Ok? ==>
      forall o :: o in ReplaceBatch(c, entries).value <==> Standing(c, entries, |entries|, o)
  {
    hide WellStored, ReplaceAll, ValidateSnapshot, Sound, AnswersFor, Admissible, Standing;
    var check := (e: (SourceUnit, Snapshot)) => ValidateSnapshot(e.0, e.1);
    FirstNone(entries, check);
    forall i | 0 <= i < |entries|
      ensures check(entries[i]).None? <==>
        AnswersFor(entries[i].0, entries[i].1) && Sound(entries[i].0.id, entries[i].1)
    {
      ValidatedExactly(entries[i].0, entries[i].1);
    }
    if First(entries, check).None? {
      AllValidated(entries);
      ReplaceAllExactly(c, entries);
    }
  }

  // One snapshot.

  /** A replacement commits, or is refused, for exactly these reasons in this order: another unit, another content or
      context, a fact that is not sound, and last an offset or an identity. */
  lemma ReplacementExactly(c: seq<Snapshot>, expected: SourceUnit, s: Snapshot)
    requires WellStored(c)
    ensures var r := ReplaceBatch(c, [(expected, s)]);
      && (r == Err(SourceUnitMismatch) <==> s.sourceUnit.id != expected.id)
      && (r == Err(SnapshotInputMismatch) <==> s.sourceUnit.id == expected.id && !AnswersFor(expected, s))
      && (r.Err? && FactError(expected.id, r.error) <==> AnswersFor(expected, s) && !Sound(expected.id, s))
      && (r.Err? && r.error.ByteOffsetOutOfRange? ==> r.error.value > 0x7FFF_FFFF_FFFF_FFFF)
      && (r.Ok? <==>
            && AnswersFor(expected, s) && Sound(expected.id, s) && OffsetsFit(s) && NothingTwice(s)
            && (forall o :: o in c && o.sourceUnit.id != s.sourceUnit.id ==> NothingShared(o, s)))
      && (r.Ok? ==> forall o :: o in r.value <==> o == s || (o in c && o.sourceUnit.id != s.sourceUnit.id))
  {
    hide WellStored, Sound, OffsetsFit, NothingTwice, NothingShared, Replace, CheckFacts;
    var entries := [(expected, s)];
    assert entries[1..] == [];
    FactsExactly(expected.id, s);
    ReplaceExactly(c, s);
    OneEntry(c, expected, s);
    FactErrors(expected.id, s);
    ReplaceErrors(c, s);
    if Replace(c, s).Ok? {
      forall o: Snapshot
        ensures o in Replace(c, s).value <==> o == s || (o in c && o.sourceUnit.id != s.sourceUnit.id)
      {
        ReplaceMembers(c, s, o);
      }
    }
  }

  lemma OneEntry(c: seq<Snapshot>, expected: SourceUnit, s: Snapshot)
    ensures ReplaceBatch(c, [(expected, s)]) ==
      if ValidateSnapshot(expected, s).Some? then Err(ValidateSnapshot(expected, s).value) else Replace(c, s)
  {
    hide ValidateSnapshot, Replace;
    var entries := [(expected, s)];
    assert entries[1..] == [];
    var check := (e: (SourceUnit, Snapshot)) => ValidateSnapshot(e.0, e.1);
    assert First(entries[1..], check).None?;
    var next := Replace(c, s);
    assert next.Ok? ==> ReplaceAll(next.value, entries[1..]) == Ok(next.value);
  }

  /** It tells what is wrong with a fact: another protocol, another unit, or a range that ends before it starts. */
  predicate FactError(u: string, e: StoreError) {
    match e
    case IncompatibleWorkerProtocol(found) => found != 3
    case FactOwnedByOtherSource(actual) => actual != u
    case InvalidRange(start, end) => start > end
    case _ => false
  }

  lemma {:induction false} FirstSatisfies<T>(s: seq<T>, u: string, check: T -> Outcome)
    requires forall x :: check(x).Some? ==> FactError(u, check(x).value)
    ensures First(s, check).Some? ==> FactError(u, First(s, check).value)
  {
    if s != [] {
      FirstSatisfies(s[1..], u, check);
    }
  }

  lemma RecordErrors(u: string)
    ensures forall x: SymbolRecord :: CheckSymbol(u, x).Some? ==> FactError(u, CheckSymbol(u, x).value)
    ensures forall x: ApplicationFact :: CheckApplication(u, x).Some? ==> FactError(u, CheckApplication(u, x).value)
    ensures forall x: SourceOccurrence :: CheckOccurrence(u, x).Some? ==> FactError(u, CheckOccurrence(u, x).value)
    ensures forall x: DiagnosticRecord :: CheckDiagnostic(u, x).Some? ==> FactError(u, CheckDiagnostic(u, x).value)
    ensures forall x: Provenance :: CheckProvenance(x).Some? ==> FactError(u, CheckProvenance(x).value)
  {
  }

  lemma FactErrors(u: string, s: Snapshot)
    ensures CheckFacts(u, s).Some? ==> FactError(u, CheckFacts(u, s).value)
  {
    hide CheckSymbol, CheckApplication, CheckOccurrence, CheckDiagnostic, CheckProvenance, FactError, First;
    RecordErrors(u);
    FirstSatisfies(s.symbols, u, (x: SymbolRecord) => CheckSymbol(u, x));
    FirstSatisfies(s.applications, u, (x: ApplicationFact) => CheckApplication(u, x));
    FirstSatisfies(s.occurrences, u, (x: SourceOccurrence) => CheckOccurrence(u, x));
    FirstSatisfies(s.references, u, (x: ReferenceEdge) => CheckOccurrence(u, x.source));
    FirstSatisfies(s.calls, u, (x: CallEdge) => CheckOccurrence(u, x.source));
    FirstSatisfies(s.hierarchy, u, (x: HierarchyEdge) => CheckProvenance(x.provenance));
    FirstSatisfies(s.types, u, (x: TypeRecord) => CheckProvenance(x.provenance));
    FirstSatisfies(s.diagnostics, u, (x: DiagnosticRecord) => CheckDiagnostic(u, x));
  }

  lemma {:induction false} InsertErrors(rows: seq<Row>, more: seq<Row>)
    ensures var r := InsertRows(KeyOf, CheckOffsets, Clash, rows, more);
      r.Err? ==>
        r.error.ConstraintViolation? || (r.error.ByteOffsetOutOfRange? && r.error.value > 0x7FFF_FFFF_FFFF_FFFF)
    decreases |more|
  {
    if more != [] {
      OffsetErrors(Offsets(more[0]));
      hide KeyOf, Offsets, FreshKey;
      var first := InsertRow(KeyOf, CheckOffsets, Clash, rows, more[0]);
      if first.Ok? {
        InsertErrors(first.value, more[1..]);
      }
    }
  }

  lemma {:induction false} OffsetErrors(offsets: seq<nat>)
    ensures var e := FirstTooLarge(offsets);
      e.Some? ==> e.value.ByteOffsetOutOfRange? && e.value.value > 0x7FFF_FFFF_FFFF_FFFF
  {
    if offsets != [] {
      OffsetErrors(offsets[1..]);
    }
  }

  lemma ReplaceErrors(c: seq<Snapshot>, s: Snapshot)
    ensures var r := Replace(c, s);
      r.Err? ==>
        r.error.ConstraintViolation? || (r.error.ByteOffsetOutOfRange? && r.error.value > 0x7FFF_FFFF_FFFF_FFFF)
  {
    hide SnapshotRows;
    InsertErrors(AllRows(Without(c, s.sourceUnit.id)), SnapshotRows(s));
  }
}
