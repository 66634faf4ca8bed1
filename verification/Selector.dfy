/** Bounded selectors: a posting supplies the candidates and every predicate filters them. */
module Selector {
  import opened Prelude
  import opened Canonical
  import opened Tables
  import opened Store
  import opened Lookups
  import opened Ordering

  datatype LanguageView = KotlinClass | JavaClass

  datatype SelectorPredicate =
    | KindIs(kind: SymbolKind)
    | AppliedSymbol(symbol: string)
    | SubtypeOf(symbol: string)
    | QualifiedNamePrefix(prefix: string)
    | LanguageIs(language: Language)
    | ComponentIs(component: string)
    | BackendIs(backend: string)

  datatype SelectorSpec = SelectorSpec(views: seq<LanguageView>, predicates: seq<SelectorPredicate>)

  datatype SelectorPlan = AppliedSymbolPosting(symbol: string) | HierarchyPosting(symbol: string)

  datatype SelectorState = CompleteResult | PartialResult | NoResult

  datatype SelectorResult = SelectorResult(state: SelectorState, plan: SelectorPlan, symbols: seq<SymbolRecord>)

  datatype SelectorError = Unbounded

  // Annotation postings.

  function AppliedWhere(rows: seq<Row>, annotation: string): Row -> Option<SymbolRecord> {
    (r: Row) => if r.AnnotationRow? && r.annotation == annotation then SymbolById(rows, r.symbol) else None
  }

  /** annotation_edges JOIN symbols JOIN source_snapshots, in symbol order. */
  function SymbolsApplying(rows: seq<Row>, annotation: string): seq<SymbolRecord> {
    SortBy(FilterMap(rows, AppliedWhere(rows, annotation)), SymbolOrder)
  }

  lemma AnnotationRowsIn(s: Snapshot, r: Row)
    requires r.AnnotationRow?
    ensures r in SnapshotRows(s) <==>
      exists x, a :: x in s.symbols && a in x.appliedSymbols && r == AnnotationRow(s.sourceUnit.id, x.id, a)
  {
    var u := s.sourceUnit.id;
    var f := (x: SymbolRecord) => SymbolRows(u, x);
    RowsOwned(s, r);
    FlatMapMember(s.symbols, f, r);
    if j :| 0 <= j < |s.symbols| && r in f(s.symbols[j]) {
      var x := s.symbols[j];
      MapMember(x.appliedSymbols, (a: string) => AnnotationRow(u, x.id, a), r);
      assert x in s.symbols;
    }
    if x, a :| x in s.symbols && a in x.appliedSymbols && r == AnnotationRow(u, x.id, a) {
      var k :| 0 <= k < |x.appliedSymbols| && x.appliedSymbols[k] == a;
      MapMember(x.appliedSymbols, (b: string) => AnnotationRow(u, x.id, b), r);
      var j :| 0 <= j < |s.symbols| && s.symbols[j] == x;
      assert r in f(s.symbols[j]);
    }
  }

  /** The annotation posting answers with exactly the committed symbols that apply the annotation. */
  lemma AppliedScan(c: seq<Snapshot>, annotation: string, y: SymbolRecord)
    requires WellStored(c)
    ensures y in SymbolsApplying(AllRows(c), annotation) <==>
      exists s, x :: s in c && x in s.symbols && annotation in x.appliedSymbols && y == ReadBack(x, s)
  {
    hide WellStored, SnapshotRows, SymbolById, ReadBack;
    var rows := AllRows(c);
    SortByMembers(FilterMap(rows, AppliedWhere(rows, annotation)), SymbolOrder);
    FilterMapMember(rows, AppliedWhere(rows, annotation), y);
    if k :| 0 <= k < |rows| && AppliedWhere(rows, annotation)(rows[k]) == Some(y) {
      AppliedSound(c, annotation, rows[k], y);
    }
    if s, x :| s in c && x in s.symbols && annotation in x.appliedSymbols && y == ReadBack(x, s) {
      var r := AnnotationRow(s.sourceUnit.id, x.id, annotation);
      AnnotationRowsIn(s, r);
      AllRowsMember(c, r);
      SymbolByIdScan(c, x.id, y);
      var k :| 0 <= k < |rows| && rows[k] == r;
      assert AppliedWhere(rows, annotation)(rows[k]) == Some(y);
    }
  }

  lemma AppliedSound(c: seq<Snapshot>, annotation: string, r: Row, y: SymbolRecord)
    requires WellStored(c) && r in AllRows(c)
    requires r.AnnotationRow? && r.annotation == annotation && SymbolById(AllRows(c), r.symbol) == Some(y)
    ensures exists s, x :: s in c && x in s.symbols && annotation in x.appliedSymbols && y == ReadBack(x, s)
  {
    hide WellStored, SnapshotRows, SymbolById;
    AllRowsMember(c, r);
    var j :| 0 <= j < |c| && r in SnapshotRows(c[j]);
    AnnotationRowsIn(c[j], r);
    var x, a :| x in c[j].symbols && a in x.appliedSymbols && r == AnnotationRow(c[j].sourceUnit.id, x.id, a);
    SymbolByIdScan(c, x.id, ReadBack(x, c[j]));
    assert c[j] in c;
  }

  // Selection.

  function Expand(view: LanguageView): seq<SelectorPredicate> {
    match view
    case KotlinClass => [LanguageIs(Kotlin), KindIs(Class)]
    case JavaClass => [LanguageIs(Java), KindIs(Class)]
  }

  function Normalized(selector: SelectorSpec): seq<SelectorPredicate> {
    selector.predicates + FlatMap(selector.views, Expand)
  }

  method NormalizedPredicates(selector: SelectorSpec) returns (predicates: seq<SelectorPredicate>)
    ensures predicates == Normalized(selector)
  {
    predicates := selector.predicates;
    var i := 0;
    while i < |selector.views|
      invariant 0 <= i <= |selector.views|
      invariant predicates + FlatMap(selector.views[i..], Expand) == Normalized(selector)
    {
      assert selector.views[i..][1..] == selector.views[i + 1..];
      predicates := predicates + Expand(selector.views[i]);
      i := i + 1;
    }
  }

  predicate StartsWith(text: string, prefix: string) {
    |prefix| <= |text| && text[..|prefix|] == prefix
  }

  /** The filter applied to candidates; the hierarchy relation is left to the posting. */
  predicate Matches(symbol: SymbolRecord, p: SelectorPredicate) {
    match p
    case KindIs(k) => symbol.kind == k
    case AppliedSymbol(a) => a in symbol.appliedSymbols
    case SubtypeOf(_) => true
    case QualifiedNamePrefix(prefix) => symbol.qualifiedName.Some? && StartsWith(symbol.qualifiedName.value, prefix)
    case LanguageIs(l) => symbol.language == l
    case ComponentIs(c) => symbol.component == c
    case BackendIs(b) => symbol.provenance.backend == b
  }

  predicate MatchesAll(symbol: SymbolRecord, predicates: seq<SelectorPredicate>) {
    forall i :: 0 <= i < |predicates| ==> Matches(symbol, predicates[i])
  }

  function SupertypeIn(p: SelectorPredicate): Option<string> {
    if p.SubtypeOf? then Some(p.symbol) else None
  }

  function AnnotationIn(p: SelectorPredicate): Option<string> {
    if p.AppliedSymbol? then Some(p.symbol) else None
  }

  function PassesAll(predicates: seq<SelectorPredicate>): SymbolRecord -> bool {
    (x: SymbolRecord) => MatchesAll(x, predicates)
  }

  function Supertypes(predicates: seq<SelectorPredicate>): seq<string> {
    FilterMap(predicates, SupertypeIn)
  }

  function Annotations(predicates: seq<SelectorPredicate>): seq<string> {
    FilterMap(predicates, AnnotationIn)
  }

  function SubtypesByPosting(rows: seq<Row>, supertype: string): seq<SymbolRecord> {
    FilterMap(ImplementationsOf(rows, supertype),
              (r: Row) => if r.HierarchyRow? then SymbolById(rows, r.subtype) else None)
  }

  function StateOf(symbols: seq<SymbolRecord>): SelectorState {
    if symbols == [] then NoResult
    else if forall i :: 0 <= i < |symbols| ==> symbols[i].freshness == Fresh && symbols[i].completeness == Complete
      then CompleteResult
    else PartialResult
  }

  function Candidates(rows: seq<Row>, predicates: seq<SelectorPredicate>)
    : Result<(SelectorPlan, seq<SymbolRecord>), SelectorError> {
    if Supertypes(predicates) != [] then
      var supertype := Least(Supertypes(predicates));
      Ok((HierarchyPosting(supertype), SubtypesByPosting(rows, supertype)))
    else if Annotations(predicates) != [] then
      var annotation := Least(Annotations(predicates));
      Ok((AppliedSymbolPosting(annotation), SymbolsApplying(rows, annotation)))
    else Err(Unbounded)
  }

  function Selected(rows: seq<Row>, selector: SelectorSpec): Result<SelectorResult, SelectorError> {
    var predicates := Normalized(selector);
    var start := Candidates(rows, predicates);
    if start.Err? then Err(start.error)
    else
      var symbols := Filter(start.value.1, PassesAll(predicates));
      Ok(SelectorResult(StateOf(symbols), start.value.0, symbols))
  }

  // What a selector means, over the committed snapshots.

  ghost predicate StoredSymbolOf(c: seq<Snapshot>, y: SymbolRecord) {
    exists s, x :: s in c && x in s.symbols && y == ReadBack(x, s)
  }

  ghost predicate HasSupertype(c: seq<Snapshot>, symbol: string, supertype: string) {
    exists s, e :: s in c && e in s.hierarchy && e.subtype == symbol && e.supertype == supertype
  }

  ghost predicate Holds(c: seq<Snapshot>, y: SymbolRecord, p: SelectorPredicate) {
    if p.SubtypeOf? then HasSupertype(c, y.id, p.symbol) else Matches(y, p)
  }

  ghost predicate HoldsAll(c: seq<Snapshot>, y: SymbolRecord, predicates: seq<SelectorPredicate>) {
    forall i :: 0 <= i < |predicates| ==> Holds(c, y, predicates[i])
  }

  lemma SubtypesScan(c: seq<Snapshot>, supertype: string, y: SymbolRecord)
    requires WellStored(c)
    ensures y in SubtypesByPosting(AllRows(c), supertype) <==> StoredSymbolOf(c, y) && HasSupertype(c, y.id, supertype)
  {
    hide WellStored, AllRows, SymbolById, ImplementationsOf;
    var rows := AllRows(c);
    var found := ImplementationsOf(rows, supertype);
    var f := (r: Row) => if r.HierarchyRow? then SymbolById(rows, r.subtype) else None;
    FilterMapMember(found, f, y);
    if k :| 0 <= k < |found| && f(found[k]) == Some(y) {
      ImplementationsMember(c, supertype, found[k]);
      SymbolByIdScan(c, found[k].subtype, y);
    }
    if StoredSymbolOf(c, y) && HasSupertype(c, y.id, supertype) {
      var s, e :| s in c && e in s.hierarchy && e.subtype == y.id && e.supertype == supertype;
      var r := HierarchyRowOf(s.sourceUnit.id, e);
      ImplementationsMember(c, supertype, r);
      SymbolByIdScan(c, y.id, y);
      var k :| 0 <= k < |found| && found[k] == r;
      assert f(found[k]) == Some(y);
    }
  }

  /** The starting relation of a selector: its least supertype if it has one, else its least annotation. */
  ghost predicate StartHolds(c: seq<Snapshot>, y: SymbolRecord, predicates: seq<SelectorPredicate>) {
    if Supertypes(predicates) != [] then HasSupertype(c, y.id, Least(Supertypes(predicates)))
    else Annotations(predicates) != [] && Least(Annotations(predicates)) in y.appliedSymbols
  }

  lemma CandidatesScan(c: seq<Snapshot>, predicates: seq<SelectorPredicate>, y: SymbolRecord)
    requires WellStored(c) && Candidates(AllRows(c), predicates).Ok?
    ensures y in Candidates(AllRows(c), predicates).value.1 <==> StoredSymbolOf(c, y) && StartHolds(c, y, predicates)
  {
    hide WellStored, AllRows, SubtypesByPosting, SymbolsApplying;
    if Supertypes(predicates) != [] {
      SubtypesScan(c, Least(Supertypes(predicates)), y);
    } else {
      AppliedScan(c, Least(Annotations(predicates)), y);
    }
  }

  /** Selection in general: the stored symbols in the starting relation that pass every filter. */
  lemma SelectExactly(c: seq<Snapshot>, selector: SelectorSpec, y: SymbolRecord)
    requires WellStored(c) && Selected(AllRows(c), selector).Ok?
    ensures y in Selected(AllRows(c), selector).value.symbols <==>
      StoredSymbolOf(c, y) && StartHolds(c, y, Normalized(selector)) && MatchesAll(y, Normalized(selector))
  {
    hide WellStored, AllRows, Candidates, StartHolds, StoredSymbolOf;
    var predicates := Normalized(selector);
    CandidatesScan(c, predicates, y);
    FilterMember(Candidates(AllRows(c), predicates).value.1, PassesAll(predicates), y);
  }

  /** All hierarchy predicates name one supertype. */
  ghost predicate OneSupertype(predicates: seq<SelectorPredicate>) {
    forall p, q :: p in predicates && q in predicates && p.SubtypeOf? && q.SubtypeOf? ==> p == q
  }

  /** A posting-started selection is the filter of every stored symbol by every predicate. */
  lemma SelectMeaning(c: seq<Snapshot>, selector: SelectorSpec, y: SymbolRecord)
    requires WellStored(c) && Selected(AllRows(c), selector).Ok?
    requires OneSupertype(Normalized(selector))
    ensures y in Selected(AllRows(c), selector).value.symbols <==>
      StoredSymbolOf(c, y) && HoldsAll(c, y, Normalized(selector))
  {
    hide WellStored, AllRows, SubtypesByPosting, SymbolsApplying, StoredSymbolOf;
    SelectExactly(c, selector, y);
    StartAndFilter(c, y, Normalized(selector));
  }

  lemma StartAndFilter(c: seq<Snapshot>, y: SymbolRecord, predicates: seq<SelectorPredicate>)
    requires Supertypes(predicates) != [] || Annotations(predicates) != []
    requires OneSupertype(predicates)
    ensures StartHolds(c, y, predicates) && MatchesAll(y, predicates) <==> HoldsAll(c, y, predicates)
  {
    hide HasSupertype;
    if Supertypes(predicates) != [] {
      var least := Least(Supertypes(predicates));
      LeastIs(Supertypes(predicates));
      FilterMapMember(predicates, SupertypeIn, least);
      var k :| 0 <= k < |predicates| && SupertypeIn(predicates[k]) == Some(least);
      assert predicates[k] == SubtypeOf(least);
    } else {
      var least := Least(Annotations(predicates));
      LeastIs(Annotations(predicates));
      FilterMapMember(predicates, AnnotationIn, least);
      var k :| 0 <= k < |predicates| && AnnotationIn(predicates[k]) == Some(least);
      assert predicates[k] == AppliedSymbol(least);
      forall i | 0 <= i < |predicates| ensures !predicates[i].SubtypeOf? {
        FilterMapMember(predicates, SupertypeIn, if predicates[i].SubtypeOf? then predicates[i].symbol else "");
      }
    }
  }

  /** A selector is refused exactly when it names no starting relation. */
  lemma UnboundedExactly(rows: seq<Row>, selector: SelectorSpec)
    ensures Selected(rows, selector).Err? <==>
      forall p :: p in Normalized(selector) ==> !p.SubtypeOf? && !p.AppliedSymbol?
  {
    hide SubtypesByPosting, SymbolsApplying;
    var predicates := Normalized(selector);
    forall p | p in predicates && (p.SubtypeOf? || p.AppliedSymbol?)
      ensures Supertypes(predicates) != [] || Annotations(predicates) != []
    {
      var k :| 0 <= k < |predicates| && predicates[k] == p;
      FilterMapMember(predicates, SupertypeIn, p.symbol);
      FilterMapMember(predicates, AnnotationIn, p.symbol);
      assert SupertypeIn(predicates[k]) == Some(p.symbol) || AnnotationIn(predicates[k]) == Some(p.symbol);
    }
    if Supertypes(predicates) != [] {
      FilterMapMember(predicates, SupertypeIn, Supertypes(predicates)[0]);
    }
    if Annotations(predicates) != [] {
      FilterMapMember(predicates, AnnotationIn, Annotations(predicates)[0]);
    }
  }

  // The selecting code.

  /** The least name that some predicate gives. */
  method LeastGiven(predicates: seq<SelectorPredicate>, name: SelectorPredicate -> Option<string>)
      returns (least: Option<string>)
    ensures least == if FilterMap(predicates, name) == [] then None else Some(Least(FilterMap(predicates, name)))
  {
    least := None;
    for i := 0 to |predicates|
      invariant var given := FilterMap(predicates[..i], name);
        least == if given == [] then None else Some(Least(given))
    {
      var next := name(predicates[i]);
      assert predicates[..i + 1] == predicates[..i] + [predicates[i]];
      FilterMapConcat(predicates[..i], [predicates[i]], name);
      FilterMapOne(predicates[i], name);
      ghost var given := FilterMap(predicates[..i], name);
      assert given + [] == given;
      if next.Some? {
        LeastSnoc(given, next.value);
        if least.None? || StrLt(next.value, least.value) {
          least := next;
        }
      }
    }
    assert predicates[..|predicates|] == predicates;
  }

  /** Keeps, in place, the candidates that pass every predicate. */
  method Retain(candidates: seq<SymbolRecord>, predicates: seq<SelectorPredicate>) returns (kept: seq<SymbolRecord>)
    ensures kept == Filter(candidates, PassesAll(predicates))
  {
    kept := candidates;
    var at := 0;
    var next := 0;
    while next < |candidates|
      invariant at <= next <= |candidates| && at <= |kept|
      invariant kept[at..] == candidates[next..]
      invariant kept[..at] + Filter(candidates[next..], PassesAll(predicates)) ==
        Filter(candidates, PassesAll(predicates))
    {
      assert kept[at] == candidates[next] && candidates[next..][1..] == candidates[next + 1..];
      if MatchesAll(kept[at], predicates) {
        assert kept[..at + 1] == kept[..at] + [kept[at]];
        Reassociate(kept[..at], [kept[at]], Filter(candidates[next + 1..], PassesAll(predicates)));
        at := at + 1;
      } else {
        ghost var before := kept;
        kept := kept[..at] + kept[at + 1..];
        assert kept[..at] == before[..at];
      }
      next := next + 1;
    }
  }

  /** Selects from the stored symbols: those in the starting relation that pass every predicate, or a refusal when there
      is no starting relation. */
  method Select(rows: seq<Row>, ghost c: seq<Snapshot>, selector: SelectorSpec)
      returns (result: Result<SelectorResult, SelectorError>)
    requires rows == AllRows(c) && WellStored(c)
    ensures result == Selected(rows, selector)
    ensures result.Err? <==> forall p :: p in Normalized(selector) ==> !p.SubtypeOf? && !p.AppliedSymbol?
    ensures result.Ok? ==> forall y :: y in result.value.symbols <==>
      StoredSymbolOf(c, y) && StartHolds(c, y, Normalized(selector)) && MatchesAll(y, Normalized(selector))
    ensures result.Ok? ==> (result.value.state.NoResult? <==> result.value.symbols == [])
    ensures result.Ok? ==> (result.value.state.CompleteResult? <==>
      result.value.symbols != [] &&
      forall y :: y in result.value.symbols ==> y.freshness == Fresh && y.completeness == Complete)
  {
    hide WellStored, AllRows, StoredSymbolOf, StartHolds, MatchesAll, SubtypesByPosting, SymbolsApplying, Normalized;
    var predicates := NormalizedPredicates(selector);
    UnboundedExactly(rows, selector);
    var supertype := LeastGiven(predicates, SupertypeIn);
    var annotation := LeastGiven(predicates, AnnotationIn);
    var plan: SelectorPlan;
    var symbols: seq<SymbolRecord>;
    if supertype.Some? {
      plan, symbols := HierarchyPosting(supertype.value), SubtypesByPosting(rows, supertype.value);
    } else if annotation.Some? {
      plan, symbols := AppliedSymbolPosting(annotation.value), SymbolsApplying(rows, annotation.value);
    } else {
      return Err(Unbounded);
    }
    symbols := Retain(symbols, predicates);
    result := Ok(SelectorResult(StateOf(symbols), plan, symbols));
    forall y
      ensures y in symbols <==> StoredSymbolOf(c, y) && StartHolds(c, y, predicates) && MatchesAll(y, predicates)
    {
      SelectExactly(c, selector, y);
    }
    StateExactly(symbols);
  }

  lemma StateExactly(symbols: seq<SymbolRecord>)
    ensures StateOf(symbols).NoResult? <==> symbols == []
    ensures StateOf(symbols).CompleteResult? <==>
      symbols != [] && forall y :: y in symbols ==> y.freshness == Fresh && y.completeness == Complete
  {
    if forall y :: y in symbols ==> y.freshness == Fresh && y.completeness == Complete {
      forall i | 0 <= i < |symbols| ensures symbols[i].freshness == Fresh && symbols[i].completeness == Complete {
        assert symbols[i] in symbols;
      }
    }
  }
}
