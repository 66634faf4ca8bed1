/** One incremental indexing run over the store: plan, remove, analyse, commit, and invalidate the
    dependents of every unit whose public API changed. */
module Orchestrator {
  import opened Prelude
  import opened Canonical
  import opened Tables
  import opened Store
  import opened Lookups
  import opened HierarchyWalk
  import opened Ordering
  import opened Freshness

  // What the store tells the planner.

  function InputOf(r: Row): Option<AnalysisInput> {
    if r.SnapshotRow? then Some(AnalysisInput(r.source, r.provenance, r.publicApi)) else None
  }

  predicate InputOrder(a: AnalysisInput, b: AnalysisInput) {
    StrLe(a.unit.id, b.unit.id)
  }

  function StoredInputs(rows: seq<Row>): seq<AnalysisInput> {
    SortBy(FilterMap(rows, InputOf), InputOrder)
  }

  function PersistedSources(rows: seq<Row>): seq<SourceUnit> {
    Filter(Map(StoredInputs(rows), (i: AnalysisInput) => i.unit), (u: SourceUnit) => u.origin != Dependency)
  }

  function SnapshotInput(s: Snapshot): AnalysisInput {
    AnalysisInput(s.sourceUnit, s.provenance, s.publicApi)
  }

  lemma StoredInputsMember(c: seq<Snapshot>, i: AnalysisInput)
    ensures i in StoredInputs(AllRows(c)) <==> exists s :: s in c && i == SnapshotInput(s)
  {
    hide SnapshotRows;
    var rows := AllRows(c);
    SortByMembers(FilterMap(rows, InputOf), InputOrder);
    FilterMapMember(rows, InputOf, i);
    if k :| 0 <= k < |rows| && InputOf(rows[k]) == Some(i) {
      AllRowsMember(c, rows[k]);
      var j :| 0 <= j < |c| && rows[k] in SnapshotRows(c[j]);
      assert rows[k].SnapshotRow?;
      HeaderRowOnly(c[j], rows[k]);
      assert c[j] in c && i == SnapshotInput(c[j]);
    }
    if s :| s in c && i == SnapshotInput(s) {
      HeaderRowIn(s);
      AllRowsMember(c, HeaderRow(s));
      var k :| 0 <= k < |rows| && rows[k] == HeaderRow(s);
      assert InputOf(rows[k]) == Some(i);
    }
  }

  lemma HeaderRowOnly(s: Snapshot, r: Row)
    requires r in SnapshotRows(s) && r.SnapshotRow?
    ensures r == HeaderRow(s)
  {
    RowsOwned(s, r);
  }

  /** The planner sees one input a unit: that of its committed snapshot. */
  lemma LatestInput(c: seq<Snapshot>, k: string)
    requires WellStored(c)
    ensures Latest(StoredInputs(AllRows(c)), InputId, k) ==
      if Find(c, k).Some? then Some(SnapshotInput(Find(c, k).value)) else None
  {
    hide WellStored, AllRows;
    var inputs := StoredInputs(AllRows(c));
    LatestIs(inputs, InputId, k);
    FindMember(c, k);
    var found := Latest(inputs, InputId, k);
    if found.Some? {
      StoredInputsMember(c, found.value);
      var s :| s in c && found.value == SnapshotInput(s);
      FindCommitted(c, s);
    } else if Find(c, k).Some? {
      StoredInputsMember(c, SnapshotInput(Find(c, k).value));
    }
  }

  lemma LatestSource(c: seq<Snapshot>, k: string)
    requires WellStored(c)
    ensures Latest(PersistedSources(AllRows(c)), UnitId, k) ==
      if Tracked(c, k, None) then Some(Find(c, k).value.sourceUnit) else None
  {
    hide WellStored, AllRows;
    var inputs := StoredInputs(AllRows(c));
    var sources := PersistedSources(AllRows(c));
    LatestIs(sources, UnitId, k);
    FindMember(c, k);
    forall u ensures u in sources <==> u.origin != Dependency && exists s :: s in c && s.sourceUnit == u {
      FilterMember(Map(inputs, (i: AnalysisInput) => i.unit), (x: SourceUnit) => x.origin != Dependency, u);
      MapMember(inputs, (i: AnalysisInput) => i.unit, u);
      if i :| i in inputs && i.unit == u { StoredInputsMember(c, i); }
      if s :| s in c && s.sourceUnit == u {
        StoredInputsMember(c, SnapshotInput(s));
        var j :| 0 <= j < |inputs| && inputs[j] == SnapshotInput(s);
      }
    }
    var found := Latest(sources, UnitId, k);
    if found.Some? {
      var s :| s in c && s.sourceUnit == found.value;
      FindCommitted(c, s);
    }
  }

  // The plan.

  /** A committed snapshot the planner compares with: without a provenance, dependency snapshots are set aside. */
  predicate Tracked(c: seq<Snapshot>, k: string, provenance: Option<Provenance>) {
    Find(c, k).Some? && (provenance.None? ==> Find(c, k).value.sourceUnit.origin != Dependency)
  }

  /** The stored snapshot of `u` answers the current input. */
  predicate UpToDate(c: seq<Snapshot>, u: SourceUnit, provenance: Option<Provenance>) {
    Tracked(c, u.id, provenance) &&
    var s := Find(c, u.id).value;
    s.sourceUnit.content == u.content && s.sourceUnit.context == u.context
      && (provenance.Some? ==> s.provenance == provenance.value)
  }

  function PlanFor(rows: seq<Row>, current: seq<SourceUnit>, provenance: Option<Provenance>): seq<IndexAction> {
    if provenance.Some?
    then AnalysisPlan(Map(current, AsInput(provenance.value)), StoredInputs(rows))
    else InvalidationPlan(current, PersistedSources(rows))
  }

  function AsInput(p: Provenance): SourceUnit -> AnalysisInput {
    (u: SourceUnit) => AnalysisInput(u, p, None)
  }

  method MakePlan(rows: seq<Row>, current: seq<SourceUnit>, provenance: Option<Provenance>)
      returns (actions: seq<IndexAction>)
    ensures actions == PlanFor(rows, current, provenance)
  {
    if provenance.Some? {
      actions := PlanAnalysisInvalidation(Map(current, AsInput(provenance.value)), StoredInputs(rows));
    } else {
      actions := PlanInvalidation(current, PersistedSources(rows));
    }
  }

  /** `u` is what the caller currently has under its identity. */
  predicate IsCurrent(current: seq<SourceUnit>, u: SourceUnit) {
    Latest(current, UnitId, u.id) == Some(u)
  }

  lemma {:induction false} LatestAsInput(current: seq<SourceUnit>, p: Provenance, k: string)
    ensures Latest(Map(current, AsInput(p)), InputId, k) ==
      if Latest(current, UnitId, k).Some? then Some(AsInput(p)(Latest(current, UnitId, k).value)) else None
    decreases |current|
  {
    if current != [] {
      var init, last := current[..|current| - 1], current[|current| - 1];
      LatestAsInput(init, p, k);
      MapConcat(init, [last], AsInput(p));
      assert current == init + [last];
      assert Map([last], AsInput(p)) == [AsInput(p)(last)];
      MapAt(current, AsInput(p));
      var mapped := Map(current, AsInput(p));
      assert mapped[..|mapped| - 1] == Map(init, AsInput(p));
    }
  }

  /** A run reanalyses exactly the current units with no up-to-date snapshot and removes exactly the tracked
      snapshots of units no longer current. */
  lemma PlanMeaning(c: seq<Snapshot>, current: seq<SourceUnit>, provenance: Option<Provenance>, u: SourceUnit,
                    k: string)
    requires WellStored(c)
    ensures u in ToReanalyze(PlanFor(AllRows(c), current, provenance)) <==>
      IsCurrent(current, u) && !UpToDate(c, u, provenance)
    ensures k in ToRemove(PlanFor(AllRows(c), current, provenance)) <==>
      Tracked(c, k, provenance) && Latest(current, UnitId, k).None?
  {
    hide WellStored, AllRows;
    LatestIs(current, UnitId, u.id);
    if provenance.Some? {
      AnalysisPlanMeaning(c, current, provenance.value, u, k);
    } else {
      SourcePlanMeaning(c, current, u, k);
    }
  }

  lemma AnalysisPlanMeaning(c: seq<Snapshot>, current: seq<SourceUnit>, p: Provenance, u: SourceUnit, k: string)
    requires WellStored(c)
    ensures u in ToReanalyze(PlanFor(AllRows(c), current, Some(p))) <==>
      IsCurrent(current, u) && !UpToDate(c, u, Some(p))
    ensures k in ToRemove(PlanFor(AllRows(c), current, Some(p))) <==>
      Tracked(c, k, Some(p)) && Latest(current, UnitId, k).None?
  {
    hide WellStored, AllRows;
    var inputs, stored := Map(current, AsInput(p)), StoredInputs(AllRows(c));
    PlanExact(inputs, stored, InputId, (i: AnalysisInput) => i.unit, DecideInput, u, k);
    LatestAsInput(current, p, u.id);
    LatestAsInput(current, p, k);
    LatestInput(c, u.id);
    LatestInput(c, k);
    AnalysisReasonExact(AsInput(p)(u), Latest(stored, InputId, u.id));
    LatestIs(inputs, InputId, u.id);
    forall i | i in inputs && i.unit == u ensures i == AsInput(p)(u) {
      MapMember(current, AsInput(p), i);
    }
  }

  lemma SourcePlanMeaning(c: seq<Snapshot>, current: seq<SourceUnit>, u: SourceUnit, k: string)
    requires WellStored(c)
    ensures u in ToReanalyze(PlanFor(AllRows(c), current, None)) <==> IsCurrent(current, u) && !UpToDate(c, u, None)
    ensures k in ToRemove(PlanFor(AllRows(c), current, None)) <==>
      Tracked(c, k, None) && Latest(current, UnitId, k).None?
  {
    hide WellStored, AllRows;
    PlanExact(current, PersistedSources(AllRows(c)), UnitId, (x: SourceUnit) => x, DecideUnit, u, k);
    LatestSource(c, u.id);
    LatestSource(c, k);
    LatestIs(current, UnitId, u.id);
  }

  lemma PlanDistinct(rows: seq<Row>, current: seq<SourceUnit>, provenance: Option<Provenance>)
    ensures DistinctUnits(ToReanalyze(PlanFor(rows, current, provenance)))
  {
    if provenance.Some? {
      var inputs := Map(current, AsInput(provenance.value));
      DistinctAsked(inputs, StoredInputs(rows), InputId, (i: AnalysisInput) => i.unit, DecideInput);
    } else {
      DistinctAsked(current, PersistedSources(rows), UnitId, (x: SourceUnit) => x, DecideUnit);
    }
  }

  // One run.

  datatype RunError =
    | WorkerFailed
    | UnsupportedBatches(count: nat)
    | UnexpectedSnapshot(unit: string)
    | MissingSnapshot(unit: string)
    | StoreFailed(error: StoreError)

  /** A run either fails, leaving `committed`, or finishes after analysing some units. */
  datatype RunResult =
    | Aborted(committed: seq<Snapshot>, error: RunError)
    | Finished(committed: seq<Snapshot>, analyzed: seq<SourceUnit>)

  /** What a worker answers to a batch request; any answer at all is possible. */
  type Worker = seq<SourceUnit> -> Option<seq<Snapshot>>

  function FirstFor(snapshots: seq<Snapshot>, u: string): Option<Snapshot> {
    Find(snapshots, u)
  }

  /** The received units must be the requested ones, as sets; the least extra one is reported before the least
      missing. */
  function ValidateBatch(requested: seq<SourceUnit>, snapshots: seq<Snapshot>): Option<RunError> {
    var extra := Filter(snapshots, (s: Snapshot) => !Requested(requested, s.sourceUnit.id));
    if extra != [] then Some(UnexpectedSnapshot(Least(Ids(extra, (s: Snapshot) => s.sourceUnit.id))))
    else
      var missing := Filter(requested, (u: SourceUnit) => FirstFor(snapshots, u.id).None?);
      if missing != [] then Some(MissingSnapshot(Least(Ids(missing, (u: SourceUnit) => u.id)))) else None
  }

  function Ids<T>(s: seq<T>, id: T -> string): (r: seq<string>)
    ensures |r| == |s|
  {
    if s == [] then [] else [id(s[0])] + Ids(s[1..], id)
  }

  predicate Requested(requested: seq<SourceUnit>, id: string) {
    exists i :: 0 <= i < |requested| && requested[i].id == id
  }

  /** Validation accepts exactly an answer for the requested units, each of them at least once. */
  lemma ValidateBatchExact(requested: seq<SourceUnit>, snapshots: seq<Snapshot>)
    ensures ValidateBatch(requested, snapshots).None? <==>
      && (forall s :: s in snapshots ==> Requested(requested, s.sourceUnit.id))
      && (forall u :: u in requested ==> FirstFor(snapshots, u.id).Some?)
  {
    var unasked := (s: Snapshot) => !Requested(requested, s.sourceUnit.id);
    var unanswered := (u: SourceUnit) => FirstFor(snapshots, u.id).None?;
    var extra, missing := Filter(snapshots, unasked), Filter(requested, unanswered);
    forall s ensures s in extra <==> s in snapshots && !Requested(requested, s.sourceUnit.id) {
      FilterMember(snapshots, unasked, s);
    }
    forall u ensures u in missing <==> u in requested && FirstFor(snapshots, u.id).None? {
      FilterMember(requested, unanswered, u);
    }
    if extra != [] { assert extra[0] in extra; }
    if missing != [] { assert missing[0] in missing; }
  }

  function RemoveAll(c: seq<Snapshot>, ids: seq<string>): seq<Snapshot>
    decreases |ids|
  {
    if ids == [] then c else RemoveAll(Without(c, ids[0]), ids[1..])
  }

  function ApiOf(c: seq<Snapshot>, u: string): Option<string> {
    if Find(c, u).Some? then Find(c, u).value.publicApi else None
  }

  function Entries(reanalyze: seq<SourceUnit>, snapshots: seq<Snapshot>): seq<(SourceUnit, Snapshot)> {
    FilterMap(reanalyze, (u: SourceUnit) =>
      if FirstFor(snapshots, u.id).Some? then Some((u, FirstFor(snapshots, u.id).value)) else None)
  }

  /** The dependents one reanalysed unit invalidates, judged on the tables before the commit. */
  function Invalidated(rows: seq<Row>, snapshots: seq<Snapshot>): SourceUnit -> seq<string> {
    (u: SourceUnit) =>
      var stored := Latest(StoredInputs(rows), InputId, u.id);
      var previous := if stored.Some? then stored.value.publicApi else None;
      var s := FirstFor(snapshots, u.id);
      ApiDependentInvalidations(previous, if s.Some? then s.value.publicApi else None, Dependents(rows, u.id))
  }

  function ToInvalidate(rows: seq<Row>, reanalyze: seq<SourceUnit>, snapshots: seq<Snapshot>): seq<string> {
    Filter(FlatMap(reanalyze, Invalidated(rows, snapshots)), (id: string) => !Requested(reanalyze, id))
  }

  /** The whole run on the abstract state. */
  function IndexRun(c: seq<Snapshot>, current: seq<SourceUnit>, provenance: Option<Provenance>,
                    worker: Worker): RunResult {
    var actions := PlanFor(AllRows(c), current, provenance);
    var reanalyze := ToReanalyze(actions);
    var c0 := RemoveAll(c, ToRemove(actions));
    if reanalyze == [] then Finished(c0, [])
    else Commit(c0, reanalyze, worker(reanalyze))
  }

  function Commit(c: seq<Snapshot>, reanalyze: seq<SourceUnit>, answer: Option<seq<Snapshot>>): RunResult {
    if answer.None? then Aborted(c, WorkerFailed)
    else if ValidateBatch(reanalyze, answer.value).Some? then Aborted(c, ValidateBatch(reanalyze, answer.value).value)
    else
      var replaced := ReplaceBatch(c, Entries(reanalyze, answer.value));
      if replaced.Err? then Aborted(c, StoreFailed(replaced.error))
      else Finished(RemoveAll(replaced.value, ToInvalidate(AllRows(c), reanalyze, answer.value)), reanalyze)
  }

  method RemoveEach(store: IndexStore, ids: seq<string>)
    requires store.Valid()
    modifies store
    ensures store.Valid() && store.committed == RemoveAll(old(store.committed), ids)
  {
    var i := 0;
    while i < |ids|
      invariant 0 <= i <= |ids| && store.Valid()
      invariant RemoveAll(store.committed, ids[i..]) == RemoveAll(old(store.committed), ids)
    {
      assert ids[i..][1..] == ids[i + 1..];
      store.RemoveSnapshot(ids[i]);
      i := i + 1;
    }
  }

  method IndexBatch(store: IndexStore, current: seq<SourceUnit>, provenance: Option<Provenance>, worker: Worker)
      returns (result: Option<RunError>, ghost run: RunResult)
    requires store.Valid()
    modifies store
    ensures store.Valid()
    ensures run == IndexRun(old(store.committed), current, provenance, worker)
    ensures store.committed == run.committed
    ensures result == if run.Aborted? then Some(run.error) else None
  {
    var actions := MakePlan(store.rows, current, provenance);
    var reanalyze := ToReanalyze(actions);
    RemoveEach(store, ToRemove(actions));
    run := Finished(store.committed, []);
    if reanalyze == [] {
      return None, run;
    }
    ghost var before := store.committed;
    run := Commit(before, reanalyze, worker(reanalyze));
    var answer := worker(reanalyze);
    if answer.None? {
      return Some(WorkerFailed), run;
    }
    var invalid := ValidateBatch(reanalyze, answer.value);
    if invalid.Some? {
      return invalid, run;
    }
    var invalidated := ToInvalidate(store.rows, reanalyze, answer.value);
    var replaced := store.ReplaceSnapshotsBatch(Entries(reanalyze, answer.value));
    if replaced.Err? {
      return Some(StoreFailed(replaced.error)), run;
    }
    RemoveEach(store, invalidated);
    return None, run;
  }
}
