/** What sequences of indexing runs achieve: convergence to pure reuse, and no stale dependents. */
module Convergence {
  import opened Prelude
  import opened Relation
  import opened Canonical
  import opened Tables
  import opened Store
  import opened Lookups
  import opened HierarchyWalk
  import opened Ordering
  import opened Freshness
  import opened Orchestrator

  lemma {:induction false} RemoveAllFinds(c: seq<Snapshot>, ids: seq<string>, v: string)
    ensures Find(RemoveAll(c, ids), v) == if v in ids then None else Find(c, v)
    decreases |ids|
  {
    if ids != [] {
      assert ids == [ids[0]] + ids[1..];
      RemoveAllFinds(Without(c, ids[0]), ids[1..], v);
      FindWithout(c, ids[0], v);
    }
  }

  lemma {:induction false} RemoveAllWellStored(c: seq<Snapshot>, ids: seq<string>)
    requires WellStored(c)
    ensures WellStored(RemoveAll(c, ids))
    decreases |ids|
  {
    hide WellStored;
    if ids != [] {
      WithoutWellStored(c, ids[0]);
      RemoveAllWellStored(Without(c, ids[0]), ids[1..]);
    }
  }

  /** A committed batch holds, for each unit it names, that unit's snapshot; other units are as before. */
  lemma {:induction false} ReplaceAllFinds(
      c: seq<Snapshot>, entries: seq<(SourceUnit, Snapshot)>, v: string, s: Snapshot)
    requires ReplaceAll(c, entries).Ok?
    requires forall e :: e in entries && e.1.sourceUnit.id == v ==> e.1 == s
    ensures Find(ReplaceAll(c, entries).value, v) ==
      if exists e :: e in entries && e.1.sourceUnit.id == v then Some(s) else Find(c, v)
    decreases |entries|
  {
    hide Replace;
    if entries != [] {
      var next := Replace(c, entries[0].1).value;
      assert entries == [entries[0]] + entries[1..];
      ReplaceFinds(c, entries[0].1, v);
      ReplaceAllFinds(next, entries[1..], v, s);
    }
  }

  lemma EntriesMember(reanalyze: seq<SourceUnit>, snapshots: seq<Snapshot>, e: (SourceUnit, Snapshot))
    ensures e in Entries(reanalyze, snapshots) <==> e.0 in reanalyze && FirstFor(snapshots, e.0.id) == Some(e.1)
  {
    var f := (u: SourceUnit) =>
      if FirstFor(snapshots, u.id).Some? then Some((u, FirstFor(snapshots, u.id).value)) else None;
    FilterMapMember(reanalyze, f, e);
    if e.0 in reanalyze && FirstFor(snapshots, e.0.id) == Some(e.1) {
      var i :| 0 <= i < |reanalyze| && reanalyze[i] == e.0;
      assert f(reanalyze[i]) == Some(e);
    }
  }

  /** The entries of an accepted answer are one for each requested unit, under its own identity. */
  lemma EntriesAnswer(reanalyze: seq<SourceUnit>, snapshots: seq<Snapshot>, v: string)
    requires ValidateBatch(reanalyze, snapshots).None?
    ensures Requested(reanalyze, v) ==> FirstFor(snapshots, v).Some?
    ensures forall e :: e in Entries(reanalyze, snapshots) && e.1.sourceUnit.id == v ==>
                          Some(e.1) == FirstFor(snapshots, v)
    ensures (exists e :: e in Entries(reanalyze, snapshots) && e.1.sourceUnit.id == v) <==> Requested(reanalyze, v)
  {
    hide ValidateBatch, Entries, FirstFor;
    ValidateBatchExact(reanalyze, snapshots);
    forall e | e in Entries(reanalyze, snapshots)
      ensures e.1.sourceUnit.id == e.0.id && e.0 in reanalyze && FirstFor(snapshots, e.0.id) == Some(e.1)
    {
      EntriesMember(reanalyze, snapshots, e);
      AnswerNamed(snapshots, e.0.id);
    }
    if Requested(reanalyze, v) {
      var i :| 0 <= i < |reanalyze| && reanalyze[i].id == v;
      assert reanalyze[i] in reanalyze;
      AnswerNamed(snapshots, v);
      EntriesMember(reanalyze, snapshots, (reanalyze[i], FirstFor(snapshots, v).value));
    }
  }

  lemma AnswerNamed(snapshots: seq<Snapshot>, u: string)
    ensures FirstFor(snapshots, u).Some? ==> FirstFor(snapshots, u).value.sourceUnit.id == u
  {
    FindMember(snapshots, u);
  }

  /** What a batch commit leaves for one unit. */
  lemma CommitFinds(c: seq<Snapshot>, reanalyze: seq<SourceUnit>, snapshots: seq<Snapshot>, v: string)
    requires ReplaceBatch(c, Entries(reanalyze, snapshots)).Ok? && ValidateBatch(reanalyze, snapshots).None?
    ensures Find(ReplaceBatch(c, Entries(reanalyze, snapshots)).value, v) ==
      if Requested(reanalyze, v) then FirstFor(snapshots, v) else Find(c, v)
    ensures Requested(reanalyze, v) ==> FirstFor(snapshots, v).Some?
  {
    hide ValidateSnapshot, ValidateBatch, Entries, FirstFor, Requested, Find;
    var entries := Entries(reanalyze, snapshots);
    EntriesAnswer(reanalyze, snapshots, v);
    if Requested(reanalyze, v) {
      ReplaceAllFinds(c, entries, v, FirstFor(snapshots, v).value);
    } else if entries != [] {
      ReplaceAllFinds(c, entries, v, entries[0].1);
    }
  }

  /** The committed snapshot answers the requested content and context: validation leaves no choice. */
  lemma CommitEchoes(c: seq<Snapshot>, reanalyze: seq<SourceUnit>, snapshots: seq<Snapshot>, u: SourceUnit)
    requires ReplaceBatch(c, Entries(reanalyze, snapshots)).Ok? && u in reanalyze
    requires FirstFor(snapshots, u.id).Some?
    ensures FirstFor(snapshots, u.id).value.sourceUnit.content == u.content
    ensures FirstFor(snapshots, u.id).value.sourceUnit.context == u.context
  {
    hide CheckFacts;
    var entries := Entries(reanalyze, snapshots);
    var e := (u, FirstFor(snapshots, u.id).value);
    EntriesMember(reanalyze, snapshots, e);
    var check := (x: (SourceUnit, Snapshot)) => ValidateSnapshot(x.0, x.1);
    FirstNone(entries, check);
    var i :| 0 <= i < |entries| && entries[i] == e;
    assert check(entries[i]).None?;
  }

  /** A snapshot carries what the next plan compares: with a provenance, that provenance; without one, an origin that is
      not a dependency's, which planning sets aside. */
  predicate Carries(s: Snapshot, provenance: Option<Provenance>) {
    if provenance.Some? then s.provenance == provenance.value else s.sourceUnit.origin != Dependency
  }

  /** The state between removals and commit. */
  function Swept(c: seq<Snapshot>, current: seq<SourceUnit>, provenance: Option<Provenance>): seq<Snapshot> {
    RemoveAll(c, ToRemove(PlanFor(AllRows(c), current, provenance)))
  }

  function Asked(c: seq<Snapshot>, current: seq<SourceUnit>, provenance: Option<Provenance>): seq<SourceUnit> {
    ToReanalyze(PlanFor(AllRows(c), current, provenance))
  }

  /** The units whose snapshots a finished run drops because their API dependencies changed. */
  function DroppedDependents(c: seq<Snapshot>, current: seq<SourceUnit>, provenance: Option<Provenance>,
                             worker: Worker): seq<string> {
    var asked := Asked(c, current, provenance);
    if asked == [] || worker(asked).None? then []
    else ToInvalidate(AllRows(Swept(c, current, provenance)), asked, worker(asked).value)
  }

  /** Every answer that a run commits carries what the next plan compares. */
  ghost predicate AnswersCarry(c: seq<Snapshot>, current: seq<SourceUnit>, provenance: Option<Provenance>,
                               worker: Worker) {
    var asked := Asked(c, current, provenance);
    forall u :: u in asked && worker(asked).Some? && FirstFor(worker(asked).value, u.id).Some? ==>
      Carries(FirstFor(worker(asked).value, u.id).value, provenance)
  }

  lemma AskedMember(c: seq<Snapshot>, current: seq<SourceUnit>, provenance: Option<Provenance>, v: string)
    requires WellStored(c)
    ensures Requested(Asked(c, current, provenance), v) <==>
      Latest(current, UnitId, v).Some? && !UpToDate(c, Latest(current, UnitId, v).value, provenance)
  {
    hide WellStored, AllRows, UpToDate;
    var asked := Asked(c, current, provenance);
    LatestIs(current, UnitId, v);
    if i :| 0 <= i < |asked| && asked[i].id == v {
      assert asked[i] in asked;
      PlanMeaning(c, current, provenance, asked[i], v);
    }
    if Latest(current, UnitId, v).Some? {
      var u := Latest(current, UnitId, v).value;
      PlanMeaning(c, current, provenance, u, v);
      if u in asked {
        var i :| 0 <= i < |asked| && asked[i] == u;
      }
    }
  }

  lemma SweptFinds(c: seq<Snapshot>, current: seq<SourceUnit>, provenance: Option<Provenance>, v: string)
    requires WellStored(c)
    ensures Find(Swept(c, current, provenance), v) ==
      if Tracked(c, v, provenance) && Latest(current, UnitId, v).None? then None else Find(c, v)
  {
    hide WellStored, AllRows;
    var removals := ToRemove(PlanFor(AllRows(c), current, provenance));
    RemoveAllFinds(c, removals, v);
    var u := SourceUnit("", "", "", Kotlin, SourceCode, "", "");
    PlanMeaning(c, current, provenance, u, v);
  }

  /** What one finished run leaves for one unit. */
  lemma RunFinds(c: seq<Snapshot>, current: seq<SourceUnit>, provenance: Option<Provenance>, worker: Worker, v: string)
    requires WellStored(c) && IndexRun(c, current, provenance, worker).Finished?
    ensures var asked := Asked(c, current, provenance);
      Find(IndexRun(c, current, provenance, worker).committed, v) ==
        if Requested(asked, v) then (if worker(asked).Some? then FirstFor(worker(asked).value, v) else None)
        else if v in DroppedDependents(c, current, provenance, worker) then None
        else Find(Swept(c, current, provenance), v)
    ensures Requested(Asked(c, current, provenance), v) ==>
      worker(Asked(c, current, provenance)).Some? && FirstFor(worker(Asked(c, current, provenance)).value, v).Some?
  {
    hide WellStored, AllRows, ReplaceBatch, ValidateBatch, UpToDate, Tracked, PlanFor;
    var asked, swept := Asked(c, current, provenance), Swept(c, current, provenance);
    if asked != [] {
      var snapshots := worker(asked).value;
      var replaced := ReplaceBatch(swept, Entries(asked, snapshots)).value;
      var dropped := ToInvalidate(AllRows(swept), asked, snapshots);
      CommitFinds(swept, asked, snapshots, v);
      RemoveAllFinds(replaced, dropped, v);
      FilterMember(FlatMap(asked, Invalidated(AllRows(swept), snapshots)), (id: string) => !Requested(asked, id), v);
    }
  }

  lemma RunWellStored(c: seq<Snapshot>, current: seq<SourceUnit>, provenance: Option<Provenance>, worker: Worker)
    requires WellStored(c)
    ensures WellStored(IndexRun(c, current, provenance, worker).committed)
  {
    hide WellStored, AllRows, ReplaceBatch, ValidateBatch, PlanFor, ToInvalidate, Entries, RemoveAll;
    var asked, swept := Asked(c, current, provenance), Swept(c, current, provenance);
    RemoveAllWellStored(c, ToRemove(PlanFor(AllRows(c), current, provenance)));
    if asked != [] && worker(asked).Some? && ReplaceBatch(swept, Entries(asked, worker(asked).value)).Ok? {
      ReplaceBatchWellStored(swept, Entries(asked, worker(asked).value));
      RemoveAllWellStored(ReplaceBatch(swept, Entries(asked, worker(asked).value)).value,
        ToInvalidate(AllRows(swept), asked, worker(asked).value));
    }
  }

  /** After one finished run every current unit is up to date or absent, and nothing tracked is out of scope. */
  ghost predicate Settled(c: seq<Snapshot>, current: seq<SourceUnit>, provenance: Option<Provenance>) {
    && (forall u :: IsCurrent(current, u) ==> UpToDate(c, u, provenance) || Find(c, u.id).None?)
    && (forall k :: Tracked(c, k, provenance) ==> Latest(current, UnitId, k).Some?)
  }

  /** A reanalysed unit is up to date after the run exactly when its answer carries what is compared. */
  lemma AnsweredExactly(c: seq<Snapshot>, current: seq<SourceUnit>, provenance: Option<Provenance>, worker: Worker,
                        u: SourceUnit)
    requires WellStored(c) && IndexRun(c, current, provenance, worker).Finished?
    requires IsCurrent(current, u) && !UpToDate(c, u, provenance)
    ensures var asked, after := Asked(c, current, provenance), IndexRun(c, current, provenance, worker).committed;
      && u in asked && worker(asked).Some? && FirstFor(worker(asked).value, u.id).Some?
      && Find(after, u.id) == FirstFor(worker(asked).value, u.id)
      && (UpToDate(after, u, provenance) <==> Carries(FirstFor(worker(asked).value, u.id).value, provenance))
  {
    hide WellStored, AllRows, ReplaceBatch, ValidateBatch, PlanFor;
    var asked := Asked(c, current, provenance);
    PlanMeaning(c, current, provenance, u, "");
    AskedMember(c, current, provenance, u.id);
    RunFinds(c, current, provenance, worker, u.id);
    var snapshots := worker(asked).value;
    CommitEchoes(Swept(c, current, provenance), asked, snapshots, u);
    FindMember(snapshots, u.id);
  }

  /** A unit that was up to date stays so, unless it is dropped as a dependent, and then it is absent. */
  lemma KeptOrDropped(c: seq<Snapshot>, current: seq<SourceUnit>, provenance: Option<Provenance>, worker: Worker,
                      u: SourceUnit)
    requires WellStored(c) && IndexRun(c, current, provenance, worker).Finished?
    requires IsCurrent(current, u) && UpToDate(c, u, provenance)
    ensures var after := IndexRun(c, current, provenance, worker).committed;
      if u.id in DroppedDependents(c, current, provenance, worker) then Find(after, u.id).None?
      else Find(after, u.id) == Find(c, u.id) && UpToDate(after, u, provenance)
  {
    hide WellStored, AllRows, IndexRun, Asked, Swept, DroppedDependents;
    AskedMember(c, current, provenance, u.id);
    RunFinds(c, current, provenance, worker, u.id);
    SweptFinds(c, current, provenance, u.id);
  }

  lemma TrackedStaysCurrent(c: seq<Snapshot>, current: seq<SourceUnit>, provenance: Option<Provenance>, worker: Worker,
                            k: string)
    requires WellStored(c) && IndexRun(c, current, provenance, worker).Finished?
    requires Tracked(IndexRun(c, current, provenance, worker).committed, k, provenance)
    ensures Latest(current, UnitId, k).Some?
  {
    hide WellStored, AllRows, IndexRun, Asked, Swept, DroppedDependents;
    AskedMember(c, current, provenance, k);
    RunFinds(c, current, provenance, worker, k);
    SweptFinds(c, current, provenance, k);
  }

  /** One finished run settles the store exactly when its answers carry what the next plan compares. */
  lemma RunSettlesExactly(c: seq<Snapshot>, current: seq<SourceUnit>, provenance: Option<Provenance>, worker: Worker)
    requires WellStored(c) && IndexRun(c, current, provenance, worker).Finished?
    ensures Settled(IndexRun(c, current, provenance, worker).committed, current, provenance) <==>
      AnswersCarry(c, current, provenance, worker)
  {
    hide WellStored, AllRows, IndexRun, Asked, Swept, DroppedDependents, UpToDate, Carries;
    var asked, after := Asked(c, current, provenance), IndexRun(c, current, provenance, worker).committed;
    forall k | Tracked(after, k, provenance) ensures Latest(current, UnitId, k).Some? {
      TrackedStaysCurrent(c, current, provenance, worker, k);
    }
    if AnswersCarry(c, current, provenance, worker) {
      forall u | IsCurrent(current, u) ensures UpToDate(after, u, provenance) || Find(after, u.id).None? {
        if UpToDate(c, u, provenance) {
          KeptOrDropped(c, current, provenance, worker, u);
        } else {
          AnsweredExactly(c, current, provenance, worker, u);
        }
      }
    }
    if Settled(after, current, provenance) {
      forall u | u in asked && worker(asked).Some? && FirstFor(worker(asked).value, u.id).Some?
        ensures Carries(FirstFor(worker(asked).value, u.id).value, provenance)
      {
        AskedIsCurrent(c, current, provenance, u);
        AnsweredExactly(c, current, provenance, worker, u);
      }
    }
  }

  lemma AskedIsCurrent(c: seq<Snapshot>, current: seq<SourceUnit>, provenance: Option<Provenance>, u: SourceUnit)
    requires WellStored(c)
    ensures u in Asked(c, current, provenance) <==> IsCurrent(current, u) && !UpToDate(c, u, provenance)
  {
    hide WellStored, AllRows, PlanFor, UpToDate;
    PlanMeaning(c, current, provenance, u, "");
  }

  lemma NoDependents(c: seq<Snapshot>, u: string)
    requires WellStored(c) && Find(c, u).None?
    ensures Dependents(AllRows(c), u) == []
  {
    hide WellStored, AllRows, Dependents;
    var found := Dependents(AllRows(c), u);
    DependentsExact(c, u);
    FindMember(c, u);
    SomeMember(found);
  }

  lemma SomeMember<T>(s: seq<T>)
    ensures s == [] || exists x :: x in s
  {
    if s != [] {
      assert s[0] in s;
    }
  }

  lemma {:induction false} FlatMapEmpty<A, B>(s: seq<A>, f: A -> seq<B>)
    requires forall a :: a in s ==> f(a) == []
    ensures FlatMap(s, f) == []
  {
    if s != [] {
      assert s[0] in s && forall a :: a in s[1..] ==> a in s;
      FlatMapEmpty(s[1..], f);
    }
  }

  /** A run that starts settled asks only for absent units, and an absent unit has no symbols left to
      invalidate others with. */
  lemma SettledDropsNothing(c: seq<Snapshot>, current: seq<SourceUnit>, provenance: Option<Provenance>, worker: Worker)
    requires WellStored(c) && Settled(c, current, provenance)
    ensures DroppedDependents(c, current, provenance, worker) == []
  {
    hide WellStored, AllRows, PlanFor, UpToDate;
    var asked, swept := Asked(c, current, provenance), Swept(c, current, provenance);
    if asked != [] && worker(asked).Some? {
      var invalidated := Invalidated(AllRows(swept), worker(asked).value);
      RemoveAllWellStored(c, ToRemove(PlanFor(AllRows(c), current, provenance)));
      forall u | u in asked ensures invalidated(u) == [] {
        PlanMeaning(c, current, provenance, u, "");
        SweptFinds(c, current, provenance, u.id);
        NoDependents(swept, u.id);
        assert invalidated(u) == [] by { NothingInvalidated(AllRows(swept), worker(asked).value, u); }
      }
      FlatMapEmpty(asked, invalidated);
    }
  }

  lemma NothingInvalidated(rows: seq<Row>, snapshots: seq<Snapshot>, u: SourceUnit)
    requires Dependents(rows, u.id) == []
    ensures Invalidated(rows, snapshots)(u) == []
  {
    var stored := Latest(StoredInputs(rows), InputId, u.id);
    var previous := if stored.Some? then stored.value.publicApi else None;
    var s := FirstFor(snapshots, u.id);
    var now := if s.Some? then s.value.publicApi else None;
    assert Invalidated(rows, snapshots)(u) == ApiDependentInvalidations(previous, now, []);
    assert SortBy([], StrLe) == [];
  }

  /** Every current unit is up to date and nothing else is tracked. */
  ghost predicate Converged(c: seq<Snapshot>, current: seq<SourceUnit>, provenance: Option<Provenance>) {
    && (forall u :: IsCurrent(current, u) ==> UpToDate(c, u, provenance))
    && (forall k :: Tracked(c, k, provenance) ==> Latest(current, UnitId, k).Some?)
  }

  /** A current unit was up to date and is dropped as a dependent. */
  ghost predicate DropsCurrent(c: seq<Snapshot>, current: seq<SourceUnit>, provenance: Option<Provenance>,
                               worker: Worker) {
    exists u :: IsCurrent(current, u) && UpToDate(c, u, provenance) &&
      u.id in DroppedDependents(c, current, provenance, worker)
  }

  /** One finished run converges exactly when its answers carry what the next plan compares and it drops no dependent
      that was up to date. */
  lemma RunConvergesExactly(c: seq<Snapshot>, current: seq<SourceUnit>, provenance: Option<Provenance>, worker: Worker)
    requires WellStored(c) && IndexRun(c, current, provenance, worker).Finished?
    ensures Converged(IndexRun(c, current, provenance, worker).committed, current, provenance) <==>
      AnswersCarry(c, current, provenance, worker) && !DropsCurrent(c, current, provenance, worker)
  {
    hide WellStored, AllRows, IndexRun, Asked, Swept, DroppedDependents, UpToDate, Carries, AnswersCarry;
    var after := IndexRun(c, current, provenance, worker).committed;
    RunSettlesExactly(c, current, provenance, worker);
    if Settled(after, current, provenance) && !DropsCurrent(c, current, provenance, worker) {
      forall u | IsCurrent(current, u) ensures UpToDate(after, u, provenance) {
        if UpToDate(c, u, provenance) {
          KeptOrDropped(c, current, provenance, worker, u);
        } else {
          AnsweredExactly(c, current, provenance, worker, u);
        }
      }
    }
    if Converged(after, current, provenance) {
      forall u | IsCurrent(current, u) && UpToDate(c, u, provenance)
        ensures u.id !in DroppedDependents(c, current, provenance, worker)
      {
        KeptOrDropped(c, current, provenance, worker, u);
        AbsentIsNotUpToDate(after, u, provenance);
      }
    }
  }

  lemma AbsentIsNotUpToDate(c: seq<Snapshot>, u: SourceUnit, provenance: Option<Provenance>)
    ensures Find(c, u.id).None? ==> !UpToDate(c, u, provenance)
  {
  }

  /** A finished run from a settled store converges exactly when its answers carry what the next plan compares. */
  lemma SecondRunConverges(c: seq<Snapshot>, current: seq<SourceUnit>, provenance: Option<Provenance>, worker: Worker)
    requires WellStored(c) && Settled(c, current, provenance)
    requires IndexRun(c, current, provenance, worker).Finished?
    ensures Converged(IndexRun(c, current, provenance, worker).committed, current, provenance) <==>
      AnswersCarry(c, current, provenance, worker)
  {
    hide WellStored, IndexRun, Settled, Converged, AnswersCarry, DroppedDependents;
    RunConvergesExactly(c, current, provenance, worker);
    SettledDropsNothing(c, current, provenance, worker);
  }

  /** Nothing is analysed, nothing removed, and no worker asked. */
  predicate PureReuse(c: seq<Snapshot>, current: seq<SourceUnit>, provenance: Option<Provenance>) {
    Asked(c, current, provenance) == [] && ToRemove(PlanFor(AllRows(c), current, provenance)) == []
  }

  /** A run is pure reuse, whatever its worker, exactly when the store has converged. */
  lemma PureReuseExactly(c: seq<Snapshot>, current: seq<SourceUnit>, provenance: Option<Provenance>)
    requires WellStored(c)
    ensures Converged(c, current, provenance) <==> PureReuse(c, current, provenance)
  {
    hide WellStored, AllRows, PlanFor, UpToDate, Tracked;
    var asked, removals := Asked(c, current, provenance), ToRemove(PlanFor(AllRows(c), current, provenance));
    var nobody := SourceUnit("", "", "", Kotlin, SourceCode, "", "");
    forall u ensures u in asked <==> IsCurrent(current, u) && !UpToDate(c, u, provenance) {
      PlanMeaning(c, current, provenance, u, "");
    }
    forall k ensures k in removals <==> Tracked(c, k, provenance) && Latest(current, UnitId, k).None? {
      PlanMeaning(c, current, provenance, nobody, k);
    }
    SomeMember(asked);
    SomeMember(removals);
  }

  /** From any store state, after two finished runs over the same inputs, of which the first gave answers that carry
      what is compared, the third is pure reuse exactly when the answers of the second do too. Then it changes nothing
      and every current unit has one up-to-date snapshot. */
  lemma ThirdRunIsPureReuse(c: seq<Snapshot>, current: seq<SourceUnit>, provenance: Option<Provenance>,
                            first: Worker, second: Worker, third: Worker)
    requires WellStored(c) && AnswersCarry(c, current, provenance, first)
    requires IndexRun(c, current, provenance, first).Finished?
    requires IndexRun(IndexRun(c, current, provenance, first).committed, current, provenance, second).Finished?
    ensures var c1 := IndexRun(c, current, provenance, first).committed;
      var c2 := IndexRun(c1, current, provenance, second).committed;
      && (PureReuse(c2, current, provenance) <==> AnswersCarry(c1, current, provenance, second))
      && (PureReuse(c2, current, provenance) ==>
           && WellStored(c2) && Converged(c2, current, provenance)
           && IndexRun(c2, current, provenance, third) == Finished(c2, []))
  {
    hide WellStored, IndexRun, AllRows, Converged, Settled, AnswersCarry, PureReuse;
    var c1 := IndexRun(c, current, provenance, first).committed;
    var c2 := IndexRun(c1, current, provenance, second).committed;
    RunWellStored(c, current, provenance, first);
    RunWellStored(c1, current, provenance, second);
    RunSettlesExactly(c, current, provenance, first);
    SecondRunConverges(c1, current, provenance, second);
    PureReuseExactly(c2, current, provenance);
    if PureReuse(c2, current, provenance) {
      IdleRun(c2, current, provenance, third);
    }
  }

  /** In general, the run after a finished one is pure reuse exactly when the answers just committed carry what is
      compared and no dependent that was up to date was dropped. */
  lemma NextRunIsPureReuseExactly(c: seq<Snapshot>, current: seq<SourceUnit>, provenance: Option<Provenance>,
                                  worker: Worker)
    requires WellStored(c) && IndexRun(c, current, provenance, worker).Finished?
    ensures PureReuse(IndexRun(c, current, provenance, worker).committed, current, provenance) <==>
      AnswersCarry(c, current, provenance, worker) && !DropsCurrent(c, current, provenance, worker)
  {
    hide WellStored, IndexRun, AllRows, Converged, AnswersCarry, PureReuse, DropsCurrent;
    RunWellStored(c, current, provenance, worker);
    RunConvergesExactly(c, current, provenance, worker);
    PureReuseExactly(IndexRun(c, current, provenance, worker).committed, current, provenance);
  }

  /** The state after as many runs, failed ones included. */
  function AfterRuns(c: seq<Snapshot>, current: seq<SourceUnit>, provenance: Option<Provenance>, worker: Worker, n: nat)
    : seq<Snapshot>
  {
    if n == 0 then c
    else IndexRun(AfterRuns(c, current, provenance, worker, n - 1), current, provenance, worker).committed
  }

  /** A unit for which a worker never answers with what is compared is asked for in every run, for ever. */
  lemma {:induction false} AskedForEver(c: seq<Snapshot>, current: seq<SourceUnit>, provenance: Option<Provenance>,
                                        worker: Worker, u: SourceUnit, n: nat)
    requires WellStored(c) && IsCurrent(current, u) && !UpToDate(c, u, provenance)
    requires forall asked :: worker(asked).Some? && FirstFor(worker(asked).value, u.id).Some? ==>
      !Carries(FirstFor(worker(asked).value, u.id).value, provenance)
    ensures var now := AfterRuns(c, current, provenance, worker, n);
      WellStored(now) && !UpToDate(now, u, provenance) && u in Asked(now, current, provenance)
  {
    hide WellStored, IndexRun, Asked, UpToDate, Carries;
    if n > 0 {
      var before := AfterRuns(c, current, provenance, worker, n - 1);
      AskedForEver(c, current, provenance, worker, u, n - 1);
      RunWellStored(before, current, provenance, worker);
      if IndexRun(before, current, provenance, worker).Finished? {
        AnsweredExactly(before, current, provenance, worker, u);
      } else {
        AbortedKeeps(before, current, provenance, worker, u);
      }
    }
    AskedIsCurrent(AfterRuns(c, current, provenance, worker, n), current, provenance, u);
  }

  lemma AbortedKeeps(c: seq<Snapshot>, current: seq<SourceUnit>, provenance: Option<Provenance>, worker: Worker,
                     u: SourceUnit)
    requires WellStored(c) && IndexRun(c, current, provenance, worker).Aborted? && IsCurrent(current, u)
    ensures UpToDate(IndexRun(c, current, provenance, worker).committed, u, provenance) <==> UpToDate(c, u, provenance)
  {
    hide WellStored, AllRows, PlanFor, ReplaceBatch, ValidateBatch;
    SweptFinds(c, current, provenance, u.id);
  }

  lemma IdleRun(c: seq<Snapshot>, current: seq<SourceUnit>, provenance: Option<Provenance>, worker: Worker)
    requires PureReuse(c, current, provenance)
    ensures IndexRun(c, current, provenance, worker) == Finished(c, [])
  {
    hide AllRows, PlanFor;
  }

  // Staleness.

  lemma InvalidatedMember(c: seq<Snapshot>, snapshots: seq<Snapshot>, u: SourceUnit, v: string)
    requires WellStored(c)
    ensures v in Invalidated(AllRows(c), snapshots)(u) <==>
      DependsOn(c, v, u.id) && ApiOf(c, u.id) != ApiOf(snapshots, u.id)
  {
    hide WellStored, AllRows, DependsOn;
    LatestInput(c, u.id);
    DependentsExact(c, u.id);
    ApiDependentsMember(ApiOf(c, u.id), ApiOf(snapshots, u.id), Dependents(AllRows(c), u.id), v);
    var stored := Latest(StoredInputs(AllRows(c)), InputId, u.id);
    assert ApiOf(c, u.id) == if stored.Some? then stored.value.publicApi else None;
  }

  /** A reanalysed unit's public API fingerprint changed, and another pointed at one of its symbols before the
      commit. */
  ghost predicate PointsAtChanged(c: seq<Snapshot>, current: seq<SourceUnit>, provenance: Option<Provenance>,
                                  worker: Worker, v: string) {
    var swept, after := Swept(c, current, provenance), IndexRun(c, current, provenance, worker).committed;
    exists u :: u in Asked(c, current, provenance) && DependsOn(swept, v, u.id) &&
      ApiOf(swept, u.id) != ApiOf(after, u.id)
  }

  /** A finished run drops exactly the units it did not reanalyse that, before the commit, referenced, called or
      declared a subtype of a symbol of a unit whose public API fingerprint the run changed. */
  lemma DroppedExactly(c: seq<Snapshot>, current: seq<SourceUnit>, provenance: Option<Provenance>, worker: Worker,
                       v: string)
    requires WellStored(c) && IndexRun(c, current, provenance, worker).Finished?
    ensures v in DroppedDependents(c, current, provenance, worker) <==>
      !Requested(Asked(c, current, provenance), v) && PointsAtChanged(c, current, provenance, worker, v)
  {
    hide WellStored, AllRows, PlanFor, DependsOn, IndexRun, Invalidated, ToReanalyze, FlatMap;
    var asked, swept := Asked(c, current, provenance), Swept(c, current, provenance);
    RemoveAllWellStored(c, ToRemove(PlanFor(AllRows(c), current, provenance)));
    forall u | u in asked
      ensures worker(asked).Some? &&
        ApiOf(IndexRun(c, current, provenance, worker).committed, u.id) == ApiOf(worker(asked).value, u.id)
    {
      AskedChanges(c, current, provenance, worker, u);
    }
    if asked != [] {
      assert asked[0] in asked;
      var snapshots := worker(asked).value;
      var invalidated := Invalidated(AllRows(swept), snapshots);
      FilterMember(FlatMap(asked, invalidated), (id: string) => !Requested(asked, id), v);
      FlatMapMember(asked, invalidated, v);
      if i :| 0 <= i < |asked| && v in invalidated(asked[i]) {
        InvalidatedMember(swept, snapshots, asked[i], v);
      }
      if PointsAtChanged(c, current, provenance, worker, v) {
        var after := IndexRun(c, current, provenance, worker).committed;
        var u :| u in asked && DependsOn(swept, v, u.id) && ApiOf(swept, u.id) != ApiOf(after, u.id);
        InvalidatedMember(swept, snapshots, u, v);
        var i :| 0 <= i < |asked| && asked[i] == u;
        assert v in invalidated(asked[i]);
      }
    }
  }

  lemma AskedChanges(c: seq<Snapshot>, current: seq<SourceUnit>, provenance: Option<Provenance>, worker: Worker,
                     u: SourceUnit)
    requires WellStored(c) && IndexRun(c, current, provenance, worker).Finished? && u in Asked(c, current, provenance)
    ensures worker(Asked(c, current, provenance)).Some?
    ensures ApiOf(IndexRun(c, current, provenance, worker).committed, u.id) ==
      ApiOf(worker(Asked(c, current, provenance)).value, u.id)
  {
    hide WellStored, IndexRun, Asked, UpToDate;
    AskedIsCurrent(c, current, provenance, u);
    AnsweredExactly(c, current, provenance, worker, u);
  }

  /** An up-to-date unit survives a finished run, with the snapshot it had, exactly when it pointed at no unit whose
      public API fingerprint the run changed; pointing at a unit that the run removed does not matter. */
  lemma SurvivesExactly(c: seq<Snapshot>, current: seq<SourceUnit>, provenance: Option<Provenance>, worker: Worker,
                        u: SourceUnit)
    requires WellStored(c) && IndexRun(c, current, provenance, worker).Finished?
    requires IsCurrent(current, u) && UpToDate(c, u, provenance)
    ensures var after := IndexRun(c, current, provenance, worker).committed;
      && (Find(after, u.id).Some? <==> !PointsAtChanged(c, current, provenance, worker, u.id))
      && (Find(after, u.id).Some? ==> Find(after, u.id) == Find(c, u.id))
  {
    hide WellStored, IndexRun, Asked, UpToDate, DroppedDependents, PointsAtChanged;
    KeptOrDropped(c, current, provenance, worker, u);
    DroppedExactly(c, current, provenance, worker, u.id);
    AskedMember(c, current, provenance, u.id);
    AbsentIsNotUpToDate(c, u, provenance);
  }

  /** After a finished run, whatever survives unanalysed, tracked or not, pointed at no unit whose public API
      fingerprint the run changed. */
  lemma NoStaleSurvivor(c: seq<Snapshot>, current: seq<SourceUnit>, provenance: Option<Provenance>, worker: Worker,
                        v: string)
    requires WellStored(c) && IndexRun(c, current, provenance, worker).Finished?
    requires !Requested(Asked(c, current, provenance), v)
    requires Find(IndexRun(c, current, provenance, worker).committed, v).Some?
    ensures !PointsAtChanged(c, current, provenance, worker, v)
  {
    hide WellStored, IndexRun, Asked, DroppedDependents, PointsAtChanged, Swept;
    DroppedExactly(c, current, provenance, worker, v);
    RunFinds(c, current, provenance, worker, v);
  }
}
