/** Workers that never answer with what is compared: every run finishes, and every run asks again. On the one-batch path
    such an answer has another provenance; on the path of selected batches it may have other content altogether. */
module ForeignWorker {
  import opened Prelude
  import opened Canonical
  import opened Tables
  import opened Store
  import opened Lookups
  import opened HierarchyWalk
  import opened Ordering
  import opened Freshness
  import opened Orchestrator
  import opened Convergence
  import opened SelectedRun
  import opened LoneSnapshot
  import Registry = WorkerRegistry

  const Compared: Provenance := Provenance("compiler", "1", WORKER_PROTOCOL_VERSION, "options")

  const Foreign: Provenance := Provenance("compiler", "2", WORKER_PROTOCOL_VERSION, "options")

  const Unit: SourceUnit := SourceUnit("unit", "", "", Kotlin, SourceCode, "content", "context")

  function BareSnapshot(unit: SourceUnit, provenance: Provenance): Snapshot {
    Snapshot(unit, None, None, [], [], [], [], [], [], [], [], Complete, provenance)
  }

  /** A snapshot without facts that does not answer for the unit. */
  predicate Foreigner(a: Snapshot, provenance: Option<Provenance>) {
    && a == BareSnapshot(a.sourceUnit, a.provenance) && a.provenance.protocolVersion == WORKER_PROTOCOL_VERSION
    && a.sourceUnit.id == Unit.id && !UpToDate([a], Unit, provenance)
  }

  predicate Reached(c: seq<Snapshot>, a: Snapshot) {
    c == [] || c == [a]
  }

  lemma ReachedStored(c: seq<Snapshot>, a: Snapshot, provenance: Option<Provenance>)
    requires Foreigner(a, provenance) && Reached(c, a)
    ensures WellStored(c) && Replace(c, a) == Ok([a]) && Acceptable(a)
  {
    hide Acceptable;
    LoneAcceptable(a);
    LoneCommits(a);
    if c == [a] {
      WithoutOwn(a);
      LoneReplaces(c, a);
    }
  }

  lemma WithoutOwn(a: Snapshot)
    ensures Without([a], a.sourceUnit.id) == []
  {
    forall s ensures s !in Without([a], a.sourceUnit.id) {
      WithoutMember([a], a.sourceUnit.id, s);
    }
    SomeMember(Without([a], a.sourceUnit.id));
  }

  lemma FirstTwoDiffer(asked: seq<SourceUnit>)
    requires DistinctUnits(asked)
    ensures |asked| > 1 ==> asked[0] != asked[1]
  {
  }

  lemma {:induction false} OnlyUnit(asked: seq<SourceUnit>)
    requires DistinctUnits(asked) && forall u :: u in asked <==> u == Unit
    ensures asked == [Unit]
  {
    assert Unit in asked;
    forall i | 0 <= i < |asked| ensures asked[i] == Unit {
      assert asked[i] in asked;
    }
    FirstTwoDiffer(asked);
  }

  lemma CurrentIsUnit(u: SourceUnit)
    ensures IsCurrent([Unit], u) <==> u == Unit
  {
    LatestIs([Unit], UnitId, u.id);
    LatestIs([Unit], UnitId, Unit.id);
  }

  lemma NeverUpToDate(c: seq<Snapshot>, a: Snapshot, provenance: Option<Provenance>)
    requires Foreigner(a, provenance) && Reached(c, a)
    ensures !UpToDate(c, Unit, provenance)
  {
  }

  lemma PlanOf(c: seq<Snapshot>, a: Snapshot, provenance: Option<Provenance>)
    requires Foreigner(a, provenance) && Reached(c, a)
    ensures Asked(c, [Unit], provenance) == [Unit]
    ensures ToRemove(PlanFor(AllRows(c), [Unit], provenance)) == []
  {
    hide WellStored, AllRows, PlanFor, UpToDate;
    ReachedStored(c, a, provenance);
    NeverUpToDate(c, a, provenance);
    var asked, removals := Asked(c, [Unit], provenance), ToRemove(PlanFor(AllRows(c), [Unit], provenance));
    forall u ensures u in asked <==> u == Unit {
      AskedIsCurrent(c, [Unit], provenance, u);
      CurrentIsUnit(u);
    }
    PlanDistinct(AllRows(c), [Unit], provenance);
    OnlyUnit(asked);
    forall k ensures k !in removals {
      PlanMeaning(c, [Unit], provenance, Unit, k);
      FindMember(c, k);
      LatestIs([Unit], UnitId, k);
    }
    SomeMember(removals);
  }

  lemma AnswerAccepted(a: Snapshot, provenance: Option<Provenance>)
    requires Foreigner(a, provenance)
    ensures ValidateBatch([Unit], [a]).None?
  {
    assert FirstFor([a], Unit.id) == Some(a);
    assert Requested([Unit], Unit.id) by {
      assert [Unit][0].id == Unit.id;
    }
    ValidateBatchExact([Unit], [a]);
  }

  lemma OneCommit(c: seq<Snapshot>, e: (SourceUnit, Snapshot))
    requires ValidateSnapshot(e.0, e.1).None? && Replace(c, e.1).Ok?
    ensures ReplaceBatch(c, [e]) == Replace(c, e.1)
  {
    hide ValidateSnapshot, Replace;
    assert [e][1..] == [];
    FirstNone([e], (x: (SourceUnit, Snapshot)) => ValidateSnapshot(x.0, x.1));
    assert ReplaceAll(Replace(c, e.1).value, [e][1..]) == Replace(c, e.1);
  }

  // One batch, with a provenance to compare.

  const Answer: Snapshot := BareSnapshot(Unit, Foreign)

  function AlwaysForeign(): Worker {
    (asked: seq<SourceUnit>) => Some([Answer])
  }

  lemma NothingDropped(c: seq<Snapshot>)
    requires Reached(c, Answer)
    ensures ToInvalidate(AllRows(c), [Unit], [Answer]) == []
  {
    hide AllRows, Invalidated, Dependents, Reached;
    NothingDepends(c);
    NothingInvalidated(AllRows(c), [Answer], Unit);
    FlatMapEmpty([Unit], Invalidated(AllRows(c), [Answer]));
  }

  lemma NothingDepends(c: seq<Snapshot>)
    requires Reached(c, Answer)
    ensures Dependents(AllRows(c), Unit.id) == []
  {
    hide WellStored, AllRows;
    ReachedStored(c, Answer, Some(Compared));
    DependentsExact(c, Unit.id);
    forall id ensures !DependsOn(c, id, Unit.id) {}
    SomeMember(Dependents(AllRows(c), Unit.id));
  }

  lemma CommitsAnswer(c: seq<Snapshot>)
    requires Reached(c, Answer)
    ensures ValidateBatch([Unit], [Answer]).None?
    ensures ReplaceBatch(c, Entries([Unit], [Answer])) == Ok([Answer])
  {
    hide Acceptable, Replace, SnapshotRows, ValidateSnapshot, FilterMap;
    ReachedStored(c, Answer, Some(Compared));
    AnswerAccepted(Answer, Some(Compared));
    AnswerValid();
    OneEntryOnly();
    OneCommit(c, (Unit, Answer));
  }

  lemma OneEntryOnly()
    ensures Entries([Unit], [Answer]) == [(Unit, Answer)]
  {
    var f := (u: SourceUnit) =>
      if FirstFor([Answer], u.id).Some? then Some((u, FirstFor([Answer], u.id).value)) else None;
    assert f(Unit) == Some((Unit, Answer));
    FilterMapOne(Unit, f);
  }

  lemma AnswerValid()
    ensures ValidateSnapshot(Unit, Answer).None?
  {
    LoneAcceptable(Answer);
  }

  lemma ForeignRun(c: seq<Snapshot>)
    requires Reached(c, Answer)
    ensures IndexRun(c, [Unit], Some(Compared), AlwaysForeign()) == Finished([Answer], [Unit])
  {
    hide WellStored, AllRows, PlanFor, ReplaceBatch, ValidateBatch, ToReanalyze, ToRemove, ToInvalidate, Entries;
    PlanOf(c, Answer, Some(Compared));
    CommitsAnswer(c);
    NothingDropped(c);
  }

  /** From an empty index, every run of this worker over one unchanged unit finishes, and asks for the unit again. */
  lemma {:induction false} AskedAgainEveryRun(n: nat)
    ensures var now := AfterRuns([], [Unit], Some(Compared), AlwaysForeign(), n);
      && Reached(now, Answer)
      && IndexRun(now, [Unit], Some(Compared), AlwaysForeign()) == Finished([Answer], [Unit])
  {
    hide IndexRun;
    if n > 0 {
      AskedAgainEveryRun(n - 1);
    }
    ForeignRun(AfterRuns([], [Unit], Some(Compared), AlwaysForeign(), n));
  }

  // Selected batches.

  const OtherContent: Snapshot := BareSnapshot(Unit.(content := "other"), Compared)

  function AlwaysOtherContent(): BatchWorker {
    (index: nat, asked: seq<SourceUnit>) => Some([OtherContent])
  }

  const Analyst: Registry.Worker := Registry.Worker("worker", "", [Registry.Filesystem], [Kotlin], [])

  /** One worker for sources without a build system. */
  const Workspace: Registry.Setting := Registry.Setting([], [Analyst], [], 1)

  const OneBatch: Registry.WorkerBatch := Registry.WorkerBatch(Analyst, "", Kotlin, [Unit])

  lemma SelectsOneBatch()
    ensures Registry.Selected([Unit], Workspace) == Registry.Selection([OneBatch], [])
  {
    var key := Registry.KeyOf(Unit);
    assert SortBy([Unit], Registry.SourceLe) == [Unit] by {
      assert [Unit][1..] == [];
    }
    assert SortBy([Analyst], Registry.WorkerLe) == [Analyst] by {
      assert [Analyst][1..] == [];
    }
    var groups := [(key, [Unit])];
    assert Registry.Grouped([], [Unit]) == groups by {
      assert [Unit][1..] == [] && [] + [Unit] == [Unit];
      assert Registry.Join([], Unit) == groups;
      assert Registry.Grouped(groups, []) == groups;
    }
    assert Registry.ChunkBatches(Analyst, "", Kotlin, [Unit], 1) == [OneBatch] by {
      assert [Unit][1..] == [] && [Unit][..1] == [Unit];
    }
    var none, one := Registry.Selection([], []), Registry.Selection([OneBatch], []);
    assert Registry.SelectGroup(none, [Unit], Workspace) == one;
    assert groups[1..] == [];
    assert Registry.SelectGroups(one, [], Workspace) == one;
    assert Registry.SelectGroups(none, groups, Workspace) == one;
    assert Workspace.(workers := [Analyst]) == Workspace;
  }

  lemma OneBatchRuns(c: seq<Snapshot>)
    requires Reached(c, OtherContent)
    ensures RunBatch(c, [Unit], Some([OtherContent])) == Finished([OtherContent], [Unit])
  {
    hide ValidateBatch, ValidateSnapshot, Replace, Acceptable, WellStored;
    ReachedStored(c, OtherContent, None);
    AnswerAccepted(OtherContent, None);
    LoneAcceptable(OtherContent);
    SelfValid(OtherContent);
    OneSelfEntry();
    OneCommit(c, (OtherContent.sourceUnit, OtherContent));
  }

  lemma OneSelfEntry()
    ensures SelfEntries([OtherContent]) == [(OtherContent.sourceUnit, OtherContent)]
  {
    assert [OtherContent][1..] == [];
  }

  lemma SelfValid(s: Snapshot)
    requires Acceptable(s)
    ensures ValidateSnapshot(s.sourceUnit, s).None?
  {
  }

  lemma OtherContentRun(c: seq<Snapshot>)
    requires Reached(c, OtherContent)
    ensures BatchedRun(c, [Unit], Registry.Selected([Unit], Workspace), AlwaysOtherContent()) ==
      Finished([OtherContent], [Unit])
  {
    hide RunBatch, Registry.Selected, PlanFor, ToRemove, ToReanalyze, AllRows, WellStored;
    SelectsOneBatch();
    PlanOf(c, OtherContent, None);
    OneBatchRuns(c);
    assert Swept(c, [Unit], None) == c;
    assert Filter([Unit], DueOf(IdsOf([Unit]))) == [Unit] by {
      assert [Unit][1..] == [] && Unit in [Unit];
    }
    assert [OneBatch][1..] == [] && [Unit] + [] == [Unit];
    var due, worker := IdsOf([Unit]), AlwaysOtherContent();
    assert RunBatches([OtherContent], [], due, worker, 1) == Finished([OtherContent], []);
    assert RunBatches(c, [OneBatch], due, worker, 0) == Finished([OtherContent], [Unit]);
  }

  /** The state after as many batched runs. */
  function AfterBatchedRuns(n: nat): seq<Snapshot> {
    if n == 0 then []
    else
      BatchedRun(AfterBatchedRuns(n - 1), [Unit], Registry.Selected([Unit], Workspace), AlwaysOtherContent()).committed
  }

  /** From an empty index, every batched run of a worker that answers with other content commits that answer under the
      unit's identity, and asks for the unit again. */
  lemma {:induction false} AskedAgainEveryBatchedRun(n: nat)
    ensures var now := AfterBatchedRuns(n);
      && Reached(now, OtherContent) && Unit in Asked(now, [Unit], None)
      && BatchedRun(now, [Unit], Registry.Selected([Unit], Workspace), AlwaysOtherContent()) ==
         Finished([OtherContent], [Unit])
  {
    hide BatchedRun, Asked;
    if n > 0 {
      AskedAgainEveryBatchedRun(n - 1);
    }
    PlanOf(AfterBatchedRuns(n), OtherContent, None);
    OtherContentRun(AfterBatchedRuns(n));
  }
}
