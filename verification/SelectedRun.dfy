/** Indexing over selected worker batches: one global plan, then one request and one commit a batch. */
module SelectedRun {
  import opened Prelude
  import opened Canonical
  import opened Tables
  import opened Store
  import opened Lookups
  import opened Ordering
  import opened Freshness
  import opened Orchestrator
  import opened Convergence
  import Registry = WorkerRegistry

  /** What the worker of each batch answers; any answer at all is possible. */
  type BatchWorker = (nat, seq<SourceUnit>) -> Option<seq<Snapshot>>

  function IdsOf(units: seq<SourceUnit>): set<string> {
    set u | u in units :: u.id
  }

  predicate IsDue(due: set<string>, u: SourceUnit) {
    u.id in due
  }

  function DueOf(due: set<string>): SourceUnit -> bool {
    (u: SourceUnit) => IsDue(due, u)
  }

  /** A snapshot is committed under the unit it names itself. */
  function SelfEntries(snapshots: seq<Snapshot>): seq<(SourceUnit, Snapshot)> {
    if snapshots == [] then [] else [(snapshots[0].sourceUnit, snapshots[0])] + SelfEntries(snapshots[1..])
  }

  function AlsoAnalyzed(units: seq<SourceUnit>, run: RunResult): RunResult {
    if run.Finished? then run.(analyzed := units + run.analyzed) else run
  }

  function RunBatches(c: seq<Snapshot>, batches: seq<Registry.WorkerBatch>, due: set<string>, worker: BatchWorker,
                      index: nat): RunResult
    decreases |batches|
  {
    if batches == [] then Finished(c, [])
    else
      var requested := Filter(batches[0].sourceUnits, DueOf(due));
      if requested == [] then RunBatches(c, batches[1..], due, worker, index + 1)
      else
        match RunBatch(c, requested, worker(index, requested))
        case Aborted(c1, e) => Aborted(c1, e)
        case Finished(c1, _) => AlsoAnalyzed(requested, RunBatches(c1, batches[1..], due, worker, index + 1))
  }

  function RunBatch(c: seq<Snapshot>, requested: seq<SourceUnit>, answer: Option<seq<Snapshot>>): RunResult {
    if answer.None? then Aborted(c, WorkerFailed)
    else if ValidateBatch(requested, answer.value).Some? then Aborted(c, ValidateBatch(requested, answer.value).value)
    else
      match ReplaceBatch(c, SelfEntries(answer.value))
      case Err(e) => Aborted(c, StoreFailed(e))
      case Ok(next) => Finished(next, requested)
  }

  function BatchedRun(c: seq<Snapshot>, current: seq<SourceUnit>, selection: Registry.Selection, worker: BatchWorker)
    : RunResult
  {
    if selection.unsupported != [] then Aborted(c, UnsupportedBatches(|selection.unsupported|))
    else
      RunBatches(Swept(c, current, None), selection.batches, IdsOf(Asked(c, current, None)), worker, 0)
  }

  method IndexSelectedBatches(store: IndexStore, current: seq<SourceUnit>, selection: Registry.Selection,
                              worker: BatchWorker) returns (result: Option<RunError>, ghost run: RunResult)
    requires store.Valid()
    modifies store
    ensures store.Valid()
    ensures run == BatchedRun(old(store.committed), current, selection, worker)
    ensures store.committed == run.committed
    ensures result == if run.Aborted? then Some(run.error) else None
  {
    hide ReplaceBatch, ValidateBatch, PlanFor;
    run := BatchedRun(store.committed, current, selection, worker);
    if selection.unsupported != [] {
      return Some(UnsupportedBatches(|selection.unsupported|)), run;
    }
    var actions := MakePlan(store.rows, current, None);
    var due := IdsOf(ToReanalyze(actions));
    RemoveEach(store, ToRemove(actions));
    ghost var analyzed: seq<SourceUnit> := [];
    PrefixNothing(run);
    for index := 0 to |selection.batches|
      invariant store.Valid()
      invariant run ==
        AlsoAnalyzed(analyzed, RunBatches(store.committed, selection.batches[index..], due, worker, index))
    {
      var batches := selection.batches[index..];
      assert batches[1..] == selection.batches[index + 1..];
      var requested := Filter(selection.batches[index].sourceUnits, DueOf(due));
      if requested != [] {
        var answer := worker(index, requested);
        if answer.None? {
          return Some(WorkerFailed), run;
        }
        var invalid := ValidateBatch(requested, answer.value);
        if invalid.Some? {
          return invalid, run;
        }
        var replaced := store.ReplaceSnapshotsBatch(SelfEntries(answer.value));
        if replaced.Err? {
          return Some(StoreFailed(replaced.error)), run;
        }
        PrefixConcat(analyzed, requested,
                     RunBatches(store.committed, selection.batches[index + 1..], due, worker, index + 1));
        analyzed := analyzed + requested;
      }
    }
    assert selection.batches[|selection.batches|..] == [];
    return None, run;
  }

  lemma PrefixNothing(run: RunResult)
    ensures AlsoAnalyzed([], run) == run
  {
    if run.Finished? {
      assert [] + run.analyzed == run.analyzed;
    }
  }

  lemma PrefixConcat(a: seq<SourceUnit>, b: seq<SourceUnit>, run: RunResult)
    ensures AlsoAnalyzed(a + b, run) == AlsoAnalyzed(a, AlsoAnalyzed(b, run))
  {
    if run.Finished? {
      assert a + b + run.analyzed == a + (b + run.analyzed);
    }
  }

  // What is sent.

  lemma {:induction false} FilterCounts(s: seq<SourceUnit>, p: SourceUnit -> bool, u: SourceUnit)
    ensures multiset(Filter(s, p))[u] == if p(u) then multiset(s)[u] else 0
  {
    if s != [] {
      FilterCounts(s[1..], p, u);
      assert s == [s[0]] + s[1..];
    }
  }

  /** A finished run sends the due sources of all batches, batch by batch. */
  lemma {:induction false} SendsDue(c: seq<Snapshot>, batches: seq<Registry.WorkerBatch>, due: set<string>,
                                    worker: BatchWorker, index: nat)
    requires RunBatches(c, batches, due, worker, index).Finished?
    ensures RunBatches(c, batches, due, worker, index).analyzed ==
      Filter(FlatMap(batches, Registry.BatchUnits), DueOf(due))
    decreases |batches|
  {
    hide RunBatch;
    if batches != [] {
      var requested := Filter(batches[0].sourceUnits, DueOf(due));
      FilterConcat(batches[0].sourceUnits, FlatMap(batches[1..], Registry.BatchUnits), DueOf(due));
      if requested == [] {
        SendsDue(c, batches[1..], due, worker, index + 1);
      } else {
        var c1 := RunBatch(c, requested, worker(index, requested)).committed;
        RunBatchSends(c, requested, worker(index, requested));
        SendsDue(c1, batches[1..], due, worker, index + 1);
      }
    }
  }

  lemma RunBatchSends(c: seq<Snapshot>, requested: seq<SourceUnit>, answer: Option<seq<Snapshot>>)
    ensures RunBatch(c, requested, answer).Finished? ==> RunBatch(c, requested, answer).analyzed == requested
  {
  }

  lemma CurrentIffListed(current: seq<SourceUnit>, u: SourceUnit)
    requires DistinctUnits(current)
    ensures IsCurrent(current, u) <==> u in current
  {
    LatestIs(current, UnitId, u.id);
  }

  /** A finished run over a selection of the current sources sends a source as often as it was listed when its identity
      is due for reanalysis, and otherwise never. */
  lemma SentExactly(c: seq<Snapshot>, current: seq<SourceUnit>, setting: Registry.Setting, worker: BatchWorker,
                    u: SourceUnit)
    requires setting.limit > 0
    requires BatchedRun(c, current, Registry.Selected(current, setting), worker).Finished?
    ensures multiset(BatchedRun(c, current, Registry.Selected(current, setting), worker).analyzed)[u] ==
      if u.id in IdsOf(Asked(c, current, None)) then multiset(current)[u] else 0
  {
    hide Asked, Swept;
    var selection := Registry.Selected(current, setting);
    var due := IdsOf(Asked(c, current, None));
    SendsDue(Swept(c, current, None), selection.batches, due, worker, 0);
    Registry.SelectionConserves(current, setting);
    assert FlatMap(selection.unsupported, Registry.UnsupportedUnits) == [];
    var units := FlatMap(selection.batches, Registry.BatchUnits);
    assert multiset(units) == multiset(current);
    FilterCounts(units, DueOf(due), u);
  }

  // What a run leaves.

  /** Nothing in this path compares an answer with the request beyond its id, so this is what a worker must do: name
      each answered unit as it was asked. */
  ghost predicate Echoes(worker: BatchWorker) {
    forall index, requested, s :: worker(index, requested).Some? && s in worker(index, requested).value ==>
      s.sourceUnit in requested
  }

  function AnswersUnit(s: Snapshot): string {
    s.sourceUnit.id
  }

  /** A committed batch leaves the last of its snapshots for each unit it names, and other units as before. */
  lemma {:induction false} ReplaceAllLeaves(c: seq<Snapshot>, snapshots: seq<Snapshot>, v: string)
    requires ReplaceAll(c, SelfEntries(snapshots)).Ok?
    ensures Find(ReplaceAll(c, SelfEntries(snapshots)).value, v) ==
      OrElse(Latest(snapshots, AnswersUnit, v), Find(c, v))
    decreases |snapshots|
  {
    hide Replace, Latest;
    if snapshots == [] {
      NothingLatest(v);
    } else {
      var entries := SelfEntries(snapshots);
      assert entries[1..] == SelfEntries(snapshots[1..]);
      var next := Replace(c, snapshots[0]).value;
      ReplaceFinds(c, snapshots[0], v);
      ReplaceAllLeaves(next, snapshots[1..], v);
      assert snapshots == [snapshots[0]] + snapshots[1..];
      LatestCons(snapshots[0], snapshots[1..], AnswersUnit, v);
    }
  }

  lemma NothingLatest(v: string)
    ensures Latest<Snapshot>([], AnswersUnit, v) == None
  {
  }

  /** A batch that is committed leaves the last answer for each requested unit and every other unit as it was. */
  lemma RunBatchLeaves(c: seq<Snapshot>, requested: seq<SourceUnit>, answer: Option<seq<Snapshot>>, v: string)
    requires RunBatch(c, requested, answer).Finished?
    ensures answer.Some?
    ensures Find(RunBatch(c, requested, answer).committed, v) ==
      OrElse(Latest(answer.value, AnswersUnit, v), Find(c, v))
    ensures Latest(answer.value, AnswersUnit, v).Some? <==> v in IdsOf(requested)
  {
    hide ValidateSnapshot, ValidateBatch, IdsOf, Latest;
    ReplaceAllLeaves(c, answer.value, v);
    AnsweredIds(requested, answer.value, v);
  }

  /** A validated answer has a snapshot for an identity exactly when the identity was requested. */
  lemma AnsweredIds(requested: seq<SourceUnit>, snapshots: seq<Snapshot>, v: string)
    requires ValidateBatch(requested, snapshots).None?
    ensures v in IdsOf(requested) <==> Latest(snapshots, AnswersUnit, v).Some?
  {
    hide ValidateBatch, Latest;
    ValidateBatchExact(requested, snapshots);
    RequestedIds(requested, v);
    LatestIs(snapshots, AnswersUnit, v);
    FindMember(snapshots, v);
  }

  lemma RequestedIds(requested: seq<SourceUnit>, v: string)
    ensures Requested(requested, v) <==> v in IdsOf(requested)
  {
    if u :| u in requested && u.id == v {
      var i :| 0 <= i < |requested| && requested[i] == u;
    }
  }

  /** What the workers last answered for an identity, when each batch asks for its due sources. */
  function LastAnswer(batches: seq<Registry.WorkerBatch>, due: set<string>, worker: BatchWorker, index: nat, v: string)
    : Option<Snapshot>
    decreases |batches|
  {
    if batches == [] then None
    else
      var requested := Filter(batches[0].sourceUnits, DueOf(due));
      OrElse(LastAnswer(batches[1..], due, worker, index + 1, v),
             if requested == [] || worker(index, requested).None? then None
             else Latest(worker(index, requested).value, AnswersUnit, v))
  }

  /** What the batches leave of one identity: the last answer, which there is exactly for what was sent, or what was
      there. */
  lemma {:induction false} BatchesLeave(c: seq<Snapshot>, batches: seq<Registry.WorkerBatch>, due: set<string>,
                                        worker: BatchWorker, index: nat, v: string)
    requires RunBatches(c, batches, due, worker, index).Finished?
    ensures var run, last := RunBatches(c, batches, due, worker, index), LastAnswer(batches, due, worker, index, v);
      && Find(run.committed, v) == OrElse(last, Find(c, v))
      && (last.Some? <==> v in IdsOf(run.analyzed))
    decreases |batches|
  {
    hide RunBatch, Latest;
    if batches != [] {
      var requested := Filter(batches[0].sourceUnits, DueOf(due));
      if requested == [] {
        BatchesLeave(c, batches[1..], due, worker, index + 1, v);
      } else {
        var answer := worker(index, requested);
        RunBatchLeaves(c, requested, answer, v);
        BatchesLeave(RunBatch(c, requested, answer).committed, batches[1..], due, worker, index + 1, v);
      }
    }
  }

  /** With a worker that echoes, the last answer names a source that was sent. */
  lemma {:induction false} LastAnswerEchoes(c: seq<Snapshot>, batches: seq<Registry.WorkerBatch>, due: set<string>,
                                            worker: BatchWorker, index: nat, v: string)
    requires RunBatches(c, batches, due, worker, index).Finished? && Echoes(worker)
    ensures var last := LastAnswer(batches, due, worker, index, v);
      last.Some? ==>
        && last.value.sourceUnit.id == v
        && last.value.sourceUnit in RunBatches(c, batches, due, worker, index).analyzed
    decreases |batches|
  {
    hide RunBatch, Latest, Echoes;
    if batches != [] {
      var requested := Filter(batches[0].sourceUnits, DueOf(due));
      if requested == [] {
        LastAnswerEchoes(c, batches[1..], due, worker, index + 1, v);
      } else {
        var answer := worker(index, requested);
        RunBatchLeaves(c, requested, answer, v);
        Echoed(worker, index, requested);
        LatestIs(answer.value, AnswersUnit, v);
        LastAnswerEchoes(RunBatch(c, requested, answer).committed, batches[1..], due, worker, index + 1, v);
      }
    }
  }

  lemma Echoed(worker: BatchWorker, index: nat, requested: seq<SourceUnit>)
    requires Echoes(worker)
    ensures worker(index, requested).Some? ==>
      forall s :: s in worker(index, requested).value ==> s.sourceUnit in requested
  {
  }

  /** What the worker last answers for an identity in a run over the current sources. */
  function Answered(c: seq<Snapshot>, current: seq<SourceUnit>, setting: Registry.Setting, worker: BatchWorker,
                    v: string)
    : Option<Snapshot>
    requires setting.limit > 0
  {
    LastAnswer(Registry.Selected(current, setting).batches, IdsOf(Asked(c, current, None)), worker, 0, v)
  }

  lemma RunLeaves(c: seq<Snapshot>, current: seq<SourceUnit>, setting: Registry.Setting, worker: BatchWorker, v: string)
    requires WellStored(c) && setting.limit > 0
    requires BatchedRun(c, current, Registry.Selected(current, setting), worker).Finished?
    ensures var run, last := BatchedRun(c, current, Registry.Selected(current, setting), worker),
                             Answered(c, current, setting, worker, v);
      && Find(run.committed, v) == OrElse(last, Find(Swept(c, current, None), v))
      && (last.Some? <==> v in IdsOf(Asked(c, current, None)))
  {
    hide WellStored, Swept, Asked, RunBatches;
    BatchesLeave(Swept(c, current, None), Registry.Selected(current, setting).batches, IdsOf(Asked(c, current, None)),
                 worker, 0, v);
    SentIds(c, current, setting, worker, v);
  }

  lemma SentIds(c: seq<Snapshot>, current: seq<SourceUnit>, setting: Registry.Setting, worker: BatchWorker, v: string)
    requires WellStored(c) && setting.limit > 0
    requires BatchedRun(c, current, Registry.Selected(current, setting), worker).Finished?
    ensures v in IdsOf(BatchedRun(c, current, Registry.Selected(current, setting), worker).analyzed) <==>
      v in IdsOf(Asked(c, current, None))
  {
    hide WellStored, Asked, BatchedRun;
    var analyzed, asked := BatchedRun(c, current, Registry.Selected(current, setting), worker).analyzed,
                           Asked(c, current, None);
    if v in IdsOf(analyzed) {
      var u :| u in analyzed && u.id == v;
      SentExactly(c, current, setting, worker, u);
      assert multiset(analyzed)[u] > 0;
    }
    if v in IdsOf(asked) {
      var u :| u in asked && u.id == v;
      AskedIsCurrent(c, current, None, u);
      LatestIs(current, UnitId, v);
      SentExactly(c, current, setting, worker, u);
      assert multiset(current)[u] > 0;
    }
  }

  /** A unit is the one asked about for its identity. */
  lemma AskedById(c: seq<Snapshot>, current: seq<SourceUnit>, u: SourceUnit)
    requires WellStored(c) && IsCurrent(current, u)
    ensures u in Asked(c, current, None) <==> u.id in IdsOf(Asked(c, current, None))
  {
    hide WellStored, Asked;
    if w :| w in Asked(c, current, None) && w.id == u.id {
      AskedIsCurrent(c, current, None, w);
    }
  }

  /** An answer for a unit has its content and context and is not of dependency origin. */
  predicate Echo(answer: Option<Snapshot>, u: SourceUnit) {
    && answer.Some? && answer.value.sourceUnit.content == u.content && answer.value.sourceUnit.context == u.context
    && answer.value.sourceUnit.origin != Dependency
  }

  /** What the worker last answers for each source asked about is an answer to what was asked. */
  ghost predicate AnswersEcho(c: seq<Snapshot>, current: seq<SourceUnit>, setting: Registry.Setting,
                              worker: BatchWorker)
    requires setting.limit > 0
  {
    forall u :: u in Asked(c, current, None) ==> Echo(Answered(c, current, setting, worker, u.id), u)
  }

  /** One finished run over selected batches leaves every current source up to date and nothing else tracked exactly
      when, for each source asked about, what the worker last answered for its identity has that source's content and
      context and is not of dependency origin. Run again over the same inputs, it then analyses and removes nothing. */
  lemma BatchedRunConvergesExactly(c: seq<Snapshot>, current: seq<SourceUnit>, setting: Registry.Setting,
                                   worker: BatchWorker)
    requires WellStored(c) && setting.limit > 0
    requires BatchedRun(c, current, Registry.Selected(current, setting), worker).Finished?
    ensures Converged(BatchedRun(c, current, Registry.Selected(current, setting), worker).committed, current, None) <==>
      AnswersEcho(c, current, setting, worker)
  {
    hide WellStored, AllRows, PlanFor, Swept, BatchedRun, UpToDate, Asked, Echo, Answered;
    var after := BatchedRun(c, current, Registry.Selected(current, setting), worker).committed;
    forall u | IsCurrent(current, u)
      ensures UpToDate(after, u, None) <==>
        u !in Asked(c, current, None) || Echo(Answered(c, current, setting, worker, u.id), u)
    {
      CurrentUpToDate(c, current, setting, worker, u);
    }
    forall k | Tracked(after, k, None) ensures Latest(current, UnitId, k).Some? {
      TrackedCurrent(c, current, setting, worker, k);
    }
    forall u ensures u in Asked(c, current, None) ==> IsCurrent(current, u) {
      AskedIsCurrent(c, current, None, u);
    }
  }

  lemma CurrentUpToDate(c: seq<Snapshot>, current: seq<SourceUnit>, setting: Registry.Setting, worker: BatchWorker,
                        u: SourceUnit)
    requires WellStored(c) && setting.limit > 0
    requires BatchedRun(c, current, Registry.Selected(current, setting), worker).Finished? && IsCurrent(current, u)
    ensures var after := BatchedRun(c, current, Registry.Selected(current, setting), worker).committed;
      UpToDate(after, u, None) <==>
        u !in Asked(c, current, None) || Echo(Answered(c, current, setting, worker, u.id), u)
  {
    hide WellStored, AllRows, PlanFor, Swept, BatchedRun, Asked, Answered;
    RunLeaves(c, current, setting, worker, u.id);
    AskedById(c, current, u);
    AskedIsCurrent(c, current, None, u);
    SweptFinds(c, current, None, u.id);
  }

  lemma TrackedCurrent(c: seq<Snapshot>, current: seq<SourceUnit>, setting: Registry.Setting, worker: BatchWorker,
                       k: string)
    requires WellStored(c) && setting.limit > 0
    requires BatchedRun(c, current, Registry.Selected(current, setting), worker).Finished?
    requires Tracked(BatchedRun(c, current, Registry.Selected(current, setting), worker).committed, k, None)
    ensures Latest(current, UnitId, k).Some?
  {
    hide WellStored, AllRows, PlanFor, Swept, BatchedRun, Asked, UpToDate, Answered;
    RunLeaves(c, current, setting, worker, k);
    SweptFinds(c, current, None, k);
    if k in IdsOf(Asked(c, current, None)) {
      var w :| w in Asked(c, current, None) && w.id == k;
      AskedIsCurrent(c, current, None, w);
    }
  }

  /** With a worker that echoes requested units, and one source an identity, that is exactly when no source asked about
      is of dependency origin. */
  lemma EchoingRunConvergesExactly(c: seq<Snapshot>, current: seq<SourceUnit>, setting: Registry.Setting,
                                   worker: BatchWorker)
    requires WellStored(c) && DistinctUnits(current) && setting.limit > 0 && Echoes(worker)
    requires BatchedRun(c, current, Registry.Selected(current, setting), worker).Finished?
    ensures Converged(BatchedRun(c, current, Registry.Selected(current, setting), worker).committed, current, None) <==>
      forall u :: u in Asked(c, current, None) ==> u.origin != Dependency
  {
    hide WellStored, AllRows, PlanFor, Swept, BatchedRun, Asked, Echoes, Converged, Answered;
    BatchedRunConvergesExactly(c, current, setting, worker);
    forall u | u in Asked(c, current, None)
      ensures Echo(Answered(c, current, setting, worker, u.id), u) <==> u.origin != Dependency
    {
      EchoedUnit(c, current, setting, worker, u);
    }
  }

  lemma EchoedUnit(c: seq<Snapshot>, current: seq<SourceUnit>, setting: Registry.Setting, worker: BatchWorker,
                   u: SourceUnit)
    requires WellStored(c) && DistinctUnits(current) && setting.limit > 0 && Echoes(worker)
    requires BatchedRun(c, current, Registry.Selected(current, setting), worker).Finished?
    requires u in Asked(c, current, None)
    ensures var answer := Answered(c, current, setting, worker, u.id); answer.Some? && answer.value.sourceUnit == u
  {
    hide WellStored, AllRows, PlanFor, Swept, Asked, Echoes, RunBatches, LastAnswer;
    RunLeaves(c, current, setting, worker, u.id);
    LastAnswerEchoes(Swept(c, current, None), Registry.Selected(current, setting).batches,
                     IdsOf(Asked(c, current, None)), worker, 0, u.id);
    var w := Answered(c, current, setting, worker, u.id).value.sourceUnit;
    SentExactly(c, current, setting, worker, w);
    assert w in multiset(BatchedRun(c, current, Registry.Selected(current, setting), worker).analyzed);
    AskedIsCurrent(c, current, None, u);
    LatestIs(current, UnitId, u.id);
    SameUnit(current, u, w);
  }

  lemma SameUnit(current: seq<SourceUnit>, u: SourceUnit, w: SourceUnit)
    requires DistinctUnits(current) && u in current && w in current && u.id == w.id
    ensures u == w
  {
    CurrentIffListed(current, u);
    CurrentIffListed(current, w);
  }
}
