/** How a run ends: exactly when it finishes, with which error it stops otherwise, and what a run that stops leaves. */
module RunOutcome {
  import opened Prelude
  import opened Canonical
  import opened Tables
  import opened Store
  import opened Lookups
  import opened Ordering
  import opened RecordKeys
  import opened Replacement
  import opened Freshness
  import opened Orchestrator
  import opened Convergence
  import opened SelectedRun
  import Registry = WorkerRegistry

  // What an answer must name.

  predicate Unasked(requested: seq<SourceUnit>, snapshots: seq<Snapshot>, id: string) {
    (exists s :: s in snapshots && s.sourceUnit.id == id) && forall u :: u in requested ==> u.id != id
  }

  predicate Unanswered(requested: seq<SourceUnit>, snapshots: seq<Snapshot>, id: string) {
    (exists u :: u in requested && u.id == id) && forall s :: s in snapshots ==> s.sourceUnit.id != id
  }

  ghost predicate LeastUnasked(requested: seq<SourceUnit>, snapshots: seq<Snapshot>, id: string) {
    Unasked(requested, snapshots, id) && forall x :: Unasked(requested, snapshots, x) ==> StrLe(id, x)
  }

  ghost predicate LeastUnanswered(requested: seq<SourceUnit>, snapshots: seq<Snapshot>, id: string) {
    Unanswered(requested, snapshots, id) && forall x :: Unanswered(requested, snapshots, x) ==> StrLe(id, x)
  }

  lemma RequestedMeans(requested: seq<SourceUnit>, id: string)
    ensures Requested(requested, id) <==> exists u :: u in requested && u.id == id
  {
    if u :| u in requested && u.id == id {
      var i :| 0 <= i < |requested| && requested[i] == u;
    }
  }

  lemma IdsAt<T>(s: seq<T>, id: T -> string, name: string)
    ensures name in Ids(s, id) <==> exists x :: x in s && id(x) == name
  {
    if s != [] {
      IdsAt(s[1..], id, name);
      assert s == [s[0]] + s[1..];
    }
  }

  function UnaskedIds(requested: seq<SourceUnit>, snapshots: seq<Snapshot>): seq<string> {
    Ids(Filter(snapshots, (s: Snapshot) => !Requested(requested, s.sourceUnit.id)), (s: Snapshot) => s.sourceUnit.id)
  }

  function UnansweredIds(requested: seq<SourceUnit>, snapshots: seq<Snapshot>): seq<string> {
    Ids(Filter(requested, (u: SourceUnit) => FirstFor(snapshots, u.id).None?), (u: SourceUnit) => u.id)
  }

  lemma UnaskedMember(requested: seq<SourceUnit>, snapshots: seq<Snapshot>, id: string)
    ensures id in UnaskedIds(requested, snapshots) <==> Unasked(requested, snapshots, id)
  {
    var unasked := (s: Snapshot) => !Requested(requested, s.sourceUnit.id);
    IdsAt(Filter(snapshots, unasked), (s: Snapshot) => s.sourceUnit.id, id);
    forall s ensures s in Filter(snapshots, unasked) <==> s in snapshots && unasked(s) {
      FilterMember(snapshots, unasked, s);
    }
    RequestedMeans(requested, id);
  }

  lemma UnansweredMember(requested: seq<SourceUnit>, snapshots: seq<Snapshot>, id: string)
    ensures id in UnansweredIds(requested, snapshots) <==> Unanswered(requested, snapshots, id)
  {
    var unanswered := (u: SourceUnit) => FirstFor(snapshots, u.id).None?;
    IdsAt(Filter(requested, unanswered), (u: SourceUnit) => u.id, id);
    forall u ensures u in Filter(requested, unanswered) <==> u in requested && unanswered(u) {
      FilterMember(requested, unanswered, u);
    }
    FindMember(snapshots, id);
  }

  lemma SomeId(names: seq<string>)
    ensures names == [] <==> forall n :: n !in names
  {
    if names != [] { assert names[0] in names; }
  }

  /** An answer is refused for the least identity it was not asked for, and otherwise for the least identity that it
      does not answer; it is accepted exactly when there is neither. */
  lemma ValidateBatchTells(requested: seq<SourceUnit>, snapshots: seq<Snapshot>, id: string)
    ensures ValidateBatch(requested, snapshots) == Some(UnexpectedSnapshot(id)) <==>
      LeastUnasked(requested, snapshots, id)
    ensures ValidateBatch(requested, snapshots) == Some(MissingSnapshot(id)) <==>
      (forall x :: !Unasked(requested, snapshots, x)) && LeastUnanswered(requested, snapshots, id)
    ensures ValidateBatch(requested, snapshots) == None <==>
      forall x :: !Unasked(requested, snapshots, x) && !Unanswered(requested, snapshots, x)
  {
    hide Unasked, Unanswered, StrLe, Filter;
    var extra, missing := UnaskedIds(requested, snapshots), UnansweredIds(requested, snapshots);
    forall x ensures x in extra <==> Unasked(requested, snapshots, x) {
      UnaskedMember(requested, snapshots, x);
    }
    forall x ensures x in missing <==> Unanswered(requested, snapshots, x) {
      UnansweredMember(requested, snapshots, x);
    }
    ErrorOf(requested, snapshots);
    LeastNamed(extra, id);
    LeastNamed(missing, id);
    SomeId(extra);
    SomeId(missing);
  }

  lemma ErrorOf(requested: seq<SourceUnit>, snapshots: seq<Snapshot>)
    ensures var extra, missing := UnaskedIds(requested, snapshots), UnansweredIds(requested, snapshots);
      ValidateBatch(requested, snapshots) ==
        if extra != [] then Some(UnexpectedSnapshot(Least(extra)))
        else if missing != [] then Some(MissingSnapshot(Least(missing)))
        else None
  {
  }

  lemma LeastNamed(names: seq<string>, id: string)
    ensures names != [] ==> (id == Least(names) <==> id in names && forall n :: n in names ==> StrLe(id, n))
  {
    if names != [] {
      LeastIs(names);
      StrLeTotalOrder();
    }
  }

  // One run.

  /** Every entry answers for its unit with sound facts and can be stored beside what stands when it is reached. */
  ghost predicate Accepts(c: seq<Snapshot>, entries: seq<(SourceUnit, Snapshot)>) {
    forall i :: 0 <= i < |entries| ==>
      && AnswersFor(entries[i].0, entries[i].1) && Sound(entries[i].0.id, entries[i].1)
      && Admissible(c, entries, i)
  }

  lemma AcceptsExactly(c: seq<Snapshot>, entries: seq<(SourceUnit, Snapshot)>)
    requires WellStored(c)
    ensures ReplaceBatch(c, entries).Ok? <==> Accepts(c, entries)
  {
    hide WellStored, ReplaceBatch, AnswersFor, Sound, Admissible;
    ReplaceBatchExactly(c, entries);
  }

  /** When every requested unit is answered, the entries are the requested units in order, each with the first snapshot
      that names it. */
  lemma {:induction false} EntriesAre(requested: seq<SourceUnit>, snapshots: seq<Snapshot>)
    requires forall u :: u in requested ==> FirstFor(snapshots, u.id).Some?
    ensures |Entries(requested, snapshots)| == |requested|
    ensures forall i :: 0 <= i < |requested| ==>
      Entries(requested, snapshots)[i] == (requested[i], FirstFor(snapshots, requested[i].id).value)
  {
    if requested != [] {
      assert requested[0] in requested && forall u :: u in requested[1..] ==> u in requested;
      EntriesAre(requested[1..], snapshots);
    }
  }

  lemma SweptWellStored(c: seq<Snapshot>, current: seq<SourceUnit>, provenance: Option<Provenance>)
    requires WellStored(c)
    ensures WellStored(Swept(c, current, provenance))
  {
    hide WellStored, PlanFor, AllRows;
    RemoveAllWellStored(c, ToRemove(PlanFor(AllRows(c), current, provenance)));
  }

  predicate StopsWith(run: RunResult, e: RunError) {
    run.Aborted? && run.error == e
  }

  ghost predicate Names(requested: seq<SourceUnit>, snapshots: seq<Snapshot>) {
    forall x :: !Unasked(requested, snapshots, x) && !Unanswered(requested, snapshots, x)
  }

  /** How the commit of one answer ends. */
  lemma CommitEnds(c: seq<Snapshot>, requested: seq<SourceUnit>, answer: Option<seq<Snapshot>>, id: string)
    requires WellStored(c)
    ensures var run := Commit(c, requested, answer);
      && (run.Finished? <==>
            answer.Some? && Names(requested, answer.value) && Accepts(c, Entries(requested, answer.value)))
      && (run.Finished? ==> run.analyzed == requested)
      && (run.Aborted? ==> run.committed == c)
      && (StopsWith(run, WorkerFailed) <==> answer.None?)
      && (StopsWith(run, UnexpectedSnapshot(id)) <==> answer.Some? && LeastUnasked(requested, answer.value, id))
      && (StopsWith(run, MissingSnapshot(id)) <==>
            && answer.Some? && (forall x :: !Unasked(requested, answer.value, x))
            && LeastUnanswered(requested, answer.value, id))
      && (run.Aborted? && run.error.StoreFailed? <==>
            answer.Some? && Names(requested, answer.value) && !Accepts(c, Entries(requested, answer.value)))
  {
    hide WellStored, ReplaceBatch, ValidateBatch, Unasked, Unanswered, LeastUnasked, LeastUnanswered, Accepts,
         ToInvalidate,
      Entries, RemoveAll;
    if answer.Some? {
      ValidateBatchTells(requested, answer.value, id);
      RefusalKinds(requested, answer.value);
      AcceptsExactly(c, Entries(requested, answer.value));
    }
  }

  lemma RefusalKinds(requested: seq<SourceUnit>, snapshots: seq<Snapshot>)
    ensures var e := ValidateBatch(requested, snapshots);
      e == None || e.value.UnexpectedSnapshot? || e.value.MissingSnapshot?
  {
  }

  /** A run finishes exactly when it asks for nothing, or the worker answers, names exactly the requested units, and the
      store accepts what it says. Otherwise the error tells what failed first: the worker, the least identity that was
      not asked for, the least that was not answered, or the store. */
  lemma RunEndsExactly(c: seq<Snapshot>, current: seq<SourceUnit>, provenance: Option<Provenance>, worker: Worker,
                       id: string)
    requires WellStored(c)
    ensures var asked, swept, run := Asked(c, current, provenance), Swept(c, current, provenance),
                                     IndexRun(c, current, provenance, worker);
      var answer := worker(asked);
      && (run.Finished? <==>
            || asked == []
            || (answer.Some? && Names(asked, answer.value) && Accepts(swept, Entries(asked, answer.value))))
      && (run.Finished? ==> run.analyzed == asked)
      && (StopsWith(run, WorkerFailed) <==> asked != [] && answer.None?)
      && (StopsWith(run, UnexpectedSnapshot(id)) <==>
            asked != [] && answer.Some? && LeastUnasked(asked, answer.value, id))
      && (StopsWith(run, MissingSnapshot(id)) <==>
            && asked != [] && answer.Some? && (forall x :: !Unasked(asked, answer.value, x))
            && LeastUnanswered(asked, answer.value, id))
      && (run.Aborted? && run.error.StoreFailed? <==>
            && asked != [] && answer.Some? && Names(asked, answer.value)
            && !Accepts(swept, Entries(asked, answer.value)))
  {
    hide WellStored, PlanFor, Commit, Unasked, Unanswered, LeastUnasked, LeastUnanswered, Accepts, Entries, Names;
    var asked, swept := Asked(c, current, provenance), Swept(c, current, provenance);
    SweptWellStored(c, current, provenance);
    CommitEnds(swept, asked, worker(asked), id);
  }

  /** A run that stops leaves every unit as it was, but for the tracked units that are no longer current: those are
      gone. In particular a unit that was to be analysed keeps the snapshot it had. */
  lemma StoppedRunLeaves(c: seq<Snapshot>, current: seq<SourceUnit>, provenance: Option<Provenance>, worker: Worker,
                         v: string)
    requires WellStored(c) && IndexRun(c, current, provenance, worker).Aborted?
    ensures Find(IndexRun(c, current, provenance, worker).committed, v) ==
      if Tracked(c, v, provenance) && Latest(current, UnitId, v).None? then None else Find(c, v)
  {
    hide WellStored, PlanFor, Commit, Tracked;
    var asked, swept := Asked(c, current, provenance), Swept(c, current, provenance);
    SweptFinds(c, current, provenance, v);
    SweptWellStored(c, current, provenance);
    CommitEnds(swept, asked, worker(asked), "");
  }

  // Batched runs.

  /** One answer of a batched run is stored under the units that its snapshots name themselves. */
  lemma BatchEnds(c: seq<Snapshot>, requested: seq<SourceUnit>, answer: Option<seq<Snapshot>>, id: string)
    requires WellStored(c)
    ensures var run := RunBatch(c, requested, answer);
      && (run.Finished? <==>
            answer.Some? && Names(requested, answer.value) && Accepts(c, SelfEntries(answer.value)))
      && (run.Aborted? ==> run.committed == c)
      && (StopsWith(run, WorkerFailed) <==> answer.None?)
      && (StopsWith(run, UnexpectedSnapshot(id)) <==> answer.Some? && LeastUnasked(requested, answer.value, id))
      && (StopsWith(run, MissingSnapshot(id)) <==>
            && answer.Some? && (forall x :: !Unasked(requested, answer.value, x))
            && LeastUnanswered(requested, answer.value, id))
      && (run.Aborted? && run.error.StoreFailed? <==>
            answer.Some? && Names(requested, answer.value) && !Accepts(c, SelfEntries(answer.value)))
  {
    hide WellStored, ReplaceBatch, ValidateBatch, Unasked, Unanswered, LeastUnasked, LeastUnanswered, Accepts;
    if answer.Some? {
      ValidateBatchTells(requested, answer.value, id);
      RefusalKinds(requested, answer.value);
      AcceptsExactly(c, SelfEntries(answer.value));
    }
  }

  lemma {:induction false} SelfEntriesAt(snapshots: seq<Snapshot>)
    ensures |SelfEntries(snapshots)| == |snapshots|
    ensures forall i :: 0 <= i < |snapshots| ==>
      SelfEntries(snapshots)[i] == (snapshots[i].sourceUnit, snapshots[i])
  {
    if snapshots != [] {
      SelfEntriesAt(snapshots[1..]);
    }
  }

  /** The due sources that a batch sends. */
  function Due(batch: Registry.WorkerBatch, due: set<string>): seq<SourceUnit> {
    Filter(batch.sourceUnits, DueOf(due))
  }

  /** A batch with due sources whose commit, onto what the batches before it left, does not go through. */
  predicate StopsAt(c: seq<Snapshot>, batches: seq<Registry.WorkerBatch>, due: set<string>, worker: BatchWorker,
                    index: nat, n: nat)
    requires n < |batches|
  {
    var before, sent := RunBatches(c, batches[..n], due, worker, index), Due(batches[n], due);
    before.Finished? && sent != [] && RunBatch(before.committed, sent, worker(index + n, sent)).Aborted?
  }

  /** The batches either all go through, or stop at the first that does not, with its error and what those before it
      left. */
  lemma {:induction false} BatchesEnd(c: seq<Snapshot>, batches: seq<Registry.WorkerBatch>, due: set<string>,
                                      worker: BatchWorker, index: nat) returns (n: nat)
    ensures RunBatches(c, batches, due, worker, index).Finished? ==> n == |batches|
    ensures RunBatches(c, batches, due, worker, index).Aborted? ==>
      && n < |batches| && StopsAt(c, batches, due, worker, index, n)
      && RunBatches(c, batches, due, worker, index) ==
           RunBatch(RunBatches(c, batches[..n], due, worker, index).committed, Due(batches[n], due),
                    worker(index + n, Due(batches[n], due)))
    decreases |batches|
  {
    hide RunBatch;
    if RunBatches(c, batches, due, worker, index).Finished? {
      n := |batches|;
    } else {
      var sent, rest := Due(batches[0], due), batches[1..];
      var first := RunBatch(c, sent, worker(index, sent));
      if sent != [] && first.Aborted? {
        n := 0;
      } else {
        var next := if sent == [] then c else first.committed;
        var m := BatchesEnd(next, rest, due, worker, index + 1);
        n := m + 1;
        assert batches[..n][1..] == rest[..m] && batches[..n][0] == batches[0];
      }
    }
  }

  lemma BatchStops(c: seq<Snapshot>, requested: seq<SourceUnit>, answer: Option<seq<Snapshot>>)
    ensures RunBatch(c, requested, answer).Aborted? ==> RunBatch(c, requested, answer).committed == c
  {
    hide ReplaceBatch, ValidateBatch;
  }

  lemma {:induction false} BatchesThrough(c: seq<Snapshot>, batches: seq<Registry.WorkerBatch>, due: set<string>,
                                          worker: BatchWorker, index: nat, n: nat)
    requires n < |batches| && StopsAt(c, batches, due, worker, index, n)
    ensures RunBatches(c, batches, due, worker, index).Aborted?
    decreases |batches|
  {
    hide RunBatch;
    if n == 0 {
      assert batches[..0] == [];
    } else {
      var sent, rest := Due(batches[0], due), batches[1..];
      assert batches[..n][1..] == rest[..n - 1] && batches[..n][0] == batches[0];
      var next := if sent == [] then c else RunBatch(c, sent, worker(index, sent)).committed;
      BatchesThrough(next, rest, due, worker, index + 1, n - 1);
    }
  }

  /** A batched run finishes exactly when every source has a worker and no batch stops it. */
  lemma BatchedRunEndsExactly(c: seq<Snapshot>, current: seq<SourceUnit>, selection: Registry.Selection,
                              worker: BatchWorker)
    ensures BatchedRun(c, current, selection, worker).Finished? <==>
      && selection.unsupported == []
      && forall n | 0 <= n < |selection.batches| ::
           !StopsAt(Swept(c, current, None), selection.batches, IdsOf(Asked(c, current, None)), worker, 0, n)
  {
    hide Swept, Asked, IdsOf, RunBatch, RunBatches, StopsAt;
    var swept, batches, due := Swept(c, current, None), selection.batches, IdsOf(Asked(c, current, None));
    var n := BatchesEnd(swept, batches, due, worker, 0);
    if k :| 0 <= k < |batches| && StopsAt(swept, batches, due, worker, 0, k) {
      BatchesThrough(swept, batches, due, worker, 0, k);
    }
  }

  /** A batched run that stops leaves the index alone when a source has no worker. Otherwise it stops at the first batch
      that does not go through, and leaves of every unit the last answer of the batches before that one, or else what
      was there, without the tracked units that are no longer current. */
  lemma StoppedBatchedRunLeaves(c: seq<Snapshot>, current: seq<SourceUnit>, selection: Registry.Selection,
                                worker: BatchWorker, v: string) returns (n: nat)
    requires WellStored(c) && BatchedRun(c, current, selection, worker).Aborted?
    ensures selection.unsupported != [] ==>
      BatchedRun(c, current, selection, worker) == Aborted(c, UnsupportedBatches(|selection.unsupported|))
    ensures selection.unsupported == [] ==>
      && n < |selection.batches|
      && StopsAt(Swept(c, current, None), selection.batches, IdsOf(Asked(c, current, None)), worker, 0, n)
      && Find(BatchedRun(c, current, selection, worker).committed, v) ==
           OrElse(LastAnswer(selection.batches[..n], IdsOf(Asked(c, current, None)), worker, 0, v),
                  if Tracked(c, v, None) && Latest(current, UnitId, v).None? then None else Find(c, v))
  {
    hide WellStored, Swept, Asked, IdsOf, RunBatch, Tracked, LastAnswer;
    n := 0;
    if selection.unsupported == [] {
      var swept, batches, due := Swept(c, current, None), selection.batches, IdsOf(Asked(c, current, None));
      n := BatchesEnd(swept, batches, due, worker, 0);
      var before := RunBatches(swept, batches[..n], due, worker, 0);
      BatchStops(before.committed, Due(batches[n], due), worker(0 + n, Due(batches[n], due)));
      BatchesLeave(swept, batches[..n], due, worker, 0, v);
      SweptFinds(c, current, None, v);
    }
  }
}
