/** What a catalogue of dependencies is worth after any series of runs: whether it was discovered for the build model
    that the manifest row names. */
module LaneHistory {
  import opened Prelude
  import opened Canonical
  import opened Ordering
  import opened Tables
  import opened Store
  import opened Freshness
  import opened Orchestrator
  import opened Convergence
  import opened SelectedRun
  import opened DependencyCatalog
  import opened DependencyLane
  import Registry = WorkerRegistry

  // Installing.

  /** The catalogue lists each unit once, the locators are those of its artifacts, and no key repeats. */
  ghost predicate LaneOk(l: Lane) {
    && Distinct(Map(l.catalog, ArtifactUnit))
    && l.locators == FlatMap(l.catalog, LocatorRows) && Distinct(l.locators)
    && Ascending(Keys(l.manifests), StrLe)
  }

  lemma {:induction false} InsertLocatorsExactly(rows: seq<LocatorRow>, more: seq<LocatorRow>)
    requires Distinct(rows)
    ensures InsertLocators(rows, more) == if Distinct(rows + more) then Some(rows + more) else None
    decreases |more|
  {
    if more == [] {
      assert rows + more == rows;
    } else if more[0] in rows {
      var i :| 0 <= i < |rows| && rows[i] == more[0];
      assert (rows + more)[i] == (rows + more)[|rows|];
    } else {
      assert rows + [more[0]] + more[1..] == rows + more;
      InsertLocatorsExactly(rows + [more[0]], more[1..]);
    }
  }

  lemma {:induction false} InsertDescriptorsExactly(catalog: seq<Descriptor>, rows: seq<LocatorRow>,
                                                    ds: seq<Descriptor>)
    requires Distinct(rows) && Distinct(Map(catalog + ds, ArtifactUnit))
    ensures var all := rows + FlatMap(ds, LocatorRows);
      InsertDescriptors(catalog, rows, ds) == if Distinct(all) then Some((catalog + ds, all)) else None
    decreases |ds|
  {
    hide LocatorRows;
    if ds == [] {
      assert catalog + ds == catalog && rows + [] == rows;
    } else {
      var more, rest := LocatorRows(ds[0]), FlatMap(ds[1..], LocatorRows);
      NotYetInCatalog(catalog, ds);
      InsertLocatorsExactly(rows, more);
      assert rows + more + rest == rows + FlatMap(ds, LocatorRows);
      if Distinct(rows + more) {
        assert catalog + [ds[0]] + ds[1..] == catalog + ds;
        InsertDescriptorsExactly(catalog + [ds[0]], rows + more, ds[1..]);
      } else if Distinct(rows + more + rest) {
        DistinctConcat(rows + more, rest);
      }
    }
  }

  lemma NotYetInCatalog(catalog: seq<Descriptor>, ds: seq<Descriptor>)
    requires Distinct(Map(catalog + ds, ArtifactUnit)) && ds != []
    ensures !InCatalog(catalog, ArtifactUnit(ds[0]))
  {
    MapAt(catalog + ds, ArtifactUnit);
    assert (catalog + ds)[|catalog|] == ds[0];
    forall i | 0 <= i < |catalog| ensures ArtifactUnit(catalog[i]) != ArtifactUnit(ds[0]) {
      assert (catalog + ds)[i] == catalog[i];
    }
  }

  lemma RowsOf(d: Descriptor, r: LocatorRow)
    ensures r in LocatorRows(d) ==> r.unit == ArtifactUnit(d)
    ensures Distinct(LocatorRows(d)) <==> Distinct(d.locators)
  {
    MapMember(d.locators, (l: Locator) => LocatorRow(ArtifactUnit(d), l.qualifiedName, l.symbol), r);
    MapAt(d.locators, (l: Locator) => LocatorRow(ArtifactUnit(d), l.qualifiedName, l.symbol));
  }

  lemma NoOrphans(l: Lane)
    requires LaneOk(l)
    ensures Orphans(l) == []
  {
    hide Orphaned, LocatorRows;
    if Orphans(l) != [] {
      var r := Orphans(l)[0];
      FilterMember(l.locators, Orphaned(l.catalog), r);
      FlatMapMember(l.catalog, LocatorRows, r);
      var i :| 0 <= i < |l.catalog| && r in LocatorRows(l.catalog[i]);
      RowsOf(l.catalog[i], r);
      assert InCatalog(l.catalog, r.unit);
      NotOrphaned(l.catalog, r);
    }
  }

  lemma NotOrphaned(catalog: seq<Descriptor>, r: LocatorRow)
    requires InCatalog(catalog, r.unit)
    ensures !Orphaned(catalog)(r)
  {
  }

  lemma {:induction false} LocatorsDistinct(ds: seq<Descriptor>)
    requires Distinct(Map(ds, ArtifactUnit))
    ensures Distinct(FlatMap(ds, LocatorRows)) <==> forall d :: d in ds ==> Distinct(d.locators)
  {
    hide LocatorRows, Distinct;
    if ds == [] {
      NothingRepeats<LocatorRow>();
    } else {
      var more, rest := LocatorRows(ds[0]), FlatMap(ds[1..], LocatorRows);
      TailDistinct(ds);
      LocatorsDistinct(ds[1..]);
      DistinctConcat(more, rest);
      assert ds == [ds[0]] + ds[1..];
      forall r | r in more ensures r !in rest && Distinct(more) == Distinct(ds[0].locators) {
        Elsewhere(ds, r);
      }
      if more != [] { assert more[0] in more; }
      RowsOf(ds[0], LocatorRow("", "", ""));
    }
  }

  lemma NothingRepeats<T>()
    ensures Distinct<T>([])
  {
  }

  lemma TailDistinct(ds: seq<Descriptor>)
    requires Distinct(Map(ds, ArtifactUnit)) && ds != []
    ensures Distinct(Map(ds[1..], ArtifactUnit))
  {
    MapAt(ds, ArtifactUnit);
    MapAt(ds[1..], ArtifactUnit);
  }

  lemma Elsewhere(ds: seq<Descriptor>, r: LocatorRow)
    requires Distinct(Map(ds, ArtifactUnit)) && ds != [] && r in LocatorRows(ds[0])
    ensures r !in FlatMap(ds[1..], LocatorRows) && (Distinct(LocatorRows(ds[0])) <==> Distinct(ds[0].locators))
  {
    hide LocatorRows;
    RowsOf(ds[0], r);
    MapAt(ds, ArtifactUnit);
    FlatMapMember(ds[1..], LocatorRows, r);
    if i :| 0 <= i < |ds| - 1 && r in LocatorRows(ds[1..][i]) {
      RowsOf(ds[i + 1], r);
    }
  }

  /** A discovered catalogue is installed exactly when no artifact in it lists a locator twice. It then is the
      catalogue, its locators are the locators, and of the blob references those into it are left. */
  lemma InstallExactly(l: Lane, fingerprint: string, ds: seq<Descriptor>, e: (string, string))
    requires LaneOk(l) && Distinct(Map(ds, ArtifactUnit))
    ensures var r := Install(l, fingerprint, ds);
      && (r.Ok? <==> forall d :: d in ds ==> Distinct(d.locators))
      && (r.Ok? ==>
            && LaneOk(r.value) && r.value.catalog == ds && r.value.manifests == l.manifests
            && r.value.installed == Some(fingerprint)
            && (e in r.value.blobRefs <==> e in l.blobRefs && InCatalog(ds, e.0)))
  {
    hide LocatorRows, Distinct;
    NoOrphans(l);
    NothingRepeats<LocatorRow>();
    assert [] + ds == ds && [] + FlatMap(ds, LocatorRows) == FlatMap(ds, LocatorRows);
    InsertDescriptorsExactly([], [], ds);
    LocatorsDistinct(ds);
    FilterMember(l.blobRefs, Referring(ds), e);
  }

  // Series of runs.

  /** One run as the lane sees it: whether the sources get done, whether discovery is due for their sake, and whether
      the process dies between the two commits of the lane. */
  datatype Attempt = Attempt(manifest: Manifest, forced: bool, answers: seq<Answer>, reaches: bool, dies: bool)

  function Step(l: Lane, a: Attempt): Lane {
    var due := CatalogNeeded(l, a.manifest) || a.forced;
    if !a.reaches then l
    else if a.dies then
      match Catalogued(l, a.manifest, due, a.answers)
      case Ok(next) => next
      case Err(_) => l
    else Closed(l, a.manifest, due, a.answers).0
  }

  function Run(attempts: seq<Attempt>): Lane
    decreases |attempts|
  {
    if attempts == [] then Empty else Step(Run(attempts[..|attempts| - 1]), attempts[|attempts| - 1])
  }

  /** A whole run on either path is one such step. */
  lemma IndexRunSteps(c: seq<Snapshot>, l: Lane, m: Manifest, plan: string, current: seq<SourceUnit>,
                      provenance: Option<Provenance>, worker: Worker, answers: seq<Answer>)
    ensures WholeIndexRun(c, l, m, plan, current, provenance, worker, answers).lane ==
      Step(l, Attempt(m, false, answers,
                      plan == m.fingerprint && IndexRun(c, current, provenance, worker).Finished?, false))
  {
    hide IndexRun, Closed;
  }

  lemma BatchedRunSteps(c: seq<Snapshot>, l: Lane, m: Manifest, plan: string, current: seq<SourceUnit>,
                        selection: Registry.Selection, worker: BatchWorker, answers: seq<Answer>)
    ensures var r := WholeBatchedRun(c, l, m, plan, current, selection, worker, answers);
      r.lane == Step(l, Attempt(m, Asked(c, current, None) != [], answers,
                                && plan == m.fingerprint && r.stop != Some(NoWorkerToAsk)
                                && BatchedRun(c, current, selection, worker).Finished?, false))
  {
    hide BatchedRun, Asked, Closed;
  }

  lemma {:induction false} RunOk(attempts: seq<Attempt>)
    ensures LaneOk(Run(attempts))
    decreases |attempts|
  {
    hide LaneOk, Step;
    if attempts == [] {
      EmptyOk();
    } else {
      RunOk(attempts[..|attempts| - 1]);
      StepOk(Run(attempts[..|attempts| - 1]), attempts[|attempts| - 1]);
    }
  }

  lemma EmptyOk()
    ensures LaneOk(Empty)
  {
  }

  lemma AscendingDistinct(ids: seq<string>)
    requires Ascending(ids, StrLe)
    ensures Distinct(ids)
  {
  }

  lemma CataloguedOk(l: Lane, m: Manifest, due: bool, answers: seq<Answer>)
    requires LaneOk(l) && Catalogued(l, m, due, answers).Ok?
    ensures var next := Catalogued(l, m, due, answers).value;
      && LaneOk(next) && next.manifests == l.manifests
      && (due ==> Discovered(m, answers) == Ok(next.catalog) && next.installed == Some(m.fingerprint))
      && (!due ==> next == l)
  {
    hide Discovered, Install, LaneOk, Ascending, Distinct;
    if due {
      var ds := Discovered(m, answers).value;
      DiscoveredOrder(m, answers);
      AscendingDistinct(Map(ds, ArtifactUnit));
      InstallExactly(l, m.fingerprint, ds, ("", ""));
    }
  }

  lemma DiscoveredOrder(m: Manifest, answers: seq<Answer>)
    requires Discovered(m, answers).Ok?
    ensures Ascending(Map(Discovered(m, answers).value, ArtifactUnit), StrLe)
  {
    hide Discovered, Ascending;
    var unit := SourceUnit("", "", "", Kotlin, SourceCode, "", "");
    DiscoveredExactly(m, answers, Descriptor(unit, []));
  }

  predicate Leads(l: Lane, m: Manifest) {
    l.manifests == [] || StrLe(m.workspace, l.manifests[0].0)
  }

  lemma RecordOk(l: Lane, m: Manifest)
    requires LaneOk(l) && Record(l, m).Ok?
    ensures var next := Record(l, m).value;
      && LaneOk(next) && next.catalog == l.catalog && next.installed == l.installed
      && Recorded(next) == if Leads(l, m) then Some(m.fingerprint) else Recorded(l)
  {
    hide Distinct, LocatorRows;
    StrLeTotalOrder();
    PutAscending(l.manifests, StrLe, m.workspace, m.fingerprint);
  }

  lemma StepOk(l: Lane, a: Attempt)
    requires LaneOk(l)
    ensures LaneOk(Step(l, a))
  {
    hide LaneOk, Catalogued, Record, CatalogNeeded;
    var due := CatalogNeeded(l, a.manifest) || a.forced;
    if Catalogued(l, a.manifest, due, a.answers).Ok? {
      CataloguedOk(l, a.manifest, due, a.answers);
      var next := Catalogued(l, a.manifest, due, a.answers).value;
      if Record(next, a.manifest).Ok? {
        RecordOk(next, a.manifest);
      }
    }
  }

  /** The catalogue was installed for the build model that the next run compares with. */
  predicate Vouched(l: Lane) {
    Recorded(l).Some? ==> l.installed == Recorded(l)
  }

  predicate Installs(l: Lane, a: Attempt) {
    a.reaches && (CatalogNeeded(l, a.manifest) || a.forced) && Catalogued(l, a.manifest, true, a.answers).Ok?
  }

  predicate Records(a: Attempt) {
    !a.dies && a.manifest.protocolVersion == WORKER_PROTOCOL_VERSION
  }

  /** A run leaves the recorded manifest vouching for the catalogue exactly when it installs none, or installs one for
      the recorded build model, or records its own as the one that is compared, or there is none recorded to compare. */
  lemma VouchedExactly(l: Lane, a: Attempt)
    requires LaneOk(l) && Vouched(l)
    ensures Vouched(Step(l, a)) <==>
      || !Installs(l, a) || !CatalogNeeded(l, a.manifest)
      || (if Records(a) then Leads(l, a.manifest) else Recorded(l).None?)
  {
    hide LaneOk, Catalogued, Leads;
    var due := CatalogNeeded(l, a.manifest) || a.forced;
    if Catalogued(l, a.manifest, due, a.answers).Ok? {
      CataloguedOk(l, a.manifest, due, a.answers);
      var next := Catalogued(l, a.manifest, due, a.answers).value;
      SameLeader(l, next, a.manifest);
      if Record(next, a.manifest).Ok? {
        RecordOk(next, a.manifest);
      }
    }
    if !due {
      NothingDue(l, a);
    }
  }

  lemma SameLeader(l: Lane, next: Lane, m: Manifest)
    requires l.manifests == next.manifests
    ensures Leads(l, m) == Leads(next, m) && Recorded(l) == Recorded(next)
  {
  }

  lemma NothingDue(l: Lane, a: Attempt)
    ensures Catalogued(l, a.manifest, false, a.answers) == Ok(l)
  {
  }

  /** In a series of runs over one workspace, none of which dies between the two commits or has a manifest of another
      protocol, a run that skips discovery leaves a catalogue that was discovered for that very fingerprint. */
  lemma CatalogFollowsManifest(attempts: seq<Attempt>, workspace: string, m: Manifest) returns (i: nat)
    requires forall a :: a in attempts ==> a.manifest.workspace == workspace && Records(a)
    requires !CatalogNeeded(Run(attempts), m)
    ensures i < |attempts| && attempts[i].manifest.fingerprint == m.fingerprint
    ensures Discovered(attempts[i].manifest, attempts[i].answers) == Ok(Run(attempts).catalog)
  {
    hide Discovered, Run;
    OneWorkspaceVouched(attempts, workspace);
    i := InstalledBy(attempts);
  }

  lemma {:induction false} OneWorkspaceVouched(attempts: seq<Attempt>, workspace: string)
    requires forall a :: a in attempts ==> a.manifest.workspace == workspace && Records(a)
    ensures Vouched(Run(attempts))
    ensures Run(attempts).manifests == [] || Run(attempts).manifests[0].0 == workspace
    decreases |attempts|
  {
    hide Step, Installs, CatalogNeeded, LaneOk;
    if attempts != [] {
      var init, last := attempts[..|attempts| - 1], attempts[|attempts| - 1];
      OneWorkspaceVouched(init, workspace);
      RunOk(init);
      VouchedExactly(Run(init), last);
      SameWorkspace(Run(init), last);
    }
  }

  lemma SameWorkspace(l: Lane, a: Attempt)
    requires LaneOk(l) && (l.manifests == [] || l.manifests[0].0 == a.manifest.workspace)
    ensures Step(l, a).manifests == [] || Step(l, a).manifests[0].0 == a.manifest.workspace
  {
    hide LaneOk, Catalogued, CatalogNeeded;
    var due := CatalogNeeded(l, a.manifest) || a.forced;
    if Catalogued(l, a.manifest, due, a.answers).Ok? {
      CataloguedOk(l, a.manifest, due, a.answers);
    }
  }

  lemma {:induction false} InstalledBy(attempts: seq<Attempt>) returns (i: nat)
    requires Run(attempts).installed.Some?
    ensures i < |attempts| && Run(attempts).installed == Some(attempts[i].manifest.fingerprint)
    ensures Discovered(attempts[i].manifest, attempts[i].answers) == Ok(Run(attempts).catalog)
    decreases |attempts|
  {
    hide Step, LaneOk, Discovered;
    var init, last := attempts[..|attempts| - 1], attempts[|attempts| - 1];
    RunOk(init);
    StepInstalls(Run(init), last);
    if Step(Run(init), last).installed == Run(init).installed && Step(Run(init), last).catalog == Run(init).catalog {
      i := InstalledBy(init);
    } else {
      i := |attempts| - 1;
    }
  }

  lemma StepInstalls(l: Lane, a: Attempt)
    requires LaneOk(l)
    ensures var next := Step(l, a);
      || (next.installed == l.installed && next.catalog == l.catalog)
      || (next.installed == Some(a.manifest.fingerprint) && Discovered(a.manifest, a.answers) == Ok(next.catalog))
  {
    hide LaneOk, Catalogued, CatalogNeeded, Discovered;
    var due := CatalogNeeded(l, a.manifest) || a.forced;
    if Catalogued(l, a.manifest, due, a.answers).Ok? {
      CataloguedOk(l, a.manifest, due, a.answers);
    }
  }

  /** Otherwise a catalogue of another build model is taken for the manifest's own: after a run over a later workspace
      of the same store, or one that dies between its two commits, the first build model is run again without
      discovery. */
  lemma ForgottenCatalog(first: Manifest, second: Manifest, answers: seq<Answer>, answers': seq<Answer>, dies: bool)
    requires first.fingerprint != second.fingerprint && first.protocolVersion == WORKER_PROTOCOL_VERSION
    requires dies || StrLt(first.workspace, second.workspace)
    requires Discovered(first, answers).Ok? && Discovered(second, answers').Ok?
    requires forall d :: d in Discovered(first, answers).value || d in Discovered(second, answers').value ==>
      Distinct(d.locators)
    ensures var l := Run([Attempt(first, false, answers, true, false), Attempt(second, false, answers', true, dies)]);
      !CatalogNeeded(l, first) && Ok(l.catalog) == Discovered(second, answers')
  {
    hide LaneOk, Discovered, Step, CatalogNeeded;
    var a, b := Attempt(first, false, answers, true, false), Attempt(second, false, answers', true, dies);
    assert [a, b][..1] == [a] && [a][..0] == [];
    assert Run([a, b]) == Step(Run([a]), b) && Run([a]) == Step(Run([]), a);
    EmptyOk();
    Installable(Empty, first, answers);
    StepOk(Empty, a);
    RecordedFirst(a);
    Installable(Step(Empty, a), second, answers');
    RecordedSecond(Step(Empty, a), b, first);
  }

  lemma Installable(l: Lane, m: Manifest, answers: seq<Answer>)
    requires LaneOk(l) && Discovered(m, answers).Ok?
    requires forall d :: d in Discovered(m, answers).value ==> Distinct(d.locators)
    ensures Catalogued(l, m, true, answers).Ok?
  {
    hide LaneOk, Discovered, Install, Distinct;
    DiscoveredOrder(m, answers);
    AscendingDistinct(Map(Discovered(m, answers).value, ArtifactUnit));
    InstallExactly(l, m.fingerprint, Discovered(m, answers).value, ("", ""));
  }

  lemma RecordedFirst(a: Attempt)
    requires a.reaches && Records(a) && Catalogued(Empty, a.manifest, true, a.answers).Ok?
    ensures Step(Empty, a).manifests == [(a.manifest.workspace, a.manifest.fingerprint)]
  {
    hide Catalogued;
    EmptyOk();
    CataloguedOk(Empty, a.manifest, true, a.answers);
  }

  lemma RecordedSecond(l: Lane, a: Attempt, first: Manifest)
    requires LaneOk(l) && l.manifests == [(first.workspace, first.fingerprint)]
    requires a.reaches && a.manifest.fingerprint != first.fingerprint
    requires a.dies || StrLt(first.workspace, a.manifest.workspace)
    requires Catalogued(l, a.manifest, true, a.answers).Ok?
    ensures !CatalogNeeded(Step(l, a), first) && Discovered(a.manifest, a.answers) == Ok(Step(l, a).catalog)
  {
    hide LaneOk, Catalogued, Discovered;
    CataloguedOk(l, a.manifest, true, a.answers);
    StrLtTrichotomy(first.workspace, a.manifest.workspace);
  }

  // The selection's edge.

  /** Over batches selected for the current sources, the program stops for want of a worker to ask exactly when there
      are no sources and the build model is not the recorded one. */
  lemma NoWorkerToAskExactly(c: seq<Snapshot>, l: Lane, m: Manifest, plan: string, current: seq<SourceUnit>,
                             setting: Registry.Setting, worker: BatchWorker, answers: seq<Answer>)
    requires setting.limit > 0
    ensures WholeBatchedRun(c, l, m, plan, current, Registry.Selected(current, setting), worker, answers).stop ==
              Some(NoWorkerToAsk) <==>
      plan == m.fingerprint && current == [] && CatalogNeeded(l, m)
  {
    hide WithLane, BatchedRun, CatalogNeeded, Asked;
    NothingAsked(c);
    NothingSelected(current, setting);
    NoOtherStop(BatchedRun(c, current, Registry.Selected(current, setting), worker), l, m, true, answers);
    NoOtherStop(BatchedRun(c, current, Registry.Selected(current, setting), worker), l, m, false, answers);
  }

  lemma NoOtherStop(run: RunResult, l: Lane, m: Manifest, due: bool, answers: seq<Answer>)
    ensures WithLane(run, l, m, due, answers).stop != Some(NoWorkerToAsk)
  {
  }

  lemma NothingSelected(current: seq<SourceUnit>, setting: Registry.Setting)
    requires setting.limit > 0
    ensures var selection := Registry.Selected(current, setting);
      selection.batches == [] && selection.unsupported == [] <==> current == []
  {
    var selection := Registry.Selected(current, setting);
    if current != [] {
      Registry.SelectionConserves(current, setting);
      assert current[0] in Registry.AllUnits(selection);
    }
  }

  lemma NothingAsked(c: seq<Snapshot>)
    ensures Asked(c, [], None) == []
  {
    if Asked(c, [], None) != [] {
      PlanExact([], PersistedSources(AllRows(c)), UnitId, (u: SourceUnit) => u, DecideUnit, Asked(c, [], None)[0], "");
    }
  }
}
