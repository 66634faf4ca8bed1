/** How the part of a run that is about dependencies ends: which error discovery reports, what is installed and
    recorded, and what a whole run leaves when it stops. */
module LaneOutcome {
  import opened Prelude
  import opened Canonical
  import opened Ordering
  import opened Tables
  import opened Store
  import opened Freshness
  import opened Orchestrator
  import opened Convergence
  import opened SelectedRun
  import opened DependencyCatalog
  import opened DependencyLane
  import opened LaneHistory
  import Registry = WorkerRegistry

  // Discovery.

  /** A page that says there are more, all of whose artifacts belong to the build model. */
  ghost predicate Goes(m: Manifest, a: Answer) {
    a.Page? && a.more && AllBelong(m, a.artifacts)
  }

  /** What is wrong with the first of some artifacts that does not belong. */
  ghost predicate FirstMisplaced(m: Manifest, ds: seq<Descriptor>, e: LaneError) {
    exists i :: 0 <= i < |ds| && (forall j :: 0 <= j < i ==> Belongs(m, ds[j])) && WrongWith(m, ds[i], e)
  }

  ghost predicate WrongWith(m: Manifest, d: Descriptor, e: LaneError) {
    var c := Latest(m.components, ComponentId, d.sourceUnit.component);
    if c.None? then e == UnknownComponent(d.sourceUnit.component)
    else
      c.value.1 != d.sourceUnit.context
      && e == ContextMismatch(d.sourceUnit.component, c.value.1, d.sourceUnit.context)
  }

  lemma MisplacedOne(m: Manifest, d: Descriptor, e: LaneError)
    ensures Misplaced(m)(d) == Some(e) <==> WrongWith(m, d, e)
    ensures Misplaced(m)(d) == None <==> Belongs(m, d)
  {
  }

  lemma {:induction false} FirstMisplacedExactly(m: Manifest, ds: seq<Descriptor>, e: LaneError)
    ensures First(ds, Misplaced(m)) == Some(e) <==> FirstMisplaced(m, ds, e)
  {
    hide Misplaced, Belongs, WrongWith;
    if ds != [] {
      var rest := ds[1..];
      FirstMisplacedExactly(m, rest, e);
      MisplacedOne(m, ds[0], e);
      assert forall i :: 0 <= i < |rest| ==> rest[i] == ds[i + 1];
      if i :| 0 <= i < |rest| && (forall j :: 0 <= j < i ==> Belongs(m, rest[j])) && WrongWith(m, rest[i], e) {
        if Belongs(m, ds[0]) {
          forall j | 0 <= j < i + 1 ensures Belongs(m, ds[j]) {
            if j > 0 { assert Belongs(m, rest[j - 1]); }
          }
          assert WrongWith(m, ds[i + 1], e);
        }
      }
      if i :| 0 <= i < |ds| && (forall j :: 0 <= j < i ==> Belongs(m, ds[j])) && WrongWith(m, ds[i], e) {
        if i > 0 {
          assert Belongs(m, ds[0]) && WrongWith(m, rest[i - 1], e);
          forall j | 0 <= j < i - 1 ensures Belongs(m, rest[j]) {
            assert Belongs(m, ds[j + 1]);
          }
        }
      }
    }
  }

  /** Discovery stops at the first answer that is not such a page. It fails when there is none, when the answer is no
      page, and when one of its artifacts does not belong, for the first that does not. */
  lemma {:induction false} DiscoveryFails(m: Manifest, answers: seq<Answer>, seen: seq<Descriptor>, n: nat,
                                          e: LaneError)
    requires n <= |answers| && forall i :: 0 <= i < n ==> Goes(m, answers[i])
    requires n < |answers| ==> !Goes(m, answers[n])
    ensures DiscoverFrom(m, answers, seen) == Err(e) <==>
      if n == |answers| then e == WorkerEnded
      else if answers[n].OtherAnswer? then e == WrongResponse
      else FirstMisplaced(m, answers[n].artifacts, e)
    decreases |answers|
  {
    hide AllBelong, FirstMisplaced;
    if n == 0 {
      if answers != [] && answers[0].Page? {
        MisplacedExactly(m, answers[0].artifacts);
        FirstMisplacedExactly(m, answers[0].artifacts, e);
      }
    } else {
      assert Goes(m, answers[0]);
      MisplacedExactly(m, answers[0].artifacts);
      assert forall i :: 0 <= i < n - 1 ==> answers[1..][i] == answers[i + 1];
      DiscoveryFails(m, answers[1..], seen + answers[0].artifacts, n - 1, e);
    }
  }

  // Closing.

  ghost predicate Installable(m: Manifest, answers: seq<Answer>) {
    Discovered(m, answers).Ok? && forall d :: d in Discovered(m, answers).value ==> Distinct(d.locators)
  }

  /** The lane closes well exactly when what is due can be discovered and installed and the manifest is of this
      protocol. A discovery that fails, or a catalogue that cannot be installed, changes nothing; a manifest of another
      protocol is refused once the catalogue is there. */
  lemma ClosedExactly(l: Lane, m: Manifest, due: bool, answers: seq<Answer>, w: string)
    requires LaneOk(l)
    ensures var (last, e) := Closed(l, m, due, answers);
      && (e == None <==> (due ==> Installable(m, answers)) && m.protocolVersion == 3)
      && (due && Discovered(m, answers).Err? ==> e == Some(Discovered(m, answers).error) && last == l)
      && (due && Discovered(m, answers).Ok? && !Installable(m, answers) ==> e == Some(CatalogConflict) && last == l)
      && ((due ==> Installable(m, answers)) ==>
            && last.catalog == (if due then Discovered(m, answers).value else l.catalog)
            && (m.protocolVersion != 3 ==>
                  e == Some(IncompatibleManifest(m.protocolVersion)) && last.manifests == l.manifests)
            && (m.protocolVersion == 3 ==>
                  Get(last.manifests, w) ==
                    if w == m.workspace then Some(m.fingerprint) else Get(l.manifests, w)))
  {
    hide Discovered, Install, Distinct, LaneOk, Ascending, Get;
    if due && Discovered(m, answers).Ok? {
      DiscoveredOrder(m, answers);
      AscendingDistinct(Map(Discovered(m, answers).value, ArtifactUnit));
      InstallExactly(l, m.fingerprint, Discovered(m, answers).value, ("", ""));
      InstallErrors(l, m.fingerprint, Discovered(m, answers).value);
    }
    ManifestsAscend(l);
    StrLeTotalOrder();
    GetPut(l.manifests, StrLe, m.workspace, m.fingerprint, w);
  }

  lemma InstallErrors(l: Lane, fingerprint: string, ds: seq<Descriptor>)
    ensures Install(l, fingerprint, ds).Err? ==> Install(l, fingerprint, ds) == Err(CatalogConflict)
  {
    hide InsertDescriptors;
  }

  lemma ManifestsAscend(l: Lane)
    requires LaneOk(l)
    ensures Ascending(Keys(l.manifests), StrLe)
  {
  }

  /** The locators are those that the catalogue's artifacts list, each under its artifact's unit. */
  lemma LocatorsExactly(l: Lane, r: LocatorRow)
    requires LaneOk(l)
    ensures r in l.locators <==> exists d, x ::
      d in l.catalog && x in d.locators && r == LocatorRow(d.sourceUnit.id, x.qualifiedName, x.symbol)
  {
    hide Distinct;
    FlatMapMember(l.catalog, LocatorRows, r);
    forall d: Descriptor ensures r in LocatorRows(d) <==>
      exists x :: x in d.locators && r == LocatorRow(d.sourceUnit.id, x.qualifiedName, x.symbol)
    {
      MapIn(d.locators, (x: Locator) => LocatorRow(ArtifactUnit(d), x.qualifiedName, x.symbol), r);
    }
    if d, x :| d in l.catalog && x in d.locators && r == LocatorRow(d.sourceUnit.id, x.qualifiedName, x.symbol) {
      assert r in LocatorRows(d);
      var i :| 0 <= i < |l.catalog| && l.catalog[i] == d;
    }
  }

  /** Discovery is due exactly when the manifest recorded for the least workspace is of another build model, or none is
      recorded. */
  lemma NeededExactly(l: Lane, m: Manifest)
    requires LaneOk(l)
    ensures CatalogNeeded(l, m) <==>
      forall w :: w in Keys(l.manifests) && (forall v :: v in Keys(l.manifests) ==> StrLe(w, v)) ==>
        Get(l.manifests, w) != Some(m.fingerprint)
  {
    hide StrLe;
    StrLeTotalOrder();
    ManifestsAscend(l);
    var keys := Keys(l.manifests);
    if l.manifests != [] {
      assert keys[0] in keys;
      forall v | v in keys ensures StrLe(keys[0], v) {
        var i :| 0 <= i < |keys| && keys[i] == v;
      }
      assert Get(l.manifests, keys[0]) == Some(l.manifests[0].1);
    }
  }

  // Whole runs.

  /** A run whose plan is of another build model touches nothing. One that stops in its sources leaves the dependencies
      as they were; otherwise its sources are done, and what the dependencies come to is how their lane closes. */
  lemma WholeRunEnds(c: seq<Snapshot>, l: Lane, m: Manifest, plan: string, current: seq<SourceUnit>,
                     provenance: Option<Provenance>, worker: Worker, answers: seq<Answer>)
    ensures var whole, run := WholeIndexRun(c, l, m, plan, current, provenance, worker, answers),
                              IndexRun(c, current, provenance, worker);
      var (last, e) := Closed(l, m, CatalogNeeded(l, m), answers);
      whole ==
        if plan != m.fingerprint then WholeRun(c, l, Some(PlanMismatch))
        else if run.Aborted? then WholeRun(run.committed, l, Some(InSources(run.error)))
        else WholeRun(run.committed, last, if e == None then None else Some(InDependencies(e.value)))
  {
    hide IndexRun, Closed, CatalogNeeded;
  }

  /** The same over selected batches, where discovery is due besides when any source is, and there must be a worker to
      ask whenever it is due. */
  lemma WholeBatchedRunEnds(c: seq<Snapshot>, l: Lane, m: Manifest, plan: string, current: seq<SourceUnit>,
                            selection: Registry.Selection, worker: BatchWorker, answers: seq<Answer>)
    ensures var whole, run := WholeBatchedRun(c, l, m, plan, current, selection, worker, answers),
                              BatchedRun(c, current, selection, worker);
      var due := CatalogNeeded(l, m) || exists u :: u in Asked(c, current, None);
      var (last, e) := Closed(l, m, due, answers);
      whole ==
        if plan != m.fingerprint then WholeRun(c, l, Some(PlanMismatch))
        else if selection.unsupported == [] && selection.batches == [] && due
        then WholeRun(run.committed, l, Some(NoWorkerToAsk))
        else if run.Aborted? then WholeRun(run.committed, l, Some(InSources(run.error)))
        else WholeRun(run.committed, last, if e == None then None else Some(InDependencies(e.value)))
  {
    hide BatchedRun, Closed, CatalogNeeded, Asked;
    SomeMember(Asked(c, current, None));
  }
}
