/** A run as a whole: its sources, its catalogue of dependencies, and the manifest row that lets the next run skip the
    discovery of dependencies. */
module DependencyLane {
  import opened Prelude
  import opened Canonical
  import opened Ordering
  import opened Tables
  import opened Store
  import opened Freshness
  import opened Orchestrator
  import opened Convergence
  import opened SelectedRun
  import opened DependencyCatalog
  import Registry = WorkerRegistry

  datatype LocatorRow = LocatorRow(unit: string, qualifiedName: string, symbol: string)

  /** The tables of the lane: manifest fingerprints by workspace, artifacts, their symbol locators and the blobs they
      refer to; and for which build model the catalogue was installed, which no table says. */
  datatype Lane = Lane(
    manifests: seq<(string, string)>, catalog: seq<Descriptor>, locators: seq<LocatorRow>,
    blobRefs: seq<(string, string)>,
    installed: Option<string>)

  const Empty: Lane := Lane([], [], [], [], None)

  function LocatorRows(d: Descriptor): seq<LocatorRow> {
    Map(d.locators, (l: Locator) => LocatorRow(ArtifactUnit(d), l.qualifiedName, l.symbol))
  }

  predicate InCatalog(catalog: seq<Descriptor>, unit: string) {
    exists i :: 0 <= i < |catalog| && ArtifactUnit(catalog[i]) == unit
  }

  // Installing a catalogue.

  function InsertLocators(rows: seq<LocatorRow>, more: seq<LocatorRow>): Option<seq<LocatorRow>>
    decreases |more|
  {
    if more == [] then Some(rows)
    else if more[0] in rows then None
    else InsertLocators(rows + [more[0]], more[1..])
  }

  function InsertDescriptors(catalog: seq<Descriptor>, rows: seq<LocatorRow>, ds: seq<Descriptor>)
    : Option<(seq<Descriptor>, seq<LocatorRow>)>
    decreases |ds|
  {
    if ds == [] then Some((catalog, rows))
    else if InCatalog(catalog, ArtifactUnit(ds[0])) then None
    else
      match InsertLocators(rows, LocatorRows(ds[0]))
      case None => None
      case Some(grown) => InsertDescriptors(catalog + [ds[0]], grown, ds[1..])
  }

  function Orphans(l: Lane): seq<LocatorRow> {
    Filter(l.locators, Orphaned(l.catalog))
  }

  function Orphaned(catalog: seq<Descriptor>): LocatorRow -> bool {
    (r: LocatorRow) => !InCatalog(catalog, r.unit)
  }

  function Referring(catalog: seq<Descriptor>): ((string, string)) -> bool {
    (e: (string, string)) => InCatalog(catalog, e.0)
  }

  function RefsInto(l: Lane, catalog: seq<Descriptor>): seq<(string, string)> {
    Filter(l.blobRefs, Referring(catalog))
  }

  function Install(l: Lane, fingerprint: string, ds: seq<Descriptor>): Result<Lane, LaneError> {
    match InsertDescriptors([], Orphans(l), ds)
    case None => Err(CatalogConflict)
    case Some((catalog, rows)) =>
      Ok(l.(catalog := catalog, locators := rows, blobRefs := RefsInto(l, catalog), installed := Some(fingerprint)))
  }

  // Recording a build model.

  function Recorded(l: Lane): Option<string> {
    if l.manifests == [] then None else Some(l.manifests[0].1)
  }

  /** Whether discovery is due is judged on the manifest of the least workspace. */
  predicate CatalogNeeded(l: Lane, m: Manifest) {
    Recorded(l) != Some(m.fingerprint)
  }

  function Record(l: Lane, m: Manifest): Result<Lane, LaneError> {
    if m.protocolVersion != WORKER_PROTOCOL_VERSION then Err(IncompatibleManifest(m.protocolVersion))
    else Ok(l.(manifests := Put(l.manifests, StrLe, m.workspace, m.fingerprint)))
  }

  function Catalogued(l: Lane, m: Manifest, due: bool, answers: seq<Answer>): Result<Lane, LaneError> {
    if !due then Ok(l)
    else
      match Discovered(m, answers)
      case Err(e) => Err(e)
      case Ok(ds) => Install(l, m.fingerprint, ds)
  }

  /** The lane at the end of a run whose sources are done. */
  function Closed(l: Lane, m: Manifest, due: bool, answers: seq<Answer>): (Lane, Option<LaneError>) {
    match Catalogued(l, m, due, answers)
    case Err(e) => (l, Some(e))
    case Ok(next) =>
      match Record(next, m)
      case Err(e) => (next, Some(e))
      case Ok(last) => (last, None)
  }

  // Whole runs.

  datatype Stop =
    | PlanMismatch
    | InSources(error: RunError)
    | InDependencies(laneError: LaneError)
    | NoWorkerToAsk

  datatype WholeRun = WholeRun(committed: seq<Snapshot>, lane: Lane, stop: Option<Stop>)

  function WithLane(run: RunResult, l: Lane, m: Manifest, due: bool, answers: seq<Answer>): WholeRun {
    if run.Aborted? then WholeRun(run.committed, l, Some(InSources(run.error)))
    else
      var (last, e) := Closed(l, m, due, answers);
      WholeRun(run.committed, last, if e.Some? then Some(InDependencies(e.value)) else None)
  }

  function WholeIndexRun(c: seq<Snapshot>, l: Lane, m: Manifest, plan: string, current: seq<SourceUnit>,
                         provenance: Option<Provenance>, worker: Worker, answers: seq<Answer>): WholeRun {
    if plan != m.fingerprint then WholeRun(c, l, Some(PlanMismatch))
    else WithLane(IndexRun(c, current, provenance, worker), l, m, CatalogNeeded(l, m), answers)
  }

  /** Over selected batches the lane runs for any source that is due, and asks the worker of the first batch. */
  function WholeBatchedRun(c: seq<Snapshot>, l: Lane, m: Manifest, plan: string, current: seq<SourceUnit>,
                           selection: Registry.Selection, worker: BatchWorker, answers: seq<Answer>): WholeRun {
    var due := CatalogNeeded(l, m) || Asked(c, current, None) != [];
    var run := BatchedRun(c, current, selection, worker);
    if plan != m.fingerprint then WholeRun(c, l, Some(PlanMismatch))
    else if selection.unsupported == [] && due && selection.batches == [] then
      WholeRun(run.committed, l, Some(NoWorkerToAsk))
    else WithLane(run, l, m, due, answers)
  }

  class DependencyStore {
    var manifests: seq<(string, string)>
    var catalog: seq<Descriptor>
    var locators: seq<LocatorRow>
    var blobRefs: seq<(string, string)>
    ghost var installed: Option<string>

    ghost function Now(): Lane
      reads this
    {
      Lane(manifests, catalog, locators, blobRefs, installed)
    }

    constructor ()
      ensures Now() == Empty
    {
      manifests, catalog, locators, blobRefs, installed := [], [], [], [], None;
    }

    /** One transaction: it installs the whole catalogue or leaves every table as it was. */
    method ReplaceArtifactDescriptors(ds: seq<Descriptor>, ghost fingerprint: string) returns (e: Option<LaneError>)
      modifies this
      ensures match Install(old(Now()), fingerprint, ds)
              case Err(error) => e == Some(error) && Now() == old(Now())
              case Ok(next) => e == None && Now() == next
    {
      hide InCatalog, LocatorRows, Filter;
      var rows := Filter(locators, Orphaned(catalog));
      var listed: seq<Descriptor> := [];
      for i := 0 to |ds|
        invariant Now() == old(Now())
        invariant InsertDescriptors([], Orphans(Now()), ds) == InsertDescriptors(listed, rows, ds[i..])
      {
        assert ds[i..][1..] == ds[i + 1..];
        if InCatalog(listed, ArtifactUnit(ds[i])) {
          return Some(CatalogConflict);
        }
        var grown := AddLocators(rows, LocatorRows(ds[i]));
        if grown.None? {
          return Some(CatalogConflict);
        }
        rows, listed := grown.value, listed + [ds[i]];
      }
      assert ds[|ds|..] == [];
      blobRefs := Filter(blobRefs, Referring(listed));
      catalog, locators, installed := listed, rows, Some(fingerprint);
      e := None;
    }

    method PutManifest(m: Manifest) returns (e: Option<LaneError>)
      modifies this
      ensures match Record(old(Now()), m)
              case Err(error) => e == Some(error) && Now() == old(Now())
              case Ok(next) => e == None && Now() == next
    {
      if m.protocolVersion != WORKER_PROTOCOL_VERSION {
        return Some(IncompatibleManifest(m.protocolVersion));
      }
      manifests := Put(manifests, StrLe, m.workspace, m.fingerprint);
      e := None;
    }

    method Close(m: Manifest, due: bool, answers: seq<Answer>) returns (e: Option<LaneError>)
      modifies this
      ensures (Now(), e) == Closed(old(Now()), m, due, answers)
    {
      hide Install, Record, Discovered;
      if due {
        var ds := DiscoverDependencyCatalog(m, answers);
        if ds.Err? {
          return Some(ds.error);
        }
        e := ReplaceArtifactDescriptors(ds.value, m.fingerprint);
        if e.Some? {
          return;
        }
      }
      e := PutManifest(m);
    }
  }

  method AddLocators(rows: seq<LocatorRow>, more: seq<LocatorRow>) returns (r: Option<seq<LocatorRow>>)
    ensures r == InsertLocators(rows, more)
  {
    var grown := rows;
    for i := 0 to |more|
      invariant InsertLocators(rows, more) == InsertLocators(grown, more[i..])
    {
      assert more[i..][1..] == more[i + 1..];
      if more[i] in grown {
        return None;
      }
      grown := grown + [more[i]];
    }
    assert more[|more|..] == [];
    r := Some(grown);
  }

  method IndexBatchWithDependencies(store: IndexStore, lane: DependencyStore, m: Manifest, plan: string,
                                    current: seq<SourceUnit>, provenance: Option<Provenance>, worker: Worker,
                                    answers: seq<Answer>) returns (stop: Option<Stop>)
    requires store.Valid()
    modifies store, lane
    ensures store.Valid()
    ensures WholeRun(store.committed, lane.Now(), stop) ==
      WholeIndexRun(old(store.committed), old(lane.Now()), m, plan, current, provenance, worker, answers)
  {
    hide IndexRun, Closed;
    if plan != m.fingerprint {
      return Some(PlanMismatch);
    }
    var due := lane.manifests == [] || lane.manifests[0].1 != m.fingerprint;
    var stopped, _ := IndexBatch(store, current, provenance, worker);
    if stopped.Some? {
      return Some(InSources(stopped.value));
    }
    var e := lane.Close(m, due, answers);
    stop := if e.Some? then Some(InDependencies(e.value)) else None;
  }

  method IndexSelectedBatchesWithDependencies(store: IndexStore, lane: DependencyStore, m: Manifest, plan: string,
                                              current: seq<SourceUnit>, selection: Registry.Selection,
                                              worker: BatchWorker, answers: seq<Answer>) returns (stop: Option<Stop>)
    requires store.Valid()
    modifies store, lane
    ensures store.Valid()
    ensures WholeRun(store.committed, lane.Now(), stop) ==
      WholeBatchedRun(old(store.committed), old(lane.Now()), m, plan, current, selection, worker, answers)
  {
    hide BatchedRun, Closed, PlanFor;
    if plan != m.fingerprint {
      return Some(PlanMismatch);
    }
    var actions := MakePlan(store.rows, current, None);
    var due := lane.manifests == [] || lane.manifests[0].1 != m.fingerprint || ToReanalyze(actions) != [];
    var stopped, _ := IndexSelectedBatches(store, current, selection, worker);
    if selection.unsupported == [] && due && selection.batches == [] {
      return Some(NoWorkerToAsk);
    }
    if stopped.Some? {
      return Some(InSources(stopped.value));
    }
    var e := lane.Close(m, due, answers);
    stop := if e.Some? then Some(InDependencies(e.value)) else None;
  }
}
