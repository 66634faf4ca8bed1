/** The catalogue of dependency artifacts: discovered page by page from a worker, and installed in the store in one
    transaction. */
module DependencyCatalog {
  import opened Prelude
  import opened Canonical
  import opened Ordering
  import opened Freshness

  datatype Locator = Locator(qualifiedName: string, symbol: string)

  datatype Descriptor = Descriptor(sourceUnit: SourceUnit, locators: seq<Locator>)

  /** The resolved build model: each component's configuration fingerprint, and the worker protocol it was made with. */
  datatype Manifest = Manifest(
    workspace: string, fingerprint: string, components: seq<(string, string)>, protocolVersion: nat)

  /** What the worker answers to the request for one page. */
  datatype Answer = Page(artifacts: seq<Descriptor>, more: bool) | OtherAnswer

  datatype LaneError =
    | WorkerEnded
    | WrongResponse
    | UnknownComponent(component: string)
    | ContextMismatch(component: string, expected: string, actual: string)
    | CatalogConflict
    | IncompatibleManifest(found: nat)

  // Discovery.

  function ArtifactUnit(d: Descriptor): string {
    d.sourceUnit.id
  }

  function ComponentId(c: (string, string)): string {
    c.0
  }

  function Misplaced(m: Manifest): Descriptor -> Option<LaneError> {
    (d: Descriptor) =>
      match Latest(m.components, ComponentId, d.sourceUnit.component)
      case None => Some(UnknownComponent(d.sourceUnit.component))
      case Some(c) =>
        if d.sourceUnit.context != c.1 then Some(ContextMismatch(d.sourceUnit.component, c.1, d.sourceUnit.context))
        else None
  }

  function DiscoverFrom(m: Manifest, answers: seq<Answer>, seen: seq<Descriptor>): Result<seq<Descriptor>, LaneError>
    decreases |answers|
  {
    if answers == [] then Err(WorkerEnded)
    else if answers[0].OtherAnswer? then Err(WrongResponse)
    else
      match First(answers[0].artifacts, Misplaced(m))
      case Some(e) => Err(e)
      case None =>
        var all := seen + answers[0].artifacts;
        if answers[0].more then DiscoverFrom(m, answers[1..], all) else Ok(Values(IndexBy(all, ArtifactUnit)))
  }

  function Discovered(m: Manifest, answers: seq<Answer>): Result<seq<Descriptor>, LaneError> {
    DiscoverFrom(m, answers, [])
  }

  method DiscoverDependencyCatalog(m: Manifest, answers: seq<Answer>) returns (r: Result<seq<Descriptor>, LaneError>)
    ensures r == Discovered(m, answers)
  {
    var found: seq<(string, Descriptor)> := [];
    ghost var seen: seq<Descriptor> := [];
    for page := 0 to |answers|
      invariant found == IndexBy(seen, ArtifactUnit)
      invariant Discovered(m, answers) == DiscoverFrom(m, answers[page..], seen)
    {
      assert answers[page..][1..] == answers[page + 1..];
      if answers[page].OtherAnswer? {
        return Err(WrongResponse);
      }
      var added := AddArtifacts(m, answers[page].artifacts, found, seen);
      if added.Err? {
        return Err(added.error);
      }
      found := added.value;
      seen := seen + answers[page].artifacts;
      if !answers[page].more {
        return Ok(Values(found));
      }
    }
    assert answers[|answers|..] == [];
    r := Err(WorkerEnded);
  }

  method AddArtifacts(m: Manifest, artifacts: seq<Descriptor>, found0: seq<(string, Descriptor)>,
                      ghost seen: seq<Descriptor>)
      returns (r: Result<seq<(string, Descriptor)>, LaneError>)
    requires found0 == IndexBy(seen, ArtifactUnit)
    ensures r == match First(artifacts, Misplaced(m))
                 case Some(e) => Err(e)
                 case None => Ok(IndexBy(seen + artifacts, ArtifactUnit))
  {
    hide IndexBy, Misplaced;
    var found := found0;
    assert seen + artifacts[..0] == seen;
    for k := 0 to |artifacts|
      invariant found == IndexBy(seen + artifacts[..k], ArtifactUnit)
      invariant First(artifacts[k..], Misplaced(m)) == First(artifacts, Misplaced(m))
    {
      assert artifacts[k..][1..] == artifacts[k + 1..];
      var misplaced := Misplaced(m)(artifacts[k]);
      if misplaced.Some? {
        return Err(misplaced.value);
      }
      IndexBySnoc(seen + artifacts[..k], artifacts[k]);
      assert seen + artifacts[..k] + [artifacts[k]] == seen + artifacts[..k + 1];
      found := Put(found, StrLe, ArtifactUnit(artifacts[k]), artifacts[k]);
    }
    assert artifacts[..|artifacts|] == artifacts;
    r := Ok(found);
  }

  lemma IndexBySnoc(items: seq<Descriptor>, d: Descriptor)
    ensures IndexBy(items + [d], ArtifactUnit) == Put(IndexBy(items, ArtifactUnit), StrLe, ArtifactUnit(d), d)
  {
    assert (items + [d])[..|items|] == items;
  }

  /** The artifacts of all pages up to the first that says there are no more. */
  function Listed(answers: seq<Answer>): Option<seq<Descriptor>>
    decreases |answers|
  {
    if answers == [] || answers[0].OtherAnswer? then None
    else if !answers[0].more then Some(answers[0].artifacts)
    else
      match Listed(answers[1..])
      case None => None
      case Some(rest) => Some(answers[0].artifacts + rest)
  }

  /** The component is known and the artifact was resolved in the configuration that the build model names. */
  predicate Belongs(m: Manifest, d: Descriptor) {
    var c := Latest(m.components, ComponentId, d.sourceUnit.component);
    c.Some? && c.value.1 == d.sourceUnit.context
  }

  ghost predicate AllBelong(m: Manifest, ds: seq<Descriptor>) {
    forall d :: d in ds ==> Belongs(m, d)
  }

  lemma MisplacedExactly(m: Manifest, ds: seq<Descriptor>)
    ensures First(ds, Misplaced(m)).None? <==> AllBelong(m, ds)
  {
    FirstNone(ds, Misplaced(m));
    forall i | 0 <= i < |ds| ensures Misplaced(m)(ds[i]).None? <==> Belongs(m, ds[i]) {
    }
    if AllBelong(m, ds) {
      forall i | 0 <= i < |ds| ensures Misplaced(m)(ds[i]).None? {
        assert ds[i] in ds;
      }
    }
  }

  lemma {:induction false} DiscoversFrom(m: Manifest, answers: seq<Answer>, seen: seq<Descriptor>)
    ensures var r, listed := DiscoverFrom(m, answers, seen), Listed(answers);
      && (r.Ok? <==> listed.Some? && AllBelong(m, listed.value))
      && (r.Ok? ==> r.value == Values(IndexBy(seen + listed.value, ArtifactUnit)))
    decreases |answers|
  {
    hide Belongs;
    if answers != [] && answers[0].Page? {
      MisplacedExactly(m, answers[0].artifacts);
      if answers[0].more {
        DiscoversFrom(m, answers[1..], seen + answers[0].artifacts);
        if Listed(answers[1..]).Some? {
          var rest := Listed(answers[1..]).value;
          assert seen + answers[0].artifacts + rest == seen + (answers[0].artifacts + rest);
        }
      }
    }
  }

  /** Discovery succeeds exactly when the pages come to an end and every listed artifact belongs to the build model; the
      catalogue then has, for each source unit listed, what was listed for it last, in order of units. */
  lemma DiscoveredExactly(m: Manifest, answers: seq<Answer>, d: Descriptor)
    ensures var r, listed := Discovered(m, answers), Listed(answers);
      && (r.Ok? <==> listed.Some? && AllBelong(m, listed.value))
      && (r.Ok? ==>
            && (d in r.value <==> Latest(listed.value, ArtifactUnit, ArtifactUnit(d)) == Some(d))
            && Ascending(Map(r.value, ArtifactUnit), StrLe))
  {
    hide AllBelong, Ascending;
    DiscoversFrom(m, answers, []);
    if Discovered(m, answers).Ok? {
      var listed := Listed(answers).value;
      assert [] + listed == listed;
      IndexByFacts(listed, ArtifactUnit, ArtifactUnit(d));
      IndexedValues(listed, d);
    }
  }

  lemma {:induction false} KeyedByUnit(items: seq<Descriptor>, e: (string, Descriptor))
    requires e in IndexBy(items, ArtifactUnit)
    ensures e.0 == ArtifactUnit(e.1)
    decreases |items|
  {
    IndexByFacts(items, ArtifactUnit, e.0);
    EntryIn(IndexBy(items, ArtifactUnit), StrLe, e.0, e.1);
    LatestIs(items, ArtifactUnit, e.0);
  }

  lemma IndexedValues(items: seq<Descriptor>, d: Descriptor)
    ensures var m := IndexBy(items, ArtifactUnit);
      (d in Values(m) <==> Get(m, ArtifactUnit(d)) == Some(d)) && Map(Values(m), ArtifactUnit) == Keys(m)
  {
    var m := IndexBy(items, ArtifactUnit);
    IndexByFacts(items, ArtifactUnit, ArtifactUnit(d));
    EntryIn(m, StrLe, ArtifactUnit(d), d);
    ValuesAt(m);
    MapAt(Values(m), ArtifactUnit);
    forall i | 0 <= i < |m| ensures m[i].0 == ArtifactUnit(m[i].1) {
      KeyedByUnit(items, m[i]);
    }
    if d in Values(m) {
      var i :| 0 <= i < |m| && Values(m)[i] == d;
      assert m[i] == (ArtifactUnit(d), d);
    }
    if (ArtifactUnit(d), d) in m {
      var i :| 0 <= i < |m| && m[i] == (ArtifactUnit(d), d);
      assert Values(m)[i] == d;
    }
  }

  function Values<K, V>(m: seq<(K, V)>): seq<V> {
    Map(m, (e: (K, V)) => e.1)
  }

  lemma ValuesAt<K, V>(m: seq<(K, V)>)
    ensures |Values(m)| == |m| && forall i :: 0 <= i < |m| ==> Values(m)[i] == m[i].1
  {
    MapAt(m, (e: (K, V)) => e.1);
  }
}
