/** How a selection is cut: which batches each group of sources becomes, in what order, and who serves them. */
module BatchShape {
  import opened Prelude
  import opened Ordering
  import opened Canonical
  import opened WorkerRegistry

  // Who serves.

  /** The build system that the manifest gives a component, whose last entry counts; one it does not list is taken for a
      plain directory. */
  ghost predicate BuiltWith(components: seq<Component>, id: string, build: BuildSystem) {
    if forall c :: c in components ==> c.id != id then build == Filesystem
    else exists k :: LastEntry(components, id, build, k)
  }

  predicate LastEntry(components: seq<Component>, id: string, build: BuildSystem, k: nat) {
    && k < |components| && components[k] == Component(id, build)
    && forall h :: k < h < |components| ==> components[h].id != id
  }

  predicate CanServe(w: Worker, build: BuildSystem, language: Language, required: seq<string>) {
    build in w.buildSystems && language in w.languages && forall c :: c in required ==> c in w.capabilities
  }

  lemma {:induction false} BuildSystemExactly(components: seq<Component>, id: string, build: BuildSystem)
    ensures BuildSystemOf(components, id) == build <==> BuiltWith(components, id, build)
    decreases |components|
  {
    if components != [] {
      var init, last := components[..|components| - 1], components[|components| - 1];
      assert components == init + [last];
      BuildSystemExactly(init, id, build);
      if last.id == id {
        assert last in components;
        if last.buildSystem == build {
          assert LastEntry(components, id, build, |components| - 1);
        }
      } else {
        OtherLast(components, id, build);
      }
    }
  }

  lemma OtherLast(components: seq<Component>, id: string, build: BuildSystem)
    requires components != [] && components[|components| - 1].id != id
    ensures BuiltWith(components, id, build) <==> BuiltWith(components[..|components| - 1], id, build)
  {
    hide LastEntry;
    var init, last := components[..|components| - 1], components[|components| - 1];
    assert components == init + [last];
    forall k: nat ensures LastEntry(components, id, build, k) <==> LastEntry(init, id, build, k) {
      EntryBefore(components, id, build, k);
    }
  }

  lemma EntryBefore(components: seq<Component>, id: string, build: BuildSystem, k: nat)
    requires components != [] && components[|components| - 1].id != id
    ensures LastEntry(components, id, build, k) <==> LastEntry(components[..|components| - 1], id, build, k)
  {
    var init := components[..|components| - 1];
    assert forall h :: 0 <= h < |init| ==> init[h] == components[h];
  }

  lemma ServesExactly(w: Worker, build: BuildSystem, language: Language, required: seq<string>)
    ensures Compatible(w, build, language, required) <==> CanServe(w, build, language, required)
  {
    if Compatible(w, build, language, required) {
      forall c | c in required ensures c in w.capabilities {
        var i :| 0 <= i < |required| && required[i] == c;
      }
    }
  }

  /** A batch goes to the least-named worker that can serve its component's build system, its language and every
      capability required; a group is unsupported only when no worker can. */
  lemma ServedBy(sources: seq<SourceUnit>, s: Setting)
    requires s.limit > 0
    ensures forall b :: b in Selected(sources, s).batches ==>
      exists build ::
        && BuiltWith(s.components, b.component, build)
        && b.worker in s.workers && CanServe(b.worker, build, b.language, s.required)
        && forall w :: w in s.workers && CanServe(w, build, b.language, s.required) ==> StrLe(b.worker.name, w.name)
    ensures forall b :: b in Selected(sources, s).unsupported ==>
      && BuiltWith(s.components, b.component, b.buildSystem)
      && forall w :: w in s.workers ==> !CanServe(w, b.buildSystem, b.language, s.required)
  {
    hide Selected, Compatible, CanServe, BuiltWith, StrLe;
    SelectionIsOk(sources, s);
    forall w, build, language ensures
      Compatible(w, build, language, s.required) <==> CanServe(w, build, language, s.required)
    {
      ServesExactly(w, build, language, s.required);
    }
    forall id { BuildSystemExactly(s.components, id, BuildSystemOf(s.components, id)); }
    forall b | b in Selected(sources, s).batches
      ensures exists build ::
        && BuiltWith(s.components, b.component, build)
        && b.worker in s.workers && CanServe(b.worker, build, b.language, s.required)
        && forall w :: w in s.workers && CanServe(w, build, b.language, s.required) ==> StrLe(b.worker.name, w.name)
    {
      var build := BuildSystemOf(s.components, b.component);
      BuildSystemExactly(s.components, b.component, build);
      assert BatchOk(b, s) && BuiltWith(s.components, b.component, build);
    }
    forall b | b in Selected(sources, s).unsupported
      ensures BuiltWith(s.components, b.component, b.buildSystem)
      ensures forall w :: w in s.workers ==> !CanServe(w, b.buildSystem, b.language, s.required)
    {
      BuildSystemExactly(s.components, b.component, b.buildSystem);
      assert UnsupportedOk(b, s);
    }
  }

  // How groups are cut.

  /** The batches of one group. */
  function GroupBatches(units: seq<SourceUnit>, s: Setting): seq<WorkerBatch>
    requires s.limit > 0
  {
    SelectGroup(Selection([], []), units, s).batches
  }

  function BatchesFor(s: Setting): ((GroupKey, seq<SourceUnit>)) -> seq<WorkerBatch>
    requires s.limit > 0
  {
    (group: (GroupKey, seq<SourceUnit>)) => if s.limit > 0 then GroupBatches(group.1, s) else []
  }

  lemma {:induction false} BatchesByGroup(selection: Selection, groups: Groups, s: Setting)
    requires s.limit > 0
    ensures SelectGroups(selection, groups, s).batches == selection.batches + FlatMap(groups, BatchesFor(s))
    decreases |groups|
  {
    hide ChunkBatches, FirstCompatible;
    if groups != [] {
      BatchesByGroup(SelectGroup(selection, groups[0].1, s), groups[1..], s);
      GroupAppends(selection, groups[0].1, s);
      Reassociate(selection.batches, GroupBatches(groups[0].1, s), FlatMap(groups[1..], BatchesFor(s)));
    }
  }

  lemma GroupAppends(selection: Selection, units: seq<SourceUnit>, s: Setting)
    requires s.limit > 0
    ensures SelectGroup(selection, units, s).batches == selection.batches + GroupBatches(units, s)
  {
    hide ChunkBatches, FirstCompatible, BuildSystemOf;
    var none: seq<WorkerBatch> := [];
    assert selection.batches + none == selection.batches;
    if units != [] {
      var component, language := units[0].component, units[0].language;
      var found := FirstCompatible(s.workers, BuildSystemOf(s.components, component), language, s.required);
      if found.Some? {
        var chunks := ChunkBatches(found.value, component, language, units, s.limit);
        assert none + chunks == chunks;
      }
    }
  }

  /** Pieces of some sources: put together they are those sources, and all but the last have the limit. */
  ghost predicate Cut(pieces: seq<WorkerBatch>, units: seq<SourceUnit>, limit: nat) {
    && FlatMap(pieces, BatchUnits) == units
    && (forall i :: 0 <= i < |pieces| ==> 0 < |pieces[i].sourceUnits| <= limit)
    && (forall i :: 0 <= i < |pieces| - 1 ==> |pieces[i].sourceUnits| == limit)
  }

  lemma {:induction false} ChunksCut(w: Worker, component: string, language: Language, units: seq<SourceUnit>,
                                     limit: nat)
    requires limit > 0
    ensures Cut(ChunkBatches(w, component, language, units, limit), units, limit)
    decreases |units|
  {
    ChunksFlat(w, component, language, units, limit);
    if units != [] {
      var size := if |units| <= limit then |units| else limit;
      ChunksCut(w, component, language, units[size..], limit);
    }
  }

  /** A group becomes such pieces, or no batch at all when nobody can serve it. */
  lemma GroupCut(units: seq<SourceUnit>, s: Setting)
    requires s.limit > 0
    ensures var pieces := GroupBatches(units, s); pieces == [] || Cut(pieces, units, s.limit)
  {
    hide BuildSystemOf, FirstCompatible, ChunkBatches, Cut;
    if units != [] {
      var component, language := units[0].component, units[0].language;
      var found := FirstCompatible(s.workers, BuildSystemOf(s.components, component), language, s.required);
      if found.Some? {
        ChunksCut(found.value, component, language, units, s.limit);
        var chunks := ChunkBatches(found.value, component, language, units, s.limit);
        assert [] + chunks == chunks;
      }
    }
  }

  // The whole selection.

  /** The sources of one component and one language key, by path. */
  ghost predicate GroupOf(group: (GroupKey, seq<SourceUnit>), sources: seq<SourceUnit>) {
    && (forall u :: u in group.1 <==>
          u in sources && u.component == group.0.0 && LanguageKey(u.language) == group.0.1)
    && (forall i, j :: 0 <= i < j < |group.1| ==> StrLe(group.1[i].path, group.1[j].path))
  }

  predicate KeyBefore(a: GroupKey, b: GroupKey) {
    StrLt(a.0, b.0) || (a.0 == b.0 && StrLt(a.1, b.1))
  }

  /** The batches follow the groups of the sources, by component and then by language key, each group in its pieces and
      its sources by path. */
  lemma SelectionCut(sources: seq<SourceUnit>, s: Setting) returns (groups: Groups)
    requires s.limit > 0
    ensures forall i, j :: 0 <= i < j < |groups| ==> KeyBefore(groups[i].0, groups[j].0)
    ensures forall group :: group in groups ==> GroupOf(group, sources)
    ensures Selected(sources, s).batches == FlatMap(groups, BatchesFor(s.(workers := SortBy(s.workers, WorkerLe))))
  {
    hide KeyLe, SourceLe, WorkerLe, StrLt, Grouped, SelectGroups, GroupOf, FlatMap;
    var sorted := SortBy(sources, SourceLe);
    groups := Grouped([], sorted);
    var setting := s.(workers := SortBy(s.workers, WorkerLe));
    BatchesByGroup(Selection([], []), groups, setting);
    var all := FlatMap(groups, BatchesFor(setting));
    assert [] + all == all;
    GroupedMembers([], sorted, ("", ""));
    forall i, j | 0 <= i < j < |groups| ensures KeyBefore(groups[i].0, groups[j].0) {
      assert Keys(groups)[i] == groups[i].0 && Keys(groups)[j] == groups[j].0;
      AscendsBefore(groups[i].0, groups[j].0);
    }
    forall group | group in groups ensures GroupOf(group, sources) {
      var i :| 0 <= i < |groups| && groups[i] == group;
      GroupedMembers([], sorted, group.0);
      GetAt(groups, i);
      GroupIs(sources, group);
    }
  }

  lemma AscendsBefore(a: GroupKey, b: GroupKey)
    requires KeyLe(a, b) && a != b
    ensures KeyBefore(a, b)
  {
    hide StrLt;
  }

  lemma GroupIs(sources: seq<SourceUnit>, group: (GroupKey, seq<SourceUnit>))
    requires group.1 == [] + Filter(SortBy(sources, SourceLe), HasKey(group.0))
    ensures GroupOf(group, sources)
  {
    hide SourceLe, StrLe;
    var sorted := SortBy(sources, SourceLe);
    SortByMembers(sources, SourceLe);
    forall u ensures u in group.1 <==> u in sources && KeyOf(u) == group.0 {
      FilterMember(sorted, HasKey(group.0), u);
    }
    SourcesSorted(sources);
    FilterSorted(sorted, HasKey(group.0));
    forall i, j | 0 <= i < j < |group.1| ensures StrLe(group.1[i].path, group.1[j].path) {
      assert group.1[i] in group.1 && group.1[j] in group.1;
      ByPath(group.1[i], group.1[j]);
    }
  }

  lemma ByPath(a: SourceUnit, b: SourceUnit)
    requires SourceLe(a, b) && a.component == b.component
    ensures StrLe(a.path, b.path)
  {
    StrLtTrichotomy(a.component, a.component);
  }

  lemma SourcesSorted(sources: seq<SourceUnit>)
    ensures Ordering.Sorted(SortBy(sources, SourceLe), SourceLe)
  {
    StrLeTotalOrder();
    hide StrLt;
    forall a, b ensures SourceLe(a, b) || SourceLe(b, a) {
      StrLtTrichotomy(a.component, b.component);
    }
    forall a, b, d | SourceLe(a, b) && SourceLe(b, d) ensures SourceLe(a, d) {
      if StrLt(a.component, b.component) && StrLt(b.component, d.component) {
        StrLtTransitive(a.component, b.component, d.component);
      }
    }
    SortBySorted(sources, SourceLe);
  }

  lemma {:induction false} FilterSorted(units: seq<SourceUnit>, p: SourceUnit -> bool)
    requires Ordering.Sorted(units, SourceLe)
    ensures Ordering.Sorted(Filter(units, p), SourceLe)
  {
    hide SourceLe;
    if units != [] {
      FilterSorted(units[1..], p);
      var rest := Filter(units[1..], p);
      forall j | 0 <= j < |rest| ensures SourceLe(units[0], rest[j]) {
        FilterMember(units[1..], p, rest[j]);
        var k :| 0 <= k < |units[1..]| && units[1..][k] == rest[j];
        assert SourceLe(units[0], units[k + 1]);
      }
    }
  }
}
