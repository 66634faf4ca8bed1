/** Which worker analyses which sources: one batch holds one component's files of one language, and is served by the
    first compatible worker by name. */
module WorkerRegistry {
  import opened Prelude
  import opened Ordering
  import opened Canonical

  datatype BuildSystem = Gradle | Maven | Cargo | Npm | Bazel | Filesystem | OtherBuildSystem(name: string)

  datatype Worker = Worker(
    name: string, launch: string, buildSystems: seq<BuildSystem>, languages: seq<Language>, capabilities: seq<string>)

  datatype Component = Component(id: string, buildSystem: BuildSystem)

  datatype WorkerBatch = WorkerBatch(
    worker: Worker, component: string, language: Language, sourceUnits: seq<SourceUnit>)

  datatype UnsupportedBatch = UnsupportedBatch(
    component: string, language: Language, buildSystem: BuildSystem, sourceUnits: seq<SourceUnit>)

  datatype Selection = Selection(batches: seq<WorkerBatch>, unsupported: seq<UnsupportedBatch>)

  // Keys.

  function LanguageKey(l: Language): string {
    match l
    case Kotlin => "kotlin"
    case Java => "java"
    case Rust => "rust"
    case TypeScript => "typescript"
    case OtherLanguage(name) => "other:" + name
  }

  lemma LanguageKeyInjective(a: Language, b: Language)
    requires LanguageKey(a) == LanguageKey(b)
    ensures a == b
  {
    if a.OtherLanguage? && b.OtherLanguage? {
      assert LanguageKey(a)[6..] == a.name && LanguageKey(b)[6..] == b.name;
    } else if a.OtherLanguage? {
      KeyPrefix(a, b);
    } else if b.OtherLanguage? {
      KeyPrefix(b, a);
    }
  }

  lemma KeyPrefix(other: Language, known: Language)
    requires other.OtherLanguage? && !known.OtherLanguage?
    ensures LanguageKey(other) != LanguageKey(known)
  {
    assert LanguageKey(other)[0] == 'o';
    assert LanguageKey(known)[0] != 'o';
  }

  type GroupKey = (string, string)

  function KeyOf(u: SourceUnit): GroupKey {
    (u.component, LanguageKey(u.language))
  }

  predicate KeyLe(a: GroupKey, b: GroupKey) {
    StrLt(a.0, b.0) || (a.0 == b.0 && StrLe(a.1, b.1))
  }

  lemma KeyLeTotalOrder()
    ensures TotalOrder(KeyLe)
  {
    StrLeTotalOrder();
    forall x: GroupKey, y: GroupKey ensures KeyLe(x, y) || KeyLe(y, x) {
      StrLtTrichotomy(x.0, y.0);
      StrLtTrichotomy(x.1, y.1);
    }
    forall x: GroupKey, y: GroupKey | KeyLe(x, y) && KeyLe(y, x) ensures x == y {
      StrLtTrichotomy(x.0, y.0);
      StrLtTrichotomy(x.1, y.1);
    }
    forall x: GroupKey, y: GroupKey, z: GroupKey | KeyLe(x, y) && KeyLe(y, z) ensures KeyLe(x, z) {
      if StrLt(x.0, y.0) && StrLt(y.0, z.0) {
        StrLtTransitive(x.0, y.0, z.0);
      }
    }
  }

  predicate SourceLe(a: SourceUnit, b: SourceUnit) {
    StrLt(a.component, b.component) || (a.component == b.component && StrLe(a.path, b.path))
  }

  predicate WorkerLe(a: Worker, b: Worker) {
    StrLe(a.name, b.name)
  }

  // Grouping.

  type Groups = seq<(GroupKey, seq<SourceUnit>)>

  function Members(groups: Groups, key: GroupKey): seq<SourceUnit> {
    match Get(groups, key)
    case None => []
    case Some(units) => units
  }

  function Join(groups: Groups, u: SourceUnit): Groups {
    Put(groups, KeyLe, KeyOf(u), Members(groups, KeyOf(u)) + [u])
  }

  function Grouped(groups: Groups, sources: seq<SourceUnit>): Groups
    decreases |sources|
  {
    if sources == [] then groups else Grouped(Join(groups, sources[0]), sources[1..])
  }

  // Selection.

  function BuildSystemOf(components: seq<Component>, id: string): BuildSystem {
    if components == [] then Filesystem
    else if components[|components| - 1].id == id then components[|components| - 1].buildSystem
    else BuildSystemOf(components[..|components| - 1], id)
  }

  predicate Compatible(w: Worker, build: BuildSystem, language: Language, required: seq<string>) {
    && build in w.buildSystems && language in w.languages
    && (forall i :: 0 <= i < |required| ==> required[i] in w.capabilities)
  }

  function FirstCompatible(workers: seq<Worker>, build: BuildSystem, language: Language, required: seq<string>)
    : Option<Worker>
  {
    if workers == [] then None
    else if Compatible(workers[0], build, language, required) then Some(workers[0])
    else FirstCompatible(workers[1..], build, language, required)
  }

  function ChunkBatches(w: Worker, component: string, language: Language, units: seq<SourceUnit>, limit: nat)
    : seq<WorkerBatch>
    requires limit > 0
  {
    if units == [] then []
    else
      var size := if |units| <= limit then |units| else limit;
      [WorkerBatch(w, component, language, units[..size])] + ChunkBatches(w, component, language, units[size..], limit)
  }

  datatype Setting = Setting(components: seq<Component>, workers: seq<Worker>, required: seq<string>, limit: nat)

  /** Adds one group's batches, or reports the group. */
  function SelectGroup(selection: Selection, units: seq<SourceUnit>, s: Setting): Selection
    requires s.limit > 0
  {
    if units == [] then selection
    else
      var component, language := units[0].component, units[0].language;
      var build := BuildSystemOf(s.components, component);
      match FirstCompatible(s.workers, build, language, s.required)
      case Some(w) =>
        selection.(batches := selection.batches + ChunkBatches(w, component, language, units, s.limit))
      case None =>
        selection.(unsupported := selection.unsupported + [UnsupportedBatch(component, language, build, units)])
  }

  function SelectGroups(selection: Selection, groups: Groups, s: Setting): Selection
    requires s.limit > 0
    decreases |groups|
  {
    if groups == [] then selection else SelectGroups(SelectGroup(selection, groups[0].1, s), groups[1..], s)
  }

  function Selected(sources: seq<SourceUnit>, s: Setting): Selection
    requires s.limit > 0
  {
    SelectGroups(Selection([], []), Grouped([], SortBy(sources, SourceLe)), s.(workers := SortBy(s.workers, WorkerLe)))
  }

  method SelectDiscovered(components: seq<Component>, sources: seq<SourceUnit>, required: seq<string>,
                          workers: seq<Worker>, limit: nat) returns (selection: Selection)
    requires limit > 0
    ensures selection == Selected(sources, Setting(components, workers, required, limit))
  {
    var sorted := SortBy(sources, SourceLe);
    var setting := Setting(components, SortBy(workers, WorkerLe), required, limit);
    var groups: Groups := [];
    for i := 0 to |sorted|
      invariant Grouped(groups, sorted[i..]) == Grouped([], sorted)
    {
      assert sorted[i..][1..] == sorted[i + 1..];
      groups := Put(groups, KeyLe, KeyOf(sorted[i]), Members(groups, KeyOf(sorted[i])) + [sorted[i]]);
    }
    selection := Selection([], []);
    for i := 0 to |groups|
      invariant SelectGroups(selection, groups[i..], setting) == SelectGroups(Selection([], []), groups, setting)
    {
      assert groups[i..][1..] == groups[i + 1..];
      selection := SelectGroup(selection, groups[i].1, setting);
    }
  }

  // What grouping keeps.

  function HasKey(key: GroupKey): SourceUnit -> bool {
    (u: SourceUnit) => KeyOf(u) == key
  }

  lemma JoinMembers(groups: Groups, u: SourceUnit, key: GroupKey)
    requires Ascending(Keys(groups), KeyLe)
    ensures Ascending(Keys(Join(groups, u)), KeyLe)
    ensures Members(Join(groups, u), key) == Members(groups, key) + if KeyOf(u) == key then [u] else []
  {
    hide Ascending, Keys, KeyLe, Get;
    KeyLeTotalOrder();
    var units := Members(groups, KeyOf(u)) + [u];
    PutAscending(groups, KeyLe, KeyOf(u), units);
    GetPut(groups, KeyLe, KeyOf(u), units, key);
  }

  lemma FilterFirst(sources: seq<SourceUnit>, key: GroupKey)
    requires sources != []
    ensures Filter(sources, HasKey(key)) ==
      (if KeyOf(sources[0]) == key then [sources[0]] else []) + Filter(sources[1..], HasKey(key))
  {
    hide KeyOf;
  }

  /** A group is the sources of its key, in their sorted order. */
  lemma {:induction false} GroupedMembers(groups: Groups, sources: seq<SourceUnit>, key: GroupKey)
    requires Ascending(Keys(groups), KeyLe)
    ensures Ascending(Keys(Grouped(groups, sources)), KeyLe)
    ensures Members(Grouped(groups, sources), key) == Members(groups, key) + Filter(sources, HasKey(key))
    decreases |sources|
  {
    hide Ascending, Keys, KeyLe, Members, Join;
    if sources == [] {
      assert Members(groups, key) + [] == Members(groups, key);
    } else {
      JoinMembers(groups, sources[0], key);
      FilterFirst(sources, key);
      hide Filter, HasKey;
      GroupedMembers(Join(groups, sources[0]), sources[1..], key);
    }
  }

  lemma TailAscending(groups: Groups)
    requires groups != [] && Ascending(Keys(groups), KeyLe)
    ensures Ascending(Keys(groups[1..]), KeyLe)
  {
    hide KeyLe;
    assert forall j :: 0 <= j < |groups| - 1 ==> Keys(groups[1..])[j] == Keys(groups)[j + 1];
  }

  lemma HeadNotLater(groups: Groups, i: nat)
    requires 0 < i < |groups| && Ascending(Keys(groups), KeyLe)
    ensures groups[i].0 != groups[0].0
  {
    hide KeyLe;
    assert Keys(groups)[0] != Keys(groups)[i];
  }

  lemma {:induction false} GetAt(groups: Groups, i: nat)
    requires i < |groups| && Ascending(Keys(groups), KeyLe)
    ensures Get(groups, groups[i].0) == Some(groups[i].1)
  {
    hide KeyLe, Ascending, Keys;
    TailAscending(groups);
    if i > 0 {
      HeadNotLater(groups, i);
      GetAt(groups[1..], i - 1);
    }
  }

  predicate Filled(groups: Groups) {
    forall i :: 0 <= i < |groups| ==> groups[i].1 != []
  }

  lemma {:induction false} PutFilled(groups: Groups, key: GroupKey, units: seq<SourceUnit>)
    requires Filled(groups) && units != []
    ensures Filled(Put(groups, KeyLe, key, units))
  {
    hide KeyLe;
    if groups != [] {
      PutFilled(groups[1..], key, units);
    }
  }

  lemma {:induction false} GroupedFilled(groups: Groups, sources: seq<SourceUnit>)
    requires Filled(groups)
    ensures Filled(Grouped(groups, sources))
    decreases |sources|
  {
    hide Filled;
    if sources != [] {
      PutFilled(groups, KeyOf(sources[0]), Members(groups, KeyOf(sources[0])) + [sources[0]]);
      GroupedFilled(Join(groups, sources[0]), sources[1..]);
    }
  }

  function UnitsOf(group: (GroupKey, seq<SourceUnit>)): seq<SourceUnit> {
    group.1
  }

  function Flat(groups: Groups): seq<SourceUnit> {
    FlatMap(groups, UnitsOf)
  }

  lemma FlatCons(group: (GroupKey, seq<SourceUnit>), rest: Groups)
    ensures multiset(Flat([group] + rest)) == multiset(group.1) + multiset(Flat(rest))
  {
    assert ([group] + rest)[1..] == rest;
  }

  lemma MembersCons(group: (GroupKey, seq<SourceUnit>), rest: Groups, key: GroupKey)
    ensures Members([group] + rest, key) == if group.0 == key then group.1 else Members(rest, key)
  {
    assert ([group] + rest)[1..] == rest;
  }

  lemma {:induction false} PutFlat(groups: Groups, key: GroupKey, units: seq<SourceUnit>)
    requires Ascending(Keys(groups), KeyLe)
    ensures multiset(Flat(Put(groups, KeyLe, key, units))) + multiset(Members(groups, key))
         == multiset(Flat(groups)) + multiset(units)
  {
    hide Ascending, Keys, KeyLe, Flat, Members;
    if groups == [] {
      FlatCons((key, units), []);
      assert [(key, units)] + [] == [(key, units)] && Members([], key) == [] && Flat([]) == [] by { EmptyGroups(key); }
    } else {
      var rest := groups[1..];
      assert groups == [groups[0]] + rest;
      FlatCons(groups[0], rest);
      MembersCons(groups[0], rest, key);
      if groups[0].0 == key {
        FlatCons((key, units), rest);
      } else if KeyLe(key, groups[0].0) {
        FlatCons((key, units), groups);
        KeyBefore(groups, key);
      } else {
        FlatCons(groups[0], Put(rest, KeyLe, key, units));
        TailAscending(groups);
        PutFlat(rest, key, units);
        Carry(multiset(groups[0].1), multiset(Flat(Put(rest, KeyLe, key, units))), multiset(Members(rest, key)),
              multiset(Flat(rest)), multiset(units));
      }
    }
  }

  lemma Carry(g: multiset<SourceUnit>, p: multiset<SourceUnit>, m: multiset<SourceUnit>, f: multiset<SourceUnit>,
              u: multiset<SourceUnit>)
    requires p + m == f + u
    ensures (g + p) + m == (g + f) + u
  {
    forall x: SourceUnit ensures ((g + p) + m)[x] == ((g + f) + u)[x] {
      assert (p + m)[x] == (f + u)[x];
    }
  }

  lemma EmptyGroups(key: GroupKey)
    ensures Members([], key) == [] && Flat([]) == []
  {
  }

  lemma KeyBefore(groups: Groups, key: GroupKey)
    requires groups != [] && Ascending(Keys(groups), KeyLe) && KeyLe(key, groups[0].0) && key != groups[0].0
    ensures Members(groups, key) == []
  {
    KeyLeTotalOrder();
    hide KeyLe;
    forall j | 0 <= j < |groups| ensures Keys(groups)[j] != key {
      if j > 0 {
        assert KeyLe(Keys(groups)[0], Keys(groups)[j]);
      }
    }
  }

  lemma JoinFlat(groups: Groups, u: SourceUnit)
    requires Ascending(Keys(groups), KeyLe)
    ensures multiset(Flat(Join(groups, u))) == multiset(Flat(groups)) + multiset{u}
  {
    hide Ascending, Keys, KeyLe, Members, Flat;
    var units := Members(groups, KeyOf(u));
    PutFlat(groups, KeyOf(u), units + [u]);
    assert multiset(units + [u]) == multiset(units) + multiset{u};
    Cancel(multiset(Flat(Join(groups, u))), multiset(Flat(groups)) + multiset{u}, multiset(units));
  }

  lemma Cancel(a: multiset<SourceUnit>, b: multiset<SourceUnit>, c: multiset<SourceUnit>)
    requires a + c == b + c
    ensures a == b
  {
    forall x: SourceUnit ensures a[x] == b[x] {
      assert (a + c)[x] == (b + c)[x];
    }
  }

  lemma {:induction false} GroupedFlat(groups: Groups, sources: seq<SourceUnit>)
    requires Ascending(Keys(groups), KeyLe)
    ensures multiset(Flat(Grouped(groups, sources))) == multiset(Flat(groups)) + multiset(sources)
    decreases |sources|
  {
    hide Ascending, Keys, KeyLe, Members, Flat, Join;
    if sources == [] {
      assert multiset(sources) == multiset{};
    } else {
      var u := sources[0];
      JoinMembers(groups, u, KeyOf(u));
      JoinFlat(groups, u);
      GroupedFlat(Join(groups, u), sources[1..]);
      assert sources == [u] + sources[1..];
    }
  }

  // What selection keeps.

  function BatchUnits(b: WorkerBatch): seq<SourceUnit> {
    b.sourceUnits
  }

  function UnsupportedUnits(b: UnsupportedBatch): seq<SourceUnit> {
    b.sourceUnits
  }

  /** Every source a selection holds, as often as it holds it. */
  function AllUnits(selection: Selection): multiset<SourceUnit> {
    multiset(FlatMap(selection.batches, BatchUnits)) + multiset(FlatMap(selection.unsupported, UnsupportedUnits))
  }

  lemma {:induction false} ChunksFlat(w: Worker, component: string, language: Language, units: seq<SourceUnit>,
                                      limit: nat)
    requires limit > 0
    ensures FlatMap(ChunkBatches(w, component, language, units, limit), BatchUnits) == units
    decreases |units|
  {
    if units != [] {
      var size := if |units| <= limit then |units| else limit;
      ChunksFlat(w, component, language, units[size..], limit);
      assert units == units[..size] + units[size..];
    }
  }

  lemma SelectGroupUnits(selection: Selection, units: seq<SourceUnit>, s: Setting)
    requires s.limit > 0
    ensures AllUnits(SelectGroup(selection, units, s)) == AllUnits(selection) + multiset(units)
  {
    if units != [] {
      var component, language := units[0].component, units[0].language;
      var build := BuildSystemOf(s.components, component);
      var found := FirstCompatible(s.workers, build, language, s.required);
      if found.Some? {
        FlatMapConcat(selection.batches, ChunkBatches(found.value, component, language, units, s.limit), BatchUnits);
        ChunksFlat(found.value, component, language, units, s.limit);
      } else {
        FlatMapSnoc(selection.unsupported, UnsupportedBatch(component, language, build, units), UnsupportedUnits);
      }
    }
  }

  lemma {:induction false} SelectGroupsUnits(selection: Selection, groups: Groups, s: Setting)
    requires s.limit > 0
    ensures AllUnits(SelectGroups(selection, groups, s)) == AllUnits(selection) + multiset(Flat(groups))
    decreases |groups|
  {
    hide SelectGroup, AllUnits;
    if groups != [] {
      SelectGroupUnits(selection, groups[0].1, s);
      SelectGroupsUnits(SelectGroup(selection, groups[0].1, s), groups[1..], s);
    }
  }

  /** Batches and unsupported groups together hold each source exactly as often as it was given. */
  lemma SelectionConserves(sources: seq<SourceUnit>, s: Setting)
    requires s.limit > 0
    ensures AllUnits(Selected(sources, s)) == multiset(sources)
  {
    hide SelectGroups, Grouped, SourceLe, WorkerLe;
    var sorted := SortBy(sources, SourceLe);
    GroupedFlat([], sorted);
    SelectGroupsUnits(Selection([], []), Grouped([], sorted), s.(workers := SortBy(s.workers, WorkerLe)));
  }

  /** No compatible worker has a lesser name. */
  ghost predicate LeastNamed(w: Worker, workers: seq<Worker>, build: BuildSystem, language: Language,
                             required: seq<string>) {
    && w in workers && Compatible(w, build, language, required)
    && forall x :: x in workers && Compatible(x, build, language, required) ==> StrLe(w.name, x.name)
  }

  ghost predicate BatchOk(b: WorkerBatch, s: Setting) {
    && 0 < |b.sourceUnits| <= s.limit
    && (forall u :: u in b.sourceUnits ==> u.component == b.component && u.language == b.language)
    && LeastNamed(b.worker, s.workers, BuildSystemOf(s.components, b.component), b.language, s.required)
  }

  ghost predicate UnsupportedOk(b: UnsupportedBatch, s: Setting) {
    && b.sourceUnits != [] && b.buildSystem == BuildSystemOf(s.components, b.component)
    && (forall u :: u in b.sourceUnits ==> u.component == b.component && u.language == b.language)
    && (forall w :: w in s.workers ==> !Compatible(w, b.buildSystem, b.language, s.required))
  }

  ghost predicate SelectionOk(selection: Selection, s: Setting) {
    && (forall b :: b in selection.batches ==> BatchOk(b, s))
    && (forall b :: b in selection.unsupported ==> UnsupportedOk(b, s))
  }

  lemma {:induction false} FirstCompatibleIs(workers: seq<Worker>, build: BuildSystem, language: Language,
                                             required: seq<string>)
    requires Ordering.Sorted(workers, WorkerLe)
    ensures var found := FirstCompatible(workers, build, language, required);
      if found.Some? then LeastNamed(found.value, workers, build, language, required)
      else forall w :: w in workers ==> !Compatible(w, build, language, required)
  {
    hide Compatible, WorkerLe, StrLe;
    if workers != [] {
      FirstCompatibleIs(workers[1..], build, language, required);
      assert workers == [workers[0]] + workers[1..];
      HeadLeast(workers);
    }
  }

  lemma HeadLeast(workers: seq<Worker>)
    requires workers != [] && Ordering.Sorted(workers, WorkerLe)
    ensures forall x :: x in workers ==> StrLe(workers[0].name, x.name)
  {
    hide StrLe;
    forall x | x in workers ensures StrLe(workers[0].name, x.name) {
      var j :| 0 <= j < |workers| && workers[j] == x;
      if j > 0 {
        assert WorkerLe(workers[0], workers[j]);
      } else {
        SameName(x.name);
      }
    }
  }

  lemma SameName(name: string)
    ensures StrLe(name, name)
  {
  }

  lemma {:induction false} ChunksOk(w: Worker, component: string, language: Language, units: seq<SourceUnit>,
                                    s: Setting)
    requires s.limit > 0
    requires forall u :: u in units ==> u.component == component && u.language == language
    requires LeastNamed(w, s.workers, BuildSystemOf(s.components, component), language, s.required)
    ensures forall b :: b in ChunkBatches(w, component, language, units, s.limit) ==> BatchOk(b, s)
    decreases |units|
  {
    hide LeastNamed;
    if units != [] {
      var size := if |units| <= s.limit then |units| else s.limit;
      ChunksOk(w, component, language, units[size..], s);
    }
  }

  predicate Uniform(units: seq<SourceUnit>) {
    forall u :: u in units ==> KeyOf(u) == KeyOf(units[0])
  }

  lemma SelectGroupOk(selection: Selection, units: seq<SourceUnit>, s: Setting)
    requires s.limit > 0 && SelectionOk(selection, s) && Uniform(units) && Ordering.Sorted(s.workers, WorkerLe)
    ensures SelectionOk(SelectGroup(selection, units, s), s)
  {
    hide LeastNamed, Compatible;
    if units != [] {
      var component, language := units[0].component, units[0].language;
      forall u | u in units ensures u.component == component && u.language == language {
        LanguageKeyInjective(u.language, language);
      }
      var build := BuildSystemOf(s.components, component);
      FirstCompatibleIs(s.workers, build, language, s.required);
      var found := FirstCompatible(s.workers, build, language, s.required);
      if found.Some? {
        ChunksOk(found.value, component, language, units, s);
      }
    }
  }

  lemma {:induction false} SelectGroupsOk(selection: Selection, groups: Groups, s: Setting)
    requires s.limit > 0 && SelectionOk(selection, s) && Ordering.Sorted(s.workers, WorkerLe)
    requires forall i :: 0 <= i < |groups| ==> Uniform(groups[i].1)
    ensures SelectionOk(SelectGroups(selection, groups, s), s)
    decreases |groups|
  {
    hide SelectGroup, SelectionOk, Uniform;
    if groups != [] {
      SelectGroupOk(selection, groups[0].1, s);
      SelectGroupsOk(SelectGroup(selection, groups[0].1, s), groups[1..], s);
    }
  }

  lemma GroupUniform(sources: seq<SourceUnit>, i: nat)
    requires i < |Grouped([], sources)|
    ensures Uniform(Grouped([], sources)[i].1)
  {
    var groups := Grouped([], sources);
    var key, units := groups[i].0, groups[i].1;
    GroupedMembers([], sources, key);
    GetAt(groups, i);
    assert units == Filter(sources, HasKey(key));
    forall u | u in units ensures KeyOf(u) == key {
      FilterMember(sources, HasKey(key), u);
    }
  }

  lemma WorkersSorted(workers: seq<Worker>)
    ensures Ordering.Sorted(SortBy(workers, WorkerLe), WorkerLe)
  {
    StrLeTotalOrder();
    SortBySorted(workers, WorkerLe);
  }

  /** Every batch is non-empty, within the limit, of one component and one language, and served by the least-named
      compatible worker; an unsupported group has no compatible worker at all. */
  lemma SelectionIsOk(sources: seq<SourceUnit>, s: Setting)
    requires s.limit > 0
    ensures SelectionOk(Selected(sources, s), s)
  {
    hide SelectGroups, Uniform, SourceLe, WorkerLe, BatchOk, UnsupportedOk, Grouped;
    var sorted := SortBy(sources, SourceLe);
    var setting := s.(workers := SortBy(s.workers, WorkerLe));
    WorkersSorted(s.workers);
    forall i | 0 <= i < |Grouped([], sorted)| ensures Uniform(Grouped([], sorted)[i].1) {
      GroupUniform(sorted, i);
    }
    SelectGroupsOk(Selection([], []), Grouped([], sorted), setting);
    OkUnsorted(Selected(sources, s), s);
  }

  /** The order the workers are tried in does not show in what is promised. */
  lemma OkUnsorted(selection: Selection, s: Setting)
    requires SelectionOk(selection, s.(workers := SortBy(s.workers, WorkerLe)))
    ensures SelectionOk(selection, s)
  {
    hide BatchOk, UnsupportedOk;
    forall b | b in selection.batches ensures BatchOk(b, s) {
      BatchUnsorted(b, s);
    }
    forall b | b in selection.unsupported ensures UnsupportedOk(b, s) {
      UnsupportedUnsorted(b, s);
    }
  }

  lemma BatchUnsorted(b: WorkerBatch, s: Setting)
    requires BatchOk(b, s.(workers := SortBy(s.workers, WorkerLe)))
    ensures BatchOk(b, s)
  {
    hide Compatible, StrLe, WorkerLe;
    SortByMembers(s.workers, WorkerLe);
  }

  lemma UnsupportedUnsorted(b: UnsupportedBatch, s: Setting)
    requires UnsupportedOk(b, s.(workers := SortBy(s.workers, WorkerLe)))
    ensures UnsupportedOk(b, s)
  {
    hide Compatible, WorkerLe;
    SortByMembers(s.workers, WorkerLe);
  }
}
