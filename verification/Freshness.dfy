/** Conservative planning: which source units to reuse, reanalyse or remove. */
module Freshness {
  import opened Prelude
  import opened Canonical
  import opened Ordering

  datatype InvalidationReason =
    | ContentChanged | ContextChanged | BackendChanged | AnalysisOptionsChanged

  datatype AnalysisInput = AnalysisInput(unit: SourceUnit, provenance: Provenance, publicApi: Option<string>)

  datatype IndexAction =
    | Reuse(unit: SourceUnit)
    | Reanalyze(unit: SourceUnit, reason: InvalidationReason)
    | RemoveUnit(id: string)

  /** An ordered map from identity to item; a later item replaces an earlier one. */
  function IndexBy<V>(items: seq<V>, id: V -> string): seq<(string, V)>
    decreases |items|
  {
    if items == [] then []
    else
      var last := items[|items| - 1];
      Put(IndexBy(items[..|items| - 1], id), StrLe, id(last), last)
  }

  /** The last item with an identity. */
  function Latest<V>(items: seq<V>, id: V -> string, k: string): Option<V>
    decreases |items|
  {
    if items == [] then None
    else if id(items[|items| - 1]) == k then Some(items[|items| - 1])
    else Latest(items[..|items| - 1], id, k)
  }

  lemma {:induction false} IndexByFacts<V>(items: seq<V>, id: V -> string, k: string)
    ensures Ascending(Keys(IndexBy(items, id)), StrLe)
    ensures Get(IndexBy(items, id), k) == Latest(items, id, k)
    decreases |items|
  {
    StrLeTotalOrder();
    if items != [] {
      var last, init := items[|items| - 1], items[..|items| - 1];
      IndexByFacts(init, id, k);
      PutAscending(IndexBy(init, id), StrLe, id(last), last);
      GetPut(IndexBy(init, id), StrLe, id(last), last, k);
    }
  }

  lemma {:induction false} LatestIs<V>(items: seq<V>, id: V -> string, k: string)
    ensures Latest(items, id, k).None? <==> forall v :: v in items ==> id(v) != k
    ensures Latest(items, id, k).Some? ==> Latest(items, id, k).value in items && id(Latest(items, id, k).value) == k
    decreases |items|
  {
    if items != [] {
      LatestIs(items[..|items| - 1], id, k);
      assert items == items[..|items| - 1] + [items[|items| - 1]];
    }
  }

  lemma {:induction false} LatestCons<V>(v: V, items: seq<V>, id: V -> string, k: string)
    ensures Latest([v] + items, id, k) == OrElse(Latest(items, id, k), if id(v) == k then Some(v) else None)
    decreases |items|
  {
    if items == [] {
      assert [v] + items == [v] && [v][..0] == [];
    } else {
      assert ([v] + items)[..|items|] == [v] + items[..|items| - 1];
      LatestCons(v, items[..|items| - 1], id, k);
    }
  }

  // Decisions.

  function Judge(unit: SourceUnit, reason: Option<InvalidationReason>): IndexAction {
    if reason.Some? then Reanalyze(unit, reason.value) else Reuse(unit)
  }

  function InputReason(unit: SourceUnit, previous: Option<SourceUnit>): Option<InvalidationReason> {
    if previous.None? then Some(ContentChanged)
    else if previous.value.context != unit.context then Some(ContextChanged)
    else if previous.value.content != unit.content then Some(ContentChanged)
    else None
  }

  function AnalysisReason(input: AnalysisInput, previous: Option<AnalysisInput>): Option<InvalidationReason> {
    if previous.None? then Some(ContentChanged)
    else
      var p := previous.value;
      if p.unit.context != input.unit.context then Some(ContextChanged)
      else if p.unit.content != input.unit.content then Some(ContentChanged)
      else if p.provenance.backend != input.provenance.backend
        || p.provenance.backendVersion != input.provenance.backendVersion
        || p.provenance.protocolVersion != input.provenance.protocolVersion then Some(BackendChanged)
      else if p.provenance.analysisOptions != input.provenance.analysisOptions then Some(AnalysisOptionsChanged)
      else None
  }

  /** Nothing to do exactly when the stored input is the current one: same content and context, same backend
      identity, same options. */
  lemma AnalysisReasonExact(input: AnalysisInput, previous: Option<AnalysisInput>)
    ensures AnalysisReason(input, previous).None? <==>
      && previous.Some?
      && previous.value.unit.content == input.unit.content && previous.value.unit.context == input.unit.context
      && previous.value.provenance == input.provenance
  {
  }

  /** One action for each current item, in order of identity, then a removal for each stored item no longer current. */
  function Actions<V>(current: seq<(string, V)>, stored: seq<(string, V)>,
                      decide: (V, Option<V>) -> IndexAction): seq<IndexAction> {
    Map(current, Judging(stored, decide)) + FilterMap(stored, Gone(current))
  }

  method PlanActions<V>(current: seq<(string, V)>, stored: seq<(string, V)>, decide: (V, Option<V>) -> IndexAction)
      returns (actions: seq<IndexAction>)
    ensures actions == Actions(current, stored, decide)
  {
    actions := [];
    ghost var judge := Judging(stored, decide);
    var i := 0;
    while i < |current|
      invariant 0 <= i <= |current|
      invariant actions + Map(current[i..], judge) == Map(current, judge)
    {
      assert current[i..][1..] == current[i + 1..];
      actions := actions + [decide(current[i].1, Get(stored, current[i].0))];
      i := i + 1;
    }
    assert actions == Map(current, judge);
    ghost var gone := Gone(current);
    i := 0;
    while i < |stored|
      invariant 0 <= i <= |stored|
      invariant actions + FilterMap(stored[i..], gone) == Map(current, judge) + FilterMap(stored, gone)
    {
      assert stored[i..][1..] == stored[i + 1..];
      if Get(current, stored[i].0).None? {
        actions := actions + [RemoveUnit(stored[i].0)];
      }
      i := i + 1;
    }
  }

  function UnitId(u: SourceUnit): string { u.id }

  function InputId(i: AnalysisInput): string { i.unit.id }

  function DecideUnit(u: SourceUnit, previous: Option<SourceUnit>): IndexAction {
    Judge(u, InputReason(u, previous))
  }

  function DecideInput(i: AnalysisInput, previous: Option<AnalysisInput>): IndexAction {
    Judge(i.unit, AnalysisReason(i, previous))
  }

  function InvalidationPlan(current: seq<SourceUnit>, persisted: seq<SourceUnit>): seq<IndexAction> {
    Actions(IndexBy(current, UnitId), IndexBy(persisted, UnitId), DecideUnit)
  }

  function AnalysisPlan(current: seq<AnalysisInput>, persisted: seq<AnalysisInput>): seq<IndexAction> {
    Actions(IndexBy(current, InputId), IndexBy(persisted, InputId), DecideInput)
  }

  // What a plan asks for.

  function ToReanalyze(actions: seq<IndexAction>): seq<SourceUnit> {
    FilterMap(actions, (a: IndexAction) => if a.Reanalyze? then Some(a.unit) else None)
  }

  function ToRemove(actions: seq<IndexAction>): seq<string> {
    FilterMap(actions, (a: IndexAction) => if a.RemoveUnit? then Some(a.id) else None)
  }

  lemma EntryIn<V>(m: seq<(string, V)>, le: (string, string) -> bool, k: string, v: V)
    requires Ascending(Keys(m), le)
    ensures Get(m, k) == Some(v) <==> (k, v) in m
  {
    if (k, v) in m {
      var i :| 0 <= i < |m| && m[i] == (k, v);
      KeyIn(m, i);
      var w := Get(m, k).value;
      var j :| 0 <= j < |m| && m[j] == (k, w);
      OneEntry(m, le, i, j);
    }
  }

  lemma KeyIn<V>(m: seq<(string, V)>, i: nat)
    requires i < |m|
    ensures m[i].0 in Keys(m)
  {
    assert Keys(m)[i] == m[i].0;
  }

  lemma OneEntry<V>(m: seq<(string, V)>, le: (string, string) -> bool, i: nat, j: nat)
    requires Ascending(Keys(m), le) && i < |m| && j < |m| && m[i].0 == m[j].0
    ensures i == j
  {
    assert Keys(m)[i] == Keys(m)[j];
  }

  /** A plan reanalyses a unit exactly when its item is current and judged so, and removes exactly the stored
      identities with no current item. */
  lemma PlanExact<V(!new)>(current: seq<V>, stored: seq<V>, id: V -> string, unit: V -> SourceUnit,
                     decide: (V, Option<V>) -> IndexAction, u: SourceUnit, k: string)
    requires forall v, p :: !decide(v, p).RemoveUnit? && decide(v, p).unit == unit(v)
    ensures var actions := Actions(IndexBy(current, id), IndexBy(stored, id), decide);
      && (u in ToReanalyze(actions) <==> exists v ::
            && v in current && Latest(current, id, id(v)) == Some(v) && unit(v) == u
            && decide(v, Latest(stored, id, id(v))).Reanalyze?)
      && (k in ToRemove(actions) <==> Latest(stored, id, k).Some? && Latest(current, id, k).None?)
  {
    AnalysisAsks(IndexBy(current, id), IndexBy(stored, id), decide);
    RemovalAsks(IndexBy(current, id), IndexBy(stored, id), decide);
    Reanalysed(current, stored, id, unit, decide, u);
    Dropped(current, stored, id, k);
  }

  function Judging<V>(stored: seq<(string, V)>, decide: (V, Option<V>) -> IndexAction): ((string, V)) -> IndexAction {
    (e: (string, V)) => decide(e.1, Get(stored, e.0))
  }

  function Gone<V>(current: seq<(string, V)>): ((string, V)) -> Option<IndexAction> {
    (e: (string, V)) => if Get(current, e.0).None? then Some(RemoveUnit(e.0)) else None
  }

  /** Only the judgements ask for analysis. */
  lemma AnalysisAsks<V(!new)>(cur: seq<(string, V)>, kept: seq<(string, V)>, decide: (V, Option<V>) -> IndexAction)
    ensures ToReanalyze(Actions(cur, kept, decide)) == ToReanalyze(Map(cur, Judging(kept, decide)))
  {
    var wants := (a: IndexAction) => if a.Reanalyze? then Some(a.unit) else None;
    FilterMapConcat(Map(cur, Judging(kept, decide)), FilterMap(kept, Gone(cur)), wants);
    RemovalsOnly(kept, Gone(cur), wants);
  }

  /** Only the leftovers ask for removal. */
  lemma RemovalAsks<V(!new)>(cur: seq<(string, V)>, kept: seq<(string, V)>, decide: (V, Option<V>) -> IndexAction)
    requires forall v, p :: !decide(v, p).RemoveUnit?
    ensures ToRemove(Actions(cur, kept, decide)) == ToRemove(FilterMap(kept, Gone(cur)))
  {
    var drops := (a: IndexAction) => if a.RemoveUnit? then Some(a.id) else None;
    FilterMapConcat(Map(cur, Judging(kept, decide)), FilterMap(kept, Gone(cur)), drops);
    forall e: (string, V) ensures !Judging(kept, decide)(e).RemoveUnit? {
      assert Judging(kept, decide)(e) == decide(e.1, Get(kept, e.0));
    }
    JudgedOnly(cur, Judging(kept, decide), drops);
  }

  lemma RemovalsOnly<V>(kept: seq<(string, V)>, gone: ((string, V)) -> Option<IndexAction>,
                        wants: IndexAction -> Option<SourceUnit>)
    requires forall e :: gone(e).Some? ==> gone(e).value.RemoveUnit?
    requires forall a: IndexAction :: a.RemoveUnit? ==> wants(a) == None
    ensures FilterMap(FilterMap(kept, gone), wants) == []
  {
    forall i | 0 <= i < |FilterMap(kept, gone)| ensures wants(FilterMap(kept, gone)[i]) == None {
      FilterMapMember(kept, gone, FilterMap(kept, gone)[i]);
    }
    FilterMapNothing(FilterMap(kept, gone), wants);
  }

  lemma JudgedOnly<V>(cur: seq<(string, V)>, judge: ((string, V)) -> IndexAction, drops: IndexAction -> Option<string>)
    requires forall e :: !judge(e).RemoveUnit?
    requires forall a: IndexAction :: !a.RemoveUnit? ==> drops(a) == None
    ensures FilterMap(Map(cur, judge), drops) == []
  {
    MapAt(cur, judge);
    FilterMapNothing(Map(cur, judge), drops);
  }

  lemma Reanalysed<V(!new)>(current: seq<V>, stored: seq<V>, id: V -> string, unit: V -> SourceUnit,
                      decide: (V, Option<V>) -> IndexAction, u: SourceUnit)
    requires forall v, p :: !decide(v, p).RemoveUnit? && decide(v, p).unit == unit(v)
    ensures u in ToReanalyze(Map(IndexBy(current, id), Judging(IndexBy(stored, id), decide))) <==> exists v ::
        && v in current && Latest(current, id, id(v)) == Some(v) && unit(v) == u
        && decide(v, Latest(stored, id, id(v))).Reanalyze?
  {
    var cur, kept := IndexBy(current, id), IndexBy(stored, id);
    var judge := Judging(kept, decide);
    var judged := Map(cur, judge);
    var wants := (a: IndexAction) => if a.Reanalyze? then Some(a.unit) else None;
    MapAt(cur, judge);
    FilterMapMember(judged, wants, u);
    if i :| 0 <= i < |judged| && wants(judged[i]) == Some(u) {
      var (k, v) := cur[i];
      assert (k, v) in cur;
      IndexByFacts(current, id, k);
      IndexByFacts(stored, id, k);
      EntryIn(cur, StrLe, k, v);
      LatestIs(current, id, k);
    }
    if v :|
      && v in current && Latest(current, id, id(v)) == Some(v) && unit(v) == u
      && decide(v, Latest(stored, id, id(v))).Reanalyze?
    {
      IndexByFacts(current, id, id(v));
      IndexByFacts(stored, id, id(v));
      EntryIn(cur, StrLe, id(v), v);
      var i :| 0 <= i < |cur| && cur[i] == (id(v), v);
      assert wants(judged[i]) == Some(u);
    }
  }

  lemma Dropped<V>(current: seq<V>, stored: seq<V>, id: V -> string, k: string)
    ensures k in ToRemove(FilterMap(IndexBy(stored, id), Gone(IndexBy(current, id)))) <==>
        Latest(stored, id, k).Some? && Latest(current, id, k).None?
  {
    var cur, kept := IndexBy(current, id), IndexBy(stored, id);
    var gone := Gone(cur);
    var dropped := FilterMap(kept, gone);
    var drops := (a: IndexAction) => if a.RemoveUnit? then Some(a.id) else None;
    FilterMapMember(dropped, drops, k);
    FilterMapMember(kept, gone, RemoveUnit(k));
    IndexByFacts(current, id, k);
    IndexByFacts(stored, id, k);
    if i :| 0 <= i < |dropped| && drops(dropped[i]) == Some(k) {
      assert dropped[i] == RemoveUnit(k);
      var j :| 0 <= j < |kept| && gone(kept[j]) == Some(RemoveUnit(k));
      assert Keys(kept)[j] == k;
    }
    if Get(kept, k).Some? && Get(cur, k).None? {
      var j :| 0 <= j < |kept| && kept[j] == (k, Get(kept, k).value);
      assert gone(kept[j]) == Some(RemoveUnit(k));
      var i :| 0 <= i < |dropped| && dropped[i] == RemoveUnit(k);
      assert drops(dropped[i]) == Some(k);
    }
  }

  ghost predicate DistinctUnits(units: seq<SourceUnit>) {
    forall i, j :: 0 <= i < j < |units| ==> units[i].id != units[j].id
  }

  lemma {:induction false} AskedIds<V(!new)>(cur: seq<(string, V)>, judge: ((string, V)) -> IndexAction, u: SourceUnit)
    requires forall e :: e in cur ==> !judge(e).RemoveUnit? && judge(e).unit.id == e.0
    ensures u in ToReanalyze(Map(cur, judge)) ==> u.id in Keys(cur)
  {
    if cur != [] {
      assert cur == [cur[0]] + cur[1..] && Keys(cur) == [cur[0].0] + Keys(cur[1..]);
      AskedIds(cur[1..], judge, u);
      assert Map(cur, judge) == [judge(cur[0])] + Map(cur[1..], judge);
    }
  }

  /** No unit is asked for twice. */
  lemma {:induction false} ReanalyzeDistinct<V(!new)>(cur: seq<(string, V)>, judge: ((string, V)) -> IndexAction)
    requires Ascending(Keys(cur), StrLe)
    requires forall e :: e in cur ==> !judge(e).RemoveUnit? && judge(e).unit.id == e.0
    ensures DistinctUnits(ToReanalyze(Map(cur, judge)))
  {
    if cur != [] {
      assert cur == [cur[0]] + cur[1..] && Keys(cur) == [cur[0].0] + Keys(cur[1..]);
      assert forall i :: 0 <= i < |cur| - 1 ==> Keys(cur[1..])[i] == Keys(cur)[i + 1];
      ReanalyzeDistinct(cur[1..], judge);
      var rest := ToReanalyze(Map(cur[1..], judge));
      forall j | 0 <= j < |rest| ensures rest[j].id != cur[0].0 {
        AskedIds(cur[1..], judge, rest[j]);
      }
      assert Map(cur, judge) == [judge(cur[0])] + Map(cur[1..], judge);
    }
  }

  // API dependents.

  /** The dependents to invalidate when a unit's public API fingerprint changed; body edits invalidate none. */
  function ApiDependentInvalidations(previous: Option<string>, now: Option<string>,
                                     dependents: seq<string>): seq<string> {
    if previous == now then [] else Dedup(SortBy(dependents, StrLe))
  }

  lemma ApiDependentsMember(previous: Option<string>, now: Option<string>, dependents: seq<string>, id: string)
    ensures id in ApiDependentInvalidations(previous, now, dependents) <==> previous != now && id in dependents
  {
    SortByMembers(dependents, StrLe);
  }

  lemma DistinctAsked<V(!new)>(current: seq<V>, stored: seq<V>, id: V -> string, unit: V -> SourceUnit,
                               decide: (V, Option<V>) -> IndexAction)
    requires forall v, p :: !decide(v, p).RemoveUnit? && decide(v, p).unit == unit(v)
    requires forall v :: unit(v).id == id(v)
    ensures DistinctUnits(ToReanalyze(Actions(IndexBy(current, id), IndexBy(stored, id), decide)))
  {
    var cur, kept := IndexBy(current, id), IndexBy(stored, id);
    AnalysisAsks(cur, kept, decide);
    IndexByFacts(current, id, "");
    forall e | e in cur ensures !Judging(kept, decide)(e).RemoveUnit? && Judging(kept, decide)(e).unit.id == e.0 {
      IndexByFacts(current, id, e.0);
      EntryIn(cur, StrLe, e.0, e.1);
      LatestIs(current, id, e.0);
      assert Judging(kept, decide)(e) == decide(e.1, Get(kept, e.0));
    }
    ReanalyzeDistinct(cur, Judging(kept, decide));
  }

  // The planners.

  /** What planning asks for, unit by unit and identity by identity: the current item of an identity when it is judged
      changed, and the removal of what is stored but not current. */
  ghost predicate PlansFor<V(!new)>(current: seq<V>, stored: seq<V>, id: V -> string, unit: V -> SourceUnit,
                                    changed: (V, Option<V>) -> bool, actions: seq<IndexAction>) {
    && (forall u: SourceUnit :: u in ToReanalyze(actions) <==>
         var v := Latest(current, id, u.id);
         v.Some? && unit(v.value) == u && changed(v.value, Latest(stored, id, u.id)))
    && (forall k: string :: k in ToRemove(actions) <==> Latest(stored, id, k).Some? && Latest(current, id, k).None?)
    && DistinctUnits(ToReanalyze(actions))
  }

  lemma ActionsPlan<V(!new)>(current: seq<V>, stored: seq<V>, id: V -> string, unit: V -> SourceUnit,
                             decide: (V, Option<V>) -> IndexAction, changed: (V, Option<V>) -> bool)
    requires forall v, p :: !decide(v, p).RemoveUnit? && decide(v, p).unit == unit(v)
    requires forall v, p :: decide(v, p).Reanalyze? <==> changed(v, p)
    requires forall v :: unit(v).id == id(v)
    ensures PlansFor(current, stored, id, unit, changed, Actions(IndexBy(current, id), IndexBy(stored, id), decide))
  {
    hide ToReanalyze, ToRemove, Latest, Actions, IndexBy, DistinctUnits;
    var actions := Actions(IndexBy(current, id), IndexBy(stored, id), decide);
    DistinctAsked(current, stored, id, unit, decide);
    forall u: SourceUnit
      ensures u in ToReanalyze(actions) <==>
        var v := Latest(current, id, u.id);
        v.Some? && unit(v.value) == u && changed(v.value, Latest(stored, id, u.id))
    {
      PlanExact(current, stored, id, unit, decide, u, "");
      LatestIs(current, id, u.id);
    }
    var nobody := SourceUnit("", "", "", Kotlin, SourceCode, "", "");
    forall k ensures k in ToRemove(actions) <==> Latest(stored, id, k).Some? && Latest(current, id, k).None? {
      PlanExact(current, stored, id, unit, decide, nobody, k);
    }
  }

  function TheUnit(u: SourceUnit): SourceUnit {
    u
  }

  function UnitOf(i: AnalysisInput): SourceUnit {
    i.unit
  }

  /** Another content or context, or nothing stored. */
  predicate UnitChanged(u: SourceUnit, previous: Option<SourceUnit>) {
    previous.None? || previous.value.content != u.content || previous.value.context != u.context
  }

  /** Another content, context or provenance, or nothing stored. */
  predicate InputChanged(i: AnalysisInput, previous: Option<AnalysisInput>) {
    previous.None? || UnitChanged(i.unit, Some(previous.value.unit)) || previous.value.provenance != i.provenance
  }

  method PlanInvalidation(current: seq<SourceUnit>, persisted: seq<SourceUnit>) returns (actions: seq<IndexAction>)
    ensures actions == InvalidationPlan(current, persisted)
    ensures PlansFor(current, persisted, UnitId, TheUnit, UnitChanged, actions)
  {
    hide PlansFor, Actions, IndexBy;
    actions := PlanActions(IndexBy(current, UnitId), IndexBy(persisted, UnitId), DecideUnit);
    ActionsPlan(current, persisted, UnitId, TheUnit, DecideUnit, UnitChanged);
  }

  method PlanAnalysisInvalidation(current: seq<AnalysisInput>, persisted: seq<AnalysisInput>)
      returns (actions: seq<IndexAction>)
    ensures actions == AnalysisPlan(current, persisted)
    ensures PlansFor(current, persisted, InputId, UnitOf, InputChanged, actions)
  {
    hide PlansFor, Actions, IndexBy;
    actions := PlanActions(IndexBy(current, InputId), IndexBy(persisted, InputId), DecideInput);
    ActionsPlan(current, persisted, InputId, UnitOf, DecideInput, InputChanged);
  }
}
