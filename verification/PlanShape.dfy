/** What a plan says action by action: for which reason a unit is analysed again, which units are reused, and in what
    order. */
module PlanShape {
  import opened Prelude
  import opened Canonical
  import opened Ordering
  import opened Freshness

  // Which of several items counts.

  /** The last item of an identity is the one with none of that identity after it. */
  lemma {:induction false} LatestIsLast<V(!new)>(items: seq<V>, id: V -> string, k: string, v: V)
    ensures Latest(items, id, k) == Some(v) <==> exists i :: LastOf(items, id, k, v, i)
    decreases |items|
  {
    hide LastOf;
    if items != [] {
      var init := items[..|items| - 1];
      LatestIsLast(init, id, k, v);
      forall i: nat
        ensures LastOf(items, id, k, v, i) <==>
          if id(items[|items| - 1]) == k then i == |items| - 1 && v == items[i] else LastOf(init, id, k, v, i)
      {
        LastOfSnoc(items, id, k, v, i);
      }
      if id(items[|items| - 1]) == k && v == items[|items| - 1] {
        assert LastOf(items, id, k, v, |items| - 1);
      }
    } else {
      NoneLast(items, id, k, v);
    }
  }

  predicate LastOf<V(==)>(items: seq<V>, id: V -> string, k: string, v: V, i: nat) {
    i < |items| && items[i] == v && id(v) == k && forall j :: i < j < |items| ==> id(items[j]) != k
  }

  lemma NoneLast<V>(items: seq<V>, id: V -> string, k: string, v: V)
    requires items == []
    ensures forall i: nat :: !LastOf(items, id, k, v, i)
  {
  }

  lemma LastOfSnoc<V>(items: seq<V>, id: V -> string, k: string, v: V, i: nat)
    requires items != []
    ensures LastOf(items, id, k, v, i) <==>
      if id(items[|items| - 1]) == k then i == |items| - 1 && v == items[i]
      else LastOf(items[..|items| - 1], id, k, v, i)
  {
    var init := items[..|items| - 1];
    assert forall j :: 0 <= j < |init| ==> init[j] == items[j];
  }

  // Reasons.

  /** Why a source unit is analysed again: its context changed, or else its content, which it has when nothing is
      stored. */
  predicate UnitReason(u: SourceUnit, stored: Option<SourceUnit>, reason: InvalidationReason) {
    match stored
    case None => reason == ContentChanged
    case Some(s) =>
      || (s.context != u.context && reason == ContextChanged)
      || (s.context == u.context && s.content != u.content && reason == ContentChanged)
  }

  /** With a provenance, two more: the backend, its version or its protocol changed, or else the options of the
      analysis. */
  predicate AnalysisReasonIs(i: AnalysisInput, stored: Option<AnalysisInput>, reason: InvalidationReason) {
    if stored.None? then reason == ContentChanged
    else
      var s := stored.value;
      if s.unit.context != i.unit.context || s.unit.content != i.unit.content
      then UnitReason(i.unit, Some(s.unit), reason)
      else
        var same := s.provenance.(analysisOptions := i.provenance.analysisOptions) == i.provenance;
        || (!same && reason == BackendChanged)
        || (same && s.provenance != i.provenance && reason == AnalysisOptionsChanged)
  }

  lemma DecidedExactly(u: SourceUnit, stored: Option<SourceUnit>, reason: InvalidationReason)
    ensures DecideUnit(u, stored) == Reanalyze(u, reason) <==> UnitReason(u, stored, reason)
    ensures DecideUnit(u, stored) == Reuse(u) <==> forall r :: !UnitReason(u, stored, r)
  {
    if DecideUnit(u, stored).Reanalyze? {
      assert UnitReason(u, stored, DecideUnit(u, stored).reason);
    }
  }

  lemma InputDecidedExactly(i: AnalysisInput, stored: Option<AnalysisInput>, reason: InvalidationReason)
    ensures DecideInput(i, stored) == Reanalyze(i.unit, reason) <==> AnalysisReasonIs(i, stored, reason)
    ensures DecideInput(i, stored) == Reuse(i.unit) <==> forall r :: !AnalysisReasonIs(i, stored, r)
  {
    if DecideInput(i, stored).Reanalyze? {
      assert AnalysisReasonIs(i, stored, DecideInput(i, stored).reason);
    }
  }

  // Whole plans.

  lemma {:induction false} ActionsMember<V(!new)>(current: seq<V>, stored: seq<V>, id: V -> string,
                                                  decide: (V, Option<V>) -> IndexAction, a: IndexAction)
    ensures a in Actions(IndexBy(current, id), IndexBy(stored, id), decide) <==>
      || (exists v ::
            v in current && Latest(current, id, id(v)) == Some(v) && a == decide(v, Latest(stored, id, id(v))))
      || (a.RemoveUnit? && Latest(stored, id, a.id).Some? && Latest(current, id, a.id).None?)
  {
    var cur, kept := IndexBy(current, id), IndexBy(stored, id);
    MapMember(cur, Judging(kept, decide), a);
    FilterMapMember(kept, Gone(cur), a);
    if i :| 0 <= i < |cur| && Judging(kept, decide)(cur[i]) == a {
      var (k, v) := cur[i];
      IndexByFacts(current, id, k);
      IndexByFacts(stored, id, k);
      EntryIn(cur, StrLe, k, v);
      LatestIs(current, id, k);
      assert a == decide(v, Latest(stored, id, id(v)));
    }
    if v :| v in current && Latest(current, id, id(v)) == Some(v) && a == decide(v, Latest(stored, id, id(v))) {
      IndexByFacts(current, id, id(v));
      IndexByFacts(stored, id, id(v));
      EntryIn(cur, StrLe, id(v), v);
      var i :| 0 <= i < |cur| && cur[i] == (id(v), v);
      assert Judging(kept, decide)(cur[i]) == a;
    }
    GoneMember(current, stored, id, a);
  }

  lemma GoneMember<V>(current: seq<V>, stored: seq<V>, id: V -> string, a: IndexAction)
    ensures a in FilterMap(IndexBy(stored, id), Gone(IndexBy(current, id))) <==>
      a.RemoveUnit? && Latest(stored, id, a.id).Some? && Latest(current, id, a.id).None?
  {
    var cur, kept := IndexBy(current, id), IndexBy(stored, id);
    FilterMapMember(kept, Gone(cur), a);
    if a.RemoveUnit? {
      IndexByFacts(current, id, a.id);
      IndexByFacts(stored, id, a.id);
      if j :| 0 <= j < |kept| && Gone(cur)(kept[j]) == Some(a) {
        assert Keys(kept)[j] == a.id;
      }
      if Get(kept, a.id).Some? && Get(cur, a.id).None? {
        var j :| 0 <= j < |kept| && kept[j] == (a.id, Get(kept, a.id).value);
        assert Gone(cur)(kept[j]) == Some(a);
      }
    }
  }

  /** The identity an action is about. */
  function About(a: IndexAction): string {
    match a
    case Reuse(u) => u.id
    case Reanalyze(u, _) => u.id
    case RemoveUnit(id) => id
  }

  /** Current units come first and removals last, and each of the two by ascending identity. */
  predicate InOrder(actions: seq<IndexAction>) {
    forall i, j :: 0 <= i < j < |actions| ==>
      (actions[i].RemoveUnit? ==> actions[j].RemoveUnit?)
      && (actions[i].RemoveUnit? == actions[j].RemoveUnit? ==> StrLt(About(actions[i]), About(actions[j])))
  }

  lemma JudgedAbout<V(!new)>(current: seq<V>, stored: seq<V>, id: V -> string, unit: V -> SourceUnit,
                             decide: (V, Option<V>) -> IndexAction, e: (string, V))
    requires forall v, p :: !decide(v, p).RemoveUnit? && decide(v, p).unit == unit(v)
    requires forall v :: unit(v).id == id(v)
    requires e in IndexBy(current, id)
    ensures var a := Judging(IndexBy(stored, id), decide)(e); !a.RemoveUnit? && About(a) == e.0
  {
    IndexByFacts(current, id, e.0);
    EntryIn(IndexBy(current, id), StrLe, e.0, e.1);
    LatestIs(current, id, e.0);
    assert Judging(IndexBy(stored, id), decide)(e) == decide(e.1, Get(IndexBy(stored, id), e.0));
  }

  lemma ActionsInOrder<V(!new)>(current: seq<V>, stored: seq<V>, id: V -> string, unit: V -> SourceUnit,
                                decide: (V, Option<V>) -> IndexAction)
    requires forall v, p :: !decide(v, p).RemoveUnit? && decide(v, p).unit == unit(v)
    requires forall v :: unit(v).id == id(v)
    ensures InOrder(Actions(IndexBy(current, id), IndexBy(stored, id), decide))
  {
    hide IndexBy, Ascending, Judging, Gone, StrLe, InOrder, Removals;
    var cur, kept := IndexBy(current, id), IndexBy(stored, id);
    IndexByFacts(current, id, "");
    IndexByFacts(stored, id, "");
    var judge := Judging(kept, decide);
    var judged, gone := Map(cur, judge), FilterMap(kept, Gone(cur));
    MapAt(cur, judge);
    forall i | 0 <= i < |cur| ensures !judged[i].RemoveUnit? && About(judged[i]) == Keys(cur)[i] {
      assert cur[i] in cur;
      JudgedAbout(current, stored, id, unit, decide, cur[i]);
    }
    GoneInOrder(kept, cur);
    JoinedInOrder(judged, Keys(cur), gone);
  }

  lemma GoneAt<V>(kept: seq<(string, V)>, cur: seq<(string, V)>, a: IndexAction) returns (k: nat)
    requires a in FilterMap(kept, Gone(cur))
    ensures k < |kept| && a == RemoveUnit(kept[k].0)
  {
    FilterMapMember(kept, Gone(cur), a);
    k :| 0 <= k < |kept| && Gone(cur)(kept[k]) == Some(a);
  }

  lemma {:induction false} GoneInOrder<V>(kept: seq<(string, V)>, cur: seq<(string, V)>)
    requires Ascending(Keys(kept), StrLe)
    ensures Removals(FilterMap(kept, Gone(cur)))
  {
    hide StrLt, Gone, Removals;
    if kept != [] {
      var rest := kept[1..];
      assert Keys(kept) == [kept[0].0] + Keys(rest);
      assert forall i :: 0 <= i < |rest| ==> Keys(rest)[i] == Keys(kept)[i + 1];
      GoneInOrder(rest, cur);
      var later := FilterMap(rest, Gone(cur));
      forall a | a in later ensures StrLt(kept[0].0, About(a)) {
        var k := GoneAt(rest, cur, a);
        assert StrLe(Keys(kept)[0], Keys(kept)[k + 1]) && Keys(kept)[0] != Keys(kept)[k + 1];
      }
      HeadGone(kept[0], cur);
      RemovalsCons(kept[0].0, later);
    } else {
      NoRemovals();
    }
  }

  predicate Removals(gone: seq<IndexAction>) {
    && (forall i :: 0 <= i < |gone| ==> gone[i].RemoveUnit?)
    && (forall i, j :: 0 <= i < j < |gone| ==> StrLt(About(gone[i]), About(gone[j])))
  }

  lemma RemovalsCons(id: string, later: seq<IndexAction>)
    requires Removals(later) && forall a :: a in later ==> StrLt(id, About(a))
    ensures Removals([RemoveUnit(id)] + later)
  {
    hide StrLt;
  }

  lemma NoRemovals()
    ensures Removals([])
  {
  }

  lemma HeadGone<V>(e: (string, V), cur: seq<(string, V)>)
    ensures Gone(cur)(e).Some? ==> Gone(cur)(e).value == RemoveUnit(e.0)
  {
  }

  lemma JoinedInOrder(judged: seq<IndexAction>, ids: seq<string>, gone: seq<IndexAction>)
    requires |judged| == |ids| && Ascending(ids, StrLe)
    requires forall i :: 0 <= i < |judged| ==> !judged[i].RemoveUnit? && About(judged[i]) == ids[i]
    requires Removals(gone)
    ensures InOrder(judged + gone)
  {
    hide StrLt;
  }

  /** A source plan says of each unit that is current: reuse it, or analyse it again for that reason; and of each stored
      identity without a current unit, to remove it. It says so in order. */
  lemma SourcePlanSays(current: seq<SourceUnit>, persisted: seq<SourceUnit>, u: SourceUnit, reason: InvalidationReason,
                       k: string)
    ensures var plan, stored := InvalidationPlan(current, persisted), Latest(persisted, UnitId, u.id);
      && InOrder(plan)
      && (Reanalyze(u, reason) in plan <==> Latest(current, UnitId, u.id) == Some(u) && UnitReason(u, stored, reason))
      && (Reuse(u) in plan <==> Latest(current, UnitId, u.id) == Some(u) && forall r :: !UnitReason(u, stored, r))
      && (RemoveUnit(k) in plan <==> Latest(persisted, UnitId, k).Some? && Latest(current, UnitId, k).None?)
  {
    hide UnitReason;
    ActionsInOrder(current, persisted, UnitId, TheUnit, DecideUnit);
    ActionsMember(current, persisted, UnitId, DecideUnit, Reanalyze(u, reason));
    ActionsMember(current, persisted, UnitId, DecideUnit, Reuse(u));
    ActionsMember(current, persisted, UnitId, DecideUnit, RemoveUnit(k));
    LatestIs(current, UnitId, u.id);
    DecidedExactly(u, Latest(persisted, UnitId, u.id), reason);
  }

  /** An analysis plan says the same of inputs, with the reasons that provenances add. */
  lemma AnalysisPlanSays(current: seq<AnalysisInput>, persisted: seq<AnalysisInput>, i: AnalysisInput,
                         reason: InvalidationReason, k: string)
    requires Latest(current, InputId, i.unit.id) == Some(i)
    ensures var plan, stored := AnalysisPlan(current, persisted), Latest(persisted, InputId, i.unit.id);
      && InOrder(plan)
      && (Reanalyze(i.unit, reason) in plan <==> AnalysisReasonIs(i, stored, reason))
      && (Reuse(i.unit) in plan <==> forall r :: !AnalysisReasonIs(i, stored, r))
      && (RemoveUnit(k) in plan <==> Latest(persisted, InputId, k).Some? && Latest(current, InputId, k).None?)
  {
    hide AnalysisReasonIs;
    ActionsInOrder(current, persisted, InputId, UnitOf, DecideInput);
    ActionsMember(current, persisted, InputId, DecideInput, Reanalyze(i.unit, reason));
    ActionsMember(current, persisted, InputId, DecideInput, Reuse(i.unit));
    ActionsMember(current, persisted, InputId, DecideInput, RemoveUnit(k));
    LatestIs(current, InputId, i.unit.id);
    InputDecidedExactly(i, Latest(persisted, InputId, i.unit.id), reason);
  }
}
