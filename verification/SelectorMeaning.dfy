/** Exactly which selectors mean what they say: over every index, the filter of the stored symbols by all predicates. */
module SelectorMeaning {
  import opened Prelude
  import opened Ordering
  import opened Canonical
  import opened Tables
  import opened Store
  import opened Lookups
  import opened LoneSnapshot
  import opened Selector

  /** Over every index, the selection is the filter of the stored symbols by every predicate. */
  ghost predicate MeansFilter(selector: SelectorSpec) {
    forall c, y :: WellStored(c) && Selected(AllRows(c), selector).Ok? ==>
      (y in Selected(AllRows(c), selector).value.symbols <==>
        StoredSymbolOf(c, y) && HoldsAll(c, y, Normalized(selector)))
  }

  // Filters that some symbol can pass.

  /** Two filters do not exclude each other. */
  predicate Reconcilable(p: SelectorPredicate, q: SelectorPredicate) {
    && (p.KindIs? && q.KindIs? ==> p == q)
    && (p.LanguageIs? && q.LanguageIs? ==> p == q)
    && (p.ComponentIs? && q.ComponentIs? ==> p == q)
    && (p.BackendIs? && q.BackendIs? ==> p == q)
    && (p.QualifiedNamePrefix? && q.QualifiedNamePrefix? ==>
          StartsWith(p.prefix, q.prefix) || StartsWith(q.prefix, p.prefix))
  }

  /** No two filters exclude each other: one kind, language, component and backend, and prefixes of one name. */
  predicate Consistent(predicates: seq<SelectorPredicate>) {
    forall i, j :: 0 <= i < j < |predicates| ==> Reconcilable(predicates[i], predicates[j])
  }

  function WantedKind(predicates: seq<SelectorPredicate>): SymbolKind {
    if predicates == [] then Class
    else if predicates[0].KindIs? then predicates[0].kind
    else WantedKind(predicates[1..])
  }

  function WantedLanguage(predicates: seq<SelectorPredicate>): Language {
    if predicates == [] then Kotlin
    else if predicates[0].LanguageIs? then predicates[0].language
    else WantedLanguage(predicates[1..])
  }

  function WantedComponent(predicates: seq<SelectorPredicate>): string {
    if predicates == [] then ""
    else if predicates[0].ComponentIs? then predicates[0].component
    else WantedComponent(predicates[1..])
  }

  function WantedBackend(predicates: seq<SelectorPredicate>): string {
    if predicates == [] then ""
    else if predicates[0].BackendIs? then predicates[0].backend
    else WantedBackend(predicates[1..])
  }

  function WantedName(predicates: seq<SelectorPredicate>): string {
    if predicates == [] then ""
    else
      var rest := WantedName(predicates[1..]);
      if predicates[0].QualifiedNamePrefix? && |rest| < |predicates[0].prefix| then predicates[0].prefix else rest
  }

  function WantedAnnotations(predicates: seq<SelectorPredicate>): (r: seq<string>)
    ensures Distinct(r)
    ensures forall a :: a in r <==> AppliedSymbol(a) in predicates
  {
    if predicates == [] then []
    else
      assert predicates == [predicates[0]] + predicates[1..];
      var rest := WantedAnnotations(predicates[1..]);
      if predicates[0].AppliedSymbol? && predicates[0].symbol !in rest then [predicates[0].symbol] + rest else rest
  }

  lemma {:induction false} WantedIs(predicates: seq<SelectorPredicate>)
    requires Consistent(predicates)
    ensures forall p :: p in predicates ==>
      && (p.KindIs? ==> WantedKind(predicates) == p.kind)
      && (p.LanguageIs? ==> WantedLanguage(predicates) == p.language)
      && (p.ComponentIs? ==> WantedComponent(predicates) == p.component)
      && (p.BackendIs? ==> WantedBackend(predicates) == p.backend)
      && (p.QualifiedNamePrefix? ==> StartsWith(WantedName(predicates), p.prefix))
    ensures WantedName(predicates) == "" || QualifiedNamePrefix(WantedName(predicates)) in predicates
  {
    if predicates != [] {
      var first, rest := predicates[0], predicates[1..];
      assert predicates == [first] + rest;
      assert Consistent(rest);
      WantedIs(rest);
      forall p | p in rest ensures Reconcilable(first, p) {
        var j :| 0 <= j < |rest| && rest[j] == p;
        assert predicates[j + 1] == p;
      }
    }
  }

  function WantedProvenance(predicates: seq<SelectorPredicate>): Provenance {
    Provenance(WantedBackend(predicates), "", WORKER_PROTOCOL_VERSION, "")
  }

  /** A symbol that passes every filter which does not exclude another. */
  function WantedSymbol(predicates: seq<SelectorPredicate>): SymbolRecord {
    SymbolRecord("symbol", BackendKey("", 0, ""), WantedLanguage(predicates), WantedKind(predicates), "",
                 Some(WantedName(predicates)), None, WantedComponent(predicates), NoRange("unit"), NoRange("unit"),
                 None,
                 [], WantedAnnotations(predicates), Fresh, Complete, WantedProvenance(predicates))
  }

  /** The index of that symbol alone, with one supertype. */
  function WantedIndex(predicates: seq<SelectorPredicate>, supertype: string): Snapshot {
    Snapshot(SourceUnit("unit", WantedComponent(predicates), "", Kotlin, SourceCode, "", ""), None, None,
             [WantedSymbol(predicates)], [], [], [], [],
             [HierarchyEdge("symbol", supertype, Exact, WantedProvenance(predicates))], [], [], Complete,
             WantedProvenance(predicates))
  }

  lemma WantedMatches(predicates: seq<SelectorPredicate>)
    requires Consistent(predicates)
    ensures MatchesAll(WantedSymbol(predicates), predicates)
  {
    hide WantedKind, WantedLanguage, WantedComponent, WantedBackend, WantedName, WantedAnnotations;
    WantedIs(predicates);
    forall i | 0 <= i < |predicates| ensures Matches(WantedSymbol(predicates), predicates[i]) {
      assert predicates[i] in predicates;
    }
  }

  /** Filters can all be passed by one symbol exactly when no two of them exclude each other. */
  lemma ConsistentExactly(predicates: seq<SelectorPredicate>)
    ensures Consistent(predicates) <==> exists y :: MatchesAll(y, predicates)
  {
    hide WantedSymbol;
    if Consistent(predicates) {
      WantedMatches(predicates);
    }
    if y :| MatchesAll(y, predicates) {
      forall i, j | 0 <= i < j < |predicates| ensures Reconcilable(predicates[i], predicates[j]) {
        BothMatched(y, predicates[i], predicates[j]);
      }
    }
  }

  lemma BothMatched(y: SymbolRecord, p: SelectorPredicate, q: SelectorPredicate)
    requires Matches(y, p) && Matches(y, q)
    ensures Reconcilable(p, q)
  {
    if p.QualifiedNamePrefix? && q.QualifiedNamePrefix? {
      var name := y.qualifiedName.value;
      if |p.prefix| <= |q.prefix| {
        assert q.prefix[..|p.prefix|] == name[..|p.prefix|];
      } else {
        assert p.prefix[..|q.prefix|] == name[..|q.prefix|];
      }
    }
  }

  lemma WantedStored(predicates: seq<SelectorPredicate>, supertype: string)
    ensures var s := WantedIndex(predicates, supertype);
      && WellStored([s]) && StoredSymbolOf([s], WantedSymbol(predicates))
      && forall t :: HasSupertype([s], "symbol", t) <==> t == supertype
  {
    hide WantedKind, WantedLanguage, WantedComponent, WantedBackend, WantedName, WantedAnnotations, WellStored,
         Acceptable;
    var s := WantedIndex(predicates, supertype);
    WantedLone(predicates, supertype);
    LoneCommits(s);
    var y := WantedSymbol(predicates);
    assert s in [s] && y in s.symbols && y == ReadBack(y, s);
    assert HasSupertype([s], "symbol", supertype) by {
      assert s in [s] && s.hierarchy[0] in s.hierarchy;
    }
  }

  lemma WantedLone(predicates: seq<SelectorPredicate>, supertype: string)
    ensures var s := WantedIndex(predicates, supertype); Lone(s) && LoneFits(s) && Acceptable(s)
  {
    hide Acceptable;
    LoneAcceptable(WantedIndex(predicates, supertype));
  }

  // The exact condition.

  lemma HeldMatches(c: seq<Snapshot>, y: SymbolRecord, predicates: seq<SelectorPredicate>)
    ensures HoldsAll(c, y, predicates) ==> MatchesAll(y, predicates)
  {
    hide HasSupertype;
    if HoldsAll(c, y, predicates) {
      forall i | 0 <= i < |predicates| ensures Matches(y, predicates[i]) {
        assert Holds(c, y, predicates[i]);
      }
    }
  }

  lemma TwoSupertypes(predicates: seq<SelectorPredicate>) returns (least: string, other: string)
    requires !OneSupertype(predicates)
    ensures Supertypes(predicates) != [] && least == Least(Supertypes(predicates)) && other != least
    ensures SubtypeOf(other) in predicates
  {
    var p, q :| p in predicates && q in predicates && p.SubtypeOf? && q.SubtypeOf? && p != q;
    FilterMapMember(predicates, SupertypeIn, p.symbol);
    var i :| 0 <= i < |predicates| && predicates[i] == p;
    assert SupertypeIn(predicates[i]) == Some(p.symbol);
    least := Least(Supertypes(predicates));
    other := if p.symbol == least then q.symbol else p.symbol;
  }

  /** Two supertypes and filters that one symbol can pass: an index on which the selection keeps a symbol that has only
      the lesser supertype. */
  lemma TwoSupertypesNotConjoined(selector: SelectorSpec) returns (c: seq<Snapshot>, y: SymbolRecord)
    requires !OneSupertype(Normalized(selector)) && Consistent(Normalized(selector))
    ensures WellStored(c) && Selected(AllRows(c), selector).Ok?
    ensures y in Selected(AllRows(c), selector).value.symbols
    ensures StoredSymbolOf(c, y) && !HoldsAll(c, y, Normalized(selector))
  {
    hide WellStored, AllRows, StoredSymbolOf, HasSupertype, SubtypesByPosting, WantedIndex, MatchesAll, Consistent;
    var predicates := Normalized(selector);
    var least, other := TwoSupertypes(predicates);
    c, y := [WantedIndex(predicates, least)], WantedSymbol(predicates);
    WantedStored(predicates, least);
    WantedMatches(predicates);
    SelectExactly(c, selector, y);
    var i :| 0 <= i < |predicates| && predicates[i] == SubtypeOf(other);
    assert !Holds(c, y, predicates[i]);
  }

  /** A bounded selector selects, over every index, exactly the stored symbols that satisfy all its predicates if and
      only if it names one supertype at most or two of its filters exclude each other. */
  lemma SelectMeansFilterExactly(selector: SelectorSpec)
    requires exists p :: p in Normalized(selector) && (p.SubtypeOf? || p.AppliedSymbol?)
    ensures MeansFilter(selector) <==> OneSupertype(Normalized(selector)) || !Consistent(Normalized(selector))
  {
    hide WellStored, AllRows, StoredSymbolOf, HoldsAll, MatchesAll, Consistent, OneSupertype, Selected, Normalized,
         StartHolds;
    var predicates := Normalized(selector);
    if OneSupertype(predicates) || !Consistent(predicates) {
      forall c, y | WellStored(c) && Selected(AllRows(c), selector).Ok?
        ensures y in Selected(AllRows(c), selector).value.symbols <==>
          StoredSymbolOf(c, y) && HoldsAll(c, y, predicates)
      {
        if OneSupertype(predicates) {
          SelectMeaning(c, selector, y);
        } else {
          SelectExactly(c, selector, y);
          HeldMatches(c, y, predicates);
          ConsistentExactly(predicates);
        }
      }
    } else {
      var c, y := TwoSupertypesNotConjoined(selector);
    }
  }

  // What a selector says, predicate by predicate and view by view.

  predicate Says(selector: SelectorSpec, p: SelectorPredicate) {
    || p in selector.predicates
    || (KotlinClass in selector.views && (p == LanguageIs(Kotlin) || p == KindIs(Class)))
    || (JavaClass in selector.views && (p == LanguageIs(Java) || p == KindIs(Class)))
  }

  lemma SaysExactly(selector: SelectorSpec, p: SelectorPredicate)
    ensures p in Normalized(selector) <==> Says(selector, p)
  {
    FlatMapMember(selector.views, Expand, p);
    forall v | v in selector.views && p in Expand(v) ensures p in Normalized(selector) {
      var i :| 0 <= i < |selector.views| && selector.views[i] == v;
    }
  }

  /** The symbol passes every filter that the selector says. */
  ghost predicate Passes(selector: SelectorSpec, y: SymbolRecord) {
    && (forall k :: Says(selector, KindIs(k)) ==> y.kind == k)
    && (forall l :: Says(selector, LanguageIs(l)) ==> y.language == l)
    && (forall name :: Says(selector, ComponentIs(name)) ==> y.component == name)
    && (forall name :: Says(selector, BackendIs(name)) ==> y.provenance.backend == name)
    && (forall a :: Says(selector, AppliedSymbol(a)) ==> a in y.appliedSymbols)
    && (forall text :: Says(selector, QualifiedNamePrefix(text)) ==>
          y.qualifiedName.Some? && text <= y.qualifiedName.value)
  }

  lemma PassesExactly(selector: SelectorSpec, y: SymbolRecord)
    ensures MatchesAll(y, Normalized(selector)) <==> Passes(selector, y)
  {
    hide Says, Normalized;
    var predicates := Normalized(selector);
    forall p ensures p in predicates <==> Says(selector, p) {
      SaysExactly(selector, p);
    }
    if MatchesAll(y, predicates) {
      forall p | p in predicates ensures Matches(y, p) {
        var i :| 0 <= i < |predicates| && predicates[i] == p;
      }
      EachMatches(selector, y);
    }
    if Passes(selector, y) {
      forall i | 0 <= i < |predicates| ensures Matches(y, predicates[i]) {
        assert predicates[i] in predicates;
      }
    }
  }

  lemma EachMatches(selector: SelectorSpec, y: SymbolRecord)
    requires forall p :: Says(selector, p) ==> Matches(y, p)
    ensures Passes(selector, y)
  {
    hide Says;
    forall k | Says(selector, KindIs(k)) ensures y.kind == k {
      assert Matches(y, KindIs(k));
    }
    forall l | Says(selector, LanguageIs(l)) ensures y.language == l {
      assert Matches(y, LanguageIs(l));
    }
    forall name | Says(selector, ComponentIs(name)) ensures y.component == name {
      assert Matches(y, ComponentIs(name));
    }
    forall name | Says(selector, BackendIs(name)) ensures y.provenance.backend == name {
      assert Matches(y, BackendIs(name));
    }
    forall a | Says(selector, AppliedSymbol(a)) ensures a in y.appliedSymbols {
      assert Matches(y, AppliedSymbol(a));
    }
    forall text | Says(selector, QualifiedNamePrefix(text))
      ensures y.qualifiedName.Some? && text <= y.qualifiedName.value
    {
      assert Matches(y, QualifiedNamePrefix(text));
    }
  }

  /** The posting to start from is that of the least supertype said, or without any, of the least annotation. */
  ghost predicate StartsFrom(selector: SelectorSpec, plan: SelectorPlan) {
    if exists t :: Says(selector, SubtypeOf(t)) then
      && plan.HierarchyPosting? && Says(selector, SubtypeOf(plan.symbol))
      && forall t :: Says(selector, SubtypeOf(t)) ==> StrLe(plan.symbol, t)
    else
      && plan.AppliedSymbolPosting? && Says(selector, AppliedSymbol(plan.symbol))
      && forall a :: Says(selector, AppliedSymbol(a)) ==> StrLe(plan.symbol, a)
  }

  ghost predicate InPosting(c: seq<Snapshot>, plan: SelectorPlan, y: SymbolRecord) {
    if plan.HierarchyPosting? then HasSupertype(c, y.id, plan.symbol) else plan.symbol in y.appliedSymbols
  }

  lemma SupertypesSaid(selector: SelectorSpec, t: string)
    ensures t in Supertypes(Normalized(selector)) <==> Says(selector, SubtypeOf(t))
    ensures t in Annotations(Normalized(selector)) <==> Says(selector, AppliedSymbol(t))
  {
    hide Normalized, Says;
    var predicates := Normalized(selector);
    SaysExactly(selector, SubtypeOf(t));
    SaysExactly(selector, AppliedSymbol(t));
    FilterMapMember(predicates, SupertypeIn, t);
    FilterMapMember(predicates, AnnotationIn, t);
    if SubtypeOf(t) in predicates {
      var i :| 0 <= i < |predicates| && predicates[i] == SubtypeOf(t);
      assert SupertypeIn(predicates[i]) == Some(t);
    }
    if AppliedSymbol(t) in predicates {
      var i :| 0 <= i < |predicates| && predicates[i] == AppliedSymbol(t);
      assert AnnotationIn(predicates[i]) == Some(t);
    }
  }

  /** A selection is refused exactly when the selector says no supertype and no annotation. Otherwise it starts from the
      least and keeps exactly the stored symbols in that posting that pass every filter. */
  lemma SelectionSays(c: seq<Snapshot>, selector: SelectorSpec, y: SymbolRecord)
    requires WellStored(c)
    ensures var r := Selected(AllRows(c), selector);
      && (r.Err? <==> forall t :: !Says(selector, SubtypeOf(t)) && !Says(selector, AppliedSymbol(t)))
      && (r.Ok? ==>
            && StartsFrom(selector, r.value.plan)
            && (y in r.value.symbols <==>
                  StoredSymbolOf(c, y) && InPosting(c, r.value.plan, y) && Passes(selector, y)))
  {
    hide WellStored, AllRows, StoredSymbolOf, HasSupertype, SubtypesByPosting, SymbolsApplying, MatchesAll, Normalized,
      Says, Passes, StrLe;
    var predicates := Normalized(selector);
    forall t
      ensures t in Supertypes(predicates) <==> Says(selector, SubtypeOf(t))
      ensures t in Annotations(predicates) <==> Says(selector, AppliedSymbol(t))
    {
      SupertypesSaid(selector, t);
    }
    PassesExactly(selector, y);
    if Supertypes(predicates) != [] {
      LeastIs(Supertypes(predicates));
    } else if Annotations(predicates) != [] {
      LeastIs(Annotations(predicates));
    }
    if Selected(AllRows(c), selector).Ok? {
      SelectExactly(c, selector, y);
    }
  }
}
