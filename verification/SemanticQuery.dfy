/** Typed queries: parameters are resolved, the program becomes a selector, and truncation is explicit. */
module SemanticQuery {
  import opened Prelude
  import opened Canonical
  import opened Tables
  import opened Store
  import opened Lookups
  import opened Selector

  const MAX_RESULT_LIMIT: nat := 1000

  datatype QuerySymbol = SymbolIdLiteral(id: string) | QualifiedName(name: string) | SymbolParameter(name: string)

  datatype QueryComponent = ComponentLiteral(id: string) | ComponentParameter(name: string)

  datatype QueryString = StringLiteral(text: string) | StringParameter(name: string)

  datatype QueryFrom = FromApplied(symbol: QuerySymbol) | FromSubtypes(symbol: QuerySymbol)

  datatype QueryPredicate =
    | WithKind(kind: SymbolKind)
    | WithLanguage(language: Language)
    | WithComponent(component: QueryComponent)
    | WithPrefix(prefix: QueryString)

  datatype QueryProgram = QueryProgram(from: QueryFrom, predicates: seq<QueryPredicate>, limit: nat)

  datatype QueryValue =
    | IdValue(id: string) | QualifiedValue(name: string) | ComponentValue(component: string)
    | TextValue(text: string) | NumberValue(number: nat)

  type QueryParameters = map<string, QueryValue>

  datatype QueryError =
    | InvalidLimit
    | MissingParameter(name: string)
    | InvalidParameterType(name: string)
    | UnknownQualifiedSymbol(name: string)
    | AmbiguousQualifiedSymbol(name: string, count: nat)
    | SelectorFailed(selectorError: SelectorError)

  datatype CompiledQuery = CompiledQuery(selector: SelectorSpec, start: string, plan: SelectorPlan, limit: nat)

  datatype QueryResult = QueryResult(state: SelectorState, plan: CompiledQuery, symbols: seq<SymbolRecord>)

  /** The symbol locator table: the identities catalogued under a qualified name. */
  type Locators = string -> seq<string>

  function ResolveQualified(locators: Locators, name: string): Result<string, QueryError> {
    var found := locators(name);
    if |found| == 0 then
      if '.' in name then Ok("jvm:type:" + name) else Err(UnknownQualifiedSymbol(name))
    else if |found| == 1 then Ok(found[0])
    else Err(AmbiguousQualifiedSymbol(name, |found|))
  }

  function ResolveSymbol(locators: Locators, parameters: QueryParameters, value: QuerySymbol)
    : Result<string, QueryError> {
    match value
    case SymbolIdLiteral(id) => Ok(id)
    case QualifiedName(name) => ResolveQualified(locators, name)
    case SymbolParameter(name) =>
      if name !in parameters then Err(MissingParameter(name))
      else match parameters[name]
        case IdValue(id) => Ok(id)
        case QualifiedValue(q) => ResolveQualified(locators, q)
        case _ => Err(InvalidParameterType(name))
  }

  function ResolveComponent(parameters: QueryParameters, value: QueryComponent): Result<string, QueryError> {
    match value
    case ComponentLiteral(id) => Ok(id)
    case ComponentParameter(name) =>
      if name !in parameters then Err(MissingParameter(name))
      else if parameters[name].ComponentValue? then Ok(parameters[name].component)
      else Err(InvalidParameterType(name))
  }

  function ResolveString(parameters: QueryParameters, value: QueryString): Result<string, QueryError> {
    match value
    case StringLiteral(text) => Ok(text)
    case StringParameter(name) =>
      if name !in parameters then Err(MissingParameter(name))
      else if parameters[name].TextValue? then Ok(parameters[name].text)
      else Err(InvalidParameterType(name))
  }

  function CompilePredicate(parameters: QueryParameters, p: QueryPredicate): Result<SelectorPredicate, QueryError> {
    match p
    case WithKind(k) => Ok(KindIs(k))
    case WithLanguage(l) => Ok(LanguageIs(l))
    case WithComponent(c) =>
      var r := ResolveComponent(parameters, c);
      if r.Ok? then Ok(ComponentIs(r.value)) else Err(r.error)
    case WithPrefix(s) =>
      var r := ResolveString(parameters, s);
      if r.Ok? then Ok(SelectorPredicate.QualifiedNamePrefix(r.value)) else Err(r.error)
  }

  function CompilePredicates(parameters: QueryParameters, ps: seq<QueryPredicate>)
    : Result<seq<SelectorPredicate>, QueryError> {
    if ps == [] then Ok([])
    else
      var first := CompilePredicate(parameters, ps[0]);
      if first.Err? then Err(first.error)
      else
        var rest := CompilePredicates(parameters, ps[1..]);
        if rest.Err? then rest else Ok([first.value] + rest.value)
  }

  function Compiled(locators: Locators, program: QueryProgram, parameters: QueryParameters)
    : Result<CompiledQuery, QueryError> {
    if program.limit == 0 || program.limit > MAX_RESULT_LIMIT then Err(InvalidLimit)
    else
      var start := ResolveSymbol(locators, parameters, program.from.symbol);
      if start.Err? then Err(start.error)
      else
        var predicates := CompilePredicates(parameters, program.predicates);
        if predicates.Err? then Err(predicates.error)
        else
          var (first, plan) :=
            if program.from.FromApplied? then (AppliedSymbol(start.value), AppliedSymbolPosting(start.value))
            else (SubtypeOf(start.value), HierarchyPosting(start.value));
          Ok(CompiledQuery(SelectorSpec([], [first] + predicates.value), start.value, plan, program.limit))
  }

  lemma {:induction false} CompilePredicatesSplit(parameters: QueryParameters, a: seq<QueryPredicate>,
                                                  b: seq<QueryPredicate>)
    ensures CompilePredicates(parameters, a + b) ==
      var x := CompilePredicates(parameters, a);
      if x.Err? then x
      else
        var y := CompilePredicates(parameters, b);
        if y.Err? then y else Ok(x.value + y.value)
  {
    if a == [] {
      assert a + b == b;
      var y := CompilePredicates(parameters, b);
      assert y.Ok? ==> [] + y.value == y.value;
    } else {
      assert (a + b)[1..] == a[1..] + b;
      CompilePredicatesSplit(parameters, a[1..], b);
      var first, x, y := CompilePredicate(parameters, a[0]), CompilePredicates(parameters, a[1..]),
        CompilePredicates(parameters, b);
      if first.Ok? && x.Ok? && y.Ok? {
        assert ([first.value] + x.value) + y.value == [first.value] + (x.value + y.value);
      }
    }
  }

  lemma CompileOne(parameters: QueryParameters, p: QueryPredicate)
    requires CompilePredicate(parameters, p).Ok?
    ensures CompilePredicates(parameters, [p]) == Ok([CompilePredicate(parameters, p).value])
  {
    var ps := [p];
    assert ps[0] == p && ps[1..] == [];
    var rest: seq<SelectorPredicate> := [];
    var v := CompilePredicate(parameters, p).value;
    assert CompilePredicates(parameters, ps) == Ok([v] + rest);
    assert [v] + rest == [v];
  }

  method Compile(locators: Locators, program: QueryProgram, parameters: QueryParameters)
    returns (r: Result<CompiledQuery, QueryError>)
    ensures r == Compiled(locators, program, parameters)
  {
    if program.limit == 0 || program.limit > MAX_RESULT_LIMIT {
      return Err(InvalidLimit);
    }
    var start := ResolveSymbol(locators, parameters, program.from.symbol);
    if start.Err? {
      return Err(start.error);
    }
    var predicates: seq<SelectorPredicate> := [];
    var i := 0;
    while i < |program.predicates|
      invariant 0 <= i <= |program.predicates|
      invariant CompilePredicates(parameters, program.predicates[..i]) == Ok(predicates)
    {
      var next := CompilePredicate(parameters, program.predicates[i]);
      CompilePredicatesSplit(parameters, program.predicates[..i], program.predicates[i..]);
      CompilePredicatesSplit(parameters, program.predicates[..i], [program.predicates[i]]);
      assert program.predicates[..i] + program.predicates[i..] == program.predicates;
      assert program.predicates[..i + 1] == program.predicates[..i] + [program.predicates[i]];
      if next.Err? {
        return Err(next.error);
      }
      CompileOne(parameters, program.predicates[i]);
      predicates := predicates + [next.value];
      i := i + 1;
    }
    assert program.predicates[..i] == program.predicates;
    var first := if program.from.FromApplied? then AppliedSymbol(start.value) else SubtypeOf(start.value);
    var plan := if program.from.FromApplied? then AppliedSymbolPosting(start.value) else HierarchyPosting(start.value);
    return Ok(CompiledQuery(SelectorSpec([], [first] + predicates), start.value, plan, program.limit));
  }

  // What the terms of a program denote, read off the catalogue and the parameters.

  /** A qualified name denotes the one identity catalogued under it, and without any, when it contains a dot, the JVM
      type of that name. */
  predicate NameDenotes(locators: Locators, name: string, id: string) {
    || locators(name) == [id]
    || (locators(name) == [] && '.' in name && id == "jvm:type:" + name)
  }

  predicate SymbolDenotes(locators: Locators, parameters: QueryParameters, term: QuerySymbol, id: string) {
    || term == SymbolIdLiteral(id)
    || (term.QualifiedName? && NameDenotes(locators, term.name, id))
    || (term.SymbolParameter? && term.name in parameters &&
        var given := parameters[term.name];
        given == IdValue(id) || (given.QualifiedValue? && NameDenotes(locators, given.name, id)))
  }

  predicate ComponentDenotes(parameters: QueryParameters, term: QueryComponent, id: string) {
    || term == ComponentLiteral(id)
    || (term.ComponentParameter? && term.name in parameters && parameters[term.name] == ComponentValue(id))
  }

  predicate TextDenotes(parameters: QueryParameters, term: QueryString, text: string) {
    || term == StringLiteral(text)
    || (term.StringParameter? && term.name in parameters && parameters[term.name] == TextValue(text))
  }

  // Why a term denotes nothing.

  predicate NameFails(locators: Locators, name: string, e: QueryError) {
    || (e == UnknownQualifiedSymbol(name) && locators(name) == [] && '.' !in name)
    || (e == AmbiguousQualifiedSymbol(name, |locators(name)|) && |locators(name)| > 1)
  }

  predicate SymbolFails(locators: Locators, parameters: QueryParameters, term: QuerySymbol, e: QueryError) {
    || (term.QualifiedName? && NameFails(locators, term.name, e))
    || (term.SymbolParameter? &&
        if term.name !in parameters then e == MissingParameter(term.name)
        else
          var given := parameters[term.name];
          if given.QualifiedValue? then NameFails(locators, given.name, e)
          else !given.IdValue? && e == InvalidParameterType(term.name))
  }

  predicate PredicateFails(parameters: QueryParameters, p: QueryPredicate, e: QueryError) {
    || (p.WithComponent? && p.component.ComponentParameter? &&
        var name := p.component.name;
        if name !in parameters then e == MissingParameter(name)
        else !parameters[name].ComponentValue? && e == InvalidParameterType(name))
    || (p.WithPrefix? && p.prefix.StringParameter? &&
        var name := p.prefix.name;
        if name !in parameters then e == MissingParameter(name)
        else !parameters[name].TextValue? && e == InvalidParameterType(name))
  }

  lemma SymbolResolvesExactly(locators: Locators, parameters: QueryParameters, term: QuerySymbol, id: string,
                              e: QueryError)
    ensures ResolveSymbol(locators, parameters, term) == Ok(id) <==> SymbolDenotes(locators, parameters, term, id)
    ensures ResolveSymbol(locators, parameters, term) == Err(e) <==> SymbolFails(locators, parameters, term, e)
  {
  }

  /** What a compiled filter demands of a symbol is what the query's predicate says. */
  predicate Demands(parameters: QueryParameters, p: QueryPredicate, compiled: SelectorPredicate) {
    match p
    case WithKind(k) => compiled == KindIs(k)
    case WithLanguage(l) => compiled == LanguageIs(l)
    case WithComponent(term) => compiled.ComponentIs? && ComponentDenotes(parameters, term, compiled.component)
    case WithPrefix(term) => compiled.QualifiedNamePrefix? && TextDenotes(parameters, term, compiled.prefix)
  }

  lemma PredicateCompilesExactly(parameters: QueryParameters, p: QueryPredicate, compiled: SelectorPredicate,
                                 e: QueryError)
    ensures CompilePredicate(parameters, p) == Ok(compiled) <==> Demands(parameters, p, compiled)
    ensures CompilePredicate(parameters, p) == Err(e) <==> PredicateFails(parameters, p, e)
  {
  }

  /** The first predicate that fails, fails with `e`. */
  ghost predicate FirstFails(parameters: QueryParameters, ps: seq<QueryPredicate>, e: QueryError) {
    exists i :: 0 <= i < |ps| && PredicateFails(parameters, ps[i], e) &&
      forall j, other :: 0 <= j < i ==> !PredicateFails(parameters, ps[j], other)
  }

  lemma {:induction false} PredicatesCompileExactly(parameters: QueryParameters, ps: seq<QueryPredicate>,
                                                    compiled: seq<SelectorPredicate>, e: QueryError)
    ensures CompilePredicates(parameters, ps) == Ok(compiled) <==>
      |compiled| == |ps| && forall i :: 0 <= i < |ps| ==> Demands(parameters, ps[i], compiled[i])
    ensures CompilePredicates(parameters, ps) == Err(e) <==> FirstFails(parameters, ps, e)
  {
    hide CompilePredicate, Demands, PredicateFails;
    if ps != [] {
      var rest := ps[1..];
      assert forall i :: 0 <= i < |rest| ==> rest[i] == ps[i + 1];
      var first := CompilePredicate(parameters, ps[0]);
      PredicateCompilesExactly(parameters, ps[0], if compiled == [] then KindIs(Class) else compiled[0], e);
      forall f ensures first == Err(f) <==> PredicateFails(parameters, ps[0], f) {
        PredicateCompilesExactly(parameters, ps[0], KindIs(Class), f);
      }
      if first.Err? {
        assert PredicateFails(parameters, ps[0], first.error);
      }
      assert compiled != [] ==> compiled == [compiled[0]] + compiled[1..];
      CompiledCons(parameters, ps, compiled);
      FailsCons(parameters, ps, e);
      PredicatesCompileExactly(parameters, rest, if compiled == [] then [] else compiled[1..], e);
    }
  }

  lemma CompiledCons(parameters: QueryParameters, ps: seq<QueryPredicate>, compiled: seq<SelectorPredicate>)
    requires ps != []
    ensures |compiled| == |ps| && (forall i :: 0 <= i < |ps| ==> Demands(parameters, ps[i], compiled[i])) <==>
      && compiled != [] && Demands(parameters, ps[0], compiled[0]) && |compiled[1..]| == |ps[1..]|
      && forall i :: 0 <= i < |ps[1..]| ==> Demands(parameters, ps[1..][i], compiled[1..][i])
  {
    hide Demands;
    if compiled != [] && |compiled[1..]| == |ps[1..]| {
      assert forall i :: 0 <= i < |ps[1..]| ==> ps[1..][i] == ps[i + 1] && compiled[1..][i] == compiled[i + 1];
      if forall i :: 0 <= i < |ps[1..]| ==> Demands(parameters, ps[1..][i], compiled[1..][i]) {
        forall i | 1 <= i < |ps| ensures Demands(parameters, ps[i], compiled[i]) {
          assert Demands(parameters, ps[1..][i - 1], compiled[1..][i - 1]);
        }
      }
    }
  }

  lemma FailsCons(parameters: QueryParameters, ps: seq<QueryPredicate>, e: QueryError)
    requires ps != []
    ensures FirstFails(parameters, ps, e) <==>
      || PredicateFails(parameters, ps[0], e)
      || ((forall f :: !PredicateFails(parameters, ps[0], f)) && FirstFails(parameters, ps[1..], e))
  {
    hide PredicateFails;
    var rest := ps[1..];
    assert forall i :: 0 <= i < |rest| ==> rest[i] == ps[i + 1];
    if i :| 0 <= i < |ps| && PredicateFails(parameters, ps[i], e) &&
            forall j, other :: 0 <= j < i ==> !PredicateFails(parameters, ps[j], other) {
      if i > 0 {
        assert PredicateFails(parameters, rest[i - 1], e);
        forall j, other | 0 <= j < i - 1 ensures !PredicateFails(parameters, rest[j], other) {
          assert !PredicateFails(parameters, ps[j + 1], other);
        }
      }
    }
    if (forall f :: !PredicateFails(parameters, ps[0], f)) && FirstFails(parameters, rest, e) {
      var i :| 0 <= i < |rest| && PredicateFails(parameters, rest[i], e) &&
               forall j, other :: 0 <= j < i ==> !PredicateFails(parameters, rest[j], other);
      forall j, other | 0 <= j < i + 1 ensures !PredicateFails(parameters, ps[j], other) {
        if j > 0 { assert !PredicateFails(parameters, rest[j - 1], other); }
      }
      assert PredicateFails(parameters, ps[i + 1], e);
    }
  }

  predicate LimitAllowed(limit: nat) {
    1 <= limit <= 1000
  }

  /** The plan starts from what the program's symbol denotes, in the posting that its clause names, then filters by
      its predicates in their order, and keeps the limit. */
  predicate Plans(locators: Locators, program: QueryProgram, parameters: QueryParameters, plan: CompiledQuery) {
    && SymbolDenotes(locators, parameters, program.from.symbol, plan.start)
    && plan.selector.views == [] && |plan.selector.predicates| == 1 + |program.predicates|
    && (program.from.FromApplied? ==>
          plan.selector.predicates[0] == AppliedSymbol(plan.start) && plan.plan == AppliedSymbolPosting(plan.start))
    && (program.from.FromSubtypes? ==>
          plan.selector.predicates[0] == SubtypeOf(plan.start) && plan.plan == HierarchyPosting(plan.start))
    && (forall i :: 0 <= i < |program.predicates| ==>
          Demands(parameters, program.predicates[i], plan.selector.predicates[i + 1]))
    && plan.limit == program.limit
  }

  /** Compilation succeeds with exactly such a plan. It fails first for the limit, then for the starting symbol, and
      then for the first predicate that names a parameter which is missing or of another type. */
  lemma CompiledExactly(locators: Locators, program: QueryProgram, parameters: QueryParameters, plan: CompiledQuery,
                        e: QueryError)
    ensures Compiled(locators, program, parameters) == Ok(plan) <==>
      LimitAllowed(program.limit) && Plans(locators, program, parameters, plan)
    ensures Compiled(locators, program, parameters) == Err(e) <==>
      if !LimitAllowed(program.limit) then e == InvalidLimit
      else if forall id :: !SymbolDenotes(locators, parameters, program.from.symbol, id)
      then SymbolFails(locators, parameters, program.from.symbol, e)
      else FirstFails(parameters, program.predicates, e)
  {
    hide ResolveSymbol, SymbolDenotes, SymbolFails, CompilePredicates, Demands, FirstFails;
    var start := ResolveSymbol(locators, parameters, program.from.symbol);
    forall id ensures start == Ok(id) <==> SymbolDenotes(locators, parameters, program.from.symbol, id) {
      SymbolResolvesExactly(locators, parameters, program.from.symbol, id, e);
    }
    SymbolResolvesExactly(locators, parameters, program.from.symbol, "", e);
    if start.Ok? {
      assert SymbolDenotes(locators, parameters, program.from.symbol, start.value);
    }
    var all := plan.selector.predicates;
    var tail := if all == [] then [] else all[1..];
    PredicatesCompileExactly(parameters, program.predicates, tail, e);
    assert forall i :: 0 <= i < |tail| ==> tail[i] == all[i + 1];
    if all != [] {
      assert all == [all[0]] + tail;
    }
    var compiled := Compiled(locators, program, parameters);
    if compiled.Ok? {
      var found := compiled.value.selector.predicates;
      assert found[1..] == CompilePredicates(parameters, program.predicates).value;
    }
  }

  // What a program means.

  ghost predicate QueryPredicateHolds(parameters: QueryParameters, y: SymbolRecord, p: QueryPredicate) {
    match p
    case WithKind(k) => y.kind == k
    case WithLanguage(l) => y.language == l
    case WithComponent(term) => ComponentDenotes(parameters, term, y.component)
    case WithPrefix(term) =>
      exists text :: TextDenotes(parameters, term, text) && y.qualifiedName.Some? && text <= y.qualifiedName.value
  }

  ghost predicate Answers(c: seq<Snapshot>, locators: Locators, program: QueryProgram, parameters: QueryParameters,
                          y: SymbolRecord) {
    && StoredSymbolOf(c, y)
    && (exists id :: SymbolDenotes(locators, parameters, program.from.symbol, id) &&
          if program.from.FromApplied? then id in y.appliedSymbols else HasSupertype(c, y.id, id))
    && forall p :: p in program.predicates ==> QueryPredicateHolds(parameters, y, p)
  }

  lemma {:induction false} CompiledPredicatesHold(c: seq<Snapshot>, parameters: QueryParameters,
                                                  ps: seq<QueryPredicate>, y: SymbolRecord)
    requires CompilePredicates(parameters, ps).Ok?
    ensures HoldsAll(c, y, CompilePredicates(parameters, ps).value) <==>
      forall p :: p in ps ==> QueryPredicateHolds(parameters, y, p)
    ensures forall p :: p in CompilePredicates(parameters, ps).value ==> !p.SubtypeOf? && !p.AppliedSymbol?
  {
    if ps != [] {
      CompiledPredicatesHold(c, parameters, ps[1..], y);
      var all := CompilePredicates(parameters, ps).value;
      assert ps == [ps[0]] + ps[1..];
      assert all[1..] == CompilePredicates(parameters, ps[1..]).value;
      PredicateCompilesExactly(parameters, ps[0], all[0], InvalidLimit);
      DemandedHolds(c, parameters, ps[0], all[0], y);
      HoldsAllCons(c, y, all);
    }
  }

  lemma DemandedHolds(c: seq<Snapshot>, parameters: QueryParameters, p: QueryPredicate, compiled: SelectorPredicate,
                      y: SymbolRecord)
    requires Demands(parameters, p, compiled)
    ensures Holds(c, y, compiled) <==> QueryPredicateHolds(parameters, y, p)
    ensures !compiled.SubtypeOf? && !compiled.AppliedSymbol?
  {
  }

  lemma HoldsAllCons(c: seq<Snapshot>, y: SymbolRecord, ps: seq<SelectorPredicate>)
    requires ps != []
    ensures HoldsAll(c, y, ps) <==> Holds(c, y, ps[0]) && HoldsAll(c, y, ps[1..])
  {
    assert forall i :: 0 <= i < |ps[1..]| ==> ps[1..][i] == ps[i + 1];
    if Holds(c, y, ps[0]) && HoldsAll(c, y, ps[1..]) {
      forall i | 0 <= i < |ps| ensures Holds(c, y, ps[i]) {
        if i > 0 { assert Holds(c, y, ps[1..][i - 1]); }
      }
    }
  }

  /** Compilation preserves meaning: the compiled selector is bounded and selects exactly the program's answers. */
  lemma CompilationPreservesMeaning(c: seq<Snapshot>, locators: Locators, program: QueryProgram,
                                    parameters: QueryParameters,
                                    y: SymbolRecord)
    requires WellStored(c) && Compiled(locators, program, parameters).Ok?
    ensures var selector := Compiled(locators, program, parameters).value.selector;
      && Selected(AllRows(c), selector).Ok?
      && (y in Selected(AllRows(c), selector).value.symbols <==> Answers(c, locators, program, parameters, y))
  {
    hide WellStored, AllRows, Selected, HasSupertype, StoredSymbolOf;
    var compiled := Compiled(locators, program, parameters).value;
    var predicates := compiled.selector.predicates;
    assert Normalized(compiled.selector) == predicates;
    CompiledPredicatesHold(c, parameters, program.predicates, y);
    assert predicates[1..] == CompilePredicates(parameters, program.predicates).value;
    forall p | p in predicates && p != predicates[0] ensures p in predicates[1..] {}
    assert OneSupertype(predicates);
    UnboundedExactly(AllRows(c), compiled.selector);
    assert predicates[0] in predicates;
    SelectMeaning(c, compiled.selector, y);
    HoldsAllCons(c, y, predicates);
  }

  // Execution.

  function Executed(rows: seq<Row>, locators: Locators, program: QueryProgram, parameters: QueryParameters)
    : Result<QueryResult, QueryError>
  {
    var plan := Compiled(locators, program, parameters);
    if plan.Err? then Err(plan.error)
    else
      var selected := Selected(rows, plan.value.selector);
      if selected.Err? then Err(SelectorFailed(selected.error))
      else if |selected.value.symbols| > plan.value.limit
        then Ok(QueryResult(PartialResult, plan.value, selected.value.symbols[..plan.value.limit]))
      else Ok(QueryResult(selected.value.state, plan.value, selected.value.symbols))
  }

  ghost predicate FreshAndComplete(y: SymbolRecord) {
    y.freshness == Fresh && y.completeness == Complete
  }

  /** Everything a compiled query selects before it is cut to its limit. */
  function Listed(rows: seq<Row>, plan: CompiledQuery): seq<SymbolRecord> {
    var selected := Selected(rows, plan.selector);
    if selected.Ok? then selected.value.symbols else []
  }

  /** What is returned is the list of the program's answers, cut at the limit. A result is complete exactly
      when there are answers, nothing of the list was cut off and all answers are fresh and complete, and then it is
      every answer; it is empty exactly when there is none. The list has an answer once for each edge that declares it,
      so a list that is cut may still hold every answer. */
  ghost predicate Honest(c: seq<Snapshot>, locators: Locators, program: QueryProgram, parameters: QueryParameters,
                         result: QueryResult) {
    && Compiled(locators, program, parameters) == Ok(result.plan)
    && 1 <= program.limit <= 1000 && result.symbols <= Listed(AllRows(c), result.plan)
    && (|result.symbols| == program.limit || |result.symbols| == |Listed(AllRows(c), result.plan)| < program.limit)
    && (forall y :: y in result.symbols ==> Answers(c, locators, program, parameters, y))
    && (result.state.CompleteResult? <==>
          && (exists y :: Answers(c, locators, program, parameters, y))
          && |Listed(AllRows(c), result.plan)| <= program.limit
          && (forall y :: Answers(c, locators, program, parameters, y) ==> FreshAndComplete(y)))
    && (result.state.CompleteResult? ==>
          forall y :: y in result.symbols <==> Answers(c, locators, program, parameters, y))
    && (result.state.NoResult? <==> forall y :: !Answers(c, locators, program, parameters, y))
  }

  lemma ExecuteHonest(c: seq<Snapshot>, locators: Locators, program: QueryProgram, parameters: QueryParameters)
    requires WellStored(c) && Executed(AllRows(c), locators, program, parameters).Ok?
    ensures Honest(c, locators, program, parameters, Executed(AllRows(c), locators, program, parameters).value)
  {
    hide WellStored, AllRows, Answers, Candidates, StateOf;
    var plan := Compiled(locators, program, parameters).value;
    var found := Selected(AllRows(c), plan.selector).value.symbols;
    forall y ensures y in found <==> Answers(c, locators, program, parameters, y) {
      CompilationPreservesMeaning(c, locators, program, parameters, y);
    }
    StateExactly(found);
    if found != [] {
      assert found[0] in found;
    }
  }

  /** A query that compiles always executes: its starting relation bounds the selector. */
  lemma CompiledExecutes(c: seq<Snapshot>, locators: Locators, program: QueryProgram, parameters: QueryParameters)
    requires WellStored(c)
    ensures Executed(AllRows(c), locators, program, parameters).Ok? <==> Compiled(locators, program, parameters).Ok?
    ensures Compiled(locators, program, parameters).Err? ==>
      Executed(AllRows(c), locators, program, parameters) == Err(Compiled(locators, program, parameters).error)
  {
    hide WellStored, AllRows, Selected;
    if Compiled(locators, program, parameters).Ok? {
      var anyone := SymbolRecord("", BackendKey("", 0, ""), Kotlin, Class, "", None, None, "",
        SourceRange("", ByteRange(0, 0)), SourceRange("", ByteRange(0, 0)), None, [], [], Fresh, Complete,
        Provenance("", "", 0, ""));
      CompilationPreservesMeaning(c, locators, program, parameters, anyone);
    }
  }

  /** Runs a query: it fails exactly when it does not compile, and its result is honest. */
  method Execute(rows: seq<Row>, ghost c: seq<Snapshot>, locators: Locators, program: QueryProgram,
                 parameters: QueryParameters) returns (r: Result<QueryResult, QueryError>)
    requires rows == AllRows(c) && WellStored(c)
    ensures r == Executed(rows, locators, program, parameters)
    ensures r.Ok? <==> Compiled(locators, program, parameters).Ok?
    ensures r.Ok? ==> Honest(c, locators, program, parameters, r.value)
  {
    hide WellStored, AllRows, Honest, Selected;
    var plan := Compile(locators, program, parameters);
    if plan.Err? {
      return Err(plan.error);
    }
    var selected := Select(rows, c, plan.value.selector);
    if selected.Err? {
      r := Err(SelectorFailed(selected.error));
      CompiledExecutes(c, locators, program, parameters);
      return;
    }
    ExecuteHonest(c, locators, program, parameters);
    var symbols := selected.value.symbols;
    var truncated := |symbols| > plan.value.limit;
    if truncated {
      symbols := symbols[..plan.value.limit];
    }
    return Ok(QueryResult(if truncated then PartialResult else selected.value.state, plan.value, symbols));
  }
}
