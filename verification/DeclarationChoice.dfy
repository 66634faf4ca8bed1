/** Which declaration a cursor inside several name ranges means. */
module DeclarationChoice {
  import opened Prelude
  import opened Ordering
  import opened Canonical

  datatype Resolution = Symbol(id: string) | Ambiguous(ids: seq<string>)

  function Candidates(r: Resolution): seq<string> {
    match r
    case Symbol(id) => [id]
    case Ambiguous(ids) => ids
  }

  function Width(s: SymbolRecord): int {
    s.nameRange.bytes.end - s.nameRange.bytes.start
  }

  /** No candidate has a name over fewer bytes. */
  predicate Narrowest(s: SymbolRecord, all: seq<SymbolRecord>) {
    s in all && forall x :: x in all ==>
      s.nameRange.bytes.end + x.nameRange.bytes.start <= x.nameRange.bytes.end + s.nameRange.bytes.start
  }

  /** Narrowest, and a constructor only where all the narrowest are. */
  ghost predicate Preferred(s: SymbolRecord, all: seq<SymbolRecord>) {
    && Narrowest(s, all)
    && (s.kind == Constructor ==> forall x :: Narrowest(x, all) ==> x.kind == Constructor)
  }

  function ReturnResolution(ids: seq<string>): Option<Resolution> {
    if ids == [] then None else if |ids| == 1 then Some(Symbol(ids[0])) else Some(Ambiguous(ids))
  }

  method LeastWidth(all: seq<SymbolRecord>) returns (width: int)
    requires all != []
    ensures forall x :: x in all ==> width <= Width(x)
    ensures exists x :: x in all && Width(x) == width
  {
    width := Width(all[0]);
    for i := 1 to |all|
      invariant forall k :: 0 <= k < i ==> width <= Width(all[k])
      invariant exists k :: 0 <= k < i && Width(all[k]) == width
    {
      if Width(all[i]) < width {
        width := Width(all[i]);
      }
    }
  }

  /** Drops the constructors unless there is nothing else. */
  function WithoutConstructors(candidates: seq<SymbolRecord>): seq<SymbolRecord> {
    if exists i :: 0 <= i < |candidates| && candidates[i].kind != Constructor
    then Filter(candidates, (s: SymbolRecord) => s.kind != Constructor) else candidates
  }

  lemma PreferredExactly(all: seq<SymbolRecord>, narrowest: seq<SymbolRecord>)
    requires forall s :: s in narrowest <==> Narrowest(s, all)
    ensures forall s :: s in WithoutConstructors(narrowest) <==> Preferred(s, all)
  {
    hide Narrowest;
    forall s ensures s in WithoutConstructors(narrowest) <==> Preferred(s, all) {
      FilterMember(narrowest, (s: SymbolRecord) => s.kind != Constructor, s);
      if s in narrowest && s.kind == Constructor && Preferred(s, all) {
        forall i | 0 <= i < |narrowest| ensures narrowest[i].kind == Constructor {
          assert narrowest[i] in narrowest;
        }
      }
      if i :| 0 <= i < |narrowest| && narrowest[i].kind != Constructor {
        assert narrowest[i] in narrowest;
      }
    }
  }

  function IdOf(s: SymbolRecord): string {
    s.id
  }

  /** Some preferred candidate has this id. */
  ghost predicate Chosen(id: string, all: seq<SymbolRecord>) {
    exists s :: Preferred(s, all) && s.id == id
  }

  /** The ids of the preferred candidates, each once and in order: one of them is an answer, several are ambiguous. */
  method ResolveDeclarationCandidates(all: seq<SymbolRecord>) returns (r: Option<Resolution>)
    ensures r.None? <==> all == []
    ensures r.Some? ==> Ascending(Candidates(r.value), StrLe)
    ensures r.Some? ==> forall id :: id in Candidates(r.value) <==> Chosen(id, all)
    ensures r.Some? ==> (r.value.Ambiguous? <==> exists a, b :: Chosen(a, all) && Chosen(b, all) && a != b)
  {
    if all == [] {
      return None;
    }
    var width := LeastWidth(all);
    var candidates := Filter(all, OfWidth(width));
    candidates := WithoutConstructors(candidates);
    var ids := Dedup(SortBy(Map(candidates, IdOf), StrLe));
    r := ReturnResolution(ids);
    hide Dedup, SortBy, Map, Filter, Preferred, WithoutConstructors, Chosen, StrLe, Width;
    ChosenIds(all, width);
    AmbiguousExactly(all, ids);
  }

  lemma ChosenIds(all: seq<SymbolRecord>, width: int)
    requires forall x :: x in all ==> width <= Width(x)
    requires exists x :: x in all && Width(x) == width
    ensures var ids := Dedup(SortBy(Map(WithoutConstructors(Filter(all, OfWidth(width))), IdOf), StrLe));
      ids != [] && Ascending(ids, StrLe) && forall id :: id in ids <==> Chosen(id, all)
  {
    hide Dedup, SortBy, Map, Filter, Preferred, WithoutConstructors, StrLe, Width;
    var candidates := WithoutConstructors(Filter(all, OfWidth(width)));
    var ids := Dedup(SortBy(Map(candidates, IdOf), StrLe));
    ChosenExactly(all, width);
    IdsExactly(candidates, ids);
    forall id ensures id in ids <==> Chosen(id, all) {
      if id in ids {
        var s :| s in candidates && s.id == id;
      }
      if Chosen(id, all) {
        var s :| Preferred(s, all) && s.id == id;
        assert s in candidates;
      }
    }
    var s :| Preferred(s, all);
    assert Chosen(s.id, all);
  }

  function OfWidth(width: int): SymbolRecord -> bool {
    (s: SymbolRecord) => Width(s) == width
  }

  lemma ChosenExactly(all: seq<SymbolRecord>, width: int)
    requires forall x :: x in all ==> width <= Width(x)
    requires exists x :: x in all && Width(x) == width
    ensures forall s :: s in WithoutConstructors(Filter(all, OfWidth(width))) <==> Preferred(s, all)
    ensures exists s :: Preferred(s, all)
  {
    hide WithoutConstructors, Preferred;
    forall s ensures s in Filter(all, OfWidth(width)) <==> Narrowest(s, all) {
      FilterMember(all, OfWidth(width), s);
      NarrowestWidth(s, all);
    }
    PreferredExactly(all, Filter(all, OfWidth(width)));
    var some :| some in all && Width(some) == width;
    NarrowestWidth(some, all);
    PreferredExists(all, some);
  }

  lemma NarrowestWidth(s: SymbolRecord, all: seq<SymbolRecord>)
    ensures Narrowest(s, all) <==> s in all && forall x :: x in all ==> Width(s) <= Width(x)
  {
  }

  lemma PreferredExists(all: seq<SymbolRecord>, some: SymbolRecord)
    requires Narrowest(some, all)
    ensures exists s :: Preferred(s, all)
  {
    if x :| Narrowest(x, all) && x.kind != Constructor {
      assert Preferred(x, all);
    } else {
      assert Preferred(some, all);
    }
  }

  lemma IdsExactly(candidates: seq<SymbolRecord>, ids: seq<string>)
    requires ids == Dedup(SortBy(Map(candidates, IdOf), StrLe))
    ensures Ascending(ids, StrLe)
    ensures forall id :: id in ids <==> exists s :: s in candidates && s.id == id
  {
    StrLeTotalOrder();
    var mapped := Map(candidates, IdOf);
    SortBySorted(mapped, StrLe);
    DedupAscending(SortBy(mapped, StrLe), StrLe);
    forall id ensures id in ids <==> exists s :: s in candidates && s.id == id {
      SortByMembers(mapped, StrLe);
      MapMember(candidates, IdOf, id);
      if s :| s in candidates && s.id == id {
        var i :| 0 <= i < |candidates| && candidates[i] == s;
        assert IdOf(candidates[i]) == id;
      }
    }
  }

  lemma AmbiguousExactly(all: seq<SymbolRecord>, ids: seq<string>)
    requires Ascending(ids, StrLe) && forall id :: id in ids <==> Chosen(id, all)
    ensures |ids| >= 2 <==> exists a, b :: Chosen(a, all) && Chosen(b, all) && a != b
  {
    hide Chosen, StrLe;
    if |ids| >= 2 {
      assert ids[0] in ids && ids[1] in ids && ids[0] != ids[1];
    }
  }
}
