/** Results, options and the few sequence combinators that the other modules share. */
module Prelude {

  datatype Option<+T> = None | Some(value: T)

  datatype Result<+T, +E> = Ok(value: T) | Err(error: E)
  {
    predicate IsFailure() {
      Err?
    }

    function PropagateFailure<U>(): Result<U, E>
      requires IsFailure()
    {
      Err(error)
    }

    function Extract(): T
      requires !IsFailure()
    {
      value
    }
  }

  function OrElse<T>(found: Option<T>, otherwise: Option<T>): Option<T> {
    if found.Some? then found else otherwise
  }

  predicate Distinct<T(==)>(s: seq<T>) {
    forall i, j :: 0 <= i < j < |s| ==> s[i] != s[j]
  }

  lemma DistinctPrefix<T>(a: seq<T>, b: seq<T>)
    requires Distinct(a + b)
    ensures Distinct(a)
  {
    forall i, j | 0 <= i < j < |a| ensures a[i] != a[j] {
      assert (a + b)[i] != (a + b)[j];
    }
  }

  lemma DistinctConcat<T>(a: seq<T>, b: seq<T>)
    ensures Distinct(a + b) <==> Distinct(a) && Distinct(b) && forall x :: x in a ==> x !in b
  {
    if Distinct(a + b) {
      DistinctPrefix(a, b);
      DistinctSuffix(a, b);
    }
    if Distinct(a) && Distinct(b) && forall x :: x in a ==> x !in b {
      forall i, j | 0 <= i < j < |a + b| ensures (a + b)[i] != (a + b)[j] {
        if i < |a| <= j {
          assert a[i] in a && b[j - |a|] in b;
        }
      }
    }
  }

  lemma DistinctSuffix<T>(a: seq<T>, b: seq<T>)
    requires Distinct(a + b)
    ensures Distinct(b) && forall x :: x in a ==> x !in b
  {
    forall i, j | 0 <= i < j < |b| ensures b[i] != b[j] {
      assert (a + b)[|a| + i] != (a + b)[|a| + j];
    }
    forall i, j | 0 <= i < |a| && 0 <= j < |b| ensures a[i] != b[j] {
      assert (a + b)[i] != (a + b)[|a| + j];
    }
  }

  const U32_LIMIT: nat := 0x1_0000_0000

  /** A count as 32 bits hold it. */
  function Cut32(n: nat): (r: nat)
    ensures n < U32_LIMIT ==> r == n
  {
    n % U32_LIMIT
  }

  const U64_LIMIT: nat := 0x1_0000_0000_0000_0000
  const I64_MAX: nat := 0x7FFF_FFFF_FFFF_FFFF

  function Map<A, B>(s: seq<A>, f: A -> B): seq<B> {
    if s == [] then [] else [f(s[0])] + Map(s[1..], f)
  }

  lemma {:induction false} MapAt<A, B>(s: seq<A>, f: A -> B)
    ensures |Map(s, f)| == |s|
    ensures forall i :: 0 <= i < |s| ==> Map(s, f)[i] == f(s[i])
  {
    if s != [] {
      MapAt(s[1..], f);
    }
  }

  lemma {:induction false} MapMember<A, B>(s: seq<A>, f: A -> B, b: B)
    ensures b in Map(s, f) <==> exists i :: 0 <= i < |s| && f(s[i]) == b
  {
    MapAt(s, f);
    if i :| 0 <= i < |s| && f(s[i]) == b {
      assert Map(s, f)[i] == b;
    }
  }

  lemma MapIn<A(!new), B>(s: seq<A>, f: A -> B, b: B)
    ensures b in Map(s, f) <==> exists a :: a in s && f(a) == b
  {
    MapMember(s, f, b);
    if i :| 0 <= i < |s| && f(s[i]) == b {
      assert s[i] in s;
    }
    if a :| a in s && f(a) == b {
      var i :| 0 <= i < |s| && s[i] == a;
    }
  }

  function Filter<A>(s: seq<A>, p: A -> bool): seq<A> {
    if s == [] then [] else if p(s[0]) then [s[0]] + Filter(s[1..], p) else Filter(s[1..], p)
  }

  lemma {:induction false} FilterMember<A>(s: seq<A>, p: A -> bool, a: A)
    ensures a in Filter(s, p) <==> a in s && p(a)
  {
    if s != [] {
      FilterMember(s[1..], p, a);
      assert s == [s[0]] + s[1..];
    }
  }

  lemma {:induction false} FilterConcat<A>(s: seq<A>, t: seq<A>, p: A -> bool)
    ensures Filter(s + t, p) == Filter(s, p) + Filter(t, p)
  {
    if s == [] {
      assert s + t == t;
    } else {
      assert (s + t)[1..] == s[1..] + t;
      FilterConcat(s[1..], t, p);
    }
  }

  function FilterMap<A, B>(s: seq<A>, f: A -> Option<B>): seq<B> {
    if s == [] then []
    else if f(s[0]).Some? then [f(s[0]).value] + FilterMap(s[1..], f)
    else FilterMap(s[1..], f)
  }

  function FlatMap<A, B>(s: seq<A>, f: A -> seq<B>): seq<B> {
    if s == [] then [] else f(s[0]) + FlatMap(s[1..], f)
  }

  lemma {:induction false} FilterMapMember<A, B>(s: seq<A>, f: A -> Option<B>, b: B)
    ensures b in FilterMap(s, f) <==> exists i :: 0 <= i < |s| && f(s[i]) == Some(b)
  {
    if s != [] {
      FilterMapMember(s[1..], f, b);
      assert forall i :: 0 <= i < |s[1..]| ==> s[1..][i] == s[i + 1];
      if i :| 1 <= i < |s| && f(s[i]) == Some(b) {
        assert f(s[1..][i - 1]) == Some(b);
      }
    }
  }

  lemma {:induction false} FlatMapMember<A, B>(s: seq<A>, f: A -> seq<B>, b: B)
    ensures b in FlatMap(s, f) <==> exists i :: 0 <= i < |s| && b in f(s[i])
  {
    if s != [] {
      var rest := s[1..];
      FlatMapMember(rest, f, b);
      if i :| 0 <= i < |rest| && b in f(rest[i]) {
        assert s[i + 1] == rest[i];
      }
      if i :| 0 <= i < |s| && b in f(s[i]) {
        if i > 0 { assert rest[i - 1] == s[i]; }
      }
    }
  }

  lemma {:induction false} FilterMapConcat<A, B>(s: seq<A>, t: seq<A>, f: A -> Option<B>)
    ensures FilterMap(s + t, f) == FilterMap(s, f) + FilterMap(t, f)
  {
    if s == [] {
      assert s + t == t;
    } else {
      FilterMapConcat(s[1..], t, f);
      assert (s + t)[1..] == s[1..] + t;
    }
  }

  lemma FilterMapOne<A, B>(a: A, f: A -> Option<B>)
    ensures FilterMap([a], f) == if f(a).Some? then [f(a).value] else []
  {
    assert [a][1..] == [];
    assert FilterMap([a][1..], f) == [];
  }

  lemma {:induction false} FilterMapNothing<A, B>(s: seq<A>, f: A -> Option<B>)
    requires forall i :: 0 <= i < |s| ==> f(s[i]) == None
    ensures FilterMap(s, f) == []
  {
    if s != [] {
      FilterMapNothing(s[1..], f);
    }
  }

  /** Selecting from a flattened table is flattening the selections. */
  lemma {:induction false} FilterMapFlatMap<A, B, C>(s: seq<A>, f: A -> seq<B>, g: B -> Option<C>, h: A -> seq<C>)
    requires forall i :: 0 <= i < |s| ==> h(s[i]) == FilterMap(f(s[i]), g)
    ensures FilterMap(FlatMap(s, f), g) == FlatMap(s, h)
  {
    if s != [] {
      FilterMapConcat(f(s[0]), FlatMap(s[1..], f), g);
      FilterMapFlatMap(s[1..], f, g, h);
    }
  }

  lemma {:induction false} FlatMapConcat<A, B>(s: seq<A>, t: seq<A>, f: A -> seq<B>)
    ensures FlatMap(s + t, f) == FlatMap(s, f) + FlatMap(t, f)
  {
    if s == [] {
      assert s + t == t;
    } else {
      FlatMapConcat(s[1..], t, f);
      assert (s + t)[1..] == s[1..] + t && (s + t)[0] == s[0];
      Reassociate(f(s[0]), FlatMap(s[1..], f), FlatMap(t, f));
    }
  }

  lemma Reassociate<T>(a: seq<T>, b: seq<T>, c: seq<T>)
    ensures a + (b + c) == (a + b) + c
  {
  }

  lemma FlatMapSnoc<A, B>(s: seq<A>, a: A, f: A -> seq<B>)
    ensures FlatMap(s + [a], f) == FlatMap(s, f) + f(a)
  {
    FlatMapConcat(s, [a], f);
    assert FlatMap([a], f) == f(a) + FlatMap([], f);
  }

  lemma {:induction false} MapConcat<A, B>(s: seq<A>, t: seq<A>, f: A -> B)
    ensures Map(s + t, f) == Map(s, f) + Map(t, f)
  {
    if s == [] {
      assert s + t == t;
    } else {
      MapConcat(s[1..], t, f);
      assert (s + t)[1..] == s[1..] + t && (s + t)[0] == s[0];
      Reassociate([f(s[0])], Map(s[1..], f), Map(t, f));
    }
  }

  // Collecting results: the first failure, or all the values.

  function TryMap<A, B, E>(s: seq<A>, f: A -> Result<B, E>): Result<seq<B>, E> {
    if s == [] then Ok([])
    else
      match f(s[0])
      case Err(e) => Err(e)
      case Ok(b) =>
        match TryMap(s[1..], f)
        case Err(e) => Err(e)
        case Ok(rest) => Ok([b] + rest)
  }

  lemma {:induction false} TryMapExactly<A, B, E>(s: seq<A>, f: A -> Result<B, E>, t: seq<B>)
    ensures TryMap(s, f) == Ok(t) <==> |s| == |t| && forall i :: 0 <= i < |s| ==> f(s[i]) == Ok(t[i])
  {
    if s != [] && t != [] {
      TryMapExactly(s[1..], f, t[1..]);
      assert t == [t[0]] + t[1..];
      if |s| == |t| && forall i :: 0 <= i < |s| ==> f(s[i]) == Ok(t[i]) {
        forall i | 0 <= i < |s[1..]| ensures f(s[1..][i]) == Ok(t[1..][i]) {
          assert f(s[i + 1]) == Ok(t[i + 1]);
        }
      }
      if TryMap(s, f) == Ok(t) {
        forall i | 0 <= i < |s| ensures f(s[i]) == Ok(t[i]) {
          if i > 0 { assert f(s[1..][i - 1]) == Ok(t[1..][i - 1]); }
        }
      }
    }
  }

  lemma {:induction false} TryMapSucceeds<A, B, E>(s: seq<A>, f: A -> Result<B, E>)
    ensures TryMap(s, f).Ok? <==> forall i :: 0 <= i < |s| ==> f(s[i]).Ok?
  {
    if s != [] {
      TryMapSucceeds(s[1..], f);
      if forall i :: 0 <= i < |s| ==> f(s[i]).Ok? {
        forall i | 0 <= i < |s[1..]| ensures f(s[1..][i]).Ok? {
          assert f(s[i + 1]).Ok?;
        }
      } else if f(s[0]).Ok? {
        var i :| 0 <= i < |s| && !f(s[i]).Ok?;
        assert !f(s[1..][i - 1]).Ok?;
      }
    }
  }

  function First<A, E>(s: seq<A>, check: A -> Option<E>): Option<E> {
    if s == [] then None
    else if check(s[0]).Some? then check(s[0])
    else First(s[1..], check)
  }

  lemma {:induction false} FirstNone<A, E>(s: seq<A>, check: A -> Option<E>)
    ensures First(s, check).None? <==> forall i :: 0 <= i < |s| ==> check(s[i]).None?
  {
    if s != [] {
      FirstNone(s[1..], check);
      assert forall i :: 0 <= i < |s[1..]| ==> s[1..][i] == s[i + 1];
      if check(s[0]).None? && First(s[1..], check).None? {
        forall i | 0 <= i < |s| ensures check(s[i]).None? {
          if i > 0 { assert s[i] == s[1..][i - 1]; }
        }
      }
    }
  }
}
