/** Orders, stable sorting, and the sorted association lists that stand for ordered maps. */
module Ordering {
  import opened Prelude

  /** Strict lexicographic order by code point. */
  predicate StrLt(a: string, b: string) {
    b != "" && (a == "" || a[0] < b[0] || (a[0] == b[0] && StrLt(a[1..], b[1..])))
  }

  predicate StrLe(a: string, b: string) {
    a == b || StrLt(a, b)
  }

  ghost predicate TotalPreorder<T(!new)>(le: (T, T) -> bool) {
    && (forall x, y :: le(x, y) || le(y, x))
    && (forall x, y, z :: le(x, y) && le(y, z) ==> le(x, z))
  }

  ghost predicate TotalOrder<T(!new)>(le: (T, T) -> bool) {
    && TotalPreorder(le)
    && (forall x, y :: le(x, y) && le(y, x) ==> x == y)
  }

  ghost predicate Sorted<T>(s: seq<T>, le: (T, T) -> bool) {
    forall i, j :: 0 <= i < j < |s| ==> le(s[i], s[j])
  }

  lemma {:induction false} StrLtTransitive(a: string, b: string, c: string)
    requires StrLt(a, b) && StrLt(b, c)
    ensures StrLt(a, c)
  {
    if a != "" && a[0] == b[0] && b[0] == c[0] {
      StrLtTransitive(a[1..], b[1..], c[1..]);
    }
  }

  lemma {:induction false} StrLtTrichotomy(a: string, b: string)
    ensures a != b ==> (StrLt(a, b) <==> !StrLt(b, a))
    ensures !StrLt(a, a)
  {
    if a != "" {
      StrLtTrichotomy(a[1..], a[1..]);
    }
    if a != "" && b != "" && a[0] == b[0] {
      StrLtTrichotomy(a[1..], b[1..]);
      assert a == [a[0]] + a[1..] && b == [b[0]] + b[1..];
    }
  }

  predicate FirstLess(a: string, b: string, i: nat) {
    i < |a| && i < |b| && a[..i] == b[..i] && a[i] < b[i]
  }

  /** A string precedes another exactly when it is a proper prefix of it, or has the lesser character at the first place
      where the two differ. */
  lemma {:induction false} StrLtExactly(a: string, b: string)
    ensures StrLt(a, b) <==> a < b || exists i :: 0 <= i < |a| && FirstLess(a, b, i)
  {
    if a != "" && b != "" {
      StrLtExactly(a[1..], b[1..]);
      forall i | 0 < i <= |a| && i <= |b|
        ensures a[..i] == [a[0]] + a[1..][..i - 1] && b[..i] == [b[0]] + b[1..][..i - 1]
      {
      }
      if a[0] == b[0] {
        assert a < b <==> a[1..] < b[1..];
        if i :| 0 <= i < |a[1..]| && FirstLess(a[1..], b[1..], i) {
          assert FirstLess(a, b, i + 1);
        }
        if i :| 0 <= i < |a| && FirstLess(a, b, i) {
          assert FirstLess(a[1..], b[1..], i - 1);
        }
      } else if i :| 0 <= i < |a| && FirstLess(a, b, i) {
        assert i == 0;
      } else if a[0] < b[0] {
        assert FirstLess(a, b, 0);
      }
    }
  }

  lemma StrLeTotalOrder()
    ensures TotalOrder(StrLe)
  {
    forall x, y ensures StrLe(x, y) || StrLe(y, x) {
      StrLtTrichotomy(x, y);
    }
    forall x, y | StrLe(x, y) && StrLe(y, x) ensures x == y {
      StrLtTrichotomy(x, y);
    }
    forall x, y, z | StrLe(x, y) && StrLe(y, z) ensures StrLe(x, z) {
      if x != y && y != z {
        StrLtTransitive(x, y, z);
      }
    }
  }

  function Least(names: seq<string>): string
    requires names != []
  {
    if |names| == 1 then names[0]
    else
      var rest := Least(names[1..]);
      if StrLe(names[0], rest) then names[0] else rest
  }

  /** The least of some names is one of them and precedes them all. */
  lemma {:induction false} LeastIs(names: seq<string>)
    requires names != []
    ensures Least(names) in names && forall n :: n in names ==> StrLe(Least(names), n)
  {
    hide StrLe;
    StrLeTotalOrder();
    if |names| > 1 {
      LeastIs(names[1..]);
      assert names == [names[0]] + names[1..];
    }
  }

  lemma LeastSnoc(names: seq<string>, n: string)
    ensures Least(names + [n]) == if names == [] || StrLt(n, Least(names)) then n else Least(names)
  {
    if names == [] {
      assert names + [n] == [n];
    } else {
      var m, both := Least(names), Least(names + [n]);
      LeastIs(names);
      LeastIs(names + [n]);
      assert n in names + [n] && m in names + [n];
      StrLtTrichotomy(n, m);
      StrLtTrichotomy(both, m);
      StrLtTrichotomy(both, n);
    }
  }

  /** Places `x` before the first element it may precede. */
  function Place<T>(x: T, s: seq<T>, le: (T, T) -> bool): (r: seq<T>)
    ensures multiset(r) == multiset{x} + multiset(s)
  {
    if s == [] then [x]
    else if le(x, s[0]) then [x] + s
    else
      assert s == [s[0]] + s[1..];
      [s[0]] + Place(x, s[1..], le)
  }

  /** A stable sort. */
  function SortBy<T>(s: seq<T>, le: (T, T) -> bool): (r: seq<T>)
    ensures multiset(r) == multiset(s)
  {
    if s == [] then [] else
      assert s == [s[0]] + s[1..];
      Place(s[0], SortBy(s[1..], le), le)
  }

  lemma {:induction false} PlaceSorted<T(!new)>(x: T, s: seq<T>, le: (T, T) -> bool)
    requires TotalPreorder(le) && Sorted(s, le)
    ensures Sorted(Place(x, s, le), le)
  {
    if s != [] && !le(x, s[0]) {
      PlaceSorted(x, s[1..], le);
      var rest := Place(x, s[1..], le);
      forall j | 0 <= j < |rest| ensures le(s[0], rest[j]) {
        assert rest[j] in multiset(rest);
        assert rest[j] == x || rest[j] in s[1..];
      }
    }
  }

  lemma {:induction false} SortBySorted<T(!new)>(s: seq<T>, le: (T, T) -> bool)
    requires TotalPreorder(le)
    ensures Sorted(SortBy(s, le), le)
  {
    if s != [] {
      SortBySorted(s[1..], le);
      PlaceSorted(s[0], SortBy(s[1..], le), le);
    }
  }

  lemma SortByMembers<T>(s: seq<T>, le: (T, T) -> bool)
    ensures |SortBy(s, le)| == |s|
    ensures forall x :: x in SortBy(s, le) <==> x in s
  {
    var r := SortBy(s, le);
    assert |r| == |multiset(r)| == |multiset(s)|;
    forall x ensures x in r <==> x in s {
      assert x in r <==> x in multiset(r);
      assert x in s <==> x in multiset(s);
    }
  }

  /** Drops an element equal to its predecessor, as a sorted list is deduplicated in place. */
  function Dedup<T(==,!new)>(s: seq<T>): (r: seq<T>)
    ensures forall x :: x in r <==> x in s
    ensures |s| > 0 ==> |r| > 0 && r[0] == s[0]
  {
    if |s| < 2 then s
    else
      assert s == [s[0]] + s[1..];
      var rest := Dedup(s[1..]);
      if s[0] == s[1] then rest else [s[0]] + rest
  }

  ghost predicate Ascending<T>(s: seq<T>, le: (T, T) -> bool) {
    forall i, j :: 0 <= i < j < |s| ==> le(s[i], s[j]) && s[i] != s[j]
  }

  lemma {:induction false} DedupAscending<T(!new)>(s: seq<T>, le: (T, T) -> bool)
    requires TotalOrder(le) && Sorted(s, le)
    ensures Ascending(Dedup(s), le)
  {
    if |s| >= 2 {
      DedupAscending(s[1..], le);
      if s[0] != s[1] {
        var rest := Dedup(s[1..]);
        forall j | 0 <= j < |rest| ensures le(s[0], rest[j]) && s[0] != rest[j] {
          assert rest[j] in s[1..];
          var k :| 0 <= k < |s[1..]| && s[1..][k] == rest[j];
          assert le(s[0], s[1]) && s[k + 1] == rest[j];
          if k > 0 {
            assert le(s[1], s[k + 1]);
          }
        }
      }
    }
  }

  // Ordered maps: association lists whose keys ascend.

  function Keys<K, V>(m: seq<(K, V)>): (r: seq<K>)
    ensures |r| == |m|
    ensures forall i :: 0 <= i < |m| ==> r[i] == m[i].0
  {
    if m == [] then [] else [m[0].0] + Keys(m[1..])
  }

  function Get<K(==), V>(m: seq<(K, V)>, k: K): (r: Option<V>)
    ensures r.None? <==> k !in Keys(m)
    ensures r.Some? ==> (k, r.value) in m
  {
    if m == [] then None
    else
      assert Keys(m)[0] == m[0].0;
      if m[0].0 == k then Some(m[0].1) else Get(m[1..], k)
  }

  function Put<K(==), V>(m: seq<(K, V)>, le: (K, K) -> bool, k: K, v: V): seq<(K, V)> {
    if m == [] then [(k, v)]
    else if m[0].0 == k then [(k, v)] + m[1..]
    else if le(k, m[0].0) then [(k, v)] + m
    else [m[0]] + Put(m[1..], le, k, v)
  }

  lemma {:induction false} PutKeys<K(!new), V>(m: seq<(K, V)>, le: (K, K) -> bool, k: K, v: V)
    ensures forall j :: j in Keys(Put(m, le, k, v)) <==> j in Keys(m) || j == k
  {
    if m != [] {
      PutKeys(m[1..], le, k, v);
      assert Keys(m) == [m[0].0] + Keys(m[1..]);
      var r := Put(m, le, k, v);
      assert Keys(r) == [r[0].0] + Keys(r[1..]);
      if m[0].0 != k {
        if le(k, m[0].0) { assert r[1..] == m; } else { assert r[1..] == Put(m[1..], le, k, v); }
      } else {
        assert r[1..] == m[1..];
      }
    }
  }

  lemma {:induction false} PutAscending<K(!new), V>(m: seq<(K, V)>, le: (K, K) -> bool, k: K, v: V)
    requires TotalOrder(le) && Ascending(Keys(m), le)
    ensures Ascending(Keys(Put(m, le, k, v)), le)
  {
    if m != [] {
      assert Keys(m) == [m[0].0] + Keys(m[1..]);
      var r := Put(m, le, k, v);
      assert Keys(r) == [r[0].0] + Keys(r[1..]);
      assert forall i :: 0 <= i < |m| - 1 ==> Keys(m[1..])[i] == Keys(m)[i + 1];
      if m[0].0 != k {
        if le(k, m[0].0) {
          assert r[1..] == m;
          forall j | 0 <= j < |m| ensures le(k, Keys(m)[j]) && k != Keys(m)[j] {
            if j > 0 { assert le(Keys(m)[0], Keys(m)[j]); }
          }
        } else {
          assert r[1..] == Put(m[1..], le, k, v);
          PutAscending(m[1..], le, k, v);
          PutKeys(m[1..], le, k, v);
          forall j | 0 <= j < |Keys(r[1..])| ensures le(m[0].0, Keys(r[1..])[j]) && m[0].0 != Keys(r[1..])[j] {
            assert Keys(r[1..])[j] in Keys(r[1..]);
          }
        }
      } else {
        assert r[1..] == m[1..];
      }
    }
  }

  lemma {:induction false} GetPut<K(!new), V>(m: seq<(K, V)>, le: (K, K) -> bool, k: K, v: V, j: K)
    requires TotalOrder(le) && Ascending(Keys(m), le)
    ensures Get(Put(m, le, k, v), j) == if j == k then Some(v) else Get(m, j)
  {
    if m != [] {
      assert Keys(m) == [m[0].0] + Keys(m[1..]);
      assert forall i :: 0 <= i < |m| - 1 ==> Keys(m[1..])[i] == Keys(m)[i + 1];
      var r := Put(m, le, k, v);
      if m[0].0 != k {
        if le(k, m[0].0) {
          assert r[1..] == m;
        } else {
          assert r[1..] == Put(m[1..], le, k, v);
          GetPut(m[1..], le, k, v, j);
        }
      } else {
        assert r[1..] == m[1..];
      }
    }
  }
}
