/** Rows with optional primary keys, grouped in blocks: what inserting and deleting do to them.
    Nothing here depends on which tables there are. */
module Relation {
  import opened Prelude

  /** The rows that are not doomed, in order. */
  function Keep<R>(rows: seq<R>, doomed: R -> bool): seq<R> {
    if rows == [] then []
    else if doomed(rows[0]) then Keep(rows[1..], doomed)
    else [rows[0]] + Keep(rows[1..], doomed)
  }

  lemma {:induction false} KeepMember<R>(rows: seq<R>, doomed: R -> bool, r: R)
    ensures r in Keep(rows, doomed) <==> r in rows && !doomed(r)
  {
    if rows != [] {
      KeepMember(rows[1..], doomed, r);
      assert rows == [rows[0]] + rows[1..];
    }
  }

  lemma {:induction false} KeepConcat<R>(a: seq<R>, b: seq<R>, doomed: R -> bool)
    ensures Keep(a + b, doomed) == Keep(a, doomed) + Keep(b, doomed)
  {
    if a == [] {
      assert a + b == b;
    } else {
      assert (a + b)[1..] == a[1..] + b;
      KeepConcat(a[1..], b, doomed);
    }
  }

  lemma {:induction false} KeepSame<R>(rows: seq<R>, p: R -> bool, q: R -> bool)
    requires forall r :: r in rows ==> p(r) == q(r)
    ensures Keep(rows, p) == Keep(rows, q)
  {
    if rows != [] {
      assert rows[0] in rows && forall r :: r in rows[1..] ==> r in rows;
      KeepSame(rows[1..], p, q);
    }
  }

  lemma {:induction false} KeepAll<R>(rows: seq<R>, doomed: R -> bool)
    requires forall r :: r in rows ==> !doomed(r)
    ensures Keep(rows, doomed) == rows
  {
    if rows != [] {
      assert rows[0] in rows && forall r :: r in rows[1..] ==> r in rows;
      KeepAll(rows[1..], doomed);
    }
  }

  lemma {:induction false} KeepNone<R>(rows: seq<R>, doomed: R -> bool)
    requires forall r :: r in rows ==> doomed(r)
    ensures Keep(rows, doomed) == []
  {
    if rows != [] {
      assert rows[0] in rows && forall r :: r in rows[1..] ==> r in rows;
      KeepNone(rows[1..], doomed);
    }
  }

  /** Deleting twice is deleting what either deletion dooms. */
  lemma {:induction false} KeepKeep<R>(rows: seq<R>, p: R -> bool, q: R -> bool, either: R -> bool)
    requires forall r :: r in rows ==> either(r) == (p(r) || q(r))
    ensures Keep(Keep(rows, p), q) == Keep(rows, either)
  {
    if rows != [] {
      assert rows[0] in rows && forall r :: r in rows[1..] ==> r in rows;
      KeepKeep(rows[1..], p, q, either);
      var rest := Keep(rows[1..], p);
      if !p(rows[0]) {
        assert ([rows[0]] + rest)[1..] == rest;
      }
    }
  }

  /** A deletion that takes blocks whole leaves exactly the other blocks. */
  lemma {:induction false} KeepBlocks<A, R>(c: seq<A>, f: A -> seq<R>, gone: A -> bool, doomed: R -> bool)
    requires forall a, r :: a in c && r in f(a) ==> doomed(r) == gone(a)
    ensures Keep(FlatMap(c, f), doomed) == FlatMap(Keep(c, gone), f)
  {
    if c != [] {
      assert c[0] in c && forall a :: a in c[1..] ==> a in c;
      KeepConcat(f(c[0]), FlatMap(c[1..], f), doomed);
      KeepBlocks(c[1..], f, gone, doomed);
      if gone(c[0]) {
        KeepNone(f(c[0]), doomed);
      } else {
        KeepAll(f(c[0]), doomed);
        FlatMapConcat([c[0]], Keep(c[1..], gone), f);
      }
    }
  }

  // Primary keys.

  /** No row of `rows` has the primary key of `r`. */
  predicate FreshKey<R, K(==)>(key: R -> Option<K>, r: R, rows: seq<R>) {
    key(r).Some? ==> forall i :: 0 <= i < |rows| ==> key(rows[i]) != key(r)
  }

  predicate KeysDistinct<R, K(==)>(key: R -> Option<K>, rows: seq<R>) {
    rows == [] || (FreshKey(key, rows[0], rows[1..]) && KeysDistinct(key, rows[1..]))
  }

  predicate Apart<R, K(==)>(key: R -> Option<K>, a: seq<R>, b: seq<R>) {
    forall i :: 0 <= i < |b| ==> FreshKey(key, b[i], a)
  }

  lemma FreshConcat<R, K>(key: R -> Option<K>, r: R, a: seq<R>, b: seq<R>)
    ensures FreshKey(key, r, a + b) <==> FreshKey(key, r, a) && FreshKey(key, r, b)
  {
    assert forall i :: 0 <= i < |a| ==> a[i] == (a + b)[i];
    assert forall i :: 0 <= i < |b| ==> b[i] == (a + b)[|a| + i];
  }

  lemma ApartCons<R, K>(key: R -> Option<K>, r: R, a: seq<R>, b: seq<R>)
    ensures Apart(key, [r] + a, b) <==> FreshKey(key, r, b) && Apart(key, a, b)
  {
    forall i | 0 <= i < |b|
      ensures FreshKey(key, b[i], [r] + a) <==> FreshKey(key, b[i], [r]) && FreshKey(key, b[i], a)
    {
      FreshConcat(key, b[i], [r], a);
    }
    assert [r][0] == r;
    if Apart(key, [r] + a, b) {
      forall i | 0 <= i < |b| && key(r).Some? ensures key(b[i]) != key(r) {
        assert FreshKey(key, b[i], [r]);
      }
    }
  }

  lemma {:induction false} KeysDistinctConcat<R, K>(key: R -> Option<K>, a: seq<R>, b: seq<R>)
    ensures KeysDistinct(key, a + b) <==> KeysDistinct(key, a) && KeysDistinct(key, b) && Apart(key, a, b)
  {
    if a == [] {
      assert a + b == b;
    } else {
      assert (a + b)[1..] == a[1..] + b;
      KeysDistinctConcat(key, a[1..], b);
      assert a == [a[0]] + a[1..];
      FreshConcat(key, a[0], a[1..], b);
      ApartCons(key, a[0], a[1..], b);
    }
  }

  lemma {:induction false} KeepKeysDistinct<R, K>(key: R -> Option<K>, rows: seq<R>, doomed: R -> bool)
    requires KeysDistinct(key, rows)
    ensures KeysDistinct(key, Keep(rows, doomed))
  {
    if rows != [] {
      KeepKeysDistinct(key, rows[1..], doomed);
      var rest := Keep(rows[1..], doomed);
      forall i | 0 <= i < |rest| && key(rows[0]).Some? ensures key(rest[i]) != key(rows[0]) {
        KeepMember(rows[1..], doomed, rest[i]);
        var j :| 0 <= j < |rows[1..]| && rows[1..][j] == rest[i];
      }
    }
  }

  /** Rows of two different blocks never share a primary key. */
  lemma {:induction false} BlocksApart<A, R, K>(
      key: R -> Option<K>, c: seq<A>, f: A -> seq<R>, i: nat, j: nat, x: R, y: R)
    requires KeysDistinct(key, FlatMap(c, f)) && i < j < |c|
    requires x in f(c[i]) && y in f(c[j]) && key(x).Some?
    ensures key(x) != key(y)
  {
    KeysDistinctConcat(key, f(c[0]), FlatMap(c[1..], f));
    if i == 0 {
      assert y in f(c[1..][j - 1]);
      FlatMapMember(c[1..], f, y);
      var k :| 0 <= k < |FlatMap(c[1..], f)| && FlatMap(c[1..], f)[k] == y;
      assert FreshKey(key, y, f(c[0]));
    } else {
      BlocksApart(key, c[1..], f, i - 1, j - 1, x, y);
    }
  }

  lemma {:induction false} ApartBlocks<A, R, K>(key: R -> Option<K>, rows: seq<R>, c: seq<A>, f: A -> seq<R>)
    ensures Apart(key, rows, FlatMap(c, f)) <==> forall i :: 0 <= i < |c| ==> Apart(key, rows, f(c[i]))
  {
    if c != [] {
      ApartBlocks(key, rows, c[1..], f);
      ApartConcat(key, rows, f(c[0]), FlatMap(c[1..], f));
      assert forall i :: 0 <= i < |c[1..]| ==> c[1..][i] == c[i + 1];
      if Apart(key, rows, f(c[0])) && Apart(key, rows, FlatMap(c[1..], f)) {
        forall i | 0 <= i < |c| ensures Apart(key, rows, f(c[i])) {
          if i > 0 { assert c[i] == c[1..][i - 1]; }
        }
      }
    }
  }

  lemma ApartConcat<R, K>(key: R -> Option<K>, rows: seq<R>, a: seq<R>, b: seq<R>)
    ensures Apart(key, rows, a + b) <==> Apart(key, rows, a) && Apart(key, rows, b)
  {
    assert forall i :: 0 <= i < |a| ==> a[i] == (a + b)[i];
    assert forall i :: 0 <= i < |b| ==> b[i] == (a + b)[|a| + i];
  }

  /** Blocks have no primary key twice exactly when no block has and no two of them share one. */
  lemma {:induction false} KeysDistinctBlocks<A, R, K>(key: R -> Option<K>, c: seq<A>, f: A -> seq<R>)
    ensures KeysDistinct(key, FlatMap(c, f)) <==>
      && (forall i :: 0 <= i < |c| ==> KeysDistinct(key, f(c[i])))
      && (forall i, j :: 0 <= i < j < |c| ==> Apart(key, f(c[i]), f(c[j])))
  {
    if c != [] {
      hide KeysDistinct, Apart;
      var rest := c[1..];
      KeysDistinctBlocks(key, rest, f);
      KeysDistinctConcat(key, f(c[0]), FlatMap(rest, f));
      ApartBlocks(key, f(c[0]), rest, f);
      assert forall i :: 0 <= i < |rest| ==> rest[i] == c[i + 1];
      if KeysDistinct(key, FlatMap(c, f)) {
        forall i | 0 <= i < |c| ensures KeysDistinct(key, f(c[i])) {
          if i > 0 { assert c[i] == rest[i - 1]; }
        }
        forall i, j | 0 <= i < j < |c| ensures Apart(key, f(c[i]), f(c[j])) {
          assert c[j] == rest[j - 1];
          if i > 0 { assert c[i] == rest[i - 1]; }
        }
      }
    }
  }

  /** Rows made one from each record have no primary key twice exactly when no two records give one key. */
  lemma {:induction false} KeysDistinctMap<A, R, K>(key: R -> Option<K>, s: seq<A>, f: A -> R)
    ensures KeysDistinct(key, Map(s, f)) <==>
      forall i, j :: 0 <= i < j < |s| && key(f(s[i])).Some? ==> key(f(s[i])) != key(f(s[j]))
  {
    if s != [] {
      var rest := s[1..];
      KeysDistinctMap(key, rest, f);
      MapAt(rest, f);
      assert forall i :: 0 <= i < |rest| ==> rest[i] == s[i + 1];
      assert Map(s, f)[1..] == Map(rest, f);
      if KeysDistinct(key, Map(s, f)) {
        forall i, j | 0 <= i < j < |s| && key(f(s[i])).Some? ensures key(f(s[i])) != key(f(s[j])) {
          assert s[j] == rest[j - 1] && Map(rest, f)[j - 1] == f(s[j]);
          if i > 0 { assert s[i] == rest[i - 1]; }
        }
      }
    }
  }

  /** A row's block is its own: the key finds at most one row in the whole table. */
  lemma {:induction false} KeyFindsOne<R, K>(key: R -> Option<K>, rows: seq<R>, i: nat, j: nat)
    requires KeysDistinct(key, rows) && i < |rows| && j < |rows|
    requires key(rows[i]).Some? && key(rows[i]) == key(rows[j])
    ensures i == j
  {
    if i > 0 && j > 0 {
      KeyFindsOne(key, rows[1..], i - 1, j - 1);
    }
  }

  // Insertion. `check` rejects a row before its key is looked at; `clash` reports a key already present.

  function InsertRow<R, K(==), E>(
      key: R -> Option<K>, check: R -> Option<E>, clash: R -> E, rows: seq<R>, r: R): Result<seq<R>, E>
  {
    if check(r).Some? then Err(check(r).value)
    else if !FreshKey(key, r, rows) then Err(clash(r))
    else Ok(rows + [r])
  }

  function InsertRows<R, K(==), E>(
      key: R -> Option<K>, check: R -> Option<E>, clash: R -> E, rows: seq<R>, more: seq<R>): Result<seq<R>, E>
    decreases |more|
  {
    if more == [] then Ok(rows)
    else
      var first := InsertRow(key, check, clash, rows, more[0]);
      if first.Err? then first else InsertRows(key, check, clash, first.value, more[1..])
  }

  predicate Insertable<R, K(==), E>(key: R -> Option<K>, check: R -> Option<E>, rows: seq<R>, more: seq<R>) {
    && (forall i :: 0 <= i < |more| ==> check(more[i]).None?)
    && KeysDistinct(key, more)
    && Apart(key, rows, more)
  }

  lemma ApartSnoc<R, K>(key: R -> Option<K>, rows: seq<R>, r: R, more: seq<R>)
    ensures Apart(key, rows + [r], more) <==> Apart(key, rows, more) && FreshKey(key, r, more)
  {
    forall i | 0 <= i < |more|
      ensures FreshKey(key, more[i], rows + [r]) <==> FreshKey(key, more[i], rows) && FreshKey(key, more[i], [r])
    {
      FreshConcat(key, more[i], rows, [r]);
    }
    assert [r][0] == r;
    if Apart(key, rows + [r], more) {
      forall i | 0 <= i < |more| && key(r).Some? ensures key(more[i]) != key(r) {
        assert FreshKey(key, more[i], [r]);
      }
    }
  }

  /** A list of rows goes in exactly when every row passes and no key is met twice. */
  lemma {:induction false} InsertRowsOutcome<R, K, E>(
      key: R -> Option<K>, check: R -> Option<E>, clash: R -> E, rows: seq<R>, more: seq<R>)
    ensures InsertRows(key, check, clash, rows, more).Ok? <==> Insertable(key, check, rows, more)
    ensures InsertRows(key, check, clash, rows, more).Ok? ==>
      InsertRows(key, check, clash, rows, more).value == rows + more
    decreases |more|
  {
    if more == [] {
      assert rows + more == rows;
    } else {
      var r := more[0];
      assert more == [r] + more[1..];
      assert forall i :: 0 <= i < |more[1..]| ==> more[1..][i] == more[i + 1];
      assert Apart(key, rows, more) <==> FreshKey(key, r, rows) && Apart(key, rows, more[1..]) by {
        if FreshKey(key, r, rows) && Apart(key, rows, more[1..]) {
          forall i | 0 <= i < |more| ensures FreshKey(key, more[i], rows) {
            if i > 0 { assert more[i] == more[1..][i - 1]; }
          }
        }
      }
      if InsertRow(key, check, clash, rows, r).Ok? {
        InsertRowsOutcome(key, check, clash, rows + [r], more[1..]);
        assert rows + [r] + more[1..] == rows + more;
        ApartSnoc(key, rows, r, more[1..]);
        assert (forall i :: 0 <= i < |more| ==> check(more[i]).None?)
          <==> (forall i :: 0 <= i < |more[1..]| ==> check(more[1..][i]).None?) by {
          if forall i :: 0 <= i < |more[1..]| ==> check(more[1..][i]).None? {
            forall i | 0 <= i < |more| ensures check(more[i]).None? {
              if i > 0 { assert more[i] == more[1..][i - 1]; }
            }
          }
        }
      }
    }
  }

  // Rows that come in a fixed number of parts.

  function Joined<R>(part: nat -> seq<R>, k: nat, n: nat): seq<R>
    decreases n - k
  {
    if k >= n then [] else part(k) + Joined(part, k + 1, n)
  }

  lemma {:induction false} JoinedMember<R>(part: nat -> seq<R>, k: nat, n: nat, r: R)
    ensures r in Joined(part, k, n) <==> exists j: nat :: k <= j < n && r in part(j)
    decreases n - k
  {
    if k < n {
      JoinedMember(part, k + 1, n, r);
      var rest := Joined(part, k + 1, n);
      assert r in part(k) + rest <==> r in part(k) || r in rest;
      if j: nat :| k <= j < n && r in part(j) {
        assert j == k || k + 1 <= j;
      }
    }
  }

  lemma {:induction false} JoinedSelect<R, T>(part: nat -> seq<R>, k: nat, n: nat, j: nat, f: R -> Option<T>)
    requires j < n
    requires forall i: nat, r :: i != j && r in part(i) ==> f(r) == None
    ensures FilterMap(Joined(part, k, n), f) == if k <= j then FilterMap(part(j), f) else []
    decreases n - k
  {
    if k < n {
      FilterMapConcat(part(k), Joined(part, k + 1, n), f);
      JoinedSelect(part, k + 1, n, j, f);
      if k != j {
        FilterMapNothing(part(k), f);
      }
    }
  }
}
