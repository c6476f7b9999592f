/** Sorting by a strict order, as Python's sorted and list.sort use it, and the fact that
    makes the diff deterministic: a strictly ascending list is determined by its elements. */
module Ordering {

  ghost predicate Ascending<T(!new)>(s: seq<T>, lt: (T, T) -> bool) {
    forall i, j | 0 <= i < j < |s| :: lt(s[i], s[j])
  }

  /** lt behaves as a strict total order on the elements of s. */
  ghost predicate Orders<T(!new)>(lt: (T, T) -> bool, s: set<T>) {
    && (forall x | x in s :: !lt(x, x))
    && (forall x, y | x in s && y in s :: x == y || lt(x, y) || lt(y, x))
    && (forall x, y, z | x in s && y in s && z in s && lt(x, y) && lt(y, z) :: lt(x, z))
  }

  function Elements<T>(s: seq<T>): set<T> { set x | x in s }

  ghost predicate Distinct<T(!new)>(s: seq<T>) {
    forall i, j | 0 <= i < j < |s| :: s[i] != s[j]
  }

  lemma ElementsSnoc<T>(s: seq<T>, x: T)
    ensures Elements(s + [x]) == Elements(s) + {x}
  {}

  function Insert<T>(x: T, s: seq<T>, lt: (T, T) -> bool): seq<T> {
    if s == [] || lt(x, s[0]) then [x] + s else [s[0]] + Insert(x, s[1..], lt)
  }

  function SortBy<T>(s: seq<T>, lt: (T, T) -> bool): seq<T> {
    if s == [] then [] else Insert(s[0], SortBy(s[1..], lt), lt)
  }

  lemma {:induction false} InsertElements<T(!new)>(x: T, s: seq<T>, lt: (T, T) -> bool)
    ensures Elements(Insert(x, s, lt)) == Elements(s) + {x}
  {
    if s != [] && !lt(x, s[0]) {
      InsertElements(x, s[1..], lt);
      assert s == [s[0]] + s[1..];
      assert Elements(s) == {s[0]} + Elements(s[1..]);
      assert Elements(Insert(x, s, lt)) == {s[0]} + Elements(Insert(x, s[1..], lt));
    }
  }

  lemma {:induction false} InsertAscending<T(!new)>(x: T, s: seq<T>, lt: (T, T) -> bool)
    requires Orders(lt, Elements(s) + {x}) && Ascending(s, lt) && x !in s
    ensures Ascending(Insert(x, s, lt), lt)
  {
    if s != [] {
      if lt(x, s[0]) {
        forall j | 0 <= j < |s| ensures lt(x, s[j]) {}
      } else {
        var rest := s[1..];
        assert Elements(rest) <= Elements(s);
        InsertAscending(x, rest, lt);
        InsertElements(x, rest, lt);
        var r := Insert(x, rest, lt);
        forall j | 0 <= j < |r| ensures lt(s[0], r[j]) {
          assert r[j] in Elements(r);
        }
      }
    }
  }

  /** Sorting distinct comparable elements gives the ascending list of the same elements. */
  lemma {:induction false} SortByAscending<T(!new)>(s: seq<T>, lt: (T, T) -> bool)
    requires Orders(lt, Elements(s)) && Distinct(s)
    ensures Ascending(SortBy(s, lt), lt)
    ensures Elements(SortBy(s, lt)) == Elements(s)
  {
    if s != [] {
      var rest := s[1..];
      assert Elements(s) == {s[0]} + Elements(rest);
      SortByAscending(rest, lt);
      var sorted := SortBy(rest, lt);
      assert s[0] !in Elements(sorted);
      InsertAscending(s[0], sorted, lt);
      InsertElements(s[0], sorted, lt);
    }
  }

  /** Two ascending lists with the same elements are the same list. */
  lemma {:induction false} AscendingUnique<T(!new)>(s: seq<T>, t: seq<T>, lt: (T, T) -> bool)
    requires Orders(lt, Elements(s))
    requires Ascending(s, lt) && Ascending(t, lt)
    requires Elements(s) == Elements(t)
    ensures s == t
  {
    assert s != [] ==> s[0] in Elements(t);
    assert t != [] ==> t[0] in Elements(s);
    if s != [] {
      var i :| 0 <= i < |t| && t[i] == s[0];
      var j :| 0 <= j < |s| && s[j] == t[0];
      assert s[0] == t[0];
      var s1, t1 := s[1..], t[1..];
      assert Elements(s) == Elements(s1) + {s[0]} && Elements(t) == Elements(t1) + {t[0]};
      forall x ensures x in Elements(s1) <==> x in Elements(t1) {
        if x in Elements(s1) { assert lt(s[0], x) && x != s[0]; }
        if x in Elements(t1) { assert lt(t[0], x); assert x in Elements(s); assert x != s[0]; }
      }
      AscendingUnique(s1, t1, lt);
      assert s == [s[0]] + s1 && t == [t[0]] + t1;
    }
  }

  /** Code point order on strings, Python's `<` on str. */
  predicate LexLess(a: string, b: string) {
    b != [] && (a == [] || a[0] < b[0] || (a[0] == b[0] && LexLess(a[1..], b[1..])))
  }

  lemma {:induction false} LexTotal(a: string, b: string)
    ensures !LexLess(a, a)
    ensures a == b || LexLess(a, b) || LexLess(b, a)
  {
    if a != [] {
      LexTotal(a[1..], if b == [] then [] else b[1..]);
      if b != [] && a[0] == b[0] && a[1..] == b[1..] {
        assert a == [a[0]] + a[1..] == b;
      }
    }
  }

  lemma {:induction false} LexTransitive(a: string, b: string, c: string)
    requires LexLess(a, b) && LexLess(b, c)
    ensures LexLess(a, c)
  {
    if a != [] && a[0] == b[0] && b[0] == c[0] {
      LexTransitive(a[1..], b[1..], c[1..]);
    }
  }

  lemma LexOrders(s: set<string>)
    ensures Orders(LexLess, s)
  {
    forall x, y { LexTotal(x, y); }
    forall x, y, z | LexLess(x, y) && LexLess(y, z) ensures LexLess(x, z) { LexTransitive(x, y, z); }
  }

  predicate IsLeast(keys: set<string>, k: string) {
    k in keys && forall j | j in keys :: j == k || LexLess(k, j)
  }

  lemma {:induction false} LeastExists(keys: set<string>) returns (k: string)
    requires keys != {}
    ensures IsLeast(keys, k)
  {
    hide LexLess;
    k :| k in keys;
    if keys != {k} {
      assert keys - {k} != {};
      var m := LeastExists(keys - {k});
      LexTotal(k, m);
      if LexLess(m, k) {
        k := m;
      } else {
        forall j | j in keys && j != k ensures LexLess(k, j) { if j != m { LexTransitive(k, m, j); } }
      }
    }
  }

  lemma LeastUnique(keys: set<string>)
    requires keys != {}
    ensures exists k :: k in keys && IsLeast(keys, k)
    ensures forall k, k' | IsLeast(keys, k) && IsLeast(keys, k') :: k == k'
  {
    hide LexLess;
    var k := LeastExists(keys);
    LexOrders(keys);
  }

  lemma LeastFirst(keys: set<string>, k: string, rest: seq<string>)
    requires IsLeast(keys, k) && Ascending(rest, LexLess) && Elements(rest) == keys - {k}
    ensures Ascending([k] + rest, LexLess) && Elements([k] + rest) == keys
  {
    hide LexLess;
    assert forall i | 0 <= i < |rest| :: rest[i] in Elements(rest);
    assert Elements([k] + rest) == {k} + Elements(rest);
  }

  /** sorted(keys): the ascending list of a finite set of strings. */
  function SortedKeys(keys: set<string>): (r: seq<string>)
    ensures Ascending(r, LexLess) && Elements(r) == keys
  {
    hide LexLess;
    hide IsLeast;
    if keys == {} then []
    else
      LeastUnique(keys);
      var k :| k in keys && IsLeast(keys, k);
      LeastFirst(keys, k, SortedKeys(keys - {k}));
      [k] + SortedKeys(keys - {k})
  }
}
