/** Keyed comparison of two row lists (`_diff_list`). */
module ListDiff {
  import opened Json
  import opened Ordering
  import opened FieldDiff

  type Key = Dict -> string

  datatype Item = Item(key: string, changes: seq<Change>)
  datatype Reorder = Reorder(key: string, oldIndex: nat, newIndex: nat)
  datatype SectionDiff = SectionDiff(
    added: seq<Dict>, removed: seq<Dict>, modified: seq<Item>, reordered: seq<Reorder>, unchangedCount: nat)

  /** {key(row): row for row in rows}: the last row with a key wins. */
  function ByKey(rows: seq<Dict>, key: Key): map<string, Dict> {
    if rows == [] then map[]
    else ByKey(rows[..|rows| - 1], key)[key(rows[|rows| - 1]) := rows[|rows| - 1]]
  }

  /** {key(row): i for i, row in enumerate(rows)}: the last index wins. */
  function IndexByKey(rows: seq<Dict>, key: Key): map<string, nat> {
    if rows == [] then map[]
    else IndexByKey(rows[..|rows| - 1], key)[key(rows[|rows| - 1]) := |rows| - 1]
  }

  /** i is the position of the last row with key k. */
  ghost predicate LastAt(rows: seq<Dict>, key: Key, k: string, i: nat) {
    i < |rows| && key(rows[i]) == k && forall j | i < j < |rows| :: key(rows[j]) != k
  }

  /** Both tables hold exactly the keys of the list, and point at the last row of each. */
  lemma {:induction false} ByKeyIsLast(rows: seq<Dict>, key: Key, k: string)
    ensures k in ByKey(rows, key) <==> exists i | 0 <= i < |rows| :: key(rows[i]) == k
    ensures k in IndexByKey(rows, key) <==> k in ByKey(rows, key)
    ensures k in ByKey(rows, key) ==>
      && LastAt(rows, key, k, IndexByKey(rows, key)[k])
      && ByKey(rows, key)[k] == rows[IndexByKey(rows, key)[k]]
  {
    if rows != [] {
      var n := |rows| - 1;
      ByKeyIsLast(rows[..n], key, k);
      if key(rows[n]) != k && k in ByKey(rows[..n], key) {
        assert rows[IndexByKey(rows[..n], key)[k]] == rows[..n][IndexByKey(rows[..n], key)[k]];
      }
    }
  }

  /** Every row is filed under its own key. */
  ghost predicate Filed(m: map<string, Dict>, key: Key) {
    forall k | k in m :: key(m[k]) == k
  }

  lemma ByKeyFiled(rows: seq<Dict>, key: Key)
    ensures Filed(ByKey(rows, key), key)
  {
    forall k | k in ByKey(rows, key) ensures key(ByKey(rows, key)[k]) == k { ByKeyIsLast(rows, key, k); }
  }

  function Rows(rowOf: map<string, Dict>, keys: seq<string>): seq<Dict>
    requires forall k | k in keys :: k in rowOf
  {
    seq(|keys|, i requires 0 <= i < |keys| => rowOf[keys[i]])
  }

  function ModifiedKeys(aBy: map<string, Dict>, bBy: map<string, Dict>): set<string> {
    set k | k in aBy && k in bBy && FieldChanges(aBy[k], bBy[k]) != []
  }

  function Items(aBy: map<string, Dict>, bBy: map<string, Dict>, keys: seq<string>): seq<Item>
    requires forall k | k in keys :: k in aBy && k in bBy
  {
    seq(|keys|, i requires 0 <= i < |keys| => Item(keys[i], FieldChanges(aBy[keys[i]], bBy[keys[i]])))
  }

  predicate Moved(aIndex: map<string, nat>, bIndex: map<string, nat>, k: string) {
    k in aIndex && k in bIndex && aIndex[k] != bIndex[k]
  }

  /** The moved rows met while walking the first n positions of the new list. */
  function Reorders(aIndex: map<string, nat>, bIndex: map<string, nat>, b: seq<Dict>, key: Key, n: nat): seq<Reorder>
    requires n <= |b|
  {
    if n == 0 then []
    else
      var k := key(b[n - 1]);
      Reorders(aIndex, bIndex, b, key, n - 1) +
      (if Moved(aIndex, bIndex, k) && bIndex[k] == n - 1 then [Reorder(k, aIndex[k], n - 1)] else [])
  }

  /** The part of the diff that depends only on the two keyed tables. */
  function DiffTables(aBy: map<string, Dict>, bBy: map<string, Dict>): SectionDiff {
    var changed := ModifiedKeys(aBy, bBy);
    KeysIn(bBy.Keys - aBy.Keys);
    KeysIn(aBy.Keys - bBy.Keys);
    KeysIn(changed);
    SectionDiff(
      Rows(bBy, SortedKeys(bBy.Keys - aBy.Keys)),
      Rows(aBy, SortedKeys(aBy.Keys - bBy.Keys)),
      Items(aBy, bBy, SortedKeys(changed)),
      [],
      |aBy.Keys * bBy.Keys - changed|)
  }

  /** `_diff_list`. */
  function DiffList(a: seq<Dict>, b: seq<Dict>, key: Key, ordered: bool): SectionDiff {
    DiffTables(ByKey(a, key), ByKey(b, key)).(
      reordered := if ordered then Reorders(IndexByKey(a, key), IndexByKey(b, key), b, key, |b|) else [])
  }

  lemma KeysIn(s: set<string>)
    ensures forall k :: k in SortedKeys(s) <==> k in s
  {
    forall k ensures k in SortedKeys(s) <==> k in s { assert k in SortedKeys(s) <==> k in Elements(SortedKeys(s)); }
  }

  /** Lists of distinct elements have as many elements as their set. */
  lemma {:induction false} DistinctSize<T(!new)>(s: seq<T>)
    requires Distinct(s)
    ensures |Elements(s)| == |s|
  {
    if s != [] {
      var n := |s| - 1;
      DistinctSize(s[..n]);
      assert s == s[..n] + [s[n]];
      ElementsSnoc(s[..n], s[n]);
    }
  }

  lemma SortedKeysSize(keys: set<string>)
    ensures Distinct(SortedKeys(keys)) && |SortedKeys(keys)| == |keys|
  {
    var s := SortedKeys(keys);
    LexOrders(keys);
    forall i, j | 0 <= i < j < |s| ensures s[i] != s[j] {
      assert s[i] in Elements(s) && LexLess(s[i], s[j]);
    }
    DistinctSize(s);
  }

  lemma PartSize<T>(whole: set<T>, x: set<T>, y: set<T>)
    requires whole == x + y && x !! y
    ensures |whole| == |x| + |y|
  {}

  lemma DiffSizes(aBy: map<string, Dict>, bBy: map<string, Dict>)
    ensures var d := DiffTables(aBy, bBy);
      && |d.added| == |bBy.Keys - aBy.Keys|
      && |d.removed| == |aBy.Keys - bBy.Keys|
      && |d.modified| == |ModifiedKeys(aBy, bBy)|
  {
    SortedKeysSize(bBy.Keys - aBy.Keys);
    SortedKeysSize(aBy.Keys - bBy.Keys);
    SortedKeysSize(ModifiedKeys(aBy, bBy));
  }

  lemma KeySizes(A: set<string>, B: set<string>, changed: set<string>)
    requires changed <= A * B
    ensures |A * B - changed| + |changed| + |A - B| == |A|
    ensures |A * B - changed| + |changed| + |B - A| == |B|
  {
    PartSize(A * B, A * B - changed, changed);
    PartSize(A, A * B, A - B);
    PartSize(B, A * B, B - A);
  }

  /** Every distinct key of either side is counted exactly once. */
  lemma CountsPartitionKeys(aBy: map<string, Dict>, bBy: map<string, Dict>)
    ensures var d := DiffTables(aBy, bBy);
      && d.unchangedCount + |d.modified| + |d.removed| == |aBy.Keys|
      && d.unchangedCount + |d.modified| + |d.added| == |bBy.Keys|
  {
    DiffSizes(aBy, bBy);
    KeySizes(aBy.Keys, bBy.Keys, ModifiedKeys(aBy, bBy));
  }

  lemma RowsMember(rowOf: map<string, Dict>, s: set<string>, key: Key, r: Dict)
    requires s <= rowOf.Keys && Filed(rowOf, key)
    ensures forall k | k in SortedKeys(s) :: k in rowOf
    ensures r in Rows(rowOf, SortedKeys(s)) <==> key(r) in s && rowOf[key(r)] == r
  {
    KeysIn(s);
    var keys := SortedKeys(s);
    var rows := Rows(rowOf, keys);
    if r in rows {
      var i :| 0 <= i < |rows| && rows[i] == r;
      assert keys[i] in s;
    }
    if key(r) in s && rowOf[key(r)] == r {
      var i :| 0 <= i < |keys| && keys[i] == key(r);
      assert rows[i] == r;
    }
  }

  lemma AddedMember(aBy: map<string, Dict>, bBy: map<string, Dict>, key: Key, r: Dict)
    requires Filed(bBy, key)
    ensures r in DiffTables(aBy, bBy).added <==> key(r) in bBy && key(r) !in aBy && bBy[key(r)] == r
  {
    RowsMember(bBy, bBy.Keys - aBy.Keys, key, r);
  }

  lemma RemovedMember(aBy: map<string, Dict>, bBy: map<string, Dict>, key: Key, r: Dict)
    requires Filed(aBy, key)
    ensures r in DiffTables(aBy, bBy).removed <==> key(r) in aBy && key(r) !in bBy && aBy[key(r)] == r
  {
    RowsMember(aBy, aBy.Keys - bBy.Keys, key, r);
  }

  ghost predicate IsModified(aBy: map<string, Dict>, bBy: map<string, Dict>, x: Item) {
    && x.key in aBy && x.key in bBy
    && x.changes == FieldChanges(aBy[x.key], bBy[x.key]) && x.changes != []
  }

  lemma ModifiedMember(aBy: map<string, Dict>, bBy: map<string, Dict>, x: Item)
    ensures x in DiffTables(aBy, bBy).modified <==> IsModified(aBy, bBy, x)
  {
    hide FieldChanges;
    var changed := ModifiedKeys(aBy, bBy);
    KeysIn(changed);
    var keys := SortedKeys(changed);
    var items := Items(aBy, bBy, keys);
    if x in items {
      var i :| 0 <= i < |items| && items[i] == x;
      assert keys[i] == x.key && keys[i] in changed;
    }
    if IsModified(aBy, bBy, x) {
      assert x.key in keys;
      var i :| 0 <= i < |keys| && keys[i] == x.key;
      assert items[i] == x;
    }
  }

  ghost function ChangesFor(items: seq<Item>, k: string): seq<Change> {
    if items == [] then [] else if items[0].key == k then items[0].changes else ChangesFor(items[1..], k)
  }

  lemma {:induction false} ChangesForKey(items: seq<Item>, k: string, cs: seq<Change>)
    requires forall x | x in items && x.key == k :: x.changes == cs
    ensures ChangesFor(items, k) == if exists x :: x in items && x.key == k then cs else []
  {
    if items != [] {
      ChangesForKey(items[1..], k, cs);
      assert items == [items[0]] + items[1..];
    }
  }

  /** The new table as the diff gives it: removed keys dropped, changed rows patched, added rows put in. */
  ghost function Rebuild(aBy: map<string, Dict>, d: SectionDiff, key: Key): map<string, Dict> {
    var gone := ByKey(d.removed, key).Keys;
    (map k | k in aBy && k !in gone :: ApplyAfter(aBy[k], ChangesFor(d.modified, k))) + ByKey(d.added, key)
  }

  lemma RebuildCommon(aBy: map<string, Dict>, bBy: map<string, Dict>, k: string)
    requires k in aBy && k in bBy
    ensures Agree(ApplyAfter(aBy[k], ChangesFor(DiffTables(aBy, bBy).modified, k)), bBy[k])
  {
    hide FieldChanges;
    hide ApplyAfter;
    hide DiffTables;
    hide Agree;
    var cs, items := FieldChanges(aBy[k], bBy[k]), DiffTables(aBy, bBy).modified;
    forall x ensures x in items <==> IsModified(aBy, bBy, x) { ModifiedMember(aBy, bBy, x); }
    ChangesForKey(items, k, cs);
    assert IsModified(aBy, bBy, Item(k, cs)) <==> cs != [];
    FieldChangesDistinct(aBy[k], bBy[k]);
    DiffIsExactPatch(aBy[k], bBy[k], cs);
  }

  /** The diff rebuilds the new table: the same keys, and every row equal up to None against missing. */
  lemma DiffRebuildsNewTable(aBy: map<string, Dict>, bBy: map<string, Dict>, key: Key, k: string)
    requires Filed(aBy, key) && Filed(bBy, key)
    ensures var built := Rebuild(aBy, DiffTables(aBy, bBy), key);
      (k in built <==> k in bBy) && (k in bBy ==> Agree(built[k], bBy[k]))
  {
    var d := DiffTables(aBy, bBy);
    TableOfAdded(aBy, bBy, key, k);
    TableOfRemoved(aBy, bBy, key, k);
    if k in aBy && k in bBy { RebuildCommon(aBy, bBy, k); }
  }

  lemma TableOfAdded(aBy: map<string, Dict>, bBy: map<string, Dict>, key: Key, k: string)
    requires Filed(bBy, key)
    ensures var t := ByKey(DiffTables(aBy, bBy).added, key);
      (k in t <==> k in bBy && k !in aBy) && (k in t ==> t[k] == bBy[k])
  {
    var rows := DiffTables(aBy, bBy).added;
    ByKeyIsLast(rows, key, k);
    forall r | r in rows ensures key(r) in bBy && key(r) !in aBy && bBy[key(r)] == r { AddedMember(aBy, bBy, key, r); }
    if k in bBy && k !in aBy {
      AddedMember(aBy, bBy, key, bBy[k]);
      var i :| 0 <= i < |rows| && rows[i] == bBy[k];
      assert key(rows[i]) == k;
    }
  }

  lemma TableOfRemoved(aBy: map<string, Dict>, bBy: map<string, Dict>, key: Key, k: string)
    requires Filed(aBy, key)
    ensures k in ByKey(DiffTables(aBy, bBy).removed, key) <==> k in aBy && k !in bBy
  {
    var rows := DiffTables(aBy, bBy).removed;
    ByKeyIsLast(rows, key, k);
    forall r | r in rows ensures key(r) in aBy && key(r) !in bBy { RemovedMember(aBy, bBy, key, r); }
    if k in aBy && k !in bBy {
      RemovedMember(aBy, bBy, key, aBy[k]);
      var i :| 0 <= i < |rows| && rows[i] == aBy[k];
      assert key(rows[i]) == k;
    }
  }

  ghost predicate IsReorder(aIndex: map<string, nat>, bIndex: map<string, nat>, r: Reorder) {
    Moved(aIndex, bIndex, r.key) && r.oldIndex == aIndex[r.key] && r.newIndex == bIndex[r.key]
  }

  lemma {:induction false} ReordersMember(
    aIndex: map<string, nat>, bIndex: map<string, nat>, b: seq<Dict>, key: Key, n: nat, r: Reorder)
    requires n <= |b|
    requires IndexFits(bIndex, b, key)
    ensures r in Reorders(aIndex, bIndex, b, key, n) <==> IsReorder(aIndex, bIndex, r) && r.newIndex < n
  {
    if n > 0 { ReordersMember(aIndex, bIndex, b, key, n - 1, r); }
  }

  predicate ByNewIndex(x: Reorder, y: Reorder) { x.newIndex < y.newIndex }

  lemma {:induction false} ReordersAscending(
    aIndex: map<string, nat>, bIndex: map<string, nat>, b: seq<Dict>, key: Key, n: nat)
    requires n <= |b|
    ensures Ascending(Reorders(aIndex, bIndex, b, key, n), ByNewIndex)
    ensures forall r | r in Reorders(aIndex, bIndex, b, key, n) :: r.newIndex < n
  {
    if n > 0 { ReordersAscending(aIndex, bIndex, b, key, n - 1); }
  }

  ghost predicate DistinctKeys(rows: seq<Dict>, key: Key) {
    forall i, j | 0 <= i < j < |rows| :: key(rows[i]) != key(rows[j])
  }

  ghost function KeySeq(rows: seq<Dict>, key: Key): seq<string> {
    seq(|rows|, i requires 0 <= i < |rows| => key(rows[i]))
  }

  ghost predicate IndexFits(m: map<string, nat>, rows: seq<Dict>, key: Key) {
    forall k | k in m :: m[k] < |rows| && key(rows[m[k]]) == k
  }

  lemma IndexBounds(rows: seq<Dict>, key: Key)
    ensures IndexFits(IndexByKey(rows, key), rows, key)
  {
    var m := IndexByKey(rows, key);
    forall k | k in m ensures m[k] < |rows| && key(rows[m[k]]) == k { ByKeyIsLast(rows, key, k); }
  }

  lemma IndexOfRow(rows: seq<Dict>, key: Key, i: nat)
    requires i < |rows| && DistinctKeys(rows, key)
    ensures key(rows[i]) in IndexByKey(rows, key) && IndexByKey(rows, key)[key(rows[i])] == i
  {
    ByKeyIsLast(rows, key, key(rows[i]));
  }

  lemma SizeIsKeyCount(rows: seq<Dict>, key: Key)
    requires DistinctKeys(rows, key)
    ensures |rows| == |IndexByKey(rows, key).Keys|
  {
    var ks := KeySeq(rows, key);
    DistinctSize(ks);
    forall k ensures k in Elements(ks) <==> k in IndexByKey(rows, key) {
      ByKeyIsLast(rows, key, k);
      if i :| 0 <= i < |rows| && key(rows[i]) == k { assert ks[i] == k; }
    }
    assert Elements(ks) == IndexByKey(rows, key).Keys;
  }

  ghost predicate SameKeys(xs: seq<Dict>, ys: seq<Dict>, key: Key) {
    DistinctKeys(xs, key) && DistinctKeys(ys, key) && IndexByKey(xs, key).Keys == IndexByKey(ys, key).Keys
  }

  /** The row that now sits where a moved row was has moved too. */
  lemma Counterpart(xs: seq<Dict>, ys: seq<Dict>, key: Key, k: string)
    requires SameKeys(xs, ys, key) && Moved(IndexByKey(xs, key), IndexByKey(ys, key), k)
    ensures var i := IndexByKey(xs, key)[k];
      i < |ys| && Moved(IndexByKey(xs, key), IndexByKey(ys, key), key(ys[i])) && IndexByKey(ys, key)[key(ys[i])] == i
  {
    SizeIsKeyCount(xs, key);
    SizeIsKeyCount(ys, key);
    IndexBounds(xs, key);
    IndexBounds(ys, key);
    IndexOfRow(ys, key, IndexByKey(xs, key)[k]);
  }

  lemma ReorderedMember(a: seq<Dict>, b: seq<Dict>, key: Key, r: Reorder)
    ensures r in DiffList(a, b, key, true).reordered <==> IsReorder(IndexByKey(a, key), IndexByKey(b, key), r)
  {
    IndexBounds(b, key);
    ReordersMember(IndexByKey(a, key), IndexByKey(b, key), b, key, |b|, r);
  }

  /** Between two duplicate-free lists over the same keys the reorder events permute positions:
      an index some row left is an index some row arrived at, and conversely. */
  lemma ReordersPermute(a: seq<Dict>, b: seq<Dict>, key: Key, i: nat)
    requires SameKeys(a, b, key)
    ensures var rs := DiffList(a, b, key, true).reordered;
      (exists r :: r in rs && r.oldIndex == i) <==> (exists r :: r in rs && r.newIndex == i)
  {
    var aIndex, bIndex := IndexByKey(a, key), IndexByKey(b, key);
    var rs := DiffList(a, b, key, true).reordered;
    if r :| r in rs && r.oldIndex == i {
      ReorderedMember(a, b, key, r);
      Counterpart(a, b, key, r.key);
      var k := key(b[i]);
      ReorderedMember(a, b, key, Reorder(k, aIndex[k], i));
    }
    if r :| r in rs && r.newIndex == i {
      ReorderedMember(a, b, key, r);
      Counterpart(b, a, key, r.key);
      var k := key(a[i]);
      ReorderedMember(a, b, key, Reorder(k, i, bIndex[k]));
    }
  }

  /** ... and there are none exactly when the two orders agree. */
  lemma NoReorderIffSameOrder(a: seq<Dict>, b: seq<Dict>, key: Key)
    requires SameKeys(a, b, key)
    ensures DiffList(a, b, key, true).reordered == [] <==> KeySeq(a, key) == KeySeq(b, key)
  {
    hide DiffTables;
    hide Reorders;
    hide IndexByKey;
    var aIndex, bIndex := IndexByKey(a, key), IndexByKey(b, key);
    var rs := DiffList(a, b, key, true).reordered;
    if rs != [] && KeySeq(a, key) == KeySeq(b, key) {
      ReorderedMember(a, b, key, rs[0]);
      IndexBounds(a, key);
      assert KeySeq(b, key)[rs[0].oldIndex] == rs[0].key;
      IndexOfRow(b, key, rs[0].oldIndex);
    }
    if rs == [] {
      SizeIsKeyCount(a, key);
      SizeIsKeyCount(b, key);
      forall i | 0 <= i < |a| ensures key(a[i]) == key(b[i]) {
        var k := key(a[i]);
        IndexOfRow(a, key, i);
        IndexBounds(b, key);
        ReorderedMember(a, b, key, Reorder(k, i, bIndex[k]));
      }
    }
  }

  /** sort(key=...) on a list of distinct rows gives the ascending list of those rows. */
  lemma SortGives<T(!new)>(s: seq<T>, t: seq<T>, lt: (T, T) -> bool)
    requires Distinct(s) && Elements(s) == Elements(t) && Orders(lt, Elements(s)) && Ascending(t, lt)
    ensures SortBy(s, lt) == t
  {
    SortByAscending(s, lt);
    AscendingUnique(SortBy(s, lt), t, lt);
  }

  function ByRowKey(key: Key): (Dict, Dict) -> bool { (x: Dict, y: Dict) => LexLess(key(x), key(y)) }

  /** [m[k] for k in s], in whatever order the set is walked, then sorted by key. */
  method CollectSorted(m: map<string, Dict>, s: set<string>, key: Key) returns (rows: seq<Dict>)
    requires s <= m.Keys && Filed(m, key)
    ensures (forall k | k in SortedKeys(s) :: k in m) && rows == Rows(m, SortedKeys(s))
  {
    hide SortedKeys;
    var todo := s;
    rows := [];
    while todo != {}
      invariant todo <= s && Distinct(rows)
      invariant forall r :: r in rows <==> key(r) in s - todo && m[key(r)] == r
      decreases todo
    {
      var k :| k in todo;
      rows, todo := rows + [m[k]], todo - {k};
    }
    SortRows(m, s, key, rows);
    rows := SortBy(rows, ByRowKey(key));
  }

  lemma SortRows(m: map<string, Dict>, s: set<string>, key: Key, rows: seq<Dict>)
    requires s <= m.Keys && Filed(m, key) && Distinct(rows)
    requires forall r :: r in rows <==> key(r) in s && m[key(r)] == r
    ensures forall k | k in SortedKeys(s) :: k in m
    ensures SortBy(rows, ByRowKey(key)) == Rows(m, SortedKeys(s))
  {
    hide LexLess;
    hide SortBy;
    KeysIn(s);
    var goal := Rows(m, SortedKeys(s));
    forall r ensures r in Elements(goal) <==> r in Elements(rows) { RowsMember(m, s, key, r); }
    LexOrders(s);
    SortGives(rows, goal, ByRowKey(key));
  }

  /** The loop over the common keys: changed rows, unchanged rows, moved rows. */
  method CompareCommon(aBy: map<string, Dict>, bBy: map<string, Dict>, aIndex: map<string, nat>,
                       bIndex: map<string, nat>, ordered: bool)
    returns (modified: seq<Item>, reordered: seq<Reorder>, unchangedCount: nat)
    requires aIndex.Keys == aBy.Keys && bIndex.Keys == bBy.Keys
    ensures ModifiedOutside(aBy, bBy, {}, modified)
    ensures ReorderedOutside(aIndex, bIndex, ordered, {}, reordered)
    ensures unchangedCount == |aBy.Keys * bBy.Keys - ModifiedKeys(aBy, bBy)|
  {
    var todo := aBy.Keys * bBy.Keys;
    ghost var all := todo;
    ghost var changed := ModifiedKeys(aBy, bBy);
    modified, reordered, unchangedCount := [], [], 0;
    while todo != {}
      invariant todo <= all
      invariant ModifiedOutside(aBy, bBy, todo, modified)
      invariant ReorderedOutside(aIndex, bIndex, ordered, todo, reordered)
      invariant unchangedCount == |all - todo - changed|
      decreases todo
    {
      var k :| k in todo;
      var changes := CompareFields(aBy[k], bBy[k], []);
      PrefixedNone(FieldChanges(aBy[k], bBy[k]));
      CountStep(all, todo, changed, k);
      ModifiedStep(aBy, bBy, todo, modified, k, changes);
      ReorderedStep(aIndex, bIndex, ordered, todo, reordered, k);
      todo := todo - {k};
      if changes != [] {
        modified := modified + [Item(k, changes)];
      } else {
        unchangedCount := unchangedCount + 1;
      }
      if ordered && aIndex[k] != bIndex[k] {
        reordered := reordered + [Reorder(k, aIndex[k], bIndex[k])];
      }
    }
  }

  /** The items found so far: every changed row whose key has been visited, once. */
  ghost predicate ModifiedOutside(aBy: map<string, Dict>, bBy: map<string, Dict>, todo: set<string>, items: seq<Item>) {
    Distinct(items) && forall x :: x in items <==> IsModified(aBy, bBy, x) && x.key !in todo
  }

  lemma ModifiedStep(aBy: map<string, Dict>, bBy: map<string, Dict>, todo: set<string>, items: seq<Item>, k: string,
      cs: seq<Change>)
    requires k in todo && k in aBy && k in bBy && cs == FieldChanges(aBy[k], bBy[k])
    requires ModifiedOutside(aBy, bBy, todo, items)
    ensures ModifiedOutside(aBy, bBy, todo - {k}, if cs != [] then items + [Item(k, cs)] else items)
  {
    hide FieldChanges;
    assert IsModified(aBy, bBy, Item(k, cs)) <==> cs != [];
  }

  ghost predicate ReorderedOutside(aIndex: map<string, nat>, bIndex: map<string, nat>, ordered: bool,
      todo: set<string>, rs: seq<Reorder>)
  {
    Distinct(rs) && forall r :: r in rs <==> ordered && IsReorder(aIndex, bIndex, r) && r.key !in todo
  }

  lemma ReorderedStep(aIndex: map<string, nat>, bIndex: map<string, nat>, ordered: bool, todo: set<string>,
      rs: seq<Reorder>, k: string)
    requires k in todo && k in aIndex && k in bIndex
    requires ReorderedOutside(aIndex, bIndex, ordered, todo, rs)
    ensures ReorderedOutside(aIndex, bIndex, ordered, todo - {k},
                             if ordered && aIndex[k] != bIndex[k] then rs + [Reorder(k, aIndex[k], bIndex[k])] else rs)
  {}

  lemma CountStep(all: set<string>, todo: set<string>, changed: set<string>, k: string)
    requires k in todo && todo <= all
    ensures |all - (todo - {k}) - changed| == |all - todo - changed| + if k in changed then 0 else 1
  {
    var before, after := all - todo - changed, all - (todo - {k}) - changed;
    assert k !in before;
    if k in changed { assert after == before; } else { assert after == before + {k}; }
  }

  lemma PrefixedNone(cs: seq<Change>)
    ensures Prefixed([], cs) == cs
  {
    forall i | 0 <= i < |cs| ensures [] + cs[i].path == cs[i].path {}
  }

  /** `_diff_list` as the source runs it. Set iteration order is left open, and the
      result is still the one list diff. */
  method CompareLists(a: seq<Dict>, b: seq<Dict>, key: Key, ordered: bool) returns (d: SectionDiff)
    ensures d == DiffList(a, b, key, ordered)
  {
    var aBy, bBy := ByKey(a, key), ByKey(b, key);
    var aIndex, bIndex := IndexByKey(a, key), IndexByKey(b, key);
    ByKeyFiled(a, key);
    ByKeyFiled(b, key);
    SameTableKeys(a, key);
    SameTableKeys(b, key);
    var added := CollectSorted(bBy, bBy.Keys - aBy.Keys, key);
    var removed := CollectSorted(aBy, aBy.Keys - bBy.Keys, key);
    var modified, reordered, same := CompareCommon(aBy, bBy, aIndex, bIndex, ordered);
    SortModified(aBy, bBy, modified);
    SortReordered(a, b, key, ordered, reordered);
    d := SectionDiff(added, removed, SortBy(modified, ByItemKey), SortBy(reordered, ByNewIndex), same);
  }

  lemma SameTableKeys(rows: seq<Dict>, key: Key)
    ensures IndexByKey(rows, key).Keys == ByKey(rows, key).Keys
  {
    forall k ensures k in IndexByKey(rows, key) <==> k in ByKey(rows, key) { ByKeyIsLast(rows, key, k); }
  }

  predicate ByItemKey(x: Item, y: Item) { LexLess(x.key, y.key) }

  lemma ItemsAscending(aBy: map<string, Dict>, bBy: map<string, Dict>)
    ensures Ascending(DiffTables(aBy, bBy).modified, ByItemKey)
  {
    var changed := ModifiedKeys(aBy, bBy);
    KeysIn(changed);
    var keys, items := SortedKeys(changed), DiffTables(aBy, bBy).modified;
    assert forall i | 0 <= i < |items| :: items[i].key == keys[i];
  }

  lemma ItemsOrdered(aBy: map<string, Dict>, bBy: map<string, Dict>, s: set<Item>)
    requires forall x | x in s :: IsModified(aBy, bBy, x)
    ensures Orders(ByItemKey, s)
  {
    forall x, y { LexTotal(x, y); }
    forall x, y | x in s && y in s ensures x == y || ByItemKey(x, y) || ByItemKey(y, x) {
      assert x.key == y.key ==> x == y;
    }
    forall x, y, z | x in s && y in s && z in s && ByItemKey(x, y) && ByItemKey(y, z) ensures ByItemKey(x, z) {
      LexTransitive(x.key, y.key, z.key);
    }
  }

  lemma SortModified(aBy: map<string, Dict>, bBy: map<string, Dict>, modified: seq<Item>)
    requires ModifiedOutside(aBy, bBy, {}, modified)
    ensures SortBy(modified, ByItemKey) == DiffTables(aBy, bBy).modified
  {
    var goal := DiffTables(aBy, bBy).modified;
    forall x ensures x in Elements(goal) <==> x in Elements(modified) { ModifiedMember(aBy, bBy, x); }
    ItemsAscending(aBy, bBy);
    ItemsOrdered(aBy, bBy, Elements(modified));
    SortGives(modified, goal, ByItemKey);
  }

  lemma ReordersOrdered(a: seq<Dict>, b: seq<Dict>, key: Key, s: set<Reorder>)
    requires forall r | r in s :: IsReorder(IndexByKey(a, key), IndexByKey(b, key), r)
    ensures Orders(ByNewIndex, s)
  {
    IndexBounds(b, key);
    forall x, y | x in s && y in s && x.newIndex == y.newIndex ensures x == y {
      assert IsReorder(IndexByKey(a, key), IndexByKey(b, key), x);
      assert IsReorder(IndexByKey(a, key), IndexByKey(b, key), y);
      assert x.key in IndexByKey(b, key) && y.key in IndexByKey(b, key);
    }
  }

  lemma SortReordered(a: seq<Dict>, b: seq<Dict>, key: Key, ordered: bool, rs: seq<Reorder>)
    requires ReorderedOutside(IndexByKey(a, key), IndexByKey(b, key), ordered, {}, rs)
    ensures SortBy(rs, ByNewIndex) == DiffList(a, b, key, ordered).reordered
  {
    hide DiffTables;
    hide Reorders;
    hide IndexByKey;
    assert rs != [] ==> rs[0] in rs;
    if ordered {
      var goal := DiffList(a, b, key, true).reordered;
      forall r ensures r in Elements(goal) <==> r in Elements(rs) { ReorderedMember(a, b, key, r); }
      ReordersAscending(IndexByKey(a, key), IndexByKey(b, key), b, key, |b|);
      ReordersOrdered(a, b, key, Elements(rs));
      SortGives(rs, goal, ByNewIndex);
    }
  }
}
