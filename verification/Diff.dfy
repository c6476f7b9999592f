/** Plain JSON values as pydantic's model_dump produces them. */
module Json {
  datatype Json =
    | Null
    | Bool(b: bool)
    | Num(n: int)
    | Str(s: string)
    | Arr(items: seq<Json>)
    | Obj(fields: map<string, Json>)

  type Dict = map<string, Json>

  /** d.get(k): an absent key reads as None. */
  function Get(d: Dict, k: string): Json {
    if k in d then d[k] else Null
  }

  /** The value with None entries dropped at every dict level: what is left
      when a missing key and a None value count as the same thing. */
  function Norm(v: Json): Json {
    match v
    case Obj(m) => Obj(map k | k in m && m[k] != Null :: Norm(m[k]))
    case _ => v
  }
}

/** Field-by-field comparison of two dicts (`_field_changes`). */
module FieldDiff {
  import opened Json
  import opened Ordering

  /** One FieldChange; path holds the segments that the source joins with dots. */
  datatype Change = Change(path: seq<string>, before: Json, after: Json)

  function Prefixed(prefix: seq<string>, cs: seq<Change>): (r: seq<Change>)
    ensures |r| == |cs|
  {
    seq(|cs|, i requires 0 <= i < |cs| => cs[i].(path := prefix + cs[i].path))
  }

  function ChangesAt(a: Dict, b: Dict, k: string): seq<Change>
    decreases Obj(a), 0
  {
    var av, bv := Get(a, k), Get(b, k);
    if av == bv then []
    else if av.Obj? && bv.Obj? then Prefixed([k], FieldChanges(av.fields, bv.fields))
    else [Change([k], av, bv)]
  }

  function ChangesOver(a: Dict, b: Dict, keys: seq<string>): seq<Change>
    decreases Obj(a), 1, |keys|
  {
    if keys == [] then [] else ChangesAt(a, b, keys[0]) + ChangesOver(a, b, keys[1..])
  }

  /** `_field_changes`: the sorted union of the keys, nested dicts descended into. */
  function FieldChanges(a: Dict, b: Dict): seq<Change>
    decreases Obj(a), 2
  {
    ChangesOver(a, b, SortedKeys(a.Keys + b.Keys))
  }

  /** What one reported change means, read along its path. */
  ghost predicate IsChange(a: Dict, b: Dict, c: Change)
    decreases |c.path|
  {
    c.path != [] &&
    var av, bv := Get(a, c.path[0]), Get(b, c.path[0]);
    av != bv &&
    if |c.path| == 1 then !(av.Obj? && bv.Obj?) && c.before == av && c.after == bv
    else av.Obj? && bv.Obj? && IsChange(av.fields, bv.fields, c.(path := c.path[1..]))
  }

  lemma {:induction false} PrefixedMember(k: string, cs: seq<Change>, c: Change)
    ensures c in Prefixed([k], cs) <==> c.path != [] && c.path[0] == k && c.(path := c.path[1..]) in cs
  {
    var r := Prefixed([k], cs);
    if c in r {
      var i :| 0 <= i < |r| && r[i] == c;
      assert cs[i].path == c.path[1..];
      assert c.(path := c.path[1..]) == cs[i];
    }
    if c.path != [] && c.path[0] == k && c.(path := c.path[1..]) in cs {
      var i :| 0 <= i < |cs| && cs[i] == c.(path := c.path[1..]);
      assert r[i].path == c.path;
      assert r[i] == c;
    }
  }

  /** The list holds exactly the changes, each once. */
  lemma {:induction false} ChangesAtMember(a: Dict, b: Dict, k: string, c: Change)
    ensures c in ChangesAt(a, b, k) <==> c.path != [] && c.path[0] == k && IsChange(a, b, c)
    decreases Obj(a), 0
  {
    var av, bv := Get(a, k), Get(b, k);
    if av != bv && av.Obj? && bv.Obj? {
      PrefixedMember(k, FieldChanges(av.fields, bv.fields), c);
      if c.path != [] {
        FieldChangesMember(av.fields, bv.fields, c.(path := c.path[1..]));
        assert |c.path| == 1 ==> c.path[1..] == [];
      }
    } else if |c.path| == 1 && c.path[0] == k {
      assert c.path == [k];
    }
  }

  lemma {:induction false} ChangesOverMember(a: Dict, b: Dict, keys: seq<string>, c: Change)
    ensures c in ChangesOver(a, b, keys) <==> c.path != [] && c.path[0] in keys && IsChange(a, b, c)
    decreases Obj(a), 1, |keys|
  {
    if keys != [] {
      ChangesAtMember(a, b, keys[0], c);
      ChangesOverMember(a, b, keys[1..], c);
    }
  }

  lemma {:induction false} FieldChangesMember(a: Dict, b: Dict, c: Change)
    ensures c in FieldChanges(a, b) <==> IsChange(a, b, c)
    decreases Obj(a), 2
  {
    var keys := SortedKeys(a.Keys + b.Keys);
    ChangesOverMember(a, b, keys, c);
    if IsChange(a, b, c) {
      assert c.path[0] in Elements(keys);
    }
  }

  /** Equal up to a missing key against a None value, at dict levels. */
  ghost predicate Agree(a: Dict, b: Dict) {
    Norm(Obj(a)) == Norm(Obj(b))
  }

  ghost predicate AgreeAt(a: Dict, b: Dict, k: string) {
    Norm(Get(a, k)) == Norm(Get(b, k))
  }

  lemma AgreePointwise(a: Dict, b: Dict)
    ensures Agree(a, b) <==> forall k :: AgreeAt(a, b, k)
  {
    var na, nb := Norm(Obj(a)).fields, Norm(Obj(b)).fields;
    forall k
      ensures k in na <==> Get(a, k) != Null
      ensures k in nb <==> Get(b, k) != Null
      ensures k in na ==> na[k] == Norm(Get(a, k))
      ensures k in nb ==> nb[k] == Norm(Get(b, k)) {}
    if Agree(a, b) {
      forall k ensures AgreeAt(a, b, k) {
        assert k in na <==> k in nb;
      }
    }
    if forall k :: AgreeAt(a, b, k) {
      forall k ensures k in na <==> k in nb { assert AgreeAt(a, b, k); }
      forall k | k in na ensures na[k] == nb[k] { assert AgreeAt(a, b, k); }
      assert na == nb;
    }
  }

  ghost predicate Unchanged(a: Dict, b: Dict) { forall c :: !IsChange(a, b, c) }

  ghost predicate UnchangedAt(a: Dict, b: Dict, k: string) {
    forall c: Change | c.path != [] && c.path[0] == k :: !IsChange(a, b, c)
  }

  lemma {:induction false} UnchangedAtIffAgreeAt(a: Dict, b: Dict, k: string)
    ensures UnchangedAt(a, b, k) <==> AgreeAt(a, b, k)
    decreases Obj(a), 0
  {
    var av, bv := Get(a, k), Get(b, k);
    if av != bv && av.Obj? && bv.Obj? {
      UnchangedIffAgree(av.fields, bv.fields);
      assert av == Obj(av.fields) && bv == Obj(bv.fields);
      if c :| IsChange(av.fields, bv.fields, c) {
        var c' := c.(path := [k] + c.path);
        assert c'.(path := c'.path[1..]) == c && IsChange(a, b, c');
      }
      forall c: Change | c.path != [] && c.path[0] == k && IsChange(a, b, c)
        ensures IsChange(av.fields, bv.fields, c.(path := c.path[1..])) {}
    } else if av != bv {
      assert IsChange(a, b, Change([k], av, bv));
    }
  }

  lemma {:induction false} UnchangedIffAgree(a: Dict, b: Dict)
    ensures Unchanged(a, b) <==> Agree(a, b)
    decreases Obj(a), 1
  {
    AgreePointwise(a, b);
    forall k ensures UnchangedAt(a, b, k) <==> AgreeAt(a, b, k) { UnchangedAtIffAgreeAt(a, b, k); }
    if Agree(a, b) {
      forall c ensures !IsChange(a, b, c) {
        if c.path != [] { assert UnchangedAt(a, b, c.path[0]); }
      }
    } else {
      var k :| !AgreeAt(a, b, k);
      assert !UnchangedAt(a, b, k);
    }
  }

  /** An empty diff means, and is meant by, agreement. */
  lemma EmptyDiffIffAgree(a: Dict, b: Dict)
    ensures FieldChanges(a, b) == [] <==> Agree(a, b)
  {
    UnchangedIffAgree(a, b);
    var cs := FieldChanges(a, b);
    if cs != [] {
      FieldChangesMember(a, b, cs[0]);
    } else if c :| IsChange(a, b, c) {
      FieldChangesMember(a, b, c);
    }
  }

  ghost predicate IsPrefix(p: seq<string>, q: seq<string>) { |p| <= |q| && q[..|p|] == p }

  /** No reported path is a prefix of another, so the changes touch disjoint parts. */
  lemma {:induction false} PathsPrefixFree(a: Dict, b: Dict, c: Change, d: Change)
    requires IsChange(a, b, c) && IsChange(a, b, d) && IsPrefix(c.path, d.path)
    ensures c == d
    decreases |c.path|
  {
    assert d.path[0] == c.path[0];
    if |c.path| > 1 {
      var av, bv := Get(a, c.path[0]), Get(b, c.path[0]);
      var c', d' := c.(path := c.path[1..]), d.(path := d.path[1..]);
      assert d'.path[..|c'.path|] == d.path[1..|c.path|] == c'.path;
      PathsPrefixFree(av.fields, bv.fields, c', d');
      assert c.path == [c.path[0]] + c'.path && d.path == [d.path[0]] + d'.path;
    }
  }

  /** Write v at the end of the path, creating dicts on the way. */
  function SetPath(a: Dict, path: seq<string>, v: Json): Dict
    decreases |path|
  {
    if path == [] then a
    else if |path| == 1 then a[path[0] := v]
    else
      var sub := Get(a, path[0]);
      a[path[0] := Obj(SetPath(if sub.Obj? then sub.fields else map[], path[1..], v))]
  }

  function ApplyAfter(a: Dict, cs: seq<Change>): Dict
    decreases |cs|
  {
    if cs == [] then a else ApplyAfter(SetPath(a, cs[0].path, cs[0].after), cs[1..])
  }

  /** Applying one change removes that change from the diff and leaves the others as they were. */
  lemma {:induction false} ApplyOne(a: Dict, b: Dict, c: Change, d: Change)
    requires IsChange(a, b, c)
    ensures IsChange(SetPath(a, c.path, c.after), b, d) <==> IsChange(a, b, d) && d != c
    decreases |c.path|
  {
    var a' := SetPath(a, c.path, c.after);
    var k := c.path[0];
    if d.path != [] && d.path[0] == k {
      var av, bv := Get(a, k), Get(b, k);
      if |c.path| == 1 {
        if IsChange(a, b, d) && |d.path| == 1 { assert d.path == [k] == c.path; }
      } else if |d.path| > 1 {
        var c', d' := c.(path := c.path[1..]), d.(path := d.path[1..]);
        ApplyOne(av.fields, bv.fields, c', d');
        assert c.path == [k] + c'.path && d.path == [k] + d'.path;
        if d' == c' { assert d == c; }
        if Get(a', k) == bv {
          SelfHasNoChange(bv.fields, d');
        }
      }
    }
  }

  lemma {:induction false} SelfHasNoChange(a: Dict, c: Change)
    ensures !IsChange(a, a, c)
  {}

  /** Applying the after values, in any order, turns a into b. */
  lemma {:induction false} PatchInAnyOrder(a: Dict, b: Dict, cs: seq<Change>)
    requires Distinct(cs)
    requires forall c :: c in cs <==> IsChange(a, b, c)
    ensures Agree(ApplyAfter(a, cs), b)
    decreases |cs|
  {
    if cs == [] {
      UnchangedIffAgree(a, b);
    } else {
      var a' := SetPath(a, cs[0].path, cs[0].after);
      forall c ensures c in cs[1..] <==> IsChange(a', b, c) {
        ApplyOne(a, b, cs[0], c);
      }
      PatchInAnyOrder(a', b, cs[1..]);
    }
  }

  function Reversed(c: Change): Change { Change(c.path, c.after, c.before) }

  /** The diff the other way round is the same diff with before and after exchanged. */
  lemma {:induction false} ReversedChange(a: Dict, b: Dict, c: Change)
    ensures IsChange(a, b, c) <==> IsChange(b, a, Reversed(c))
    decreases |c.path|
  {
    if |c.path| > 1 {
      var av, bv := Get(a, c.path[0]), Get(b, c.path[0]);
      if av.Obj? && bv.Obj? {
        ReversedChange(av.fields, bv.fields, c.(path := c.path[1..]));
      }
    }
  }

  lemma {:induction false} ChangesAtDistinct(a: Dict, b: Dict, k: string)
    ensures Distinct(ChangesAt(a, b, k))
    decreases Obj(a), 0
  {
    var av, bv := Get(a, k), Get(b, k);
    if av != bv && av.Obj? && bv.Obj? {
      var inner := FieldChanges(av.fields, bv.fields);
      FieldChangesDistinct(av.fields, bv.fields);
      var outer := Prefixed([k], inner);
      forall i, j | 0 <= i < j < |outer| ensures outer[i] != outer[j] {
        assert inner[i] != inner[j];
        assert outer[i].path[1..] == inner[i].path && outer[j].path[1..] == inner[j].path;
      }
    }
  }

  lemma {:induction false} ChangesOverDistinct(a: Dict, b: Dict, keys: seq<string>)
    requires Distinct(keys)
    ensures Distinct(ChangesOver(a, b, keys))
    decreases Obj(a), 1, |keys|
  {
    if keys != [] {
      var head, tail := ChangesAt(a, b, keys[0]), ChangesOver(a, b, keys[1..]);
      ChangesAtDistinct(a, b, keys[0]);
      ChangesOverDistinct(a, b, keys[1..]);
      forall i, j | 0 <= i < |head| && 0 <= j < |tail| ensures head[i] != tail[j] {
        ChangesAtMember(a, b, keys[0], head[i]);
        ChangesOverMember(a, b, keys[1..], tail[j]);
      }
    }
  }

  lemma {:induction false} FieldChangesDistinct(a: Dict, b: Dict)
    ensures Distinct(FieldChanges(a, b))
    decreases Obj(a), 2
  {
    var keys := SortedKeys(a.Keys + b.Keys);
    LexOrders(Elements(keys));
    forall i, j | 0 <= i < j < |keys| ensures keys[i] != keys[j] {
      assert LexLess(keys[i], keys[j]) && keys[i] in Elements(keys);
    }
    ChangesOverDistinct(a, b, keys);
  }

  function AllReversed(cs: seq<Change>): seq<Change> {
    seq(|cs|, i requires 0 <= i < |cs| => Reversed(cs[i]))
  }

  /** The diff is an exact patch both ways: in any order, its after values turn a into b
      and its before values turn b into a. */
  lemma DiffIsExactPatch(a: Dict, b: Dict, cs: seq<Change>)
    requires Distinct(cs) && Elements(cs) == Elements(FieldChanges(a, b))
    ensures Agree(ApplyAfter(a, cs), b)
    ensures Agree(ApplyAfter(b, AllReversed(cs)), a)
  {
    forall c ensures c in cs <==> IsChange(a, b, c) {
      FieldChangesMember(a, b, c);
      assert c in cs <==> c in Elements(cs);
      assert c in FieldChanges(a, b) <==> c in Elements(FieldChanges(a, b));
    }
    PatchInAnyOrder(a, b, cs);
    var rs := AllReversed(cs);
    forall c ensures c in rs <==> IsChange(b, a, c) {
      ReversedChange(a, b, Reversed(c));
      assert Reversed(Reversed(c)) == c;
      if c in rs {
        var i :| 0 <= i < |rs| && rs[i] == c;
        assert Reversed(c) == cs[i];
      }
      if Reversed(c) in cs {
        var i :| 0 <= i < |cs| && cs[i] == Reversed(c);
        assert rs[i] == c;
      }
    }
    forall i, j | 0 <= i < j < |rs| ensures rs[i] != rs[j] {
      assert Reversed(rs[i]) == cs[i] && Reversed(rs[j]) == cs[j];
    }
    PatchInAnyOrder(b, a, rs);
  }

  /** The recursive comparison as the source runs it: one loop over the sorted key
      union per dict level, appending to one list. */
  method CompareFields(a: Dict, b: Dict, prefix: seq<string>) returns (out: seq<Change>)
    ensures out == Prefixed(prefix, FieldChanges(a, b))
    decreases Obj(a), 1
  {
    var keys := SortSet(a.Keys + b.Keys);
    out := [];
    assert keys[..0] == [];
    for i := 0 to |keys|
      invariant out == Prefixed(prefix, ChangesOver(a, b, keys[..i]))
    {
      var part := CompareAt(a, b, keys[i], prefix);
      PrefixedStep(a, b, keys, i, prefix);
      out := out + part;
    }
    assert keys[..|keys|] == keys;
  }

  lemma PrefixedStep(a: Dict, b: Dict, keys: seq<string>, i: nat, prefix: seq<string>)
    requires i < |keys|
    ensures Prefixed(prefix, ChangesOver(a, b, keys[..i])) + Prefixed(prefix, ChangesAt(a, b, keys[i]))
            == Prefixed(prefix, ChangesOver(a, b, keys[..i + 1]))
  {
    hide Prefixed;
    hide ChangesOver;
    hide ChangesAt;
    ChangesOverSnoc(a, b, keys[..i], keys[i]);
    PrefixedConcat(prefix, ChangesOver(a, b, keys[..i]), ChangesAt(a, b, keys[i]));
    assert keys[..i + 1] == keys[..i] + [keys[i]];
  }

  method CompareAt(a: Dict, b: Dict, k: string, prefix: seq<string>) returns (out: seq<Change>)
    ensures out == Prefixed(prefix, ChangesAt(a, b, k))
    decreases Obj(a), 0
  {
    var av, bv := Get(a, k), Get(b, k);
    if av == bv {
      out := [];
    } else if av.Obj? && bv.Obj? {
      out := CompareFields(av.fields, bv.fields, prefix + [k]);
      PrefixedNested(prefix, k, FieldChanges(av.fields, bv.fields));
    } else {
      out := [Change(prefix + [k], av, bv)];
    }
  }

  lemma PrefixedConcat(prefix: seq<string>, cs: seq<Change>, ds: seq<Change>)
    ensures Prefixed(prefix, cs + ds) == Prefixed(prefix, cs) + Prefixed(prefix, ds)
  {}

  lemma PrefixedNested(prefix: seq<string>, k: string, cs: seq<Change>)
    ensures Prefixed(prefix, Prefixed([k], cs)) == Prefixed(prefix + [k], cs)
  {
    forall i | 0 <= i < |cs| ensures prefix + ([k] + cs[i].path) == prefix + [k] + cs[i].path {}
  }

  lemma {:induction false} ChangesOverSnoc(a: Dict, b: Dict, keys: seq<string>, k: string)
    ensures ChangesOver(a, b, keys + [k]) == ChangesOver(a, b, keys) + ChangesAt(a, b, k)
  {
    hide ChangesAt;
    if keys == [] {
      assert [k][1..] == [] && [] + [k] == [k];
    } else {
      ChangesOverSnoc(a, b, keys[1..], k);
      assert (keys + [k])[1..] == keys[1..] + [k];
    }
  }

  /** sorted() over a set, whatever order the set is walked in. */
  method SortSet(s: set<string>) returns (r: seq<string>)
    ensures r == SortedKeys(s)
  {
    var todo := s;
    var list: seq<string> := [];
    while todo != {}
      invariant Distinct(list) && todo <= s && Elements(list) == s - todo
      decreases todo
    {
      var k :| k in todo;
      assert k !in Elements(list);
      ElementsSnoc(list, k);
      list, todo := list + [k], todo - {k};
    }
    LexOrders(s);
    SortByAscending(list, LexLess);
    r := SortBy(list, LexLess);
    AscendingUnique(r, SortedKeys(s), LexLess);
  }
}
